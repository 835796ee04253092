# Directory resolution engine of the spam-checker service, in Dafny

This project models the decision logic of a phone-directory service. Users
register and keep address books ("contacts"), anyone can flag a phone number as
spam, and anyone can search the combined directory or look up the detail of
one number. The store is an immutable pair of tables, `users: seq<User>` and
`contacts: seq<Contact>`, in iteration order, with the constraints the schema
places on them. Over that store sit:

- the **spam resolver**: the derived, directory-wide spam status of a number
  (`Spam.CheckSpam`) and the bulk update that flags every row with a number,
  whoever owns it (`Spam.MarkSpam`);
- the **search**: parameter validation, candidate selection (case-insensitive
  substring on names, exact match on numbers), the asymmetric projection (user
  rows carry the derived spam status, contact rows their own flag) and the
  stable descending sort on the key `(name.startswith(query), query in name)`
  (`Searching.Search`, `Ranking.RankSort`);
- the **detail lookup**: a registered user with the number wins; otherwise
  every contact row with the number across all owners; otherwise `NotFound`
  (`Details.DetailLookup`), with the serializers' exact field sets
  (`Serializers`).

Modules: `Outcomes` (option, result, error kinds), `Sequences` (order-keeping
filter and map), `Text` (`startswith`, `in`, ASCII `icontains`), `Models`,
`Spam`, `Ranking`, `Searching`, `Serializers`, `Details`.

Python's sort with `reverse=True` is stable, and a name that starts with the
query also contains it, so the key takes three values. The model therefore
defines the sort as the rank-2 rows, then the rank-1 rows, then the rank-0
rows, each group in input order. It proves this sorted, a permutation and
stable, and proves that it is the only sequence with those three properties.

Two behaviours of the code are modelled as written, although they are easy to
misread:

- The ranking is case-sensitive while the filter is not. Searching "Ali" by
  name finds "Balice" (it holds "ali"). But `"Ali" in "Balice"` is false, so
  "Balice" ranks 0, not 1 (`Searching.AliceRanksBeforeBalice`).
- The detail view's documentation (contacts/views.py:287-288) says a user's
  email is shown only when the searcher is in that person's contact list. The
  serializer (contacts/serializers.py:30-34) only checks that the request's
  user is authenticated. The model follows the serializer
  (`Serializers.DisclosedEmail`); it does not assert the documented rule.
- The spam check's documentation (contacts/views.py:146) promises a "not
  found" answer for a number no contact carries. The code
  (contacts/views.py:161-162) answers `is_spam` false instead, with no error.
  The model follows the code: `Spam.CheckSpam` is total and false for such a
  number.

## Model

| member | source | states |
|---|---|---|
| `Models.OwnerOf` | contacts/models.py:26 | when user keys are unique and every owner exists, as the database enforces, every contact's owner is a user of the store and exactly one user has that key; column widths are not needed |
| `Models.AddContact` | contacts/models.py:26-32 | the serializer's char fields (contacts/serializers.py:14-17) trim surrounding white space and refuse blank values. Inserting a contact fails with `InvalidArgument` exactly when the trimmed name is empty or longer than 255 characters or the trimmed number is empty or longer than 15, then with `NotFound` exactly when the owner is not a user (a branch the view never reaches, see Left out), then with `Conflict` exactly when the owner already holds the trimmed number. Otherwise the row is appended with the trimmed values, users and earlier rows unchanged, and `is_spam` false unless set explicitly |
| `Models.AddContactRefusesBlank` | contacts/serializers.py:14-17 | a corollary of `Models.AddContact`: a name or number that is empty or white space only is refused with `InvalidArgument`, whatever the store holds |
| `Text.Trim` | contacts/serializers.py:14-17 | trimming removes white space at both ends and nothing else: the result is a contiguous part of the input, everything before and after it is white space, it neither starts nor ends with white space, and it is empty exactly when the input is all white space |
| `Models.AddContactKeepsValid` | contacts/models.py:12-32 | an accepted insertion keeps unique user keys, names and numbers, unique (owner, number) pairs, existing owners and column widths |
| `Spam.CheckSpam` | contacts/views.py:161 | a number is spam exactly when some contact row, under any owner, has that number and is flagged. A number no contact carries is not spam |
| `Spam.SetSpam` | contacts/views.py:129 | the bulk update keeps length and order, changes no field but the flag, and leaves a row flagged exactly when it was flagged already or carries the number |
| `Spam.MarkSpam` | contacts/views.py:126-131 | fails with `NotFound` exactly when no contact carries the number. On success, every row with the number is flagged whatever its owner, every other row and every user stays the same, and the contact table keeps its length and order |
| `Spam.MarkSpamThenCheckSpam` | contacts/views.py:129 | after a successful mark the number reads as spam |
| `Spam.MarkSpamKeepsOtherNumbers` | contacts/views.py:127-129 | marking one number leaves the spam status of every other number unchanged |
| `Spam.MarkSpamIdempotent` | contacts/views.py:129 | marking the same number twice gives the same store as marking it once |
| `Spam.MarkSpamKeepsValid` | contacts/views.py:129 | marking keeps the uniqueness and foreign-key constraints and the column widths of the store |
| `Text.ContainsIffOccurs` | contacts/views.py:265 | the recursive `query in name` holds exactly when some suffix of the name starts with the query |
| `Ranking.Rank` | contacts/views.py:265 | the rank is 2 exactly when the name starts with the query, at least 1 exactly when the query occurs in the name, and never above 2 |
| `Text.ContainsImpliesIContains` | contacts/views.py:194-195 | a case-sensitive occurrence is also a case-insensitive one |
| `Ranking.RankAgreesWithKey` | contacts/views.py:265 | the three-level rank orders rows exactly as Python's tuple key `(startswith, in)` does: below iff lower rank, tied iff equal rank |
| `Ranking.RankSort` | contacts/views.py:265 | the sort returns a permutation of its input, with ranks never increasing, and for every rank the rows of that rank are exactly the input's, in input order (stability) |
| `Ranking.StableRankSortUnique` | contacts/views.py:265 | any sequence that is sorted by rank and keeps each rank's rows in input order equals the sort's output |
| `Ranking.StartersComeFirst` | contacts/views.py:265 | in a rank-sorted sequence, a row whose name starts with the query comes before every row whose name does not |
| `Ranking.RankSortKeepsTies` | contacts/views.py:265 | when all rows share one rank the sort returns them unchanged |
| `Searching.ParseField` | contacts/views.py:187-200 | an absent `search_by` means name; `"name"` and `"phone"` are accepted; any other value fails with `InvalidArgument` |
| `Searching.MatchByMeans` | contacts/views.py:193-198 | the matching rule: by phone, exactly when the number equals the query; by name, exactly when the lower-cased query occurs somewhere in the lower-cased name, so every case-sensitive occurrence matches |
| `Searching.UserMatchesMeans` | contacts/views.py:193-198 | a user matches by that rule on its user name and number |
| `Searching.ContactMatchesMeans` | contacts/views.py:193-198 | a contact matches by that rule on its name and number, whoever its owner |
| `Searching.UserRow` | contacts/views.py:223-229 | a user's row carries its name and number and the derived spam status of that number, not a stored flag |
| `Searching.ContactRow` | contacts/views.py:244-250 | a contact's row carries its name, number and its own stored flag |
| `Searching.Candidates` | contacts/views.py:202-205 | the candidate list holds the user rows, in order, followed by the contact rows, in order, with nothing dropped or merged |
| `Searching.Search` | contacts/views.py:187-208 | fails with `InvalidArgument` exactly when the query is missing or empty or `search_by` is neither name nor phone. Otherwise it returns as many rows as there are matching users plus matching contacts |
| `Searching.SearchRanksCandidates` | contacts/views.py:202-206 | the answer is a permutation of the user rows followed by the contact rows, with no deduplication. Ranks never increase, and rows of equal rank keep their users-then-contacts order |
| `Searching.SearchMembership` | contacts/views.py:193-251 | a row is in the answer exactly when it is the row of a matching user (derived spam status) or of a matching contact of any owner (its own flag) |
| `Searching.NameSearchFindsExactOccurrence` | contacts/views.py:194 | a search by name always returns a user whose name holds the query as typed |
| `Searching.PhoneSearchKeepsTableOrder` | contacts/views.py:196-206 | a search by phone is ranked on names too. When no matching name holds the number, the answer is the users-then-contacts table order |
| `Searching.PhoneSearchRanksOnName` | contacts/views.py:196-206 | in any search by phone, the row of a contact with that number whose name starts with the number comes before the row of a user with that number whose name does not, although users precede contacts in the candidate list |
| `Searching.PhoneSearchLandlordExample` | contacts/views.py:196-206 | a concrete store where a contact named after the number is listed first, ahead of the registered user with that number |
| `Searching.AliceRanksBeforeBalice` | contacts/views.py:193-206 | "Alice" and "Balice" both match "Ali" by name; "Alice" starts with it and comes first |
| `Searching.SearchDefaultsToName` | contacts/views.py:187 | leaving out `search_by` gives the same answer as `search_by=name` |
| `Serializers.RegisteredUser` | contacts/serializers.py:7-8 | the registration answer has exactly the fields id, username, phone_number and email, and never the password |
| `Serializers.DisclosedEmail` | contacts/serializers.py:30-34 | the email is the stored address, possibly null, when a request with an authenticated user is present. Otherwise it is null |
| `Serializers.UserDetail` | contacts/serializers.py:19-28 | a user's detail has exactly username, phone_number, email and is_spam. is_spam is the derived status of the number over all contact rows |
| `Serializers.ContactDetail` | contacts/serializers.py:36-44 | a contact's detail has exactly name, phone_number and is_spam. is_spam is that row's own flag |
| `Details.FindUserByPhone` | contacts/views.py:295 | returns a user with the number when there is one, and nothing exactly when no user has it |
| `Details.ContactsWithNumber` | contacts/views.py:299 | the selected rows are exactly the contact rows with the number, of any owner, and the selection is empty exactly when no contact carries the number |
| `Details.DetailLookup` | contacts/views.py:294-303 | fails with `NotFound` exactly when neither a user nor a contact has the number. It answers with a user detail exactly when a user has the number. Otherwise it lists one detail per contact row with the number, in table order |
| `Details.DetailPrefersUser` | contacts/views.py:294-297 | when user numbers are unique, as the database enforces, the detail of the user with the number is the answer even when contacts carry the number; column widths are not needed. An authenticated requester sees the email |
| `Details.DetailListsContacts` | contacts/views.py:298-303 | with no user on the number, the answer is exactly the contact rows with that number across all owners, each with its own flag, or `NotFound` when there are none. Each such row is listed as many times as the table holds it, and no other row is listed |
| `Details.SharedNumberExample` | contacts/views.py:298-302 | two owners hold one number, one flagged and one not: the number is spam, and the detail lists both rows with their own flags |

## Left out

- Registration and login (contacts/views.py:9-63): password hashing, credential checks and sessions are framework calls. Only the registration answer's field set is modelled.
- The contact list and create view (contacts/views.py:66-107): plain per-owner data access. `Models.AddContact` models the schema's constraints on a new row; the view stamps the requester as owner.
- HTTP plumbing: responses, status codes, permission classes and routing (contacts/urls.py). Errors are the `Outcomes.Error` values. Authentication is a `Request` flag passed to the serializers.
- The fixture generator populate_data.py: random data.
- Unicode case folding: `icontains` is modelled as ASCII lower-casing on both sides, and it is used only to select candidates.
- Details.FindUserByPhone: the ORM's `get` raises when several users match. The model returns the first match instead. User phone numbers are unique in the database, so this cannot happen (`Details.DetailPrefersUser`).
- Spam.MarkSpam: on `NotFound` no new store is returned; the caller keeps the old one, which is the "store unchanged" outcome.
- The documented contact-list condition on email disclosure (contacts/views.py:287-288) is not modelled, because the code does not enforce it.
- Table order: the source fixes none (no `order_by`, no `Meta.ordering`). The model assumes the database returns each table in one stable order and that every filter keeps it. The ties of the stable sort and the contact list of a detail are stated in that order.
- Text.Trim: only ASCII white space (space, tab, line breaks, and code points 28-31) is removed. Python's `str.strip()` also removes other Unicode white space, such as U+0085 and U+00A0.
- Models.AddContact: only ASCII white space (space, tab, line breaks, and code points 28-31) is trimmed. The framework also trims other Unicode white space and refuses null characters; neither is modelled.
- Models.AddContact: its `NotFound` branch for an owner who is not a user is unreachable from the view, which always stamps the authenticated requester as owner (contacts/views.py:107). An unknown owner would be a foreign-key error of the database, not a 404 answer. The branch models the foreign key of contacts/models.py:26.
- Atomicity and concurrency of the bulk update: these belong to the database.
- Length limits the framework's user model imposes on user names: they are not declared in contacts/models.py.
