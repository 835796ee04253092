/** The search view: validate the query parameters, pick matching users and
    contacts, project each into a result row, and order the rows by rank. */
module Searching {
  import opened Outcomes
  import opened Sequences
  import opened Text
  import opened Models
  import opened Spam
  import opened Ranking

  /** The two fields a search may be run on. */
  datatype Field = ByName | ByPhone

  /** The `search_by` parameter: absent means by name; `"name"` and `"phone"`
      are accepted; anything else, the empty string included, is refused. */
  function ParseField(searchBy: Option<string>): (r: Result<Field>)
    ensures r == Ok(ByName) <==> searchBy == None || searchBy == Some("name")
    ensures r == Ok(ByPhone) <==> searchBy == Some("phone")
    ensures r.Err? ==> r.error == InvalidArgument
  {
    match searchBy.GetOr("name")
    case "name" => Ok(ByName)
    case "phone" => Ok(ByPhone)
    case _ => Err(InvalidArgument)
  }

  /** The shared matching rule: by name, the name holds the query ignoring
      case; by phone, the number equals the query. */
  predicate MatchBy(field: Field, query: string, name: string, phone: string) {
    match field
    case ByName => IContains(name, query)
    case ByPhone => phone == query
  }

  /** A user is a candidate when its user name contains the query ignoring
      case, or when its phone number equals the query. */
  predicate UserMatches(field: Field, query: string, u: User) {
    MatchBy(field, query, u.username, u.phoneNumber)
  }

  /** A contact is a candidate when its name contains the query ignoring case,
      or when its phone number equals the query; its owner plays no part. */
  predicate ContactMatches(field: Field, query: string, c: Contact) {
    MatchBy(field, query, c.name, c.phoneNumber)
  }

  /** What the matching rule means: by phone, equality of numbers; by name,
      an occurrence of the lower-cased query somewhere in the lower-cased
      name, which every case-sensitive occurrence is. */
  lemma MatchByMeans(field: Field, query: string, name: string, phone: string)
    ensures field == ByPhone ==> (MatchBy(field, query, name, phone) <==> phone == query)
    ensures field == ByName ==> (MatchBy(field, query, name, phone) <==>
      exists i :: 0 <= i <= |name| && StartsWith(Lower(name)[i..], Lower(query)))
    ensures field == ByName && Contains(name, query) ==> MatchBy(field, query, name, phone)
  {
    ContainsIffOccurs(Lower(name), Lower(query));
    if Contains(name, query) {
      ContainsImpliesIContains(name, query);
    }
  }

  /** `MatchByMeans` for a user: its user name and number are matched. */
  lemma UserMatchesMeans(field: Field, query: string, u: User)
    ensures field == ByPhone ==> (UserMatches(field, query, u) <==> u.phoneNumber == query)
    ensures field == ByName ==> (UserMatches(field, query, u) <==>
      exists i :: 0 <= i <= |u.username| && StartsWith(Lower(u.username)[i..], Lower(query)))
    ensures field == ByName && Contains(u.username, query) ==> UserMatches(field, query, u)
  {
    MatchByMeans(field, query, u.username, u.phoneNumber);
  }

  /** `MatchByMeans` for a contact: its name and number are matched. */
  lemma ContactMatchesMeans(field: Field, query: string, c: Contact)
    ensures field == ByPhone ==> (ContactMatches(field, query, c) <==> c.phoneNumber == query)
    ensures field == ByName ==> (ContactMatches(field, query, c) <==>
      exists i :: 0 <= i <= |c.name| && StartsWith(Lower(c.name)[i..], Lower(query)))
    ensures field == ByName && Contains(c.name, query) ==> ContactMatches(field, query, c)
  {
    MatchByMeans(field, query, c.name, c.phoneNumber);
  }

  /** `UserMatches` as a value the filter can take. */
  function UserTest(field: Field, query: string): User -> bool {
    (u: User) => UserMatches(field, query, u)
  }

  /** `ContactMatches` as a value the filter can take. */
  function ContactTest(field: Field, query: string): Contact -> bool {
    (c: Contact) => ContactMatches(field, query, c)
  }

  /** A user's row carries the derived spam status of its number: flagged
      when any contact of any owner with that number is flagged. */
  function UserRow(contacts: seq<Contact>, u: User): (r: Row)
    ensures r.name == u.username && r.phoneNumber == u.phoneNumber
    ensures r.isSpam <==> exists c :: c in contacts && c.phoneNumber == u.phoneNumber && c.isSpam
  {
    Row(u.username, u.phoneNumber, CheckSpam(contacts, u.phoneNumber))
  }

  /** A contact's row carries that row's own stored flag, not the derived
      status of its number. */
  function ContactRow(c: Contact): (r: Row)
    ensures r.name == c.name && r.phoneNumber == c.phoneNumber
    ensures r.isSpam == c.isSpam
  {
    Row(c.name, c.phoneNumber, c.isSpam)
  }

  /** The matching users, in table order. */
  function MatchedUsers(s: Store, field: Field, query: string): seq<User> {
    Filter(UserTest(field, query), s.users)
  }

  /** The matching contacts of every owner, in table order. */
  function MatchedContacts(s: Store, field: Field, query: string): seq<Contact> {
    Filter(ContactTest(field, query), s.contacts)
  }

  /** User rows followed by contact rows, before ranking; nothing is merged:
      one row per matching user, in table order, then one per matching
      contact, in table order. */
  function Candidates(s: Store, field: Field, query: string): (r: seq<Row>)
    ensures var us, cs := MatchedUsers(s, field, query), MatchedContacts(s, field, query);
      && |r| == |us| + |cs|
      && (forall i :: 0 <= i < |us| ==> r[i] == UserRow(s.contacts, us[i]))
      && (forall j :: 0 <= j < |cs| ==> r[|us| + j] == ContactRow(cs[j]))
  {
    MapSeq((u: User) => UserRow(s.contacts, u), MatchedUsers(s, field, query))
      + MapSeq(ContactRow, MatchedContacts(s, field, query))
  }

  /** The search. A missing or empty query is refused, then an unknown
      `search_by`; both with `InvalidArgument`. Otherwise the answer holds one
      row per matching user and one per matching contact, ranked by name
      against the query whichever field was searched. */
  function Search(s: Store, searchBy: Option<string>, query: Option<string>): (r: Result<seq<Row>>)
    ensures r.Err? <==>
      || query == None || query == Some("")
      || (searchBy.Some? && searchBy.value != "name" && searchBy.value != "phone")
    ensures r.Err? ==> r.error == InvalidArgument
    ensures r.Ok? ==> var field := if searchBy == Some("phone") then ByPhone else ByName;
      |r.value| == |MatchedUsers(s, field, query.value)| + |MatchedContacts(s, field, query.value)|
  {
    if query == None || query == Some("") then Err(InvalidArgument)
    else
      match ParseField(searchBy)
      case Err(e) => Err(e)
      case Ok(field) => Ok(RankSort(Candidates(s, field, query.value), query.value))
  }

  /** A successful search is the stable rank sort of the user rows followed by
      the contact rows: the same rows with the same multiplicities, ranks
      never increasing, and rows of equal rank in candidate order. */
  lemma SearchRanksCandidates(s: Store, searchBy: Option<string>, query: Option<string>)
    requires Search(s, searchBy, query).Ok?
    ensures var field := if searchBy == Some("phone") then ByPhone else ByName;
      var r := Search(s, searchBy, query).value;
      var c := Candidates(s, field, query.value);
      && multiset(r) == multiset(c)
      && SortedByRank(r, query.value)
      && forall k: nat :: Bucket(r, query.value, k) == Bucket(c, query.value, k)
  {
  }

  /** The rows of a successful search are exactly the projections of the
      matching users and of the matching contacts. */
  lemma SearchMembership(s: Store, searchBy: Option<string>, query: Option<string>, row: Row)
    requires Search(s, searchBy, query).Ok?
    ensures var field := if searchBy == Some("phone") then ByPhone else ByName;
      row in Search(s, searchBy, query).value <==>
        || (exists u :: u in s.users && UserMatches(field, query.value, u) && row == UserRow(s.contacts, u))
        || (exists c :: c in s.contacts && ContactMatches(field, query.value, c) && row == ContactRow(c))
  {
    var field := if searchBy == Some("phone") then ByPhone else ByName;
    var q := query.value;
    var ur := MapSeq((u: User) => UserRow(s.contacts, u), MatchedUsers(s, field, q));
    var cr := MapSeq(ContactRow, MatchedContacts(s, field, q));
    var r := Search(s, searchBy, query).value;
    assert multiset(r) == multiset(ur + cr);
    assert row in r <==> row in ur + cr;
    MapSeqMembership((u: User) => UserRow(s.contacts, u), MatchedUsers(s, field, q), row);
    MapSeqMembership(ContactRow, MatchedContacts(s, field, q), row);
  }

  /** A search by name finds every user whose name holds the query exactly
      as typed: such a name also holds it ignoring case. */
  lemma NameSearchFindsExactOccurrence(s: Store, query: string, u: User)
    requires query != ""
    requires u in s.users && Contains(u.username, query)
    ensures UserRow(s.contacts, u) in Search(s, Some("name"), Some(query)).value
  {
    ContainsImpliesIContains(u.username, query);
    SearchMembership(s, Some("name"), Some(query), UserRow(s.contacts, u));
  }

  /** A search by phone is still ranked on names: when no matching name
      holds the number, every row ties and the answer keeps the users-then-
      contacts table order. */
  lemma PhoneSearchKeepsTableOrder(s: Store, query: string)
    requires query != ""
    requires forall u :: u in s.users && u.phoneNumber == query ==> !Contains(u.username, query)
    requires forall c :: c in s.contacts && c.phoneNumber == query ==> !Contains(c.name, query)
    ensures Search(s, Some("phone"), Some(query)) == Ok(Candidates(s, ByPhone, query))
  {
    var rows := Candidates(s, ByPhone, query);
    forall row | row in rows
      ensures Rank(row.name, query) == 0
    {
      var ur := MapSeq((u: User) => UserRow(s.contacts, u), MatchedUsers(s, ByPhone, query));
      var cr := MapSeq(ContactRow, MatchedContacts(s, ByPhone, query));
      assert row in ur || row in cr;
      MapSeqMembership((u: User) => UserRow(s.contacts, u), MatchedUsers(s, ByPhone, query), row);
      MapSeqMembership(ContactRow, MatchedContacts(s, ByPhone, query), row);
    }
    RankSortKeepsTies(rows, query, 0);
  }

  /** A search by phone is ranked on names: a matching contact whose name
      starts with the number comes before a matching user whose name does
      not, although user rows are listed before contact rows. */
  lemma PhoneSearchRanksOnName(s: Store, query: string, c: Contact, u: User, i: nat, j: nat)
    requires query != ""
    requires c in s.contacts && c.phoneNumber == query && StartsWith(c.name, query)
    requires u in s.users && u.phoneNumber == query && !StartsWith(u.username, query)
    requires var r := Search(s, Some("phone"), Some(query)).value;
      i < |r| && j < |r| && r[i] == ContactRow(c) && r[j] == UserRow(s.contacts, u)
    ensures i < j
  {
    SearchRanksCandidates(s, Some("phone"), Some(query));
    StartersComeFirst(Search(s, Some("phone"), Some(query)).value, query, i, j);
  }

  /** Searching by phone for "555" with a user "ann" and a contact named
      "555 landlord", both on that number: the contact's name starts with the
      query, so it comes before the user although users are listed first. */
  lemma PhoneSearchLandlordExample()
    ensures var s := Store([User(1, "ann", "", "555", None)], [Contact(1, "555 landlord", "555", false)]);
      Search(s, Some("phone"), Some("555")) == Ok([Row("555 landlord", "555", false), Row("ann", "555", false)])
  {
    var s := Store([User(1, "ann", "", "555", None)], [Contact(1, "555 landlord", "555", false)]);
    var rows := [Row("ann", "555", false), Row("555 landlord", "555", false)];
    LandlordCandidates();
    LandlordSorted();
    assert ParseField(Some("phone")) == Ok(ByPhone);
    assert Search(s, Some("phone"), Some("555")) == Ok(RankSort(Candidates(s, ByPhone, "555"), "555"));
    assert RankSort(Candidates(s, ByPhone, "555"), "555") == RankSort(rows, "555");
  }

  /** The ranking step of `PhoneSearchLandlordExample`. */
  lemma LandlordSorted()
    ensures var rows := [Row("ann", "555", false), Row("555 landlord", "555", false)];
      RankSort(rows, "555") == [rows[1], rows[0]]
  {
    var rows := [Row("ann", "555", false), Row("555 landlord", "555", false)];
    LandlordRanks();
    assert rows[1..] == [rows[1]];
    assert [rows[1]][1..] == [];
    assert Bucket(rows, "555", 2) == [rows[1]];
    assert Bucket(rows, "555", 1) == [];
    assert Bucket(rows, "555", 0) == [rows[0]];
    assert Buckets(rows, "555") == [rows[1], rows[0]];
  }

  /** The candidate rows of `PhoneSearchLandlordExample`, before ranking. */
  lemma LandlordCandidates()
    ensures var s := Store([User(1, "ann", "", "555", None)], [Contact(1, "555 landlord", "555", false)]);
      Candidates(s, ByPhone, "555") == [Row("ann", "555", false), Row("555 landlord", "555", false)]
  {
    var ann := User(1, "ann", "", "555", None);
    var landlord := Contact(1, "555 landlord", "555", false);
    var s := Store([ann], [landlord]);
    assert [ann][1..] == [];
    assert [landlord][1..] == [];
    assert MatchedUsers(s, ByPhone, "555") == [ann];
    assert MatchedContacts(s, ByPhone, "555") == [landlord];
    assert !CheckSpam([landlord], "555");
    assert UserRow(s.contacts, ann) == Row("ann", "555", false);
    assert MapSeq((u: User) => UserRow(s.contacts, u), [ann]) == [Row("ann", "555", false)];
    assert MapSeq(ContactRow, [landlord]) == [Row("555 landlord", "555", false)];
  }

  /** The ranks of the two names in `PhoneSearchLandlordExample`. */
  lemma LandlordRanks()
    ensures Rank("555 landlord", "555") == 2 && Rank("ann", "555") == 0
  {
    assert StartsWith("555 landlord", "555");
    assert "ann"[..3][0] == 'a';
    assert "ann"[1..] == "nn" && "nn"[1..] == "n" && "n"[1..] == "";
    assert !Contains("ann", "555");
  }

  /** Leaving out `search_by` is the same as asking for a search by name. */
  lemma SearchDefaultsToName(s: Store, query: Option<string>)
    ensures Search(s, None, query) == Search(s, Some("name"), query)
  {
  }

  /** Two users, "Alice" and "Balice", searched by name with "Ali": both
      match ignoring case, but only "Alice" holds "Ali" case-sensitively
      (it starts with it), so it ranks first and "Balice" ranks last. */
  lemma AliceRanksBeforeBalice()
    ensures var s := Store([User(1, "Alice", "", "+1", None), User(2, "Balice", "", "+2", None)], []);
      Search(s, Some("name"), Some("Ali")) == Ok([Row("Alice", "+1", false), Row("Balice", "+2", false)])
  {
    var s := Store([User(1, "Alice", "", "+1", None), User(2, "Balice", "", "+2", None)], []);
    var rows := [Row("Alice", "+1", false), Row("Balice", "+2", false)];
    AliceCandidates();
    AliceRanks();
    assert rows[1..] == [rows[1]];
    assert [rows[1]][1..] == [];
    assert Bucket([rows[1]], "Ali", 0) == [rows[1]];
    assert Bucket(rows, "Ali", 2) == [rows[0]];
    assert Bucket(rows, "Ali", 1) == [];
    assert Bucket(rows, "Ali", 0) == [rows[1]];
    assert Buckets(rows, "Ali") == rows;
    assert ParseField(Some("name")) == Ok(ByName);
    assert Search(s, Some("name"), Some("Ali")) == Ok(RankSort(rows, "Ali"));
  }

  /** The candidate rows of `AliceRanksBeforeBalice`, before ranking. */
  lemma AliceCandidates()
    ensures var s := Store([User(1, "Alice", "", "+1", None), User(2, "Balice", "", "+2", None)], []);
      Candidates(s, ByName, "Ali") == [Row("Alice", "+1", false), Row("Balice", "+2", false)]
  {
    var alice, balice := User(1, "Alice", "", "+1", None), User(2, "Balice", "", "+2", None);
    var s := Store([alice, balice], []);
    assert Lower("Ali") == "ali";
    assert Lower("Alice") == "alice";
    assert StartsWith("alice", "ali");
    assert Lower("Balice") == "balice";
    assert "balice"[1..] == "alice";
    assert IContains("Balice", "Ali");
    assert UserMatches(ByName, "Ali", alice) && UserMatches(ByName, "Ali", balice);
    assert [alice, balice][1..] == [balice];
    assert [balice][1..] == [];
    assert Filter(UserTest(ByName, "Ali"), [balice]) == [balice];
    assert MatchedUsers(s, ByName, "Ali") == [alice, balice];
    assert MatchedContacts(s, ByName, "Ali") == [];
  }

  /** The ranks of the two names in `AliceRanksBeforeBalice`. */
  lemma AliceRanks()
    ensures Rank("Alice", "Ali") == 2 && Rank("Balice", "Ali") == 0
  {
    assert StartsWith("Alice", "Ali");
    assert "Balice"[..3][0] == 'B';
    assert "alice"[..3][0] == 'a';
    assert "Balice"[1..] == "alice";
    assert "alice"[1..] == "lice";
    assert "lice"[1..] == "ice";
    assert "ice"[1..] == "ce";
    assert !Contains("Balice", "Ali");
  }
}
