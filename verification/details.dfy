/** The detail view for one phone number: a registered user with that number
    wins; otherwise every contact row with the number, across all owners. */
module Details {
  import opened Outcomes
  import opened Sequences
  import opened Models
  import opened Spam
  import opened Serializers

  /** The answer: one user's detail, or the details of the contact rows. */
  datatype Detail = UserFound(user: Obj) | ContactsFound(entries: seq<Obj>)

  /** The first user with phone number `phone`, if any. In a valid store it is
      the only one, so the lookup cannot be ambiguous. */
  function FindUserByPhone(users: seq<User>, phone: string): (r: Option<User>)
    ensures r.Some? ==> r.value in users && r.value.phoneNumber == phone
    ensures r.None? <==> forall u :: u in users ==> u.phoneNumber != phone
  {
    if |users| == 0 then None
    else if users[0].phoneNumber == phone then Some(users[0])
    else
      assert forall u :: u in users ==> u == users[0] || u in users[1..];
      FindUserByPhone(users[1..], phone)
  }

  /** The contact rows carrying `phone`, of every owner, in table order. */
  function ContactsWithNumber(contacts: seq<Contact>, phone: string): (r: seq<Contact>)
    ensures forall c :: c in r <==> c in contacts && c.phoneNumber == phone
    ensures |r| == 0 <==> !HasNumber(contacts, phone)
  {
    var cs := Filter(CarriesNumber(phone), contacts);
    assert |cs| > 0 ==> cs[0] in cs;
    cs
  }

  /** The filter `phone_number=phone` as a value `Filter` can take. */
  function CarriesNumber(phone: string): Contact -> bool {
    (c: Contact) => c.phoneNumber == phone
  }

  /** The detail lookup. The user branch is tried first; the contact branch
      is reached only when no user has the number, and `NotFound` only when
      no contact has it either. */
  function DetailLookup(s: Store, phone: string, request: Request): (r: Result<Detail>)
    ensures r.Err? <==> (forall u :: u in s.users ==> u.phoneNumber != phone) && !HasNumber(s.contacts, phone)
    ensures r.Err? ==> r.error == NotFound
    ensures r.Ok? ==> (r.value.UserFound? <==> exists u :: u in s.users && u.phoneNumber == phone)
    ensures r.Ok? && r.value.ContactsFound? ==>
      var cs := ContactsWithNumber(s.contacts, phone);
      && 0 < |cs| == |r.value.entries|
      && forall i :: 0 <= i < |cs| ==> r.value.entries[i] == ContactDetail(cs[i])
  {
    match FindUserByPhone(s.users, phone)
    case Some(u) => Ok(UserFound(UserDetail(u, s.contacts, Some(request))))
    case None =>
      var cs := ContactsWithNumber(s.contacts, phone);
      if |cs| > 0 then
        assert cs[0] in cs;
        Ok(ContactsFound(MapSeq(ContactDetail, cs)))
      else
        assert !HasNumber(s.contacts, phone);
        Err(NotFound)
  }

  /** When user numbers are unique, a registered user with the number is
      always the answer, even when contact rows carry the number too; its
      email is shown to an authenticated requester. Column widths play no
      part. */
  lemma DetailPrefersUser(s: Store, phone: string, request: Request, u: User)
    requires UniqueUsers(s.users)
    requires u in s.users && u.phoneNumber == phone
    ensures DetailLookup(s, phone, request) == Ok(UserFound(UserDetail(u, s.contacts, Some(request))))
    ensures request.authenticated ==>
      DetailLookup(s, phone, request).value.user["email"] == NullableStr(u.email)
  {
  }

  /** With no user holding the number, the answer is exactly the contact rows
      with that number, in table order and each with its own flag, or
      `NotFound` when there are none. Each such row is listed as many times
      as the table holds it, and no other row is listed. */
  lemma DetailListsContacts(s: Store, phone: string, request: Request)
    requires forall u :: u in s.users ==> u.phoneNumber != phone
    ensures var cs := ContactsWithNumber(s.contacts, phone);
      DetailLookup(s, phone, request) ==
        if |cs| == 0 then Err(NotFound) else Ok(ContactsFound(MapSeq(ContactDetail, cs)))
    ensures forall c ::
      multiset(ContactsWithNumber(s.contacts, phone))[c] == (if c.phoneNumber == phone then multiset(s.contacts)[c] else 0)
  {
    forall c {
      FilterCount(CarriesNumber(phone), s.contacts, c);
    }
  }

  /** Two owners hold the same unregistered number, one flagging it and one
      not: the number reads as spam, and the detail lists both rows, each with
      its own flag. */
  lemma SharedNumberExample(request: Request)
    ensures var a := Contact(1, "Ann's plumber", "+9", false);
      var b := Contact(2, "Unknown caller", "+9", true);
      var s := Store([User(1, "ann", "", "+1", None), User(2, "bob", "", "+2", None)], [a, b]);
      && CheckSpam(s.contacts, "+9")
      && DetailLookup(s, "+9", request) == Ok(ContactsFound([ContactDetail(a), ContactDetail(b)]))
      && ContactDetail(a)["is_spam"] == JBool(false)
  {
    var a := Contact(1, "Ann's plumber", "+9", false);
    var b := Contact(2, "Unknown caller", "+9", true);
    var s := Store([User(1, "ann", "", "+1", None), User(2, "bob", "", "+2", None)], [a, b]);
    assert b in s.contacts;
    SharedNumberContacts(a, b);
    assert FindUserByPhone(s.users, "+9") == None;
    assert MapSeq(ContactDetail, [a, b]) == [ContactDetail(a), ContactDetail(b)];
  }

  /** The contact rows of `SharedNumberExample` that carry its number. */
  lemma SharedNumberContacts(a: Contact, b: Contact)
    requires a.phoneNumber == "+9" && b.phoneNumber == "+9"
    ensures ContactsWithNumber([a, b], "+9") == [a, b]
  {
    assert [a, b][1..] == [b];
    assert [b][1..] == [];
    assert Filter(CarriesNumber("+9"), [b]) == [b];
    assert Filter(CarriesNumber("+9"), [a, b]) == [a, b];
  }
}
