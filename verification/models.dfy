/** The two record shapes of the directory and the constraints the database
    schema places on them. The store is an immutable pair of tables; a user is
    referred to by its primary key. */
module Models {
  import opened Outcomes
  import opened Text

  /** `max_length` of both phone-number columns. */
  const MaxPhoneLength: nat := 15
  /** `max_length` of a contact's name column. */
  const MaxNameLength: nat := 255

  type UserId = nat

  /** A registered account. `password` is the stored credential; `email` may
      be null. The user carries no spam flag of its own. */
  datatype User = User(
    id: UserId,
    username: string,
    password: string,
    phoneNumber: string,
    email: Option<string>)

  /** An address-book entry; `owner` is the primary key of the user who made it. */
  datatype Contact = Contact(
    owner: UserId,
    name: string,
    phoneNumber: string,
    isSpam: bool)

  /** The directory: the user table and the contact table, each in
      iteration order. */
  datatype Store = Store(users: seq<User>, contacts: seq<Contact>)

  /** Primary keys, user names and phone numbers are each unique among users. */
  predicate UniqueUsers(users: seq<User>) {
    forall i, j :: 0 <= i < j < |users| ==>
      && users[i].id != users[j].id
      && users[i].username != users[j].username
      && users[i].phoneNumber != users[j].phoneNumber
  }

  /** One owner holds at most one contact per phone number. */
  predicate UniqueOwnerNumbers(contacts: seq<Contact>) {
    forall i, j :: 0 <= i < j < |contacts| ==>
      contacts[i].owner != contacts[j].owner || contacts[i].phoneNumber != contacts[j].phoneNumber
  }

  /** Some user has primary key `id`. */
  predicate IsUser(users: seq<User>, id: UserId) {
    exists u :: u in users && u.id == id
  }

  /** Every contact's owner is a user of the store. */
  predicate OwnersExist(s: Store) {
    forall c :: c in s.contacts ==> IsUser(s.users, c.owner)
  }

  /** Column widths declared by the schema. The database does not enforce
      them; only insertion through the serializer checks them, so rows made
      another way may exceed them. */
  predicate WithinLengths(s: Store) {
    && (forall u :: u in s.users ==> |u.phoneNumber| <= MaxPhoneLength)
    && (forall c :: c in s.contacts ==> |c.phoneNumber| <= MaxPhoneLength && |c.name| <= MaxNameLength)
  }

  /** The uniqueness and foreign-key constraints the database enforces,
      together with the column widths every insertion through the serializer
      keeps. */
  predicate Valid(s: Store) {
    && UniqueUsers(s.users)
    && UniqueOwnerNumbers(s.contacts)
    && OwnersExist(s)
    && WithinLengths(s)
  }

  /** The user a contact belongs to, in a store with unique users and
      existing owners: it exists and it is the only user with that primary
      key. Column widths play no part. */
  function OwnerOf(s: Store, c: Contact): (u: User)
    requires UniqueUsers(s.users) && OwnersExist(s) && c in s.contacts
    ensures u in s.users && u.id == c.owner
    ensures forall v :: v in s.users && v.id == c.owner ==> v == u
  {
    var u :| u in s.users && u.id == c.owner;
    assert forall i, j :: 0 <= i < |s.users| && 0 <= j < |s.users| && s.users[i].id == s.users[j].id ==> i == j by {
      forall i, j | 0 <= i < |s.users| && 0 <= j < |s.users| && s.users[i].id == s.users[j].id
        ensures i == j
      {
        if i < j || j < i {
          assert false;
        }
      }
    }
    u
  }

  /** A text column's input as the serializer accepts it: white space at
      both ends is removed, and the rest must be non-empty and fit the
      column. */
  predicate AcceptedText(v: string, maxLength: nat) {
    0 < |Trim(v)| <= maxLength
  }

  /** Inserting a contact row for `owner` through the contact serializer.
      The name and number are trimmed; a blank one, or one longer than its
      column after trimming, is refused. An owner that is not a user is
      refused, and so is a second row for the same owner and (trimmed)
      number. `is_spam` is false unless the caller sets it. */
  function AddContact(s: Store, owner: UserId, name: string, phone: string, isSpam: Option<bool>): (r: Result<Store>)
    ensures r == Err(InvalidArgument) <==>
      || (forall k :: 0 <= k < |name| ==> IsSpace(name[k]))
      || (forall k :: 0 <= k < |phone| ==> IsSpace(phone[k]))
      || |Trim(name)| > MaxNameLength || |Trim(phone)| > MaxPhoneLength
    ensures r == Err(NotFound) <==>
      AcceptedText(name, MaxNameLength) && AcceptedText(phone, MaxPhoneLength) && !IsUser(s.users, owner)
    ensures r == Err(Conflict) <==>
      && AcceptedText(name, MaxNameLength) && AcceptedText(phone, MaxPhoneLength) && IsUser(s.users, owner)
      && exists c :: c in s.contacts && c.owner == owner && c.phoneNumber == Trim(phone)
    ensures r.Ok? ==> r.value.users == s.users && |r.value.contacts| == |s.contacts| + 1
    ensures r.Ok? ==> r.value.contacts[..|s.contacts|] == s.contacts
    ensures r.Ok? ==> var c := r.value.contacts[|s.contacts|];
      && c.owner == owner && c.name == Trim(name) && c.phoneNumber == Trim(phone)
      && (c.isSpam <==> isSpam == Some(true))
  {
    var n, p := Trim(name), Trim(phone);
    if !AcceptedText(name, MaxNameLength) || !AcceptedText(phone, MaxPhoneLength) then Err(InvalidArgument)
    else if !IsUser(s.users, owner) then Err(NotFound)
    else if exists c :: c in s.contacts && c.owner == owner && c.phoneNumber == p then Err(Conflict)
    else Ok(Store(s.users, s.contacts + [Contact(owner, n, p, isSpam.GetOr(false))]))
  }

  /** A blank name or number, empty or white space only, is refused whatever
      the store holds. A corollary of `AddContact`'s first ensures, stated for
      blank input on its own. */
  lemma AddContactRefusesBlank(s: Store, owner: UserId, name: string, phone: string, isSpam: Option<bool>)
    requires (forall k :: 0 <= k < |name| ==> IsSpace(name[k])) || (forall k :: 0 <= k < |phone| ==> IsSpace(phone[k]))
    ensures AddContact(s, owner, name, phone, isSpam) == Err(InvalidArgument)
  {
  }

  /** Inserting a contact keeps every schema constraint. */
  lemma AddContactKeepsValid(s: Store, owner: UserId, name: string, phone: string, isSpam: Option<bool>)
    requires Valid(s)
    requires AddContact(s, owner, name, phone, isSpam).Ok?
    ensures Valid(AddContact(s, owner, name, phone, isSpam).value)
  {
  }
}
