/** The spam resolver: the derived, directory-wide spam status of a phone
    number and the bulk update that flags a number. */
module Spam {
  import opened Outcomes
  import opened Models

  /** Some contact, whoever owns it, carries phone number `phone`. */
  predicate HasNumber(contacts: seq<Contact>, phone: string) {
    exists c :: c in contacts && c.phoneNumber == phone
  }

  /** The derived spam status of `phone`: true exactly when at least one
      contact row with that number, under any owner, is flagged. A number
      no contact carries is not spam. */
  function CheckSpam(contacts: seq<Contact>, phone: string): (r: bool)
    ensures r <==> exists c :: c in contacts && c.phoneNumber == phone && c.isSpam
    ensures !HasNumber(contacts, phone) ==> !r
  {
    if |contacts| == 0 then false
    else
      assert forall c :: c in contacts[1..] ==> c in contacts;
      assert forall c :: c in contacts ==> c == contacts[0] || c in contacts[1..];
      (contacts[0].phoneNumber == phone && contacts[0].isSpam) || CheckSpam(contacts[1..], phone)
  }

  /** The bulk update behind marking: every row carrying `phone` gets its flag
      set, every other row is left as it was, and no field but the flag changes. */
  function SetSpam(contacts: seq<Contact>, phone: string): (r: seq<Contact>)
    ensures |r| == |contacts|
    ensures forall i :: 0 <= i < |r| ==> r[i] == contacts[i].(isSpam := r[i].isSpam)
    ensures forall i :: 0 <= i < |r| ==> (r[i].isSpam <==> contacts[i].isSpam || contacts[i].phoneNumber == phone)
  {
    if |contacts| == 0 then []
    else
      var c := contacts[0];
      [if c.phoneNumber == phone then c.(isSpam := true) else c] + SetSpam(contacts[1..], phone)
  }

  /** Marking `phone` as spam. When no contact carries the number the call
      fails with `NotFound` and no new store is produced. Otherwise every
      contact with that number, whatever its owner, is flagged; users, the
      order and number of contacts, and all other rows stay as they were. */
  function MarkSpam(s: Store, phone: string): (r: Result<Store>)
    ensures r.Err? <==> !HasNumber(s.contacts, phone)
    ensures r.Err? ==> r.error == NotFound
    ensures r.Ok? ==> r.value.users == s.users && |r.value.contacts| == |s.contacts|
    ensures r.Ok? ==> forall i :: 0 <= i < |s.contacts| ==>
      if s.contacts[i].phoneNumber == phone
      then r.value.contacts[i] == s.contacts[i].(isSpam := true)
      else r.value.contacts[i] == s.contacts[i]
  {
    if HasNumber(s.contacts, phone) then Ok(Store(s.users, SetSpam(s.contacts, phone)))
    else Err(NotFound)
  }

  /** After a successful mark, the number reads as spam, for every caller. */
  lemma MarkSpamThenCheckSpam(s: Store, phone: string)
    requires MarkSpam(s, phone).Ok?
    ensures CheckSpam(MarkSpam(s, phone).value.contacts, phone)
  {
  }

  /** Marking one number leaves the spam status of every other number as it was. */
  lemma MarkSpamKeepsOtherNumbers(s: Store, phone: string, other: string)
    requires MarkSpam(s, phone).Ok?
    requires other != phone
    ensures CheckSpam(MarkSpam(s, phone).value.contacts, other) == CheckSpam(s.contacts, other)
  {
  }

  /** Marking is idempotent: a second mark of the same number changes nothing. */
  lemma MarkSpamIdempotent(s: Store, phone: string)
    requires MarkSpam(s, phone).Ok?
    ensures MarkSpam(MarkSpam(s, phone).value, phone) == MarkSpam(s, phone)
  {
    var t := MarkSpam(s, phone).value;
    var c :| c in s.contacts && c.phoneNumber == phone;
    var i :| 0 <= i < |s.contacts| && s.contacts[i] == c;
    assert t.contacts[i] in t.contacts;
    var u := MarkSpam(t, phone).value;
    assert u.contacts == t.contacts;
  }

  /** Marking keeps every schema constraint: it only touches the flag. */
  lemma MarkSpamKeepsValid(s: Store, phone: string)
    requires Valid(s)
    requires MarkSpam(s, phone).Ok?
    ensures Valid(MarkSpam(s, phone).value)
  {
  }
}
