/** The serializers that shape what leaves the service, with JSON objects
    modelled as maps from field name to value so that the exact field set of
    each answer can be stated. */
module Serializers {
  import opened Outcomes
  import opened Models
  import Spam

  /** The JSON values these serializers produce. */
  datatype Json = JNull | JBool(b: bool) | JStr(s: string) | JInt(i: int)

  /** A JSON object: field names to values. */
  type Obj = map<string, Json>

  /** What a serializer sees of the incoming request: whether its user is
      authenticated. */
  datatype Request = Request(authenticated: bool)

  /** A nullable string column as JSON. */
  function NullableStr(v: Option<string>): Json {
    match v
    case Some(x) => JStr(x)
    case None => JNull
  }

  /** The registration answer: the new account's key, name, number and
      email. The password is accepted on input but never written out. */
  function RegisteredUser(u: User): (r: Obj)
    ensures r.Keys == {"id", "username", "phone_number", "email"}
    ensures "password" !in r
    ensures r["id"] == JInt(u.id) && r["username"] == JStr(u.username)
    ensures r["phone_number"] == JStr(u.phoneNumber) && r["email"] == NullableStr(u.email)
  {
    map["id" := JInt(u.id), "username" := JStr(u.username),
        "phone_number" := JStr(u.phoneNumber), "email" := NullableStr(u.email)]
  }

  /** The email shown in a user's detail: the stored (possibly null) address
      when there is a request whose user is authenticated, and null otherwise.
      Whether the requester holds this person among its contacts plays no
      part, although the detail view's documentation says it should; this is
      the behaviour as built. */
  function DisclosedEmail(u: User, request: Option<Request>): (r: Json)
    ensures request.Some? && request.value.authenticated ==> r == NullableStr(u.email)
    ensures !(request.Some? && request.value.authenticated) ==> r == JNull
  {
    if request.Some? && request.value.authenticated then NullableStr(u.email) else JNull
  }

  /** The detail of a registered user: exactly its name, number, disclosed
      email and the derived spam status of its number (any contact of any
      owner with that number flagged); the user record itself holds no flag. */
  function UserDetail(u: User, contacts: seq<Contact>, request: Option<Request>): (r: Obj)
    ensures r.Keys == {"username", "phone_number", "email", "is_spam"}
    ensures r["username"] == JStr(u.username) && r["phone_number"] == JStr(u.phoneNumber)
    ensures r["email"] == DisclosedEmail(u, request)
    ensures r["is_spam"] == JBool(exists c :: c in contacts && c.phoneNumber == u.phoneNumber && c.isSpam)
  {
    map["username" := JStr(u.username), "phone_number" := JStr(u.phoneNumber),
        "email" := DisclosedEmail(u, request),
        "is_spam" := JBool(Spam.CheckSpam(contacts, u.phoneNumber))]
  }

  /** The detail of one contact row: exactly its name, number and its own
      flag, whatever other rows with that number say. */
  function ContactDetail(c: Contact): (r: Obj)
    ensures r.Keys == {"name", "phone_number", "is_spam"}
    ensures r["name"] == JStr(c.name) && r["phone_number"] == JStr(c.phoneNumber)
    ensures r["is_spam"] == JBool(c.isSpam)
  {
    map["name" := JStr(c.name), "phone_number" := JStr(c.phoneNumber), "is_spam" := JBool(c.isSpam)]
  }
}
