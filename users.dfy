/**
 * The user endpoint: the listing without password hashes, and the create handler's validation,
 * its lowercasing of the email and its rejection of an email already in use.
 */
module Users {
  import opened Wrappers
  import opened Seqs
  import opened Text
  import opened Records
  import opened Js

  /** The fields of a create request. */
  datatype Request = Request(
    name: Option<string>,
    email: Option<string>,
    password: Option<string>,
    role: Option<string>,
    status: Option<string>)

  const RequiredMessage := "Name, email, and password are required"
  const DuplicateMessage := "Email already exists"
  const CreatedMessage := "User created successfully"

  predicate HasRequired(req: Request) {
    Present(req.name) && Present(req.email) && Present(req.password)
  }

  /** Some stored account has exactly this email. */
  predicate EmailTaken(rows: seq<User>, email: string) {
    exists i :: 0 <= i < |rows| && rows[i].email == email
  }

  /** `findUnique({ where: { email } })`: the account with this email, if any. */
  function FindByEmail(rows: seq<User>, email: string): (r: Option<User>)
    ensures r.Some? <==> EmailTaken(rows, email)
    ensures r.Some? ==> r.value in rows && r.value.email == email
  {
    if rows == [] then None
    else if rows[0].email == email then Some(rows[0])
    else
      var r := FindByEmail(rows[1..], email);
      assert EmailTaken(rows, email) <==> EmailTaken(rows[1..], email) by {
        assert forall i :: 0 < i < |rows| ==> rows[i] == rows[1..][i - 1];
      }
      r
  }

  /**
   * The row a request passing both checks stores, `hashed` being the hash of its password: the
   * email in lower case, and the default role and status for what the request leaves out.
   */
  function Row(req: Request, id: string, hashed: string): (u: User)
    requires HasRequired(req)
    ensures u.id == id && u.name == req.name.value && u.password == hashed
    ensures u.email == ToLower(req.email.value) && ToLower(u.email) == u.email
    ensures u.role == (if Present(req.role) then req.role.value else "production_manager")
    ensures u.status == (if Present(req.status) then req.status.value else "active")
  {
    ToLowerIdempotent(req.email.value);
    User(id, req.name.value, ToLower(req.email.value), hashed, Or(req.role, "production_manager"),
         Or(req.status, "active"))
  }

  /** The reply: missing fields first, then an email in use (compared in lower case), then the account without its hash. */
  function Reply(rows: seq<User>, req: Request, id: string, hashed: string): (o: Outcome<PublicUser>)
    ensures o.Created? <==> HasRequired(req) && !EmailTaken(rows, ToLower(req.email.value))
    ensures !HasRequired(req) ==> o == Rejected(400, RequiredMessage)
    ensures HasRequired(req) && EmailTaken(rows, ToLower(req.email.value)) ==> o == Rejected(400, DuplicateMessage)
    ensures o.Created? ==> o == Created(CreatedMessage, Strip(Row(req, id, hashed)))
  {
    if !HasRequired(req) then Rejected(400, RequiredMessage)
    else if EmailTaken(rows, ToLower(req.email.value)) then Rejected(400, DuplicateMessage)
    else Created(CreatedMessage, Strip(Row(req, id, hashed)))
  }

  /** Two emails that differ only in case cannot both be registered: the second is refused. */
  lemma CaseVariantRejected(rows: seq<User>, req: Request, id: string, hashed: string, req': Request, id': string, hashed': string)
    requires HasRequired(req) && HasRequired(req')
    requires ToLower(req'.email.value) == ToLower(req.email.value)
    ensures Reply(rows + [Row(req, id, hashed)], req', id', hashed') == Rejected(400, DuplicateMessage)
  {
    var rows' := rows + [Row(req, id, hashed)];
    assert rows'[|rows|].email == ToLower(req'.email.value);
  }

  /** Stored emails are in lower case and distinct. */
  ghost predicate EmailsUnique(rows: seq<User>) {
    && (forall i :: 0 <= i < |rows| ==> ToLower(rows[i].email) == rows[i].email)
    && (forall i, j :: 0 <= i < j < |rows| ==> rows[i].email != rows[j].email)
  }

  class Store {
    /** The stored accounts, oldest first. */
    var rows: seq<User>

    ghost predicate Valid()
      reads this
    {
      EmailsUnique(rows)
    }

    constructor ()
      ensures rows == [] && Valid()
    {
      rows := [];
    }

    /** `POST /api/users`: a rejected request leaves the store as it was; emails stay lowercase and distinct. */
    method Create(req: Request, id: string, hashed: string) returns (o: Outcome<PublicUser>)
      requires Valid()
      modifies this
      ensures Valid()
      ensures o == Reply(old(rows), req, id, hashed)
      ensures o.Rejected? ==> rows == old(rows)
      ensures o.Created? ==> rows == old(rows) + [Row(req, id, hashed)]
    {
      o := Reply(rows, req, id, hashed);
      if o.Created? {
        var u := Row(req, id, hashed);
        assert forall i :: 0 <= i < |rows| ==> rows[i].email != u.email;
        rows := rows + [u];
      }
    }
  }

  /** `GET /api/users`: every account, the newest first, each without its password hash. */
  function Listing(rows: seq<User>): (r: seq<PublicUser>)
    ensures |r| == |rows|
    ensures forall i :: 0 <= i < |rows| ==> var u := rows[|rows| - 1 - i];
      r[i].id == u.id && r[i].name == u.name && r[i].email == u.email && r[i].role == u.role && r[i].status == u.status
  {
    Map(Strip, Reverse(rows))
  }
}
