/**
 * The login endpoint's ordered decision: missing fields (400), an unknown email (401), an
 * inactive account (403), a wrong password (401), and otherwise the account without its hash.
 * The password check is the parameter `matches(password, hash)`.
 */
module Login {
  import opened Wrappers
  import opened Text
  import opened Records
  import opened Js
  import Users

  datatype Request = Request(email: Option<string>, password: Option<string>)

  /** The reply: the account as every response shows it, or an HTTP status and a message. */
  datatype Reply = Success(message: string, user: PublicUser) | Failure(status: int, message: string)

  const RequiredMessage := "Email and password are required"
  const InvalidMessage := "Invalid email or password"
  const InactiveMessage := "Account is inactive. Please contact administrator."
  const SuccessMessage := "Login successful"

  predicate HasFields(req: Request) {
    Present(req.email) && Present(req.password)
  }

  /** The account the handler looks up: the one stored under the lowercased email. */
  function Account(rows: seq<User>, req: Request): (a: Option<User>)
    requires HasFields(req)
    ensures a.Some? ==> a.value in rows && a.value.email == ToLower(req.email.value)
    ensures a.None? <==> !Users.EmailTaken(rows, ToLower(req.email.value))
  {
    Users.FindByEmail(rows, ToLower(req.email.value))
  }

  /** The looked-up account exists and is active. */
  predicate ActiveAccount(rows: seq<User>, req: Request) {
    HasFields(req) && Account(rows, req).Some? && Account(rows, req).value.status == "active"
  }

  /** `POST /api/auth/login`, its checks in the order the handler makes them. */
  function Decide(rows: seq<User>, req: Request, matches: (string, string) -> bool): (r: Reply)
    ensures !HasFields(req) ==> r == Failure(400, RequiredMessage)
    ensures HasFields(req) && Account(rows, req).None? ==> r == Failure(401, InvalidMessage)
    ensures HasFields(req) && Account(rows, req).Some? && !ActiveAccount(rows, req) ==> r == Failure(403, InactiveMessage)
    ensures ActiveAccount(rows, req) && !matches(req.password.value, Account(rows, req).value.password) ==>
      r == Failure(401, InvalidMessage)
    ensures r.Success? <==> ActiveAccount(rows, req) && matches(req.password.value, Account(rows, req).value.password)
    ensures r.Success? ==> r == Success(SuccessMessage, Strip(Account(rows, req).value))
  {
    if !HasFields(req) then Failure(400, RequiredMessage)
    else
      match Account(rows, req)
      case None => Failure(401, InvalidMessage)
      case Some(u) =>
        if u.status != "active" then Failure(403, InactiveMessage)
        else if !matches(req.password.value, u.password) then Failure(401, InvalidMessage)
        else Success(SuccessMessage, Strip(u))
  }

  /** An inactive account gets its 403 whatever password is sent: the status is checked first. */
  lemma InactiveIgnoresPassword(rows: seq<User>, req: Request, m: (string, string) -> bool, m': (string, string) -> bool)
    requires HasFields(req) && Account(rows, req).Some? && !ActiveAccount(rows, req)
    ensures Decide(rows, req, m) == Decide(rows, req, m') == Failure(403, InactiveMessage)
  {
  }

  /** A wrong password gets the very reply an unknown email gets, so the reply does not tell which. */
  lemma WrongPasswordLooksUnknown(rows: seq<User>, req: Request, matches: (string, string) -> bool)
    requires ActiveAccount(rows, req)
    requires !matches(req.password.value, Account(rows, req).value.password)
    ensures Decide(rows, req, matches) == Decide([], req, matches)
  {
  }

  /** The email is looked up in lower case: its case does not change the reply. */
  lemma EmailCaseIgnored(rows: seq<User>, req: Request, matches: (string, string) -> bool)
    requires HasFields(req)
    ensures Decide(rows, req.(email := Some(ToLower(req.email.value))), matches) == Decide(rows, req, matches)
  {
    ToLowerIdempotent(req.email.value);
  }

  /**
   * An account just registered, with no status given, logs in under any case of its email with
   * its password, and the reply is the account the registration returned.
   */
  lemma RegisteredAccountLogsIn(rows: seq<User>, reg: Users.Request, id: string, hashed: string,
                                req: Request, matches: (string, string) -> bool)
    requires Users.HasRequired(reg) && reg.status == None
    requires !Users.EmailTaken(rows, ToLower(reg.email.value))
    requires HasFields(req) && ToLower(req.email.value) == ToLower(reg.email.value)
    requires matches(req.password.value, hashed)
    ensures Decide(rows + [Users.Row(reg, id, hashed)], req, matches)
         == Success(SuccessMessage, Users.Reply(rows, reg, id, hashed).record)
  {
    var u := Users.Row(reg, id, hashed);
    FindAppended(rows, u, ToLower(req.email.value));
  }

  /** An email no stored account has is found on the account appended with it. */
  lemma {:induction false} FindAppended(rows: seq<User>, u: User, email: string)
    requires !Users.EmailTaken(rows, email) && u.email == email
    ensures Users.FindByEmail(rows + [u], email) == Some(u)
  {
    if rows == [] {
      assert [] + [u] == [u];
    } else {
      assert (rows + [u])[1..] == rows[1..] + [u];
      assert !Users.EmailTaken(rows[1..], email) by {
        assert forall i :: 0 <= i < |rows| - 1 ==> rows[1..][i] == rows[i + 1];
      }
      assert rows[0].email != email by {
        assert 0 < |rows|;
      }
      FindAppended(rows[1..], u, email);
    }
  }
}
