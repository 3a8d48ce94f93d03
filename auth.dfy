/**
 * The client's session store: the signed-in account, the authenticated flag and the loading
 * flag, how a login reply changes them, logout, `setUser` and the role test every screen uses.
 */
module Auth {
  import opened Wrappers
  import opened Records
  import opened Js

  /** The three roles of the application. */
  datatype Role = Admin | ProductionManager | QualityInspector

  /** The text a role is stored and sent as. */
  function RoleName(r: Role): (s: string)
    ensures r == Admin <==> s == "admin"
    ensures r == ProductionManager <==> s == "production_manager"
    ensures r == QualityInspector <==> s == "quality_inspector"
  {
    match r
    case Admin => "admin"
    case ProductionManager => "production_manager"
    case QualityInspector => "quality_inspector"
  }

  /** `hasRole(roles)`: false with nobody signed in, otherwise whether the account's role is listed. */
  function Allowed(user: Option<PublicUser>, roles: seq<Role>): (b: bool)
    ensures user.None? ==> !b
  {
    user.Some? && exists r :: r in roles && RoleName(r) == user.value.role
  }

  /** For an account whose role is stored as the text of `q`, the role test is membership of `q`. */
  lemma AllowedIffListed(user: Option<PublicUser>, q: Role, roles: seq<Role>)
    requires user.Some? && user.value.role == RoleName(q)
    ensures Allowed(user, roles) <==> q in roles
  {
  }

  /** An account whose stored role is none of the three texts passes no role test. */
  lemma UnknownRoleDenied(user: Option<PublicUser>, roles: seq<Role>)
    requires user.Some? && user.value.role != "admin" && user.value.role != "production_manager"
    requires user.value.role != "quality_inspector"
    ensures !Allowed(user, roles)
  {
  }

  /** Listing more roles never takes access away. */
  lemma AllowedWidens(user: Option<PublicUser>, roles: seq<Role>, more: seq<Role>)
    requires forall r :: r in roles ==> r in more
    ensures Allowed(user, roles) ==> Allowed(user, more)
  {
  }

  /** The body of a login reply as the client reads it: `success`, `user` and `message`. */
  datatype LoginReply = LoginReply(success: bool, user: Option<PublicUser>, message: Option<string>)

  const LoginSucceeded := "Login successful"
  const LoginFailed := "Login failed"
  const NetworkError := "Network error. Please try again."

  class AuthStore {
    var user: Option<PublicUser>
    var isAuthenticated: bool
    var isLoading: bool

    /** The store is authenticated exactly when it holds an account. */
    ghost predicate Valid()
      reads this
    {
      isAuthenticated <==> user.Some?
    }

    constructor ()
      ensures user == None && !isAuthenticated && !isLoading
      ensures Valid()
    {
      user, isAuthenticated, isLoading := None, false, false;
    }

    /**
     * `login`, given what the request brought back (`None` when it failed on the network): an
     * account is taken only from a successful reply that carries one; any other reply leaves
     * the session as it was. Loading is over on every path.
     */
    method Login(reply: Option<LoginReply>) returns (success: bool, message: string)
      requires Valid()
      modifies this
      ensures Valid() && !isLoading
      ensures success <==> reply.Some? && reply.value.success && reply.value.user.Some?
      ensures success ==> user == reply.value.user && isAuthenticated && message == LoginSucceeded
      ensures !success ==> user == old(user) && isAuthenticated == old(isAuthenticated)
      ensures !success && reply.Some? ==> message == Or(reply.value.message, LoginFailed)
      ensures reply.None? ==> message == NetworkError
    {
      isLoading := true;
      if reply.None? {
        isLoading := false;
        return false, NetworkError;
      }
      var data := reply.value;
      isLoading := false;
      if data.success && data.user.Some? {
        user, isAuthenticated := data.user, true;
        return true, LoginSucceeded;
      }
      return false, Or(data.message, LoginFailed);
    }

    /** `logout`: no account and not authenticated. */
    method Logout()
      modifies this
      ensures user == None && !isAuthenticated && isLoading == old(isLoading)
      ensures Valid()
    {
      user, isAuthenticated := None, false;
    }

    /** `setUser`: the account given, authenticated exactly when there is one. */
    method SetUser(u: Option<PublicUser>)
      modifies this
      ensures user == u && isAuthenticated == u.Some? && isLoading == old(isLoading)
      ensures Valid()
    {
      user, isAuthenticated := u, u.Some?;
    }

    /** `hasRole`, on the account the store holds. */
    function HasRole(roles: seq<Role>): (b: bool)
      reads this
      ensures Valid() && !isAuthenticated ==> !b
      ensures forall q :: user.Some? && user.value.role == RoleName(q) ==> (b <==> q in roles)
    {
      Allowed(user, roles)
    }
  }
}
