/**
 * The admin-account handlers: `POST` and `GET /api/auth/register`
 * (src/app/api/auth/register/route.ts) over a user store keyed by e-mail,
 * and `POST /api/auth/login` (src/app/api/auth/login/route.ts), whose
 * decision ladder is a function and whose cookie write is a method on a
 * response object. Password hashing and comparison, token signing and the
 * database's identifier generator are parameters.
 */
module AuthApi {
  import opened Common
  import opened Sequences
  import Validations

  /** A stored account; `password` is whatever the user model stores. */
  datatype User = User(id: string, name: string, email: string, password: string, role: string, createdAt: DateTime)

  /** The user as both handlers reply with it: `{id, email, name, role}`. */
  datatype UserSummary = UserSummary(id: string, email: string, name: string, role: string)

  /** A listed account: `select('-password')` keeps every field but the password. */
  datatype AdminView = AdminView(id: string, name: string, email: string, role: string, createdAt: DateTime)

  function Summary(u: User): UserSummary
  {
    UserSummary(u.id, u.email, u.name, u.role)
  }

  function View(u: User): AdminView
  {
    AdminView(u.id, u.name, u.email, u.role, u.createdAt)
  }

  /** No two accounts share an e-mail address. */
  predicate EmailsUnique(users: seq<User>)
  {
    forall i, j :: 0 <= i < j < |users| ==> users[i].email != users[j].email
  }

  /** `User.findOne({ email })` finds something. */
  predicate EmailTaken(users: seq<User>, email: string)
  {
    exists i :: 0 <= i < |users| && users[i].email == email
  }

  /** Only a signed-in superadmin may register or list admins. */
  predicate IsSuperadmin(principal: Option<Principal>)
  {
    principal.Some? && principal.value.role == "superadmin"
  }

  /** The account `User.create` stores: `confirmPassword` is dropped. */
  function NewUser(x: Validations.RegisterInput, id: string, now: DateTime): User
  {
    User(id, x.name, x.email, x.password, x.role, now)
  }

  // ----------------------------------------------------------- registration

  /**
   * `POST /api/auth/register`: 403 unless a superadmin is signed in, then
   * 400 with the schema's issues, then 409 for a registered e-mail, then
   * 201 with the new account's summary.
   */
  function RegisterOutcome(principal: Option<Principal>, x: Validations.RegisterInput, fmt: Validations.Formats,
                           users: seq<User>, id: string, now: DateTime): (r: Response<UserSummary>)
    ensures !IsSuperadmin(principal) ==> r == Failure(403, "Unauthorized. Only superadmins can register new admins.", [])
    ensures IsSuperadmin(principal) && Validations.RegisterIssues(fmt, x) != []
            ==> r == Failure(400, "Invalid input", Validations.RegisterIssues(fmt, x))
    ensures IsSuperadmin(principal) && Validations.RegisterIssues(fmt, x) == [] && EmailTaken(users, x.email)
            ==> r == Failure(409, "User with this email already exists", [])
    ensures r.Success? <==>
              IsSuperadmin(principal) && x.password == x.confirmPassword && x.role in Validations.Roles
              && |x.name| >= 2 && fmt.isEmail(x.email) && |x.password| >= 6 && !EmailTaken(users, x.email)
    ensures r.Success? ==> r.status == 201 && r.body == UserSummary(id, x.email, x.name, x.role)
  {
    if !IsSuperadmin(principal) then
      Failure(403, "Unauthorized. Only superadmins can register new admins.", [])
    else if Validations.RegisterIssues(fmt, x) != [] then
      Failure(400, "Invalid input", Validations.RegisterIssues(fmt, x))
    else if EmailTaken(users, x.email) then
      Failure(409, "User with this email already exists", [])
    else
      Success(201, Summary(NewUser(x, id, now)))
  }

  /** A successful registration keeps e-mail addresses unique. */
  lemma RegisterKeepsEmailsUnique(principal: Option<Principal>, x: Validations.RegisterInput, fmt: Validations.Formats,
                                  users: seq<User>, id: string, now: DateTime)
    requires EmailsUnique(users)
    requires RegisterOutcome(principal, x, fmt, users, id, now).Success?
    ensures EmailsUnique(users + [NewUser(x, id, now)])
  {
    var after := users + [NewUser(x, id, now)];
    forall i, j | 0 <= i < j < |after| ensures after[i].email != after[j].email {
      if j == |users| {
        assert after[i] == users[i];
      } else {
        assert after[i] == users[i] && after[j] == users[j];
      }
    }
  }

  /** Registering the same e-mail again, after a success, is a conflict. */
  lemma SecondRegisterConflicts(principal: Option<Principal>, x: Validations.RegisterInput, fmt: Validations.Formats,
                                users: seq<User>, id: string, id': string, now: DateTime, later: DateTime)
    requires RegisterOutcome(principal, x, fmt, users, id, now).Success?
    ensures RegisterOutcome(principal, x, fmt, users + [NewUser(x, id, now)], id', later)
            == Failure(409, "User with this email already exists", [])
  {
    var after := users + [NewUser(x, id, now)];
    assert after[|users|].email == x.email;
  }

  // ---------------------------------------------------------------- listing

  function CreatedKey(v: AdminView): int { Chrono(v.createdAt) }

  function Views(users: seq<User>): (r: seq<AdminView>)
    ensures |r| == |users|
    ensures forall i :: 0 <= i < |r| ==> r[i] == View(users[i])
  {
    seq(|users|, i requires 0 <= i < |users| => View(users[i]))
  }

  /** `GET /api/auth/register`: 403 unless a superadmin, else every account without its password, newest first. */
  function Admins(principal: Option<Principal>, users: seq<User>): (r: Response<seq<AdminView>>)
    ensures !IsSuperadmin(principal) ==> r == Failure(403, "Unauthorized", [])
    ensures IsSuperadmin(principal) ==> r.Success? && r.status == 200 && |r.body| == |users|
  {
    if !IsSuperadmin(principal) then Failure(403, "Unauthorized", [])
    else Success(200, SortDesc(Views(users), CreatedKey))
  }

  /**
   * The listing holds exactly the accounts, each as its password-free view,
   * ordered from the newest to the oldest creation time.
   */
  lemma AdminsListEveryAccount(principal: Option<Principal>, users: seq<User>)
    requires IsSuperadmin(principal)
    ensures var list := Admins(principal, users).body;
            && (forall i, j :: 0 <= i < j < |list| ==> Chrono(list[i].createdAt) >= Chrono(list[j].createdAt))
            && (forall j :: 0 <= j < |users| ==> View(users[j]) in list)
            && (forall i :: 0 <= i < |list| ==> exists j :: 0 <= j < |users| && list[i] == View(users[j]))
  {
    var list := SortDesc(Views(users), CreatedKey);
    forall i, j | 0 <= i < j < |list| ensures Chrono(list[i].createdAt) >= Chrono(list[j].createdAt) {
      assert CreatedKey(list[i]) >= CreatedKey(list[j]);
    }
    PermutedViews(users, list);
  }

  /** Any reordering of the views holds every account's view and nothing else. */
  lemma PermutedViews(users: seq<User>, list: seq<AdminView>)
    requires multiset(list) == multiset(Views(users))
    ensures forall j :: 0 <= j < |users| ==> View(users[j]) in list
    ensures forall i :: 0 <= i < |list| ==> exists j :: 0 <= j < |users| && list[i] == View(users[j])
  {
    var views := Views(users);
    forall j | 0 <= j < |users| ensures View(users[j]) in list {
      assert views[j] in multiset(views);
      assert View(users[j]) in multiset(list);
    }
    forall i | 0 <= i < |list| ensures exists j :: 0 <= j < |users| && list[i] == View(users[j]) {
      var j := IndexOf(list[i], views);
      assert list[i] == View(users[j]);
    }
  }

  // ------------------------------------------------------------------ login

  /** What a successful login produces: the reply's user and the token's payload. */
  datatype Session = Session(user: UserSummary, payload: Principal)

  /** `User.findOne({ email })`: the first account with that address. */
  function FindByEmail(users: seq<User>, email: string): (r: Option<User>)
    ensures r.None? <==> !EmailTaken(users, email)
    ensures r.Some? ==> r.value in users && r.value.email == email
  {
    if users == [] then None
    else if users[0].email == email then Some(users[0])
    else FindByEmail(users[1..], email)
  }

  /** With unique addresses the account found is the one holding the address. */
  lemma {:induction false} FindByEmailUnique(users: seq<User>, i: nat)
    requires EmailsUnique(users) && i < |users|
    ensures FindByEmail(users, users[i].email) == Some(users[i])
  {
    if i > 0 {
      assert users[0].email != users[i].email;
      assert users[1..][i - 1] == users[i];
      FindByEmailUnique(users[1..], i - 1);
    }
  }

  /**
   * `POST /api/auth/login`: 400 with the schema's issues, then the same 401
   * for an unknown address and for a wrong password, then the session of
   * the account found. `passwordMatches(candidate, stored)` is the user
   * model's password comparison.
   */
  function LoginOutcome(fmt: Validations.Formats, x: Validations.LoginInput, users: seq<User>,
                        passwordMatches: (string, string) -> bool): (r: Response<Session>)
    ensures Validations.LoginIssues(fmt, x) != [] ==> r == Failure(400, "Invalid input", Validations.LoginIssues(fmt, x))
    ensures Validations.LoginIssues(fmt, x) == [] && r.Failure? ==> r == Failure(401, "Invalid email or password", [])
    ensures Validations.LoginIssues(fmt, x) == [] && !EmailTaken(users, x.email) ==> r.Failure?
    ensures r.Success? ==>
              exists u :: u in users && u.email == x.email && passwordMatches(x.password, u.password)
                          && r == Success(200, Session(Summary(u), Principal(u.id, u.email, u.role)))
  {
    if Validations.LoginIssues(fmt, x) != [] then Failure(400, "Invalid input", Validations.LoginIssues(fmt, x))
    else
      match FindByEmail(users, x.email)
      case None => Failure(401, "Invalid email or password", [])
      case Some(u) =>
        if !passwordMatches(x.password, u.password) then Failure(401, "Invalid email or password", [])
        else Success(200, Session(Summary(u), Principal(u.id, u.email, u.role)))
  }

  /**
   * With unique addresses, a valid login succeeds exactly when the account
   * holding the address accepts the password, and then the reply and the
   * token carry that account.
   */
  lemma LoginSucceedsIff(fmt: Validations.Formats, x: Validations.LoginInput, users: seq<User>,
                         passwordMatches: (string, string) -> bool, i: nat)
    requires EmailsUnique(users) && i < |users| && users[i].email == x.email
    requires Validations.LoginIssues(fmt, x) == []
    ensures var r := LoginOutcome(fmt, x, users, passwordMatches);
            && (r.Success? <==> passwordMatches(x.password, users[i].password))
            && (r.Success? ==> r.body.user == Summary(users[i])
                               && r.body.payload == Principal(users[i].id, users[i].email, users[i].role))
  {
    FindByEmailUnique(users, i);
  }

  /** The attributes of the session cookie. */
  datatype CookieOptions = CookieOptions(httpOnly: bool, secure: bool, sameSite: string, maxAge: int, path: string)

  datatype Cookie = Cookie(value: string, options: CookieOptions)

  const SessionCookie: string := "auth-token"

  /** Seven days, in seconds. */
  const SessionMaxAge: int := 60 * 60 * 24 * 7

  function SessionCookieOptions(production: bool): (o: CookieOptions)
    ensures o.httpOnly && o.sameSite == "lax" && o.path == "/"
    ensures o.secure <==> production
    ensures o.maxAge == 604800
  {
    CookieOptions(true, production, "lax", SessionMaxAge, "/")
  }

  /** The reply under construction: its cookie jar is set in place. */
  class HttpResponse {
    var cookies: map<string, Cookie>

    constructor ()
      ensures cookies == map[]
    {
      cookies := map[];
    }

    /** `response.cookies.set(name, value, options)`. */
    method SetCookie(name: string, value: string, options: CookieOptions)
      modifies this
      ensures cookies == old(cookies)[name := Cookie(value, options)]
    {
      cookies := cookies[name := Cookie(value, options)];
    }
  }

  /** The store of accounts, keyed by e-mail. */
  class UserStore {
    var users: seq<User>

    ghost predicate Valid()
      reads this
    {
      EmailsUnique(users)
    }

    constructor ()
      ensures Valid() && users == []
    {
      users := [];
    }

    /**
     * `POST /api/auth/register`: on 201 exactly the new account is added;
     * every other outcome leaves the accounts as they were. `id` is the
     * identifier the database assigns.
     */
    method Register(principal: Option<Principal>, x: Validations.RegisterInput, fmt: Validations.Formats,
                    id: string, now: DateTime) returns (r: Response<UserSummary>)
      requires Valid()
      modifies this
      ensures Valid()
      ensures r == RegisterOutcome(principal, x, fmt, old(users), id, now)
      ensures r.Success? ==> users == old(users) + [NewUser(x, id, now)]
      ensures !r.Success? ==> users == old(users)
    {
      if !IsSuperadmin(principal) {
        return Failure(403, "Unauthorized. Only superadmins can register new admins.", []);
      }
      var issues := Validations.RegisterIssues(fmt, x);
      if issues != [] {
        return Failure(400, "Invalid input", issues);
      }
      if FindByEmail(users, x.email).Some? {
        return Failure(409, "User with this email already exists", []);
      }
      var user := NewUser(x, id, now);
      RegisterKeepsEmailsUnique(principal, x, fmt, users, id, now);
      users := users + [user];
      r := Success(201, Summary(user));
    }

    /** `GET /api/auth/register`: reads the accounts only. */
    method ListAdmins(principal: Option<Principal>) returns (r: Response<seq<AdminView>>)
      ensures r == Admins(principal, users)
    {
      r := Admins(principal, users);
    }

    /**
     * `POST /api/auth/login`: the decision, then on success the signed
     * session token is set as the `auth-token` cookie of a fresh reply.
     * `sign` is the token signer and `production` the deployment mode.
     */
    method Login(fmt: Validations.Formats, x: Validations.LoginInput, passwordMatches: (string, string) -> bool,
                 sign: Principal -> string, production: bool)
      returns (r: Response<Session>, response: HttpResponse)
      ensures fresh(response)
      ensures r == LoginOutcome(fmt, x, users, passwordMatches)
      ensures r.Success? ==> response.cookies == map[SessionCookie := Cookie(sign(r.body.payload), SessionCookieOptions(production))]
      ensures !r.Success? ==> response.cookies == map[]
    {
      r := LoginOutcome(fmt, x, users, passwordMatches);
      response := new HttpResponse();
      if r.Success? {
        response.SetCookie(SessionCookie, sign(r.body.payload), SessionCookieOptions(production));
      }
    }
  }
}
