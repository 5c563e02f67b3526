/**
 * The controller's decision logic as functions of the application state:
 * the inbound callback, the outbound redirect through the partner, the
 * dashboard link, the two logouts and the user sync call. Network calls are
 * described by the request they send and an abstract reply; hashing and
 * random generation are inputs.
 */
module Handoff {
  import opened Wrappers
  import opened TokenStore
  import opened Users
  import opened Redirects

  /** Path of the partner API that validates and consumes a token (`/sso/validate` under the `api` prefix). */
  const ValidatePath: string := "/api/sso/validate"
  /** Path of the partner API that receives a registered user. */
  const SyncPath: string := "/api/sso/sync-user"

  /**
   * What the controller reads from its environment: the partner's base URL
   * (possibly null or empty), its own base URL, the shared secret, and the
   * URLs of its `dashboard` and `login` routes.
   */
  datatype Config = Config(partnerUrl: Option<string>, appUrl: string, secret: string, dashboardRoute: string, loginRoute: string)

  /** The state one application keeps: its token table, its user table and the browser's session (the logged-in user). */
  datatype AppState = AppState(tokens: Store, users: UserTable, session: Option<User>)

  /** Unique tokens, unique emails, and a session that names a stored user. */
  predicate Consistent(st: AppState) {
    && Keyed(st.tokens)
    && UsersKeyed(st.users)
    && (st.session.Some? ==> st.session.value.email in st.users && st.users[st.session.value.email] == st.session.value)
  }

  /** A request handler's result when it may fail on the token insert (an uncaught database exception). */
  datatype Outcome<T> = Done(value: T) | StoreFailure

  /**
   * What the issuer answered to a validation request: a successful response
   * with the user, an unsuccessful one, or an exception (timeout, connection error).
   */
  datatype PartnerReply = Confirmed(user: Identity) | Refused | Unreachable

  /** How the issuer's own `apiSsoValidate` response reads at the caller. */
  function ReplyOf(v: Verdict): (r: PartnerReply)
    ensures r.Confirmed? <==> v.Status() == 200
    ensures r.Confirmed? ==> v == Valid(r.user)
    ensures !r.Unreachable?
  {
    if v.Valid? then Confirmed(v.user) else Refused
  }

  /** The server-to-server validation request `ssoCallback` posts. */
  datatype ValidateCall = ValidateCall(url: string, token: string, secret: string)

  /** What `ssoCallback` sends: the browser redirect, and the validation request if one was made. */
  datatype CallbackOutcome = CallbackOutcome(redirect: Redirect, call: Option<ValidateCall>)

  /** The validation request `ssoCallback` makes: only without a session, and only with a truthy token and issuer. */
  function ValidationCall(cfg: Config, st: AppState, token: Option<string>, issuer: Option<string>): (r: Option<ValidateCall>)
    ensures r.Some? <==> st.session.None? && Truthy(token) && Truthy(issuer)
    ensures r.Some? ==> r.value.token == token.value && r.value.secret == cfg.secret
    ensures r.Some? ==> r.value.url == issuer.value + ValidatePath
  {
    if st.session.Some? then None
    else if Truthy(token) && Truthy(issuer) then Some(ValidateCall(issuer.value + ValidatePath, token.value, cfg.secret))
    else None
  }

  /**
   * `ssoCallback`: always redirect to `return_to` (the dashboard when absent).
   * With a session, do nothing else. Otherwise, when token and issuer are
   * truthy, ask the issuer; on a confirmed identity find-or-create the user
   * by email (with `password`, the hash of a random string) and log them in.
   * A refused or failed validation leaves the state as it was.
   */
  function Callback(cfg: Config, st: AppState, token: Option<string>, issuer: Option<string>, returnTo: Option<string>,
                    reply: PartnerReply, password: string): (r: (CallbackOutcome, AppState))
    ensures r.0.redirect == Redirect(To(returnTo.GetOr(cfg.dashboardRoute)), None)
    ensures r.0.call == ValidationCall(cfg, st, token, issuer)
    ensures st.session.Some? ==> r.0.call.None? && r.1 == st
    ensures r.1.tokens == st.tokens
    ensures !(r.0.call.Some? && reply.Confirmed?) ==> r.1 == st
    ensures r.0.call.Some? && reply.Confirmed? ==>
      && r.1.users == FirstOrCreate(st.users, reply.user.email, reply.user.name, password).0
      && r.1.session == Some(r.1.users[reply.user.email])
    ensures Consistent(st) ==> Consistent(r.1)
    ensures Consistent(st) && r.1.session.Some? ==> st.session.Some? || (reply.Confirmed? && r.1.session.value.email == reply.user.email)
  {
    var back := Redirect(To(returnTo.GetOr(cfg.dashboardRoute)), None);
    if st.session.Some? then
      (CallbackOutcome(back, None), st)
    else
      var call := ValidationCall(cfg, st, token, issuer);
      if call.Some? && reply.Confirmed? then
        var found := FirstOrCreate(st.users, reply.user.email, reply.user.name, password);
        (CallbackOutcome(back, call), st.(users := found.0, session := Some(found.1)))
      else
        (CallbackOutcome(back, call), st)
  }

  /**
   * `redirectThroughPartner`: without a (truthy) partner URL, go straight to
   * the destination with a flash message. Otherwise issue a token for the
   * user and redirect to the partner's callback link naming this app as issuer.
   */
  function RedirectThroughPartner(cfg: Config, st: AppState, user: User, dest: string, generated: string, now: nat): (r: (Outcome<Redirect>, AppState))
    ensures !Truthy(cfg.partnerUrl) ==> r == (Done(Redirect(To(dest), Some("Login successful!"))), st)
    ensures Truthy(cfg.partnerUrl) ==>
      var issued := Issue(st.tokens, Identity(user.email, user.name), generated, now);
      && r.1 == st.(tokens := issued.1)
      && (issued.0.Issued? ==> r.0 == Done(Redirect(CallbackLink(cfg.partnerUrl.value, generated, cfg.appUrl, dest), None)))
      && (issued.0.DuplicateToken? ==> r.0 == StoreFailure)
    ensures r.1.users == st.users && r.1.session == st.session
    ensures Consistent(st) ==> Consistent(r.1)
  {
    if !Truthy(cfg.partnerUrl) then
      (Done(Redirect(To(dest), Some("Login successful!"))), st)
    else
      var issued := Issue(st.tokens, Identity(user.email, user.name), generated, now);
      var st' := st.(tokens := issued.1);
      match issued.0
      case DuplicateToken => (StoreFailure, st')
      case Issued(t) => (Done(Redirect(CallbackLink(cfg.partnerUrl.value, t, cfg.appUrl, dest), None)), st')
  }

  /** What the dashboard page is given. */
  datatype DashboardView = DashboardView(user: User, partnerUrl: Option<string>, ssoLink: Location)

  /**
   * `dashboard` (behind the `auth` middleware): issue a fresh token for the
   * logged-in user and build the partner callback link returning to the
   * partner's dashboard. The partner URL is concatenated without a check.
   */
  function Dashboard(cfg: Config, st: AppState, generated: string, now: nat): (r: (Outcome<DashboardView>, AppState))
    requires st.session.Some?
    ensures var issued := Issue(st.tokens, Identity(st.session.value.email, st.session.value.name), generated, now);
      && r.1 == st.(tokens := issued.1)
      && (r.0.Done? <==> issued.0.Issued?)
    ensures r.0.Done? ==> r.0.value.user == st.session.value && r.0.value.partnerUrl == cfg.partnerUrl
    ensures r.0.Done? ==> var link := r.0.value.ssoLink;
      && link.WithQuery? && link.base == Str(cfg.partnerUrl) + CallbackPath
      && QueryValue(link.query, "token") == Some(generated)
      && QueryValue(link.query, "issuer") == Some(cfg.appUrl)
      && QueryValue(link.query, "return_to") == Some(Str(cfg.partnerUrl) + DashboardPath)
    ensures Consistent(st) ==> Consistent(r.1)
  {
    var user := st.session.value;
    var issued := Issue(st.tokens, Identity(user.email, user.name), generated, now);
    var st' := st.(tokens := issued.1);
    match issued.0
    case DuplicateToken => (StoreFailure, st')
    case Issued(t) =>
      var partner := Str(cfg.partnerUrl);
      (Done(DashboardView(user, cfg.partnerUrl, CallbackLink(partner, t, cfg.appUrl, partner + DashboardPath))), st')
  }

  /**
   * `logout`: end the session, then hand the browser to the partner's
   * `/sso/logout` with our login page as `return_to`, or, without a partner,
   * go to the login page with a flash message.
   */
  function Logout(cfg: Config, st: AppState): (r: (Redirect, AppState))
    ensures r.1.session.None? && r.1.tokens == st.tokens && r.1.users == st.users
    ensures Truthy(cfg.partnerUrl) ==> r.0 == Redirect(LogoutLink(cfg.partnerUrl.value, cfg.loginRoute), None)
    ensures !Truthy(cfg.partnerUrl) ==> r.0 == Redirect(To(cfg.loginRoute), Some("Logged out successfully."))
    ensures Consistent(st) ==> Consistent(r.1)
  {
    var st' := st.(session := None);
    if Truthy(cfg.partnerUrl) then
      (Redirect(LogoutLink(cfg.partnerUrl.value, cfg.loginRoute), None), st')
    else
      (Redirect(To(cfg.loginRoute), Some("Logged out successfully.")), st')
  }

  /** `ssoLogout`: end the session if there is one, and redirect to `return_to` (the login page when absent). */
  function SsoLogout(cfg: Config, st: AppState, returnTo: Option<string>): (r: (Redirect, AppState))
    ensures r.0 == Redirect(To(returnTo.GetOr(cfg.loginRoute)), Some("You have been logged out from both systems."))
    ensures r.1.session.None? && r.1.tokens == st.tokens && r.1.users == st.users
    ensures st.session.None? ==> r.1 == st
    ensures Consistent(st) ==> Consistent(r.1)
  {
    var st' := if st.session.Some? then st.(session := None) else st;
    (Redirect(To(returnTo.GetOr(cfg.loginRoute)), Some("You have been logged out from both systems.")), st')
  }

  /** The user-sync request `syncUserToPartner` posts after a registration. */
  datatype SyncCall = SyncCall(url: string, name: string, email: string, password: string, secret: string)

  /** `syncUserToPartner`: no request without a truthy partner URL; otherwise the user's fields, the plain password and the secret. */
  function SyncCallFor(cfg: Config, user: User, plainPassword: string): (r: Option<SyncCall>)
    ensures r.Some? <==> Truthy(cfg.partnerUrl)
    ensures r.Some? ==> r.value.url == cfg.partnerUrl.value + SyncPath && r.value.secret == cfg.secret
    ensures r.Some? ==> r.value.email == user.email && r.value.name == user.name && r.value.password == plainPassword
  {
    if Truthy(cfg.partnerUrl) then
      Some(SyncCall(cfg.partnerUrl.value + SyncPath, user.name, user.email, plainPassword, cfg.secret))
    else
      None
  }

  /**
   * A sync request from `a` accepted by a partner `b` sharing the secret
   * leaves `b` with a user under the same email, whose record is the new one
   * (same name) unless `b` already had that email.
   */
  lemma SyncLandsOnPartner(a: Config, b: Config, users: UserTable, user: User, plainPassword: string, hashed: string)
    requires Truthy(a.partnerUrl) && a.secret == b.secret
    ensures var call := SyncCallFor(a, user, plainPassword).value;
      var synced := SyncUser(users, b.secret, Some(call.secret), call.name, call.email, hashed);
      && synced.0 == Synced
      && user.email in synced.1
      && (user.email !in users ==> synced.1[user.email] == User(user.email, user.name, hashed))
      && (user.email in users ==> synced.1 == users)
  {
  }

  /**
   * Logging out of `a` ends the session on both sides: the browser is handed
   * to `b`'s `ssoLogout`, which ends its session and sends the browser back to
   * `a`'s login page.
   */
  lemma LogoutPropagates(a: Config, sa: AppState, b: Config, sb: AppState)
    requires Truthy(a.partnerUrl)
    ensures var out := Logout(a, sa);
      && out.0.location.WithQuery?
      && out.0.location.base == a.partnerUrl.value + LogoutPath
      && var back := SsoLogout(b, sb, QueryValue(out.0.location.query, "return_to"));
      && out.1.session.None? && back.1.session.None?
      && back.0.location == To(a.loginRoute)
  {
  }

  /** The outcome of one cross-application login handoff. */
  datatype Relay = Relay(callback: CallbackOutcome, issuer: AppState, receiver: AppState)

  /**
   * One login handoff from app `a` to app `b`: `a` issues a token and sends
   * the browser to `b`'s callback link; `b` reads the query and, when its
   * validation request is addressed to `a`, `a` validates at time `later`,
   * and `b` acts on that answer (any other address is unreachable here).
   * None when `a` does not send the browser to a callback link.
   */
  function RelayLogin(a: Config, sa: AppState, b: Config, sb: AppState, user: User, dest: string,
                      generated: string, now: nat, later: nat, password: string): Option<Relay>
  {
    var sent := RedirectThroughPartner(a, sa, user, dest, generated, now);
    if sent.0.StoreFailure? || !sent.0.value.location.WithQuery? then None
    else
      var q := sent.0.value.location.query;
      var token, issuer, back := QueryValue(q, "token"), QueryValue(q, "issuer"), QueryValue(q, "return_to");
      var call := ValidationCall(b, sb, token, issuer);
      var answered :=
        if call.Some? && call.value.url == a.appUrl + ValidatePath then
          var v := Validate(sent.1.tokens, a.secret, Some(call.value.secret), Some(call.value.token), later);
          (ReplyOf(v.0), sent.1.(tokens := v.1))
        else
          (Unreachable, sent.1);
      var received := Callback(b, sb, token, issuer, back, answered.0, password);
      Some(Relay(received.0, answered.1, received.1))
  }

  /**
   * Login handoff round trip: with a shared secret, a fresh 64-character
   * token and validation before expiry, the browser ends at `dest`, `b` has
   * a session for the user `a` logged in (found or created by email), and
   * `a`'s token is consumed.
   */
  lemma RelayLogsIn(a: Config, sa: AppState, b: Config, sb: AppState, user: User, dest: string,
                    generated: string, now: nat, later: nat, password: string)
    requires Truthy(a.partnerUrl) && Truthy(Some(a.appUrl)) && a.secret == b.secret
    requires |generated| == TokenLength && generated !in sa.tokens
    requires sb.session.None?
    requires later < now + TokenTtl
    ensures var r := RelayLogin(a, sa, b, sb, user, dest, generated, now, later, password);
      && r.Some?
      && r.value.callback.redirect == Redirect(To(dest), None)
      && r.value.receiver.session == Some(FirstOrCreate(sb.users, user.email, user.name, password).1)
      && r.value.receiver.tokens == sb.tokens
      && !Redeemable(r.value.issuer.tokens, generated, later)
  {
  }

  /** Without a shared secret the handoff logs nobody in on `b`, and `a`'s token stays redeemable. */
  lemma RelayNeedsSharedSecret(a: Config, sa: AppState, b: Config, sb: AppState, user: User, dest: string,
                               generated: string, now: nat, later: nat, password: string)
    requires Truthy(a.partnerUrl) && a.secret != b.secret
    requires generated !in sa.tokens
    requires sb.session.None?
    requires later < now + TokenTtl
    ensures var r := RelayLogin(a, sa, b, sb, user, dest, generated, now, later, password);
      && r.Some?
      && r.value.receiver == sb
      && Redeemable(r.value.issuer.tokens, generated, later)
  {
  }
}
