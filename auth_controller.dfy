/**
 * `AuthController` as an object: the token table, the user table and the
 * browser's session are fields that its request handlers update in place.
 * Each handler is proved to do what the matching function of `Handoff`,
 * `TokenStore` or `Users` describes, and to keep the tables consistent.
 */
module Controller {
  import opened Wrappers
  import opened TokenStore
  import opened Users
  import opened Redirects
  import opened Handoff

  class AuthController {
    /** The environment values and route URLs, fixed when the controller is built. */
    const config: Config

    var tokens: Store
    var users: UserTable
    var session: Option<User>

    function State(): AppState
      reads this
    {
      AppState(tokens, users, session)
    }

    ghost predicate Valid()
      reads this
    {
      Consistent(State())
    }

    constructor (config: Config, initial: AppState)
      requires Consistent(initial)
      ensures this.config == config && State() == initial && Valid()
    {
      this.config := config;
      tokens := initial.tokens;
      users := initial.users;
      session := initial.session;
    }

    /** `createSsoToken`: delete the expired rows, then insert a fresh row for `user`. */
    method CreateSsoToken(user: User, generated: string, now: nat) returns (r: IssueResult)
      requires Valid()
      modifies this
      ensures Valid()
      ensures (r, tokens) == Issue(old(tokens), Identity(user.email, user.name), generated, now)
      ensures users == old(users) && session == old(session)
    {
      tokens := map t | t in tokens && !(tokens[t].expiresAt < now) :: tokens[t];
      if generated in tokens {
        r := DuplicateToken;
        return;
      }
      tokens := tokens[generated := TokenRow(generated, user.email, user.name, now + TokenTtl, false)];
      r := Issued(generated);
    }

    /** `apiSsoValidate`: check the secret, find an unused unexpired row, mark it used and answer with its identity. */
    method ApiSsoValidate(presented: Option<string>, token: Option<string>, now: nat) returns (r: Verdict)
      requires Valid()
      modifies this
      ensures Valid()
      ensures (r, tokens) == Validate(old(tokens), config.secret, presented, token, now)
      ensures users == old(users) && session == old(session)
    {
      if presented != Some(config.secret) {
        return Unauthorized;
      }
      if token.None? || token.value !in tokens || !Live(tokens[token.value], now) {
        return InvalidOrExpired;
      }
      var row := tokens[token.value];
      tokens := tokens[token.value := row.(isUsed := true)];
      r := Verdict.Valid(Identity(row.userEmail, row.userName));
    }

    /** `User::firstOrCreate` keyed by email, as both `ssoCallback` and `apiSyncUser` use it. */
    method FirstOrCreateUser(email: string, name: string, password: string) returns (user: User)
      requires Valid()
      modifies this
      ensures Valid()
      ensures (users, user) == FirstOrCreate(old(users), email, name, password)
      ensures tokens == old(tokens) && session == old(session)
    {
      if email in users {
        user := users[email];
      } else {
        user := User(email, name, password);
        users := users[email := user];
      }
    }

    /** `apiSyncUser`: with the right secret, find-or-create the user; otherwise 401 and no change. */
    method ApiSyncUser(presented: Option<string>, name: string, email: string, hashed: string) returns (r: SyncReply)
      requires Valid()
      modifies this
      ensures Valid()
      ensures (r, users) == SyncUser(old(users), config.secret, presented, name, email, hashed)
      ensures tokens == old(tokens) && session == old(session)
    {
      if presented != Some(config.secret) {
        return SyncUnauthorized;
      }
      var _ := FirstOrCreateUser(email, name, hashed);
      r := Synced;
    }

    /** `ssoCallback`, with `reply` standing for the issuer's answer to the validation request, if one is sent. */
    method SsoCallback(token: Option<string>, issuer: Option<string>, returnTo: Option<string>,
                       reply: PartnerReply, password: string) returns (r: CallbackOutcome)
      requires Valid()
      modifies this
      ensures Valid()
      ensures (r, State()) == Callback(config, old(State()), token, issuer, returnTo, reply, password)
    {
      var back := Redirect(To(returnTo.GetOr(config.dashboardRoute)), None);
      if session.Some? {
        return CallbackOutcome(back, None);
      }
      var call := None;
      if Truthy(token) && Truthy(issuer) {
        call := Some(ValidateCall(issuer.value + ValidatePath, token.value, config.secret));
        if reply.Confirmed? {
          var user := FirstOrCreateUser(reply.user.email, reply.user.name, password);
          session := Some(user);
        }
      }
      r := CallbackOutcome(back, call);
    }

    /** `redirectThroughPartner`, after a local login or registration. */
    method RedirectThroughPartner(user: User, dest: string, generated: string, now: nat) returns (r: Outcome<Redirect>)
      requires Valid()
      modifies this
      ensures Valid()
      ensures (r, State()) == Handoff.RedirectThroughPartner(config, old(State()), user, dest, generated, now)
    {
      if !Truthy(config.partnerUrl) {
        return Done(Redirect(To(dest), Some("Login successful!")));
      }
      var issued := CreateSsoToken(user, generated, now);
      match issued
      case DuplicateToken =>
        r := StoreFailure;
      case Issued(t) =>
        r := Done(Redirect(CallbackLink(config.partnerUrl.value, t, config.appUrl, dest), None));
    }

    /** `dashboard`, reached only with a session (the `auth` middleware). */
    method Dashboard(generated: string, now: nat) returns (r: Outcome<DashboardView>)
      requires Valid() && session.Some?
      modifies this
      ensures Valid()
      ensures (r, State()) == Handoff.Dashboard(config, old(State()), generated, now)
    {
      var user := session.value;
      var issued := CreateSsoToken(user, generated, now);
      match issued
      case DuplicateToken =>
        r := StoreFailure;
      case Issued(t) =>
        var partner := Str(config.partnerUrl);
        r := Done(DashboardView(user, config.partnerUrl, CallbackLink(partner, t, config.appUrl, partner + DashboardPath)));
    }

    /** `logout`. */
    method Logout() returns (r: Redirect)
      requires Valid()
      modifies this
      ensures Valid()
      ensures (r, State()) == Handoff.Logout(config, old(State()))
    {
      session := None;
      if Truthy(config.partnerUrl) {
        r := Redirect(LogoutLink(config.partnerUrl.value, config.loginRoute), None);
      } else {
        r := Redirect(To(config.loginRoute), Some("Logged out successfully."));
      }
    }

    /** `ssoLogout`. */
    method SsoLogout(returnTo: Option<string>) returns (r: Redirect)
      requires Valid()
      modifies this
      ensures Valid()
      ensures (r, State()) == Handoff.SsoLogout(config, old(State()), returnTo)
    {
      if session.Some? {
        session := None;
      }
      r := Redirect(To(returnTo.GetOr(config.loginRoute)), Some("You have been logged out from both systems."));
    }
  }

  /**
   * Single use through the controller: after a validation of `t` succeeds,
   * validating it again on the same controller fails, with any secret at any time.
   */
  method ConsumeTwice(c: AuthController, t: string, now: nat, presented2: Option<string>, later: nat)
    returns (first: Verdict, second: Verdict)
    requires c.Valid()
    modifies c
    ensures first.Valid? ==> !second.Valid?
    ensures !first.Valid? ==> second == Validate(old(c.tokens), c.config.secret, presented2, Some(t), later).0
  {
    first := c.ApiSsoValidate(Some(c.config.secret), Some(t), now);
    second := c.ApiSsoValidate(presented2, Some(t), later);
  }
}
