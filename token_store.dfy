/**
 * The `sso_tokens` table and the two operations on it: issuing a one-time
 * token (`createSsoToken`) and validating-and-consuming it (`apiSsoValidate`).
 * Time is a number of seconds; `now` is an input of every operation.
 */
module TokenStore {
  import opened Wrappers

  /** Lifetime of a token: `now()->addMinutes(5)`, in seconds. */
  const TokenTtl: nat := 300

  /** Width of the `token` column and length of `Str::random(64)`. */
  const TokenLength: nat := 64

  /** The claim a token carries: who it logs in on the far side. */
  datatype Identity = Identity(email: string, name: string)

  /** One row of `sso_tokens`. `isUsed` defaults to false in the migration. */
  datatype TokenRow = TokenRow(token: string, userEmail: string, userName: string, expiresAt: nat, isUsed: bool)
  {
    function Bound(): Identity { Identity(userEmail, userName) }
  }

  /** The table, keyed by its unique `token` column. */
  type Store = map<string, TokenRow>

  /** The unique index on `token`: every row is stored under its own token. */
  predicate Keyed(s: Store) {
    forall t :: t in s ==> s[t].token == t
  }

  /** The validator's filter: `is_used = false` and `expires_at > now`. */
  predicate Live(row: TokenRow, now: nat) {
    !row.isUsed && row.expiresAt > now
  }

  /** A validation of `t` at `now` (with the right secret) finds a row. */
  predicate Redeemable(s: Store, t: string, now: nat) {
    t in s && Live(s[t], now)
  }

  /** The cleanup `delete ... where expires_at < now`: removes exactly the rows expired strictly before `now`. */
  function Sweep(s: Store, now: nat): (r: Store)
    ensures forall t :: t in r ==> t in s && r[t] == s[t] && s[t].expiresAt >= now
    ensures forall t :: t in s && s[t].expiresAt >= now ==> t in r
    ensures Keyed(s) ==> Keyed(r)
  {
    map t | t in s && !(s[t].expiresAt < now) :: s[t]
  }

  /** Outcome of `createSsoToken`: the token, or the unique-constraint failure of the insert. */
  datatype IssueResult = Issued(token: string) | DuplicateToken

  /**
   * `createSsoToken`: sweep, then insert an unused row for `who` expiring
   * `TokenTtl` seconds after `now`. `generated` is the output of the random
   * generator; if it collides with a row that survived the sweep the insert
   * fails, and the sweep (already executed) stays.
   */
  function Issue(s: Store, who: Identity, generated: string, now: nat): (r: (IssueResult, Store))
    ensures r.0.Issued? <==> generated !in Sweep(s, now)
    ensures r.0.Issued? ==> r.0.token == generated
    ensures r.0.DuplicateToken? ==> r.1 == Sweep(s, now)
    ensures r.0.Issued? ==> generated in r.1 && r.1[generated].Bound() == who
    ensures r.0.Issued? ==> forall later: nat :: later < now + TokenTtl ==> Redeemable(r.1, generated, later)
    ensures r.0.Issued? ==> !Redeemable(r.1, generated, now + TokenTtl)
    ensures forall t :: t != generated ==> (t in r.1 <==> t in Sweep(s, now))
    ensures forall t :: t in r.1 && t != generated ==> r.1[t] == s[t]
    ensures Keyed(s) ==> Keyed(r.1)
  {
    var swept := Sweep(s, now);
    if generated in swept then
      (DuplicateToken, swept)
    else
      (Issued(generated), swept[generated := TokenRow(generated, who.email, who.name, now + TokenTtl, false)])
  }

  /** Response of `apiSsoValidate`. */
  datatype Verdict = Unauthorized | InvalidOrExpired | Valid(user: Identity)
  {
    function Status(): nat {
      if Valid? then 200 else 401
    }

    function Error(): Option<string> {
      match this
      case Unauthorized => Some("Unauthorized")
      case InvalidOrExpired => Some("Invalid or expired token")
      case Valid(_) => None
    }
  }

  /**
   * `apiSsoValidate`: reject a presented secret that is not the configured one
   * (an absent secret never matches), then look up an unused, unexpired row
   * with the presented token (an absent token matches no row), mark it used
   * and answer with the identity stored in it.
   */
  function Validate(s: Store, secret: string, presented: Option<string>, token: Option<string>, now: nat): (r: (Verdict, Store))
    ensures r.0.Unauthorized? <==> presented != Some(secret)
    ensures r.0.Valid? <==> presented == Some(secret) && token.Some? && Redeemable(s, token.value, now)
    ensures !r.0.Valid? ==> r.1 == s
    ensures r.0.Valid? ==> r.0.user == s[token.value].Bound()
    ensures r.0.Valid? ==> r.1 == s[token.value := s[token.value].(isUsed := true)]
    ensures r.0.Valid? ==> !Redeemable(r.1, token.value, now)
    ensures r.0.Status() == 200 <==> r.0.Valid?
    ensures r.0.Error() == Some("Unauthorized") <==> presented != Some(secret)
    ensures r.0.Error() == Some("Invalid or expired token") <==> presented == Some(secret) && !r.0.Valid?
    ensures Keyed(s) ==> Keyed(r.1)
  {
    if presented != Some(secret) then
      (Unauthorized, s)
    else if token.None? || !Redeemable(s, token.value, now) then
      (InvalidOrExpired, s)
    else
      var row := s[token.value];
      (Valid(row.Bound()), s[token.value := row.(isUsed := true)])
  }

  /** A wrong secret changes nothing, and the token is still good for a call with the right secret. */
  lemma WrongSecretKeepsToken(s: Store, secret: string, presented: Option<string>, t: string, now: nat, later: nat)
    requires presented != Some(secret)
    requires Redeemable(s, t, later)
    ensures Validate(s, secret, presented, Some(t), now) == (Unauthorized, s)
    ensures Validate(Validate(s, secret, presented, Some(t), now).1, secret, Some(secret), Some(t), later).0 == Valid(s[t].Bound())
  {
  }

  /** A row whose expiry is not after `now` never validates, whether used or not. */
  lemma ExpiredNeverValidates(s: Store, secret: string, presented: Option<string>, t: string, now: nat)
    requires t in s && s[t].expiresAt <= now
    ensures !Validate(s, secret, presented, Some(t), now).0.Valid?
    ensures Validate(s, secret, presented, Some(t), now).1 == s
  {
  }

  /** The boundary: a row expiring exactly at `now` survives the sweep but is no longer valid. */
  lemma ExpiryBoundary(s: Store, t: string, now: nat)
    requires t in s && s[t].expiresAt == now
    ensures t in Sweep(s, now)
    ensures !Redeemable(Sweep(s, now), t, now)
  {
  }

  /** Single use, for two consecutive calls: once `t` validated, validating it again fails whatever the time or secret. */
  lemma ValidateTwice(s: Store, secret: string, p1: Option<string>, p2: Option<string>, t: string, now: nat, later: nat)
    requires Validate(s, secret, p1, Some(t), now).0.Valid?
    ensures var s1 := Validate(s, secret, p1, Some(t), now).1;
      !Validate(s1, secret, p2, Some(t), later).0.Valid? && Validate(s1, secret, p2, Some(t), later).1 == s1
  {
  }

  /** Round trip: a token issued for `who` validates, with the right secret and before expiry, to exactly `who`. */
  lemma IssueThenValidate(s: Store, who: Identity, generated: string, secret: string, now: nat, later: nat)
    requires generated !in s
    requires later < now + TokenTtl
    ensures Issue(s, who, generated, now).0 == Issued(generated)
    ensures Validate(Issue(s, who, generated, now).1, secret, Some(secret), Some(generated), later).0 == Valid(who)
  {
  }
}
