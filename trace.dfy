/**
 * Sequences of requests against one token table: issuances and validations,
 * handled one after another. Proves that a token is redeemed at most once,
 * provided the random generator never produces it again (the sweep may
 * delete a used row, after which the unique index alone no longer excludes
 * a second row with the same token).
 */
module Trace {
  import opened Wrappers
  import opened TokenStore

  datatype Request =
    | IssueToken(who: Identity, generated: string, at: nat)
    | ValidateToken(presented: Option<string>, token: Option<string>, at: nat)

  /** The table after one request, with `secret` configured. */
  function Step(s: Store, secret: string, req: Request): Store {
    match req
    case IssueToken(who, generated, at) => Issue(s, who, generated, at).1
    case ValidateToken(presented, token, at) => Validate(s, secret, presented, token, at).1
  }

  /** The table after the requests, in order. Keeps the tokens unique. */
  function Replay(s: Store, secret: string, reqs: seq<Request>): (r: Store)
    ensures Keyed(s) ==> Keyed(r)
    decreases |reqs|
  {
    if reqs == [] then s else Replay(Step(s, secret, reqs[0]), secret, reqs[1..])
  }

  /** How many of the requests are validations of `t` that succeed. */
  function Redemptions(s: Store, secret: string, reqs: seq<Request>, t: string): nat
    decreases |reqs|
  {
    if reqs == [] then 0
    else
      var req := reqs[0];
      var hit := if req.ValidateToken? && req.token == Some(t) && Validate(s, secret, req.presented, req.token, req.at).0.Valid? then 1 else 0;
      hit + Redemptions(Step(s, secret, req), secret, reqs[1..], t)
  }

  /** `t` can no longer be redeemed: its row is gone or used. */
  predicate Spent(s: Store, t: string) {
    t in s ==> s[t].isUsed
  }

  /** No issuance in `reqs` produces the token `t`. */
  predicate NeverReissues(reqs: seq<Request>, t: string) {
    forall i :: 0 <= i < |reqs| ==> !(reqs[i].IssueToken? && reqs[i].generated == t)
  }

  /** One step keeps a spent token spent, unless it issues that very token. */
  lemma StepKeepsSpent(s: Store, secret: string, req: Request, t: string)
    requires Spent(s, t)
    requires !(req.IssueToken? && req.generated == t)
    ensures Spent(Step(s, secret, req), t)
  {
  }

  /** A spent token stays spent through any requests that do not reissue it, and none of them redeems it. */
  lemma {:induction false} SpentStaysSpent(s: Store, secret: string, reqs: seq<Request>, t: string)
    requires Spent(s, t) && NeverReissues(reqs, t)
    ensures Spent(Replay(s, secret, reqs), t)
    ensures Redemptions(s, secret, reqs, t) == 0
    decreases |reqs|
  {
    if reqs != [] {
      StepKeepsSpent(s, secret, reqs[0], t);
      assert NeverReissues(reqs[1..], t) by {
        forall i | 0 <= i < |reqs[1..]| ensures !(reqs[1..][i].IssueToken? && reqs[1..][i].generated == t) {
          assert reqs[1..][i] == reqs[i + 1];
        }
      }
      SpentStaysSpent(Step(s, secret, reqs[0]), secret, reqs[1..], t);
    }
  }

  /** However the requests interleave, a token that is never reissued is redeemed at most once. */
  lemma {:induction false} RedeemedAtMostOnce(s: Store, secret: string, reqs: seq<Request>, t: string)
    requires NeverReissues(reqs, t)
    ensures Redemptions(s, secret, reqs, t) <= 1
    decreases |reqs|
  {
    if reqs != [] {
      var req := reqs[0];
      var s1 := Step(s, secret, req);
      assert NeverReissues(reqs[1..], t) by {
        forall i | 0 <= i < |reqs[1..]| ensures !(reqs[1..][i].IssueToken? && reqs[1..][i].generated == t) {
          assert reqs[1..][i] == reqs[i + 1];
        }
      }
      if req.ValidateToken? && req.token == Some(t) && Validate(s, secret, req.presented, req.token, req.at).0.Valid? {
        SpentStaysSpent(s1, secret, reqs[1..], t);
      } else {
        RedeemedAtMostOnce(s1, secret, reqs[1..], t);
      }
    }
  }

  /**
   * Single use: after `t` is validated once, any later validation of `t`
   * fails, whatever its time and secret and whatever requests came between,
   * as long as none of them reissued `t`.
   */
  lemma SingleUse(s: Store, secret: string, presented: Option<string>, t: string, now: nat,
                  between: seq<Request>, presented2: Option<string>, later: nat)
    requires Validate(s, secret, presented, Some(t), now).0.Valid?
    requires NeverReissues(between, t)
    ensures var s1 := Replay(Validate(s, secret, presented, Some(t), now).1, secret, between);
      !Validate(s1, secret, presented2, Some(t), later).0.Valid?
  {
    SpentStaysSpent(Validate(s, secret, presented, Some(t), now).1, secret, between, t);
  }
}
