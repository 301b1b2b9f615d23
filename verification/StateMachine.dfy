/**
 The transaction state machine (services/pay/src/transactions/state-machine.ts):
 the constant transition table, and what its shape guarantees about any history
 whose every change the table allows.
 */
module StateMachine {

  datatype Status =
    | PENDING | AUTHN_STARTED | AUTHN_COMPLETE | ARQC_VALID | VAULT_RETRIEVED
    | STRIPE_CHARGED | COMPLETED | FAILED | EXPIRED

  const TERMINAL: set<Status> := {COMPLETED, FAILED, EXPIRED}

  function Allowed(from: Status): set<Status> {
    match from
    case PENDING => {AUTHN_STARTED, FAILED, EXPIRED}
    case AUTHN_STARTED => {AUTHN_COMPLETE, FAILED, EXPIRED}
    case AUTHN_COMPLETE => {ARQC_VALID, FAILED, EXPIRED}
    case ARQC_VALID => {VAULT_RETRIEVED, FAILED, EXPIRED}
    case VAULT_RETRIEVED => {STRIPE_CHARGED, FAILED, EXPIRED}
    case STRIPE_CHARGED => {COMPLETED, FAILED}
    case COMPLETED => {}
    case FAILED => {}
    case EXPIRED => {}
  }

  predicate IsTerminal(s: Status) { s in TERMINAL }

  predicate CanTransition(from: Status, to: Status) { to in Allowed(from) }

  /** How many changes can still follow a status. */
  function Rank(s: Status): nat {
    match s
    case PENDING => 6
    case AUTHN_STARTED => 5
    case AUTHN_COMPLETE => 4
    case ARQC_VALID => 3
    case VAULT_RETRIEVED => 2
    case STRIPE_CHARGED => 1
    case COMPLETED => 0
    case FAILED => 0
    case EXPIRED => 0
  }

  /** A history of statuses, oldest first, in which the table allows every change. */
  ghost predicate IsPath(history: seq<Status>) {
    && |history| > 0
    && forall i | 0 < i < |history| :: CanTransition(history[i - 1], history[i])
  }

  lemma {:induction false} PathsAreShort(history: seq<Status>)
    requires IsPath(history)
    ensures |history| - 1 + Rank(history[|history| - 1]) <= Rank(history[0])
    ensures forall i | 0 <= i < |history| - 1 :: !IsTerminal(history[i])
  {
    if |history| > 1 {
      var front := history[..|history| - 1];
      PathsAreShort(front);
      assert CanTransition(history[|history| - 2], history[|history| - 1]);
      forall i | 0 <= i < |history| - 1
        ensures !IsTerminal(history[i])
      {
        if i < |front| - 1 {
          assert front[i] == history[i];
        }
      }
    }
  }

  /** The happy path, in order. */
  const HAPPY_PATH: seq<Status> :=
    [PENDING, AUTHN_STARTED, AUTHN_COMPLETE, ARQC_VALID, VAULT_RETRIEVED, STRIPE_CHARGED, COMPLETED]

  predicate Follows(from: Status, to: Status) {
    exists i :: 0 <= i < |HAPPY_PATH| - 1 && HAPPY_PATH[i] == from && HAPPY_PATH[i + 1] == to
  }

  /** The table is the happy path, one status at a time, and its two branches. */
  lemma TableIsTheHappyPath(from: Status, to: Status)
    ensures CanTransition(from, to) <==>
              || Follows(from, to)
              || (to == FAILED && from !in {COMPLETED, FAILED, EXPIRED})
              || (to == EXPIRED && from !in {STRIPE_CHARGED, COMPLETED, FAILED, EXPIRED})
  {
    FollowsByRank(from, to);
    hide Follows;
  }

  lemma FollowsByRank(from: Status, to: Status)
    ensures Follows(from, to) <==> from !in {FAILED, EXPIRED} && to !in {FAILED, EXPIRED} && Rank(from) == Rank(to) + 1
  {
    if Follows(from, to) {
      var i :| 0 <= i < 6 && HAPPY_PATH[i] == from && HAPPY_PATH[i + 1] == to;
      AtRank(i);
      AtRank(i + 1);
    }
    if from !in {FAILED, EXPIRED} && to !in {FAILED, EXPIRED} && Rank(from) == Rank(to) + 1 {
      var i := 6 - Rank(from);
      AtRank(i);
      AtRank(i + 1);
      RankTells(from, HAPPY_PATH[i]);
      RankTells(to, HAPPY_PATH[i + 1]);
    }
  }

  lemma AtRank(i: nat)
    requires i <= 6
    ensures Rank(HAPPY_PATH[i]) == 6 - i && HAPPY_PATH[i] !in {FAILED, EXPIRED}
  {
  }

  lemma RankTells(s: Status, t: Status)
    requires Rank(s) == Rank(t) && s !in {FAILED, EXPIRED} && t !in {FAILED, EXPIRED}
    ensures s == t
  {
  }

  /**
   The two constants agree: the statuses in TERMINAL are exactly those the table gives
   no way out of, and a non-terminal status can always still fail.
   */
  lemma TerminalIffNoExit(s: Status)
    ensures IsTerminal(s) <==> Allowed(s) == {}
    ensures !IsTerminal(s) ==> CanTransition(s, FAILED)
    ensures CanTransition(s, EXPIRED) <==> !IsTerminal(s) && s != STRIPE_CHARGED
  {
  }
}
