/** The record of kills and respawns against which scores and lives are stated. */
module Ledger {
  import opened Entities

  const REWARD_SNIPE := 1
  const REWARD_GENERATOR := 10
  const REWARD_PLAYER := 25
  const DEATH_PENALTY := -5

  datatype LifeEvent = Killed(victim: ID, kind: Kind, killer: ID) | Respawned(id: ID)

  /** Deaths of p, by whatever hand. */
  function Deaths(log: seq<LifeEvent>, p: ID): nat {
    if log == [] then 0
    else
      var e := log[|log| - 1];
      Deaths(log[..|log| - 1], p) + if e.Killed? && e.victim == p then 1 else 0
  }

  /** Kills of this kind credited to p; one's own death is no credit. */
  function Kills(log: seq<LifeEvent>, p: ID, k: Kind): nat {
    if log == [] then 0
    else
      var e := log[|log| - 1];
      Kills(log[..|log| - 1], p, k) + if e.Killed? && e.killer == p && e.kind == k && e.victim != p then 1 else 0
  }

  function Score(log: seq<LifeEvent>, p: ID): int {
    REWARD_PLAYER * Kills(log, p, Player) + REWARD_GENERATOR * Kills(log, p, Generator)
    + REWARD_SNIPE * Kills(log, p, Snipe) + DEATH_PENALTY * Deaths(log, p)
  }

  /** Not killed since the start or the last respawn. */
  predicate AliveIn(log: seq<LifeEvent>, id: ID) {
    if log == [] then true
    else match log[|log| - 1]
      case Killed(v, _, _) => v != id && AliveIn(log[..|log| - 1], id)
      case Respawned(r) => r == id || AliveIn(log[..|log| - 1], id)
  }

  /** Every kill strikes someone alive. */
  ghost predicate OnceALife(log: seq<LifeEvent>) {
    forall i | 0 <= i < |log| && log[i].Killed? :: AliveIn(log[..i], log[i].victim)
  }

  /** Between two kills of the same entity it has respawned. */
  lemma {:induction false} RespawnBetween(log: seq<LifeEvent>, i: int, j: int)
    requires OnceALife(log) && 0 <= i < j < |log|
    requires log[i].Killed? && log[j].Killed? && log[i].victim == log[j].victim
    ensures exists k | i < k < j :: log[k] == Respawned(log[i].victim)
  {
    LastChange(log, i, j, log[i].victim);
  }

  lemma {:induction false} LastChange(log: seq<LifeEvent>, i: int, j: int, id: ID)
    requires 0 <= i < j <= |log| && log[i].Killed? && log[i].victim == id && AliveIn(log[..j], id)
    ensures exists k | i < k < j :: log[k] == Respawned(id)
    decreases j
  {
    assert log[..j][..j - 1] == log[..j - 1];
    if log[j - 1] != Respawned(id) {
      LastChange(log, i, j - 1, id);
    }
  }

  lemma OneMore(log: seq<LifeEvent>, e: LifeEvent, id: ID)
    ensures AliveIn(log + [e], id) <==>
              if e.Killed? then e.victim != id && AliveIn(log, id) else e.id == id || AliveIn(log, id)
    ensures OnceALife(log) && (e.Killed? ==> AliveIn(log, e.victim)) ==> OnceALife(log + [e])
  {
    assert (log + [e])[..|log|] == log;
    forall i | 0 <= i < |log|
      ensures (log + [e])[..i] == log[..i]
    {
    }
  }

  /** What one more kill does to p's account. */
  lemma KillAccounts(log: seq<LifeEvent>, victim: ID, kind: Kind, killer: ID, p: ID)
    ensures var log' := log + [Killed(victim, kind, killer)];
            && Deaths(log', p) == Deaths(log, p) + (if p == victim then 1 else 0)
            && Score(log', p) == Score(log, p)
                + (if p == victim then DEATH_PENALTY else 0)
                + (if p == killer && p != victim then
                     if kind == Player then REWARD_PLAYER else if kind == Generator then REWARD_GENERATOR
                     else if kind == Snipe then REWARD_SNIPE else 0
                   else 0)
  {
    var log' := log + [Killed(victim, kind, killer)];
    assert log'[..|log|] == log;
  }

  /** A respawn is no entry in anyone's account. */
  lemma RespawnAccounts(log: seq<LifeEvent>, id: ID, p: ID)
    ensures Deaths(log + [Respawned(id)], p) == Deaths(log, p) && Score(log + [Respawned(id)], p) == Score(log, p)
  {
    assert (log + [Respawned(id)])[..|log|] == log;
  }
}
