/** Snipes over runs of ticks: how often they shoot, and with what warning. */
module SnipeRuns {
  import opened Options
  import opened Grid
  import opened Entities
  import opened Ledger
  import opened SimState
  import opened Control
  import opened Movement
  import opened SnipeMind
  import opened Firing
  import opened Emission
  import opened Respawn
  import opened Cleanup
  import opened Hits
  import opened Setup
  import opened Stages
  import opened Simulation
  import opened Runs

  /** The snipe lets a projectile go in this tick. */
  ghost predicate ShootsIn(leg: Leg, s: ID) { HasShot(leg.stages.moves.moved, leg.stages.moves.advised, s) }

  predicate Numbered(st: Store) { forall s | s in st.snipes :: s < st.nextID }

  /** Who remembers anything remembers the same as before, or is new. */
  ghost predicate Heirs(a: Store, b: Store) {
    a.nextID <= b.nextID
      && forall s | s in b.snipes :: if s in a.snipes then b.snipes[s] == a.snipes[s] else a.nextID <= s < b.nextID
  }

  lemma HeirsChain(a: Store, b: Store, c: Store)
    requires Heirs(a, b) && Heirs(b, c) && Numbered(a)
    ensures Heirs(a, c) && Numbered(b) && Numbered(c)
  {
  }

  predicate SameMemory(a: Store, b: Store) { b.snipes == a.snipes && b.nextID == a.nextID }

  /** The mind but for the wall it may have met. */
  function Resolve(ss: SnipeState): SnipeState { ss.(mind := ss.mind.(wallBlocked := false)) }

  // ---- stage by stage ----

  lemma SteersNotMinds(m: Maze, level: Option<Level>, tick: nat, inputs: map<ID, Input>, st0: Store, t: Moves,
                       st: Store)
    requires MoveStages(m, level, tick, inputs, st0, t, st)
    ensures SameMemory(st0, t.moved) && SameMemory(t.advised, t.walked) && SameMemory(t.noted, t.nudged)
            && SameMemory(t.emitted, st)
    ensures NotedStore(t.advised.slots, t.walked, t.noted)
            && EmissionStage(m, level, tick, t.nudged, t.emitted, t.emitFailed)
    ensures AdviceStage(m, level, tick, t.moved, t.advice, t.advised, t.exhausted)
  {
    hide Covers, Moved, Steered, Nudged, AdviceStage, NotedStore, EmissionStage, SteerPlayers, InTurn, Grown;
  }

  lemma NotedHeirs(before: seq<Entity>, a: Store, b: Store)
    requires NotedStore(before, a, b)
    ensures b.nextID == a.nextID && b.snipes.Keys == a.snipes.Keys
    ensures forall s | s in a.snipes :: Resolve(b.snipes[s]) == Resolve(a.snipes[s])
  {
    forall s | s in a.snipes
      ensures Resolve(b.snipes[s]) == Resolve(a.snipes[s])
    {
      if i :| 0 <= i < |before| && IsWalker(a.slots, i, s) {
        assert b.snipes[s] == Noticed(a.snipes[s], Bumped(before[i], a.slots[i]));
      }
    }
  }

  lemma EmissionHeirs(m: Maze, level: Option<Level>, tick: nat, a: Store, b: Store, failed: bool)
    requires EmissionStage(m, level, tick, a, b, failed)
    ensures Heirs(a, b)
  {
    hide EmittedStore, Starved;
  }

  /** What a decision leaves behind. */
  ghost predicate Minds(m: Maze, tick: nat, t: Tuning, a: Store, advice: map<ID, Advice>, b: Store) {
    && a.nextID <= b.nextID && b.snipes.Keys == a.snipes.Keys
    && Thoughts(m, a, tick, t, advice) && MindsBy(a, t, advice, b)
    && forall s | HasShot(a, b, s) :: s in advice && advice[s].move.Shoot?
  }

  lemma AdviceMinds(m: Maze, level: Option<Level>, tick: nat, a: Store, advice: map<ID, Advice>, b: Store,
                    exhausted: bool)
    requires AdviceStage(m, level, tick, a, advice, b, exhausted) && level.Some?
    ensures Minds(m, tick, level.value.snipes, a, advice, b)
  {
    hide Denied, Thoughts, Heeding, Deciders, OneEach, Grown;
    forall s | HasShot(a, b, s)
      ensures s in advice && advice[s].move.Shoot?
    {
      var k :| 0 <= k < |b.slots| && ShotInSlot(a, b, k, s);
      assert SnipeShot(a, advice, b, b.slots[k]);
    }
    assert a.nextID <= b.nextID by { hide *; GrownIDs(m, a, tick, level.value.snipes, advice, b); }
  }

  lemma GrownIDs(m: Maze, a: Store, tick: nat, t: Tuning, advice: map<ID, Advice>, b: Store)
    requires AdvisedStore(m, a, tick, t, advice, b)
    ensures a.nextID <= b.nextID
  {
    AdvisedGrown(m, a, tick, t, advice, b);
    hide AdvisedStore;
  }

  lemma HitsHeirs(m: Maze, noRespawn: bool, tick: nat, st0: Store, log0: seq<LifeEvent>, t: Flight, st: Store)
    requires HitStages(m, noRespawn, tick, st0, log0, t, st)
    ensures Heirs(st0, st)
  {
    FlightsFrame(m, tick, noRespawn, st0, log0, t.pids, |t.pids|, t.flown, t.flownLog);
    hide Flights, Prefix, Freed;
  }

  lemma EndHeirs(m: Maze, noRespawn: bool, tick: nat, inputs: map<ID, Input>, st0: Store, t: Ending, st: Store)
    requires EndStages(m, noRespawn, tick, inputs, st0, t, st)
    ensures Heirs(st0, st)
  {
    assert SameMemory(t.fired, t.respawned) && SameMemory(t.respawned, t.unshielded) by {
      hide FiredStore, Left, AloneAt, Wakes, Unshielded, Expired, CollectedStore, Returns;
    }
    assert t.fired.snipes == st0.snipes && st0.nextID <= t.fired.nextID by {
      hide PlayerShot, FiredOrNot, OneEach, RespawnedStore, UnshieldedStore, CollectedStore;
    }
    hide FiredStore, RespawnedStore, UnshieldedStore, CollectedSlots, CollectedPlayers, Freed;
  }

  lemma {:induction false} ActsHeirs(st: Store, acts: seq<Act>, st': Store)
    requires ActedAll(st, acts, st')
    ensures Heirs(st, st') && st'.nextID == st.nextID
  {
    if acts != [] {
      var mid: Store :| ActedAll(st, acts[..|acts| - 1], mid) && Acted(mid, acts[|acts| - 1], st');
      ActsHeirs(st, acts[..|acts| - 1], mid);
    }
  }

  /** The memory a tick ends with, for those that were there, is what they decided to remember. */
  ghost predicate Remembers(t: Tuning, leg: Leg, s: ID) {
    && s in leg.before.snipes && s in leg.after.snipes
    && Resolve(leg.after.snipes[s]) ==
       Resolve(if s in leg.stages.moves.advice then
                 leg.before.snipes[s].(mind := MindAfter(t, leg.stages.moves.advice[s], ShootsIn(leg, s)))
               else leg.before.snipes[s])
  }

  ghost predicate SnipeLeg(m: Maze, noRespawn: bool, t: Tuning, level: Option<Level>, tick: nat, leg: Leg) {
    level.Some? && t == level.value.snipes && Numbered(leg.before) && IsTick(m, noRespawn, level, tick, leg)
  }

  lemma LegMinds(m: Maze, noRespawn: bool, t: Tuning, level: Option<Level>, tick: nat, leg: Leg)
    requires SnipeLeg(m, noRespawn, t, level, tick, leg)
    ensures Numbered(leg.after) && leg.before.nextID <= leg.after.nextID
    ensures forall s | s in leg.after.snipes && s < leg.before.nextID :: Remembers(t, leg, s)
    ensures leg.stages.moves.moved.snipes == leg.before.snipes
    ensures Minds(m, tick, t, leg.stages.moves.moved, leg.stages.moves.advice, leg.stages.moves.advised)
  {
    var t' := leg.stages;
    var moves := t'.moves;
    assert IsTick(m, noRespawn, level, tick, leg) && Numbered(leg.before);
    assert level.Some? && t == level.value.snipes;
    hide *;
    var im, log := StagesOf(m, noRespawn, level, tick, leg);
    SteersNotMinds(m, level, tick, im, leg.before, moves, t'.recorded);
    AdviceMinds(m, level, tick, moves.moved, moves.advice, moves.advised, moves.exhausted);
    NotedHeirs(moves.advised.slots, moves.walked, moves.noted);
    EmissionHeirs(m, level, tick, moves.nudged, moves.emitted, moves.emitFailed);
    HitsHeirs(m, noRespawn, tick, t'.recorded, log, t'.flight, t'.aged);
    EndHeirs(m, noRespawn, tick, im, t'.aged, t'.ending, leg.after);
    LegTogether(m, tick, t, leg);
  }

  lemma LegTogether(m: Maze, tick: nat, t: Tuning, leg: Leg)
    requires var q := leg.stages.moves;
             && SameMemory(leg.before, q.moved) && SameMemory(q.advised, q.walked) && SameMemory(q.noted, q.nudged)
             && SameMemory(q.emitted, leg.stages.recorded)
             && q.noted.nextID == q.walked.nextID && q.noted.snipes.Keys == q.walked.snipes.Keys
             && (forall s | s in q.walked.snipes :: Resolve(q.noted.snipes[s]) == Resolve(q.walked.snipes[s]))
             && Heirs(q.nudged, q.emitted) && Minds(m, tick, t, q.moved, q.advice, q.advised)
    requires Heirs(leg.stages.recorded, leg.stages.aged) && Heirs(leg.stages.aged, leg.after) && Numbered(leg.before)
    ensures Numbered(leg.after) && leg.before.nextID <= leg.after.nextID
    ensures forall s | s in leg.after.snipes && s < leg.before.nextID :: Remembers(t, leg, s)
    ensures leg.stages.moves.moved.snipes == leg.before.snipes
  {
    hide HasShot, Thoughts;
    var q := leg.stages.moves;
    assert Numbered(q.nudged);
    HeirsChain(q.nudged, q.emitted, leg.stages.recorded);
    HeirsChain(q.nudged, leg.stages.recorded, leg.stages.aged);
    HeirsChain(q.nudged, leg.stages.aged, leg.after);
    forall s | s in leg.after.snipes && s < leg.before.nextID
      ensures Remembers(t, leg, s)
    {
      assert s in q.nudged.snipes && leg.after.snipes[s] == q.nudged.snipes[s];
    }
  }

  // ---- over a run ----

  ghost predicate SnipeRun(m: Maze, noRespawn: bool, t: Tuning, level: Option<Level>, start: nat, run: seq<Leg>) {
    level.Some? && t == level.value.snipes && IsRun(m, noRespawn, level, start, run)
      && run != [] && Numbered(run[0].before)
  }

  /** IDs in memory lie below the next one at the start of every tick, and next IDs do not go down. */
  lemma {:induction false} RunLegs(m: Maze, noRespawn: bool, t: Tuning, level: Option<Level>, start: nat, run: seq<Leg>,
                                   k: nat)
    requires SnipeRun(m, noRespawn, t, level, start, run) && k < |run|
    ensures SnipeLeg(m, noRespawn, t, level, start + k, run[k])
    ensures k > 0 ==> Heirs(run[k - 1].after, run[k].before) && run[k - 1].before.nextID <= run[k].before.nextID
  {
    hide IsTick, ActedAll, Numbered, Heirs, Remembers, Minds;
    if k > 0 {
      RunLegs(m, noRespawn, t, level, start, run, k - 1);
      LegMinds(m, noRespawn, t, level, start + (k - 1), run[k - 1]);
      ActsHeirs(run[k - 1].after, run[k - 1].acts, run[k].before);
      HeirsNumbered(run[k - 1].after, run[k].before);
    }
  }

  lemma HeirsNumbered(a: Store, b: Store)
    requires Numbered(a) && Heirs(a, b)
    ensures Numbered(b) && a.nextID <= b.nextID
  {
  }

  lemma HeirsSame(a: Store, b: Store, s: ID)
    requires Heirs(a, b) && s in b.snipes && s < a.nextID
    ensures s in a.snipes && b.snipes[s] == a.snipes[s]
  {
  }

  /** A snipe that was there for the whole tick remembers at the next what it decided to. */
  lemma NextRemembers(m: Maze, noRespawn: bool, t: Tuning, level: Option<Level>, start: nat, run: seq<Leg>, k: nat,
                      s: ID)
    requires SnipeRun(m, noRespawn, t, level, start, run) && k + 1 < |run|
    requires s in run[k + 1].before.snipes && s < run[k].before.nextID
    ensures Remembers(t, run[k], s) && s in run[k].after.snipes
    ensures run[k + 1].before.snipes[s] == run[k].after.snipes[s]
  {
    hide *;
    RunLegs(m, noRespawn, t, level, start, run, k + 1);
    RunLegs(m, noRespawn, t, level, start, run, k);
    LegMinds(m, noRespawn, t, level, start + k, run[k]);
    HeirsSame(run[k].after, run[k + 1].before, s);
  }

  /** Whoever decided was there before, in memory and by number. */
  lemma LegThought(m: Maze, noRespawn: bool, t: Tuning, level: Option<Level>, tick: nat, leg: Leg, s: ID)
    requires SnipeLeg(m, noRespawn, t, level, tick, leg)
    ensures var q := leg.stages.moves;
            && (ShootsIn(leg, s) ==> s in q.advice && q.advice[s].move.Shoot?)
            && (s in q.advice ==> s in leg.before.snipes && s < leg.before.nextID
                                  && ThoughtOf(m, q.moved, tick, t, s, leg.before.snipes[s], q.advice[s]))
  {
    LegMinds(m, noRespawn, t, level, tick, leg);
    hide IsTick, HasShot, Minds, ThoughtOf;
    var q := leg.stages.moves;
    MindsThought(m, tick, t, q.moved, q.advice, q.advised, s);
  }

  lemma MindsThought(m: Maze, tick: nat, t: Tuning, a: Store, advice: map<ID, Advice>, b: Store, s: ID)
    requires Minds(m, tick, t, a, advice, b)
    ensures HasShot(a, b, s) ==> s in advice && advice[s].move.Shoot?
    ensures s in advice ==> s in a.snipes && ThoughtOf(m, a, tick, t, s, a.snipes[s], advice[s])
  {
    hide HasShot, Thinks, Alike, MindsBy;
    if s in advice {
      assert Thought(m, a, tick, t, s, advice[s]);
    }
  }

  /** This is what a snipe with such a memory may decide, among these. */
  ghost predicate ThoughtOf(m: Maze, st: Store, tick: nat, t: Tuning, s: ID, ss: SnipeState, a: Advice) {
    exists i, view ::
      && 0 <= i < |st.slots| && st.slots[i].id == s && Alike(st, view) && Thinks(m, view, tick, t, st.slots[i], ss, a)
  }

  /** A snipe in its place saw whoever goes by this ID, alive. */
  ghost predicate Saw(m: Maze, st: Store, t: Tuning, s: ID, p: ID) {
    exists i, view, o ::
      && 0 <= i < |st.slots| && st.slots[i].id == s && Alike(st, view)
      && Quarry(view, p, o) && Sees(m, st.slots[i], o, t.sight)
  }

  lemma ThoughtSays(m: Maze, st: Store, tick: nat, t: Tuning, s: ID, ss: SnipeState, a: Advice)
    requires ThoughtOf(m, st, tick, t, s, ss, a)
    ensures a.mind.fireCooldown == Cooled(ss.mind.fireCooldown)
    ensures a.move.Shoot? ==> ss.mind.mood == Attacking && ss.mind.fireCooldown <= 1 && Saw(m, st, t, s, ss.mind.target)
    ensures a.mind.mood == Attacking ==> Saw(m, st, t, s, a.mind.target)
  {
    hide Thinks, Alike, Quarry, Sees;
    var i, view :|
      0 <= i < |st.slots| && st.slots[i].id == s && Alike(st, view) && Thinks(m, view, tick, t, st.slots[i], ss, a);
    CooldownCounts(m, view, tick, t, st.slots[i], ss, a);
    if a.move.Shoot? { ShotInSight(m, view, tick, t, st.slots[i], ss, a); }
    if a.mind.mood == Attacking { ReadySees(m, view, tick, t, st.slots[i], ss, a); }
  }

  lemma RemembersIs(t: Tuning, leg: Leg, s: ID)
    requires Remembers(t, leg, s)
    ensures s in leg.before.snipes && s in leg.after.snipes
    ensures var was, mind, advice := leg.before.snipes[s].mind, leg.after.snipes[s].mind, leg.stages.moves.advice;
            if s in advice then
              && mind.mood == advice[s].mind.mood && mind.target == advice[s].mind.target
              && mind.fireCooldown == if ShootsIn(leg, s) then t.fireCooldown else advice[s].mind.fireCooldown
            else mind.fireCooldown == was.fireCooldown
  {
    hide ShootsIn;
  }

  /** Having shot, or not: what it does to the cooldown. */
  lemma LegCools(m: Maze, noRespawn: bool, t: Tuning, level: Option<Level>, tick: nat, leg: Leg, s: ID)
    requires SnipeLeg(m, noRespawn, t, level, tick, leg)
    ensures ShootsIn(leg, s) ==>
              s in leg.before.snipes && s < leg.before.nextID && leg.before.snipes[s].mind.fireCooldown <= 1
    ensures Remembers(t, leg, s) ==>
              var c := leg.after.snipes[s].mind.fireCooldown;
              if ShootsIn(leg, s) then c == t.fireCooldown else c >= leg.before.snipes[s].mind.fireCooldown - 1
  {
    hide *;
    LegThought(m, noRespawn, t, level, tick, leg, s);
    var q := leg.stages.moves;
    if s in q.advice {
      ThoughtSays(m, q.moved, tick, t, s, leg.before.snipes[s], q.advice[s]);
      CooledIs(leg.before.snipes[s].mind.fireCooldown);
    }
    if Remembers(t, leg, s) {
      RemembersIs(t, leg, s);
    }
  }

  lemma CooledIs(c: nat)
    ensures Cooled(c) >= c - 1
  {
  }

  lemma {:induction false} NotNew(m: Maze, noRespawn: bool, t: Tuning, level: Option<Level>, start: nat, run: seq<Leg>,
                                  i: nat, j: nat, s: ID)
    requires SnipeRun(m, noRespawn, t, level, start, run) && i <= j < |run| && s < run[i].before.nextID
    ensures s < run[j].before.nextID
  {
    hide *;
    if i < j {
      RunLegs(m, noRespawn, t, level, start, run, j);
      NotNew(m, noRespawn, t, level, start, run, i, j - 1, s);
    }
  }

  lemma {:induction false} CoolsSlowly(m: Maze, noRespawn: bool, t: Tuning, level: Option<Level>, start: nat,
                                       run: seq<Leg>, i: nat, j: nat, s: ID)
    requires SnipeRun(m, noRespawn, t, level, start, run) && i < j < |run| && ShootsIn(run[i], s)
    requires s in run[j].before.snipes
    ensures run[j].before.snipes[s].mind.fireCooldown >= t.fireCooldown - (j - 1 - i)
  {
    hide *;
    RunLegs(m, noRespawn, t, level, start, run, i);
    LegCools(m, noRespawn, t, level, start + i, run[i], s);
    NotNew(m, noRespawn, t, level, start, run, i, j - 1, s);
    NextRemembers(m, noRespawn, t, level, start, run, j - 1, s);
    RunLegs(m, noRespawn, t, level, start, run, j - 1);
    LegCools(m, noRespawn, t, level, start + (j - 1), run[j - 1], s);
    RemembersIs(t, run[j - 1], s);
    if j > i + 1 {
      CoolsSlowly(m, noRespawn, t, level, start, run, i, j - 1, s);
    }
  }

  /** Two shots of one snipe are at least the level's cooldown apart. */
  lemma FireRate(m: Maze, noRespawn: bool, t: Tuning, level: Option<Level>, start: nat, run: seq<Leg>, i: nat, j: nat,
                 s: ID)
    requires SnipeRun(m, noRespawn, t, level, start, run) && i < j < |run|
    requires ShootsIn(run[i], s) && ShootsIn(run[j], s)
    ensures j - i >= t.fireCooldown
  {
    hide *;
    RunLegs(m, noRespawn, t, level, start, run, j);
    LegCools(m, noRespawn, t, level, start + j, run[j], s);
    CoolsSlowly(m, noRespawn, t, level, start, run, i, j, s);
  }

  /** Nobody is shot at unseen, or at first sight: the snipe has seen its target in the tick before, too. */
  lemma SeenTwice(m: Maze, noRespawn: bool, t: Tuning, level: Option<Level>, start: nat, run: seq<Leg>, k: nat, s: ID)
    requires SnipeRun(m, noRespawn, t, level, start, run) && k + 1 < |run|
    requires s in run[k].stages.moves.advice && ShootsIn(run[k + 1], s)
    ensures s in run[k + 1].before.snipes
    ensures var p := run[k + 1].before.snipes[s].mind.target;
            Saw(m, run[k].stages.moves.moved, t, s, p) && Saw(m, run[k + 1].stages.moves.moved, t, s, p)
  {
    hide *;
    var now, next := run[k].stages.moves, run[k + 1].stages.moves;
    RunLegs(m, noRespawn, t, level, start, run, k);
    RunLegs(m, noRespawn, t, level, start, run, k + 1);
    LegThought(m, noRespawn, t, level, start + k, run[k], s);
    LegThought(m, noRespawn, t, level, start + (k + 1), run[k + 1], s);
    NextRemembers(m, noRespawn, t, level, start, run, k, s);
    RemembersIs(t, run[k], s);
    ThoughtSays(m, now.moved, start + k, t, s, run[k].before.snipes[s], now.advice[s]);
    ThoughtSays(m, next.moved, start + (k + 1), t, s, run[k + 1].before.snipes[s], next.advice[s]);
  }
}
