/** Runs of ticks: what lag compensation finds in the samples they leave. */
module Runs {
  import opened Options
  import opened Grid
  import opened Entities
  import opened Slab
  import opened History
  import opened Ledger
  import opened SimState
  import opened Control
  import opened Movement
  import opened Firing
  import opened Emission
  import opened Respawn
  import opened Cleanup
  import opened Samples
  import opened Hits
  import opened Setup
  import opened Stages
  import opened Simulation

  /** What may happen to the store between two ticks. */
  datatype Act = Freeze(id: ID) | Leave(id: ID)

  /** A tick that succeeded, and what was done before the next. */
  datatype Leg = Leg(before: Store, stages: Stages, after: Store, acts: seq<Act>)

  ghost predicate Acted(st: Store, act: Act, st': Store) {
    match act
    case Freeze(id) => st' == Frozen(st, id)
    case Leave(id) => st' == st || exists k :: 0 <= k < |st.slots| && st.slots[k].id == id && st' == Removed(st, k)
  }

  ghost predicate ActedAll(st: Store, acts: seq<Act>, st': Store) {
    if acts == [] then st' == st
    else
      var before, act := acts[..|acts| - 1], acts[|acts| - 1];
      exists mid: Store :: ActedAll(st, before, mid) && Acted(mid, act, st')
  }

  ghost predicate IsTick(m: Maze, noRespawn: bool, level: Option<Level>, tick: nat, leg: Leg) {
    exists im, log :: AllStages(m, noRespawn, level, tick, im, leg.before, log, true, leg.stages, leg.after)
  }

  /** Consecutive ticks, the first of them numbered `start`. */
  ghost predicate IsRun(m: Maze, noRespawn: bool, level: Option<Level>, start: nat, run: seq<Leg>) {
    && (forall k: nat | k < |run| :: IsTick(m, noRespawn, level, start + k, run[k]))
    && (forall k: nat | 0 < k < |run| :: ActedAll(run[k - 1].after, run[k - 1].acts, run[k].before))
  }

  /** A successful tick of the simulation is a leg of a run. */
  lemma TickIsLeg(m: Maze, noRespawn: bool, level: Option<Level>, inputs: seq<PlayerInput>, st0: Store, tick0: nat,
                  quiesced0: bool, log0: seq<LifeEvent>, t: Option<Stages>, st: Store, tick: nat)
    requires Ticked(m, noRespawn, level, inputs, st0, tick0, quiesced0, log0, true, t, st, tick)
    ensures t.Some? && tick == tick0 + 1 && IsTick(m, noRespawn, level, tick, Leg(st0, t.value, st, []))
  {
    hide AllStages;
  }

  /** The entity is in the slab when this tick takes its samples. */
  ghost predicate Here(leg: Leg, id: ID) { Present(leg.stages.recorded.slots, id) }

  /** The entity's samples as this tick leaves them for its shots. */
  function SamplesIn(leg: Leg, id: ID): seq<Sample> { HistoryOf(leg.stages.recorded.histories, id) }

  /** The entity comes back to life in this tick. */
  ghost predicate ReturnsIn(leg: Leg, id: ID) {
    CameBack(leg.stages.ending.fired.slots, leg.stages.ending.respawned.slots, id)
  }

  /** It is there at every sampling from the i-th leg on. */
  ghost predicate HereSince(run: seq<Leg>, i: nat, id: ID) {
    forall k: nat | i <= k < |run| :: Here(run[k], id)
  }

  /** To these samples the tick adds one, of the entity as it stands. */
  ghost predicate Adds(leg: Leg, tick: nat, id: ID, prior: seq<Sample>) {
    AddsTo(leg.stages.recorded, tick, id, prior)
  }

  ghost predicate AddsTo(st: Store, tick: nat, id: ID, prior: seq<Sample>) {
    exists i ::
      0 <= i < |st.slots| && st.slots[i].id == id
        && HistoryOf(st.histories, id) == prior + [SampleOf(tick, st.slots[i])]
  }

  // ---- one tick's share ----

  lemma {:induction false} ActsKeep(st: Store, acts: seq<Act>, st': Store)
    requires ActedAll(st, acts, st')
    ensures st'.histories == st.histories
  {
    if acts != [] {
      var mid: Store :| ActedAll(st, acts[..|acts| - 1], mid) && Acted(mid, acts[|acts| - 1], st');
      ActsKeep(st, acts[..|acts| - 1], mid);
    }
  }

  lemma MovesSample(m: Maze, level: Option<Level>, tick: nat, inputs: map<ID, Input>, st0: Store, t: Moves, st: Store,
                    id: ID)
    requires MoveStages(m, level, tick, inputs, st0, t, st) && id != 0 && Present(st.slots, id)
    ensures AddsTo(st, tick, id, HistoryOf(st0.histories, id))
  {
    assert t.emitted.histories == st0.histories by {
      hide Covers, Moved, Steered, Nudged, AdvisedShots, Thoughts, MindsBy, Denied, Deciders, Hatches, Turns, Starved,
           EmittedStore,
           RecordedStore, Heeding;
      hide InTurn, SteerPlayers;
      assert t.advised.histories == t.moved.histories;
    }
    hide SteeredStore, MovedStore, AdviceStage, NotedStore, BlockedStore, EmissionStage, Covers;
    var i :| 0 <= i < |st.slots| && st.slots[i].id == id;
    assert HistoryOf(st.histories, id) == HistoryOf(st0.histories, id) + [SampleOf(tick, st.slots[i])];
  }

  lemma HitsKeep(m: Maze, noRespawn: bool, tick: nat, st0: Store, log0: seq<LifeEvent>, t: Flight, st: Store)
    requires HitStages(m, noRespawn, tick, st0, log0, t, st)
    ensures st.histories == st0.histories
  {
    FlightsFrame(m, tick, noRespawn, st0, log0, t.pids, |t.pids|, t.flown, t.flownLog);
    hide Flights, Prefix;
  }

  /** Coming back is what empties a history, and nothing else does. */
  lemma EndForgets(m: Maze, noRespawn: bool, tick: nat, inputs: map<ID, Input>, st0: Store, t: Ending, st: Store,
                   id: ID)
    requires EndStages(m, noRespawn, tick, inputs, st0, t, st)
    ensures HistoryOf(st.histories, id) == if CameBack(t.fired.slots, t.respawned.slots, id) then []
                                           else HistoryOf(st0.histories, id)
  {
    assert t.fired.histories == st0.histories by { hide PlayerShot, FiredOrNot, OneEach, RespawnedStore,
                                                  UnshieldedStore, CollectedStore; }
    hide FiredStore, Left, AloneAt, Due, Unshielded, Expired, CollectedSlots, CollectedPlayers, Returns;
    assert st.histories == t.respawned.histories;
    if CameBack(t.fired.slots, t.respawned.slots, id) {
      var i :| 0 <= i < |t.fired.slots| && t.fired.slots[i].id == id && t.fired.slots[i].flags.dead
        && !t.respawned.slots[i].flags.dead;
      assert Wakes(m, tick, t.fired, t.respawned, i);
    }
  }

  lemma LegSamples(m: Maze, noRespawn: bool, level: Option<Level>, tick: nat, leg: Leg, id: ID)
    requires IsTick(m, noRespawn, level, tick, leg) && id != 0
    ensures Here(leg, id) ==> Adds(leg, tick, id, HistoryOf(leg.before.histories, id))
    ensures HistoryOf(leg.after.histories, id) == if ReturnsIn(leg, id) then [] else SamplesIn(leg, id)
  {
    hide *;
    var im, log := StagesOf(m, noRespawn, level, tick, leg);
    var t := leg.stages;
    if Here(leg, id) {
      HereIs(leg, id);
      MovesSample(m, level, tick, im, leg.before, t.moves, t.recorded, id);
    }
    HitsKeep(m, noRespawn, tick, t.recorded, log, t.flight, t.aged);
    EndForgets(m, noRespawn, tick, im, t.aged, t.ending, leg.after, id);
    LegWords(leg, tick, id, HistoryOf(leg.before.histories, id));
  }

  lemma StagesOf(m: Maze, noRespawn: bool, level: Option<Level>, tick: nat, leg: Leg)
    returns (im: map<ID, Input>, log: seq<LifeEvent>)
    requires IsTick(m, noRespawn, level, tick, leg)
    ensures MoveStages(m, level, tick, im, leg.before, leg.stages.moves, leg.stages.recorded)
    ensures HitStages(m, noRespawn, tick, leg.stages.recorded, log, leg.stages.flight, leg.stages.aged)
    ensures EndStages(m, noRespawn, tick, im, leg.stages.aged, leg.stages.ending, leg.after)
  {
    im, log :| AllStages(m, noRespawn, level, tick, im, leg.before, log, true, leg.stages, leg.after);
    hide MoveStages, HitStages, EndStages, BrokenOff;
  }

  lemma HereIs(leg: Leg, id: ID)
    requires Here(leg, id)
    ensures Present(leg.stages.recorded.slots, id)
  {
  }

  lemma LegWords(leg: Leg, tick: nat, id: ID, prior: seq<Sample>)
    ensures Adds(leg, tick, id, prior) <==> AddsTo(leg.stages.recorded, tick, id, prior)
    ensures SamplesIn(leg, id) == HistoryOf(leg.stages.recorded.histories, id)
    ensures ReturnsIn(leg, id) <==> CameBack(leg.stages.ending.fired.slots, leg.stages.ending.respawned.slots, id)
  {
  }

  /** What this tick's sample is added to. */
  function Prior(run: seq<Leg>, k: nat, id: ID): seq<Sample>
    requires k < |run|
  {
    HistoryOf(run[k].before.histories, id)
  }

  /** From one tick to the next: what was there, or nothing after a return. */
  lemma PriorIs(m: Maze, noRespawn: bool, level: Option<Level>, start: nat, run: seq<Leg>, k: nat, id: ID)
    requires 0 < k < |run| && id != 0 && IsTick(m, noRespawn, level, start + (k - 1), run[k - 1])
    requires ActedAll(run[k - 1].after, run[k - 1].acts, run[k].before)
    ensures Prior(run, k, id) == if ReturnsIn(run[k - 1], id) then [] else SamplesIn(run[k - 1], id)
  {
    hide IsTick, ReturnsIn, SamplesIn, Here, ActedAll, Adds;
    var j := k - 1;
    LegSamples(m, noRespawn, level, start + j, run[j], id);
    ActsKeep(run[j].after, run[j].acts, run[k].before);
  }

  /** Every tick from the i-th on adds a sample, to what the one before left. */
  ghost predicate Linked(run: seq<Leg>, start: nat, i: nat, id: ID) {
    && (forall k: nat | i <= k < |run| :: Adds(run[k], start + k, id, Prior(run, k, id)))
    && (forall k: nat | i < k < |run| ::
          Prior(run, k, id) == if ReturnsIn(run[k - 1], id) then [] else SamplesIn(run[k - 1], id))
  }

  lemma RunLinks(m: Maze, noRespawn: bool, level: Option<Level>, start: nat, run: seq<Leg>, i: nat, id: ID)
    requires id != 0 && HereSince(run, i, id) && IsRun(m, noRespawn, level, start, run)
    ensures Linked(run, start, i, id)
  {
    hide IsTick, ReturnsIn, SamplesIn, Here, ActedAll, Adds, Prior;
    forall k: nat | i <= k < |run|
      ensures Adds(run[k], start + k, id, Prior(run, k, id))
      ensures k > i ==> Prior(run, k, id) == if ReturnsIn(run[k - 1], id) then [] else SamplesIn(run[k - 1], id)
    {
      LegAdds(m, noRespawn, level, start, run, k, id);
      if k > i { PriorIs(m, noRespawn, level, start, run, k, id); }
    }
  }

  lemma LegAdds(m: Maze, noRespawn: bool, level: Option<Level>, start: nat, run: seq<Leg>, k: nat, id: ID)
    requires k < |run| && IsTick(m, noRespawn, level, start + k, run[k]) && id != 0 && Here(run[k], id)
    ensures Adds(run[k], start + k, id, Prior(run, k, id))
  {
    hide IsTick, ReturnsIn, SamplesIn, Here, Adds;
    LegSamples(m, noRespawn, level, start + k, run[k], id);
  }

  // ---- over a run ----

  /** The sample shows the entity as it stood when this tick took its samples. */
  ghost predicate Caught(leg: Leg, tick: nat, id: ID, s: Sample) {
    exists j :: 0 <= j < |leg.stages.recorded.slots| && leg.stages.recorded.slots[j].id == id
                && s == SampleOf(tick, leg.stages.recorded.slots[j])
  }

  lemma AddsFirst(leg: Leg, tick: nat, id: ID, prior: seq<Sample>)
    requires Adds(leg, tick, id, prior)
    ensures SamplesIn(leg, id) != [] && Caught(leg, tick, id, Nth(SamplesIn(leg, id), 0))
    ensures OneATick(SamplesIn(leg, id), tick, tick)
    ensures forall s | s in SamplesIn(leg, id) :: s in prior || s.tick == tick
  {
  }

  lemma AddsGrow(leg: Leg, tick: nat, id: ID, prior: seq<Sample>, since: nat)
    requires Adds(leg, tick + 1, id, prior) && OneATick(prior, since, tick)
    ensures OneATick(SamplesIn(leg, id), since, tick + 1)
    ensures forall n: nat | n < |prior| :: Nth(SamplesIn(leg, id), n + 1) == Nth(prior, n)
  {
    var st := leg.stages.recorded;
    var i :| 0 <= i < |st.slots| && st.slots[i].id == id
      && HistoryOf(st.histories, id) == prior + [SampleOf(tick + 1, st.slots[i])];
    OneATickGrows(prior, since, tick, SampleOf(tick + 1, st.slots[i]));
  }

  /** Never back since: one sample a tick, down to where it stood in the i-th leg. */
  lemma {:induction false} NeverBack(run: seq<Leg>, start: nat, i: nat, k: nat, id: ID)
    requires Linked(run, start, i, id) && i <= k < |run|
    requires forall j: nat | i <= j < k :: !ReturnsIn(run[j], id)
    ensures OneATick(SamplesIn(run[k], id), start + i, start + k)
    ensures Caught(run[i], start + i, id, Nth(SamplesIn(run[k], id), k - i))
  {
    hide ReturnsIn, SamplesIn, Adds, Prior, Caught, OneATick;
    if k == i {
      AddsFirst(run[k], start + k, id, Prior(run, k, id));
    } else {
      var j := k - 1;
      NeverBack(run, start, i, j, id);
      AddsGrow(run[k], start + j, id, SamplesIn(run[j], id), start + i);
      OneATickLength(SamplesIn(run[j], id), start + i, start + j);
      OneATickLength(SamplesIn(run[k], id), start + i, start + k);
    }
  }

  lemma OneATickLength(log: seq<Sample>, since: nat, now: nat)
    requires OneATick(log, since, now)
    ensures since <= now < since + |log|
  {
  }

  /** Back in the b-th leg: nothing sampled in that tick or before is left. */
  lemma {:induction false} BackAt(run: seq<Leg>, start: nat, i: nat, b: nat, k: nat, id: ID)
    requires Linked(run, start, i, id) && i <= b < k < |run| && ReturnsIn(run[b], id)
    ensures forall s | s in SamplesIn(run[k], id) :: s.tick > start + b
    ensures SamplesIn(run[k], id) != []
  {
    hide ReturnsIn, SamplesIn, Adds, Prior;
    var j := k - 1;
    AddsFirst(run[k], start + k, id, Prior(run, k, id));
    if j > b {
      BackAt(run, start, i, b, j, id);
    }
  }

  /** The scan stops at the sample for t and nowhere else, if the log has one for every tick since. */
  lemma ScanAt(log: seq<Sample>, now: nat, owtTicks: nat)
    requires OneATick(log, TView(now, owtTicks), now)
    ensures SampleAt(log, TView(now, owtTicks)) == Some(Nth(log, now - TView(now, owtTicks)))
  {
    var t := TView(now, owtTicks);
    ScanRewinds(log, t, 0);
    var s := Scan(log, t, 0);
    ExactRewind(log, now, owtTicks, s);
    assert Nth(log, now - t).tick == t;
    var i: nat :| i < Kept(log) && s == Nth(log, i) && s.tick <= t && forall j: nat | j < i :: Nth(log, j).tick > t;
    assert i <= now - t;
    assert Nth(log, i).tick == now - i;
  }

  lemma ScanAbove(log: seq<Sample>, t: nat)
    requires log != [] && forall s | s in log :: s.tick > t
    ensures SampleAt(log, t).Some? && SampleAt(log, t).value.tick > t
  {
    ScanIsWritten(log, t, 0);
  }

  lemma CaughtTick(leg: Leg, tick: nat, id: ID, s: Sample)
    requires Caught(leg, tick, id, s)
    ensures s.tick == tick
  {
  }

  /**
   The last tick finds a sample of tick v exactly if the entity has not come back since, a true one; otherwise only
   later ones.
   */
  ghost predicate FoundUnlessBack(run: seq<Leg>, start: nat, v: nat, id: ID) {
    && start <= v < start + |run|
    && var i: nat, s := v - start, SampleAt(SamplesIn(run[|run| - 1], id), v);
       && s.Some? && s.value.tick >= v
       && (s.value.tick == v <==> forall k: nat | i <= k < |run| - 1 :: !ReturnsIn(run[k], id))
       && (s.value.tick == v ==> Caught(run[i], v, id, s.value))
  }

  /**
   An entity in the slab at every sampling since the tick a shot is rewound to is found exactly there if and only if
   it has not come back to life since; and then as it stood in that tick.
   */
  lemma SampledAtView(m: Maze, noRespawn: bool, level: Option<Level>, start: nat, run: seq<Leg>, now: nat,
                      owtTicks: nat, id: ID)
    requires now == start + |run| - 1 && id != 0
    requires start <= TView(now, owtTicks) <= now && HereSince(run, TView(now, owtTicks) - start, id)
    requires IsRun(m, noRespawn, level, start, run)
    ensures FoundUnlessBack(run, start, TView(now, owtTicks), id)
  {
    hide *;
    RunLinks(m, noRespawn, level, start, run, TView(now, owtTicks) - start, id);
    LinkedView(run, start, now, owtTicks, id);
  }

  lemma LinkedView(run: seq<Leg>, start: nat, now: nat, owtTicks: nat, id: ID)
    requires now == start + |run| - 1 && start <= TView(now, owtTicks) <= now
             && Linked(run, start, TView(now, owtTicks) - start, id)
    ensures FoundUnlessBack(run, start, TView(now, owtTicks), id)
  {
    hide Linked, ReturnsIn, SamplesIn, Caught, OneATick, SampleAt, TView;
    var v := TView(now, owtTicks);
    var i, last := v - start, now - start;
    var h := SamplesIn(run[last], id);
    if b: nat :| i <= b < last && ReturnsIn(run[b], id) {
      BackAt(run, start, i, b, last, id);
      ScanAbove(h, v);
    } else {
      NeverBack(run, start, i, last, id);
      OneATickLength(h, v, now);
      ScanAt(h, now, owtTicks);
      CaughtTick(run[i], start + i, id, Nth(h, last - i));
    }
  }
}
