/** Step 4.9: one history sample per occupied slot, and histories of the long gone dropped. */
module Samples {
  import opened Grid
  import opened Entities
  import opened Slab
  import opened History
  import opened Ledger
  import opened SimState
  import opened Movement
  import opened Firing
  import opened Cleanup

  function SampleOf(tick: nat, e: Entity): Sample { Sample(tick, e.x, e.y, e.kind, e.flags) }

  /** Whether the newest sample is at most one tick old. */
  predicate Recent(tick: nat, log: seq<Sample>) {
    log != [] && tick <= log[|log| - 1].tick + 1
  }

  ghost predicate RecordedStore(tick: nat, st0: Store, st: Store) {
    && st == st0.(histories := st.histories)
    && (forall i | 0 <= i < |st0.slots| && st0.slots[i].id != 0 ::
          st0.slots[i].id in st.histories
          && st.histories[st0.slots[i].id] == HistoryOf(st0.histories, st0.slots[i].id) +
            [SampleOf(tick, st0.slots[i])])
    && (forall p | !Present(st0.slots, p) ::
          if p in st0.histories && Recent(tick, st0.histories[p]) then
            p in st.histories && st.histories[p] == st0.histories[p]
          else p !in st.histories)
  }

  method Record(tick: nat, slots: seq<Entity>, h0: map<ID, seq<Sample>>)
    returns (h: map<ID, seq<Sample>>, live: set<ID>)
    requires Unique(slots)
    ensures forall id :: id in live <==> id != 0 && Present(slots, id)
    ensures forall i | 0 <= i < |slots| && slots[i].id != 0 ::
              slots[i].id in h && h[slots[i].id] == HistoryOf(h0, slots[i].id) + [SampleOf(tick, slots[i])]
    ensures h.Keys == h0.Keys + live && forall p | p in h0 && p !in live :: h[p] == h0[p]
  {
    h, live := h0, {};
    for i := 0 to |slots|
      invariant forall id :: id in live <==> id != 0 && exists j | 0 <= j < i :: slots[j].id == id
      invariant forall j | 0 <= j < i && slots[j].id != 0 ::
                  slots[j].id in h && h[slots[j].id] == HistoryOf(h0, slots[j].id) + [SampleOf(tick, slots[j])]
      invariant h.Keys == h0.Keys + live && forall p | p in h0 && p !in live :: h[p] == h0[p]
    {
      var e := slots[i];
      if e.id != 0 {
        assert forall j | 0 <= j < i && slots[j].id != 0 :: slots[j].id != e.id;
        assert HistoryOf(h, e.id) == HistoryOf(h0, e.id);
        live := live + {e.id};
        h := h[e.id := HistoryOf(h, e.id) + [SampleOf(tick, e)]];
      }
    }
  }

  method Prune(tick: nat, h0: map<ID, seq<Sample>>, live: set<ID>) returns (h: map<ID, seq<Sample>>)
    ensures forall p | p in live && p in h0 :: p in h && h[p] == h0[p]
    ensures forall p | p !in live :: if p in h0 && Recent(tick, h0[p]) then p in h && h[p] == h0[p] else p !in h
  {
    h := h0;
    var todo := h0.Keys;
    while todo != {}
      invariant todo <= h0.Keys && h.Keys <= h0.Keys && forall p | p in h :: h[p] == h0[p]
      invariant forall p | p in h0 && (p in live || p in todo || Recent(tick, h0[p])) :: p in h
      invariant forall p | p in h && p !in todo && p !in live :: Recent(tick, h0[p])
      decreases todo
    {
      var id :| id in todo;
      todo := todo - {id};
      if id !in live {
        if |h0[id]| == 0 || tick > h0[id][|h0[id]| - 1].tick + 1 {
          h := h - {id};
        }
      }
    }
  }

  lemma HistoriesKeep(m: Maze, startLives: nat, st: Store, st': Store, log: seq<LifeEvent>)
    requires Inv(m, startLives, st, log) && st' == st.(histories := st'.histories)
    requires forall p | p in st'.histories :: 0 < p < st.nextID
    ensures Inv(m, startLives, st', log)
  {
    hide Safe, OnceALife, Account, AliveIn, Unique;
    forall i | 0 <= i < |st'.slots|
      ensures Registered(st', st'.slots[i]) && Vitals(st', log, st'.slots[i])
    {
      assert Registered(st, st.slots[i]) && Vitals(st, log, st.slots[i]);
    }
  }

  /**
   Every slab entity is sampled, and every history is a slab entity's or its newest sample is at most one tick old.
   */
  method WriteHistorySamples(ghost m: Maze, ghost startLives: nat, ghost log: seq<LifeEvent>, tick: nat, st0: Store)
    returns (st: Store)
    requires Inv(m, startLives, st0, log)
    ensures Inv(m, startLives, st, log) && RecordedStore(tick, st0, st)
  {
    InvSlab(m, startLives, st0, log);
    var h, live := Record(tick, st0.slots, st0.histories);
    var pruned := Prune(tick, h, live);
    st := st0.(histories := pruned);
    forall p | p in pruned
      ensures 0 < p < st0.nextID
    {
      if p in live {
        var i :| 0 <= i < |st0.slots| && st0.slots[i].id == p;
        assert Registered(st0, st0.slots[i]);
      }
    }
    hide Inv;
    HistoriesKeep(m, startLives, st0, st, log);
    forall i | 0 <= i < |st0.slots| && st0.slots[i].id != 0
      ensures st0.slots[i].id in live
    {
      assert Present(st0.slots, st0.slots[i].id);
    }
  }

  // ---- samples stay tick by tick ----

  lemma OneMoreSample(log: seq<Sample>, kind: Kind, now: int, s: Sample)
    requires Traced(log, kind, now) && s.tick == now + 1 && s.kind == kind
    ensures Traced(log + [s], kind, now + 1)
  {
    forall i: nat | i < |log + [s]|
      ensures Nth(log + [s], i).tick == now + 1 - i
    {
      if i > 0 { assert Nth(log + [s], i) == Nth(log, i - 1); }
    }
  }

  lemma RecordedSampled(m: Maze, startLives: nat, log: seq<LifeEvent>, tick: nat, st0: Store, st: Store)
    requires Inv(m, startLives, st, log) && RecordedStore(tick, st0, st) && Sampled(st0, tick - 1)
    ensures Sampled(st, tick)
  {
    ZeroHasNone(m, startLives, st, log);
    hide Inv, Traced;
    forall i | 0 <= i < |st.slots| && st.slots[i].id in st.histories
      ensures Traced(st.histories[st.slots[i].id], st.slots[i].kind, tick)
    {
      var e := st.slots[i];
      if e.id == 0 {
        assert false;
      } else {
        var h := HistoryOf(st0.histories, e.id);
        assert Traced(h, e.kind, tick - 1);
        OneMoreSample(h, e.kind, tick - 1, SampleOf(tick, e));
      }
    }
  }

  lemma ZeroHasNone(m: Maze, startLives: nat, st: Store, log: seq<LifeEvent>)
    requires Inv(m, startLives, st, log)
    ensures 0 !in st.histories && forall p | p in st.histories :: p < st.nextID
  {
  }

  // ---- the other steps leave the samples alone ----

  /** Whoever sits in a slot sat there before as the same kind, or carries an ID without a history. */
  lemma SampledKept(st0: Store, st: Store, now: int)
    requires Sampled(st0, now) && |st.slots| == |st0.slots|
    requires forall p | p in st.histories ::
               p in st0.histories && (st.histories[p] == st0.histories[p] || st.histories[p] == [])
    requires forall i | 0 <= i < |st.slots| :: st.slots[i].id in st.histories ==>
               st.slots[i].id == st0.slots[i].id && st.slots[i].kind == st0.slots[i].kind
    ensures Sampled(st, now)
  {
    forall i | 0 <= i < |st.slots| && st.slots[i].id in st.histories
      ensures Traced(st.histories[st.slots[i].id], st.slots[i].kind, now)
    {
      assert Traced(st0.histories[st0.slots[i].id], st0.slots[i].kind, now);
    }
  }

  lemma VitalSampled(st0: Store, st: Store, now: int)
    requires Sampled(st0, now) && |st.slots| == |st0.slots| && st.histories == st0.histories
    requires forall i | 0 <= i < |st.slots| :: SameVital(st0.slots[i], st.slots[i])
    ensures Sampled(st, now)
  {
    SampledKept(st0, st, now);
  }

  lemma GrownSampled(m: Maze, startLives: nat, log: seq<LifeEvent>, st0: Store, st: Store, now: int)
    requires Sampled(st0, now) && Grown(st0, st) && Inv(m, startLives, st0, log)
    ensures Sampled(st, now)
  {
    ZeroHasNone(m, startLives, st0, log);
    hide Inv;
    SampledKept(st0, st, now);
  }

  lemma CollectSampled(m: Maze, startLives: nat, log: seq<LifeEvent>, noRespawn: bool, st0: Store, st: Store, now: int)
    requires Sampled(st0, now) && CollectedStore(noRespawn, st0, st) && Inv(m, startLives, st0, log)
    ensures Sampled(st, now)
  {
    ZeroHasNone(m, startLives, st0, log);
    hide Inv;
    SampledKept(st0, st, now);
  }

  lemma {:induction false} ScanIsWritten(log: seq<Sample>, t: nat, i: nat)
    requires i < Kept(log)
    ensures Scan(log, t, i) in log
    decreases Kept(log) - i
  {
    if Nth(log, i).tick > t && i < Kept(log) - 1 {
      ScanIsWritten(log, t, i + 1);
    }
  }
}
