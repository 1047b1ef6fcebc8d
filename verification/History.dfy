/** The per-entity position history that lag compensation rewinds into. */
module History {
  import opened Options
  import opened Entities

  const LAG_COMP_TICKS := 8
  const INTERP_TICKS := 2
  const DEPTH := 9

  datatype Sample = Sample(tick: nat, x: int, y: int, kind: Kind, flags: Flags)

  /** How many samples a ring still holds after these writes: the last nine at most. */
  function Kept(log: seq<Sample>): nat {
    if |log| <= DEPTH then |log| else DEPTH
  }

  /** The i-th newest write. */
  function Nth(log: seq<Sample>, i: nat): Sample
    requires i < |log|
  {
    log[|log| - 1 - i]
  }

  /** s is the newest kept sample not after t or, when all are after t, the oldest kept. */
  ghost predicate Rewound(log: seq<Sample>, t: nat, s: Sample) {
    && log != []
    && (|| (exists i: nat | i < Kept(log) ::
              s == Nth(log, i) && s.tick <= t && forall j: nat | j < i :: Nth(log, j).tick > t)
        || (s == Nth(log, Kept(log) - 1) && forall j: nat | j < Kept(log) :: Nth(log, j).tick > t))
  }

  /** The search from the i-th newest kept sample back. */
  function Scan(log: seq<Sample>, t: nat, i: nat): Sample
    requires i < Kept(log)
    decreases Kept(log) - i
  {
    if Nth(log, i).tick <= t || i == Kept(log) - 1 then Nth(log, i) else Scan(log, t, i + 1)
  }

  function SampleAt(log: seq<Sample>, t: nat): Option<Sample> {
    if log == [] then None else Some(Scan(log, t, 0))
  }

  lemma {:induction false} ScanRewinds(log: seq<Sample>, t: nat, i: nat)
    requires i < Kept(log) && forall j: nat | j < i :: Nth(log, j).tick > t
    ensures Rewound(log, t, Scan(log, t, i))
    decreases Kept(log) - i
  {
    if Nth(log, i).tick > t && i < Kept(log) - 1 {
      ScanRewinds(log, t, i + 1);
    }
  }

  /** The slot of the i-th newest sample in a ring whose newest is at head. */
  function Slot(head: nat, i: nat): nat
    requires head < DEPTH && i < DEPTH
  {
    (head + DEPTH - i) % DEPTH
  }

  /** Advancing the head moves every older sample one place back. */
  lemma SlotShift(head: nat, i: nat)
    requires head < DEPTH && 0 < i < DEPTH
    ensures Slot((head + 1) % DEPTH, i) == Slot(head, i - 1) != (head + 1) % DEPTH
    ensures Slot(head, 0) == head
  {
  }

  class EntityHistory {
    const samples: array<Sample>
    var head: nat
    var count: nat
    ghost var log: seq<Sample>   // every write since the last reset

    ghost predicate Valid()
      reads this, samples
    {
      && samples.Length == DEPTH
      && count == Kept(log)
      && head < DEPTH
      && (forall i: nat | i < count :: samples[Slot(head, i)] == Nth(log, i))
    }

    constructor ()
      ensures Valid() && log == [] && fresh(samples)
    {
      samples := new Sample[DEPTH](_ => Sample(0, 0, 0, NoKind, NO_FLAGS));
      head, count, log := 0, 0, [];
    }

    method Write(s: Sample)
      requires Valid()
      modifies this, samples
      ensures Valid() && log == old(log) + [s]
    {
      var next := if count == 0 then 0 else (head + 1) % DEPTH;
      samples[next] := s;
      ghost var log0, head0 := log, head;
      head := next;
      if count < DEPTH {
        count := count + 1;
      }
      log := log + [s];
      SlotShift(head, 1);
      forall i: nat | i < count
        ensures samples[Slot(head, i)] == Nth(log, i)
      {
        hide Slot;
        if i > 0 {
          SlotShift(head0, i);
          assert Nth(log, i) == Nth(log0, i - 1);
        }
      }
    }

    /** The sample for tick t, clamped to the oldest held; absent only from an empty ring. */
    method At(t: nat) returns (r: Option<Sample>)
      requires Valid()
      ensures r == SampleAt(log, t)
      ensures r.Some? ==> Rewound(log, t, r.value)
    {
      if count == 0 {
        return None;
      }
      ScanRewinds(log, t, 0);
      for i := 0 to count
        invariant forall j: nat | j < i :: Nth(log, j).tick > t
        invariant i < count ==> Scan(log, t, 0) == Scan(log, t, i)
        invariant i == count ==> Scan(log, t, 0) == Nth(log, count - 1)
      {
        var s := samples[Slot(head, i)];
        if s.tick <= t {
          assert s == Nth(log, i);
          return Some(s);
        }
      }
      return Some(samples[Slot(head, count - 1)]);
    }

    method Reset()
      requires Valid()
      modifies this
      ensures Valid() && log == []
    {
      head, count, log := 0, 0, [];
    }
  }

  /** The tick a shot fired now with this one-way time is tested at. */
  function TView(current: nat, owtTicks: nat): nat {
    var rewind := if owtTicks + INTERP_TICKS > LAG_COMP_TICKS then LAG_COMP_TICKS else owtTicks + INTERP_TICKS;
    if rewind > current then 0 else current - rewind
  }

  /** The newest writes, one a tick back from `now` to `since`. */
  ghost predicate OneATick(log: seq<Sample>, since: nat, now: nat) {
    && since <= now < since + |log|
    && forall i: nat | i <= now - since :: Nth(log, i).tick == now - i
  }

  /** One more write at the next tick extends the run, whatever was rewound to before. */
  lemma OneATickGrows(log: seq<Sample>, since: nat, now: nat, s: Sample)
    requires OneATick(log, since, now) && s.tick == now + 1
    ensures OneATick(log + [s], since, now + 1)
  {
    forall i: nat | i <= now + 1 - since
      ensures Nth(log + [s], i).tick == now + 1 - i
    {
      if i > 0 {
        assert Nth(log + [s], i) == Nth(log, i - 1);
      }
    }
  }

  /** The rewind is at least three ticks when that many have passed, at most eight, and never into the future. */
  lemma TViewInWindow(current: nat, owtTicks: nat)
    requires owtTicks > 0
    ensures current - LAG_COMP_TICKS <= TView(current, owtTicks) <= current
    ensures current > INTERP_TICKS ==> TView(current, owtTicks) < current - INTERP_TICKS
  {
  }

  /** An entity sampled every tick of the rewind window is found exactly at the tick asked for. */
  lemma ExactRewind(log: seq<Sample>, current: nat, owtTicks: nat, s: Sample)
    requires OneATick(log, TView(current, owtTicks), current)
    requires Rewound(log, TView(current, owtTicks), s)
    ensures s.tick == TView(current, owtTicks)
  {
    var t := TView(current, owtTicks);
    var k := current - t;
    assert k < Kept(log) && Nth(log, k).tick == t;
    var i: nat :| i < Kept(log) && s == Nth(log, i) && s.tick <= t && forall j: nat | j < i :: Nth(log, j).tick > t;
    assert i >= k;
  }

  /** Ticks go up from each write to the next. */
  ghost predicate Increasing(log: seq<Sample>) {
    forall i: nat, j: nat | i < j < |log| :: Nth(log, i).tick > Nth(log, j).tick
  }

  /**
   With increasing ticks, no kept sample lies strictly between the answer and t, and the clamp is to the oldest kept.
   */
  lemma LatestNotAfter(log: seq<Sample>, t: nat, s: Sample, i: nat)
    requires Increasing(log) && Rewound(log, t, s) && i < Kept(log)
    ensures Nth(log, i).tick <= t ==> Nth(log, i).tick <= s.tick <= t
    ensures s.tick > t <==> Nth(log, Kept(log) - 1).tick > t
  {
    var last := Kept(log) - 1;
    assert i < last ==> Nth(log, i).tick > Nth(log, last).tick;
    if k: nat :| k < Kept(log) && s == Nth(log, k) && s.tick <= t && forall j: nat | j < k :: Nth(log, j).tick > t {
      assert k < i ==> Nth(log, k).tick > Nth(log, i).tick;
      assert k < last ==> Nth(log, k).tick > Nth(log, last).tick;
    }
  }
}
