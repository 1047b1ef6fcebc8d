/** The slots of a match, the channels they write to, and the counters that follow who is joined. */
module MatchSlots {
  import opened Options
  import opened Entities

  datatype Frame =
    | Joined(p: ID) | Left(p: ID) | Disconnected(p: ID) | Rejoined(p: ID) | Started | MatchEnd(winner: ID) | SimEvent
    | MapInit | Scoreboard | Snapshot(p: ID) | Resync(tick: nat) | MatchOver | Pong

  /**
   A bounded outbound queue: every frame it ever took, in order, and how many of them its reader has yet to take out.
   */
  datatype Chan = Chan(capacity: nat, sent: seq<Frame>, waiting: nat, closed: bool)

  function NewChan(capacity: nat): Chan { Chan(capacity, [], 0, false) }

  predicate Full(c: Chan) { c.waiting >= c.capacity }

  type ChanID = nat

  /**
   A send that never blocks: its reader may have drained any part of the queue, and it fails when the queue is still
   full.
   */
  method TrySend(c: Chan, f: Frame) returns (c': Chan, ok: bool)
    requires !c.closed
    ensures !c'.closed && c'.capacity == c.capacity && c'.sent == c.sent + (if ok then [f] else [])
    ensures if ok then 0 < c'.waiting <= c.capacity && c'.waiting <= c.waiting + 1
            else Full(c') && c'.waiting <= c.waiting
  {
    var waiting: nat :| waiting <= c.waiting;
    ok := waiting < c.capacity;
    c' := if ok then c.(sent := c.sent + [f], waiting := waiting + 1) else c.(waiting := waiting);
  }

  /** Closing is once only. */
  function Closed(c: Chan): Chan
    requires !c.closed
  {
    c.(closed := true)
  }

  datatype Slot = Slot(joined: bool, out: Option<ChanID>, closedOnce: bool, deadCam: bool, dc: bool, deadline: nat)

  type Slots = map<ID, Slot>

  const EMPTY_SLOT := Slot(false, None, false, false, false, 0)

  /**
   The slots, every channel ever bound to one, the joined counter, and the sum of the deltas reported to the gauge.
   */
  datatype Desk = Desk(slots: Slots, chans: map<ChanID, Chan>, joinedCount: int, gauge: int)

  function JoinedSet(slots: Slots): set<ID> {
    set p | p in slots && slots[p].joined
  }

  /** No channel is bound to two slots, none bound is closed, and both counters are exact. */
  ghost predicate Base(d: Desk) {
    && (forall p | p in d.slots && d.slots[p].out.Some? :: Bound(d, d.slots[p]))
    && (forall p, q | p in d.slots && q in d.slots && p != q && d.slots[p].out.Some? ::
          d.slots[p].out != d.slots[q].out)
    && d.joinedCount == d.gauge == |JoinedSet(d.slots)|
  }

  predicate Bound(d: Desk, s: Slot)
    requires s.out.Some?
  {
    !s.closedOnce && s.out.value in d.chans && !d.chans[s.out.value].closed
  }

  /** A slot with a channel is joined and not in disconnect grace; one in grace is joined; a closed one is not. */
  predicate SlotOK(s: Slot) {
    && (s.out.Some? ==> s.joined && !s.dc)
    && (s.dc ==> s.joined)
    && (s.joined ==> !s.closedOnce)
    && (!s.dc ==> s.deadline == 0)
  }

  ghost predicate SlotsOK(slots: Slots) {
    forall p | p in slots :: SlotOK(slots[p])
  }

  ghost predicate Sound(d: Desk) {
    Base(d) && SlotsOK(d.slots)
  }

  function Dropped(s: Slot): Slot {
    s.(joined := false, out := None, closedOnce := true)
  }

  /** All that sending can do to slots: those with a channel may be dropped, the rest stay as they are. */
  ghost predicate Weathered(a: Slots, b: Slots) {
    && a.Keys == b.Keys
    && forall p | p in a :: b[p] == a[p] || (a[p].out.Some? && b[p] == Dropped(a[p]))
  }

  /** Nothing is ever queued to, or closed again on, a closed channel. */
  ghost predicate Quiet(a: map<ChanID, Chan>, b: map<ChanID, Chan>) {
    forall c | c in a :: c in b && (a[c].closed ==> b[c] == a[c])
  }

  // ---- who gets which frames ----

  /** The frames each slot is sent, in order. */
  type Script = ID -> seq<Frame>

  function Everyone(fs: seq<Frame>): Script { (q: ID) => fs }

  function Only(p: ID, fs: seq<Frame>): Script { (q: ID) => if q == p then fs else [] }

  /** The queue was full before the last of the frames, and is closed. */
  ghost predicate CutShort(x: Chan, y: Chan, fs: seq<Frame>) {
    y.closed && Full(y) && exists k | 0 <= k < |fs| :: y.sent == x.sent + fs[..k]
  }

  predicate Took(x: Chan, y: Chan, fs: seq<Frame>) {
    y.sent == x.sent + fs && (fs == [] ==> y == x)
  }

  /**
   A slot with a channel has taken all its frames, or has been dropped over a full queue; one without is as before.
   */
  ghost predicate Got(a: Desk, b: Desk, p: ID, fs: seq<Frame>)
    requires p in a.slots
  {
    && p in b.slots
    && match a.slots[p].out
       case None => b.slots[p] == a.slots[p]
       case Some(c) =>
         && c in a.chans && c in b.chans
         && ((b.slots[p] == a.slots[p] && Took(a.chans[c], b.chans[c], fs))
             || (b.slots[p] == Dropped(a.slots[p]) && CutShort(a.chans[c], b.chans[c], fs)))
  }

  ghost predicate BoundTo(slots: Slots, c: ChanID) {
    exists p | p in slots :: slots[p].out == Some(c)
  }

  /** Every slot got its frames, and channels bound to no slot are as they were. */
  ghost predicate Delivered(a: Desk, b: Desk, f: Script) {
    && a.slots.Keys == b.slots.Keys && a.chans.Keys == b.chans.Keys
    && (forall p | p in a.slots :: Got(a, b, p, f(p)))
    && (forall c | c in a.chans && !BoundTo(a.slots, c) :: b.chans[c] == a.chans[c])
  }

  lemma DeliveredNothing(d: Desk, f: Script)
    requires Base(d) && forall p | p in d.slots :: f(p) == []
    ensures Delivered(d, d, f)
  {
    forall p | p in d.slots
      ensures Got(d, d, p, f(p))
    {
      assert d.slots[p].out.Some? ==> Bound(d, d.slots[p]);
    }
  }

  lemma DeliveredSame(a: Desk, b: Desk, f: Script, g: Script)
    requires Delivered(a, b, f) && forall p | p in a.slots :: f(p) == g(p)
    ensures Delivered(a, b, g)
  {
    hide Got, BoundTo;
  }

  /** Delivery drops slots only over full queues and never touches a closed channel. */
  lemma DeliveredQuiet(a: Desk, b: Desk, f: Script)
    requires Base(a) && Delivered(a, b, f)
    ensures Weathered(a.slots, b.slots) && Quiet(a.chans, b.chans)
  {
    forall p | p in a.slots
      ensures b.slots[p] == a.slots[p] || (a.slots[p].out.Some? && b.slots[p] == Dropped(a.slots[p]))
    {
      assert Got(a, b, p, f(p));
    }
    forall c | c in a.chans && a.chans[c].closed
      ensures !BoundTo(a.slots, c)
    {
      assert forall p | p in a.slots && a.slots[p].out.Some? :: Bound(a, a.slots[p]);
    }
  }

  lemma GotMore(a: Desk, b: Desk, c: Desk, p: ID, fs: seq<Frame>, gs: seq<Frame>)
    requires p in a.slots && p in b.slots && Got(a, b, p, fs) && Got(b, c, p, gs)
    requires a.slots[p].out.Some? && b.slots[p].out.None? ==>
               a.slots[p].out.value in c.chans && c.chans[a.slots[p].out.value] == b.chans[a.slots[p].out.value]
    ensures Got(a, c, p, fs + gs)
  {
    if a.slots[p].out.Some? {
      var x, y, z := a.chans[a.slots[p].out.value], b.chans[a.slots[p].out.value], c.chans[a.slots[p].out.value];
      if b.slots[p] != a.slots[p] {
        var k :| 0 <= k < |fs| && y.sent == x.sent + fs[..k];
        assert (fs + gs)[..k] == fs[..k];
      } else if c.slots[p] != b.slots[p] {
        var k :| 0 <= k < |gs| && z.sent == y.sent + gs[..k];
        assert x.sent + (fs + gs)[..|fs| + k] == x.sent + fs + gs[..k];
        ghost var n := |fs| + k;
        assert z.sent == x.sent + (fs + gs)[..n];
      } else {
        assert x.sent + fs + gs == x.sent + (fs + gs);
      }
    }
  }

  /** A channel lost by one delivery belongs to nobody afterwards. */
  lemma LostIsUnbound(a: Desk, b: Desk, p: ID)
    requires Base(a) && Weathered(a.slots, b.slots) && p in a.slots && a.slots[p].out.Some? && b.slots[p].out.None?
    ensures !BoundTo(b.slots, a.slots[p].out.value)
  {
    forall q | q in b.slots
      ensures b.slots[q].out != a.slots[p].out
    {
      assert b.slots[q] == a.slots[q] || b.slots[q] == Dropped(a.slots[q]);
    }
  }

  lemma StillUnbound(a: Desk, b: Desk, x: ChanID)
    requires Weathered(a.slots, b.slots) && !BoundTo(a.slots, x)
    ensures !BoundTo(b.slots, x)
  {
    forall q | q in b.slots
      ensures b.slots[q].out != Some(x)
    {
      assert b.slots[q] == a.slots[q] || b.slots[q] == Dropped(a.slots[q]);
    }
  }

  lemma DeliveredMore(a: Desk, b: Desk, c: Desk, f: Script, g: Script, h: Script)
    requires Base(a) && Delivered(a, b, f) && Delivered(b, c, g) && forall p | p in a.slots :: h(p) == f(p) + g(p)
    ensures Delivered(a, c, h)
  {
    DeliveredQuiet(a, b, f);
    forall p | p in a.slots
      ensures Got(a, c, p, h(p))
    {
      assert Got(a, b, p, f(p)) && Got(b, c, p, g(p));
      if a.slots[p].out.Some? && b.slots[p].out.None? { LostIsUnbound(a, b, p); }
      GotMore(a, b, c, p, f(p), g(p));
    }
    forall x | x in a.chans && !BoundTo(a.slots, x)
      ensures c.chans[x] == a.chans[x]
    {
      StillUnbound(a, b, x);
    }
  }

  lemma WeatheredOK(a: Slots, b: Slots)
    requires Weathered(a, b) && SlotsOK(a)
    ensures SlotsOK(b)
  {
  }

  lemma QuietMore(a: map<ChanID, Chan>, b: map<ChanID, Chan>, c: map<ChanID, Chan>)
    requires Quiet(a, b) && Quiet(b, c)
    ensures Quiet(a, c)
  {
  }

  // ---- counting ----

  lemma JoinOne(slots: Slots, p: ID, s: Slot)
    requires p in slots
    ensures |JoinedSet(slots[p := s])| == |JoinedSet(slots)| + (if s.joined then 1 else 0)
            - (if slots[p].joined then 1 else 0)
  {
    var a, b := JoinedSet(slots), JoinedSet(slots[p := s]);
    if slots[p].joined && !s.joined {
      assert b == a - {p};
    } else if !slots[p].joined && s.joined {
      assert b == a + {p};
    } else {
      assert b == a;
    }
  }

  lemma LoseOne(slots: Slots, p: ID)
    requires p in slots
    ensures |JoinedSet(slots - {p})| == |JoinedSet(slots)| - if slots[p].joined then 1 else 0
  {
    assert JoinedSet(slots - {p}) == JoinedSet(slots) - {p};
  }

  /** One slot replaced, its channel if any not newly bound, and the counters moved along. */
  lemma BaseUpdate(d: Desk, p: ID, s: Slot, d': Desk)
    requires Base(d) && p in d.slots && d'.slots == d.slots[p := s] && Quiet(d.chans, d'.chans)
    requires s.out.None? || (s.out == d.slots[p].out && !s.closedOnce)
    requires forall c | c in d.chans && d'.chans[c].closed ::
               d.chans[c].closed || (s.out.None? && d.slots[p].out == Some(c))
    requires d'.joinedCount == d'.gauge == d.joinedCount + (if s.joined then 1 else 0)
             - (if d.slots[p].joined then 1 else 0)
    ensures Base(d')
  {
    JoinOne(d.slots, p, s);
    forall q | q in d'.slots && d'.slots[q].out.Some?
      ensures Bound(d', d'.slots[q])
    {
      assert Bound(d, d.slots[q]);
    }
  }

  // ---- leaving ----

  method MarkUnjoined(d: Desk, p: ID) returns (d': Desk)
    requires Base(d) && p in d.slots
    ensures Base(d') && d'.slots == d.slots[p := d.slots[p].(joined := false)] && d'.chans == d.chans
  {
    var s := d.slots[p].(joined := false);
    d' := if d.slots[p].joined then d.(slots := d.slots[p := s], joinedCount := d.joinedCount - 1, gauge := d.gauge - 1)
          else d;
    assert d'.slots == d.slots[p := s];
    BaseUpdate(d, p, s, d');
  }

  /** Close what the slot writes to, unless that has been done. */
  method CloseSlot(d: Desk, p: ID) returns (d': Desk)
    requires Base(d) && p in d.slots
    ensures Base(d') && d'.slots == d.slots[p := d.slots[p].(out := None, closedOnce := true)]
    ensures Quiet(d.chans, d'.chans) && d'.joinedCount == d.joinedCount
    ensures if d.slots[p].out.None? then d'.chans == d.chans
            else var c := d.slots[p].out.value;
                 c in d.chans && !d.chans[c].closed && d'.chans == d.chans[c := Closed(d.chans[c])]
  {
    var s := d.slots[p];
    d' := d;
    assert s.out.Some? ==> Bound(d, s);
    if !s.closedOnce {
      if s.out.Some? {
        var c := s.out.value;
        d' := d'.(chans := d'.chans[c := Closed(d'.chans[c])]);
      }
      d' := d'.(slots := d'.slots[p := s.(out := None, closedOnce := true)]);
    }
    assert d'.slots == d.slots[p := s.(out := None, closedOnce := true)];
    BaseUpdate(d, p, s.(out := None, closedOnce := true), d');
  }

  // ---- sending ----

  lemma SentKeeps(d: Desk, p: ID, c: Chan)
    requires Base(d) && p in d.slots && d.slots[p].out.Some? && d.slots[p].out.value in d.chans && !c.closed
    ensures Base(d.(chans := d.chans[d.slots[p].out.value := c])) && Quiet(d.chans, d.chans[d.slots[p].out.value := c])
  {
    var d' := d.(chans := d.chans[d.slots[p].out.value := c]);
    assert Bound(d, d.slots[p]);
    forall q | q in d'.slots && d'.slots[q].out.Some?
      ensures Bound(d', d'.slots[q])
    {
      assert Bound(d, d.slots[q]);
    }
  }

  lemma BoundHere(d: Desk, p: ID)
    requires Base(d) && p in d.slots && d.slots[p].out.Some?
    ensures d.slots[p].out.value in d.chans && !d.chans[d.slots[p].out.value].closed
  {
    assert Bound(d, d.slots[p]);
  }

  lemma Kept(d: Desk, p: ID, f: Frame, c: Chan)
    requires Base(d) && p in d.slots && d.slots[p].out.Some? && d.slots[p].out.value in d.chans
    requires c.sent == d.chans[d.slots[p].out.value].sent + [f]
    ensures Delivered(d, d.(chans := d.chans[d.slots[p].out.value := c]), Only(p, [f]))
  {
    var d' := d.(chans := d.chans[d.slots[p].out.value := c]);
    var only := Only(p, [f]);
    forall q | q in d.slots
      ensures Got(d, d', q, only(q))
    {
      assert d.slots[q].out.Some? ==> Bound(d, d.slots[q]);
    }
  }

  lemma Lost(d: Desk, p: ID, f: Frame, c: Chan, d': Desk)
    requires Base(d) && p in d.slots && d.slots[p].out.Some? && d.slots[p].out.value in d.chans
    requires c.sent == d.chans[d.slots[p].out.value].sent && c.closed && Full(c)
    requires d'.slots == d.slots[p := Dropped(d.slots[p])] && d'.chans == d.chans[d.slots[p].out.value := c]
    ensures Delivered(d, d', Only(p, [f]))
  {
    var only := Only(p, [f]);
    forall q | q in d.slots
      ensures Got(d, d', q, only(q))
    {
      assert d.slots[q].out.Some? ==> Bound(d, d.slots[q]);
      if q == p {
        assert c.sent == d.chans[d.slots[p].out.value].sent + [f][..0];
        assert CutShort(d.chans[d.slots[p].out.value], c, [f]);
      }
    }
  }

  lemma NotBound(d: Desk, p: ID, f: Frame)
    requires Base(d) && p in d.slots && d.slots[p].out.None?
    ensures Delivered(d, d, Only(p, [f]))
  {
    var only := Only(p, [f]);
    forall q | q in d.slots
      ensures Got(d, d, q, only(q))
    {
      assert d.slots[q].out.Some? ==> Bound(d, d.slots[q]);
    }
  }

  /** Queue a frame; a slot whose queue is full is dropped for good. */
  method SendTo(d: Desk, p: ID, f: Frame) returns (d': Desk)
    requires Base(d) && p in d.slots
    ensures Base(d') && Delivered(d, d', Only(p, [f]))
  {
    hide Base, Delivered, Quiet;
    var s := d.slots[p];
    if s.out.None? {
      NotBound(d, p, f);
      return d;
    }
    BoundHere(d, p);
    var c, ok := TrySend(d.chans[s.out.value], f);
    SentKeeps(d, p, c);
    d' := d.(chans := d.chans[s.out.value := c]);
    if ok {
      Kept(d, p, f, c);
    } else {
      d' := MarkUnjoined(d', p);
      d' := CloseSlot(d', p);
      Lost(d, p, f, Closed(c), d');
    }
  }

  /** Several frames to one slot, in order. */
  method SendAll(d0: Desk, p: ID, fs: seq<Frame>) returns (d: Desk)
    requires Base(d0) && p in d0.slots
    ensures Base(d) && Delivered(d0, d, Only(p, fs))
  {
    d := d0;
    hide Base, Delivered;
    DeliveredNothing(d, Only(p, []));
    for i := 0 to |fs|
      invariant Base(d) && p in d.slots && Delivered(d0, d, Only(p, fs[..i]))
    {
      ghost var was := d;
      d := SendTo(d, p, fs[i]);
      assert fs[..i + 1] == fs[..i] + [fs[i]];
      DeliveredMore(d0, was, d, Only(p, fs[..i]), Only(p, [fs[i]]), Only(p, fs[..i + 1]));
      DeliveredKeys(d0, d, Only(p, fs[..i + 1]));
    }
    assert fs[..|fs|] == fs;
  }

  lemma DeliveredKeys(a: Desk, b: Desk, f: Script)
    requires Delivered(a, b, f)
    ensures a.slots.Keys == b.slots.Keys && a.chans.Keys == b.chans.Keys
  {
  }

  /** The frames of those already served. */
  function Served(f: Script, todo: set<ID>): Script { (q: ID) => if q in todo then [] else f(q) }

  lemma StillToServe(a: Desk, b: Desk, f: Script, todo: set<ID>, p: ID)
    requires Delivered(a, b, Served(f, todo)) && p in todo && p in a.slots
    ensures b.slots[p] == a.slots[p]
  {
    assert Got(a, b, p, Served(f, todo)(p));
  }

  /** Serving p too; a slot that is not joined has no channel to be served on. */
  lemma ServedMore(a: Desk, b: Desk, c: Desk, f: Script, todo: set<ID>, p: ID)
    requires Base(a) && Delivered(a, b, Served(f, todo)) && p in todo && p in a.slots
    requires if b.slots[p].out.Some? then Delivered(b, c, Only(p, f(p))) else c == b || Delivered(b, c, Only(p, f(p)))
    ensures Delivered(a, c, Served(f, todo - {p}))
  {
    var now, next := Served(f, todo), Served(f, todo - {p});
    if c == b && b.slots[p].out.None? {
      StillToServe(a, b, f, todo, p);
      forall q | q in a.slots
        ensures Got(a, b, q, next(q))
      {
        assert Got(a, b, q, now(q));
      }
    } else {
      hide Base, Got, BoundTo;
      DeliveredMore(a, b, c, now, Only(p, f(p)), next);
    }
  }

  /** Each joined slot its own frames, in whatever order the map yields the slots. */
  method SendEach(d0: Desk, f: Script) returns (d: Desk)
    requires Sound(d0)
    ensures Sound(d) && Delivered(d0, d, f) && Weathered(d0.slots, d.slots) && Quiet(d0.chans, d.chans)
  {
    d := d0;
    var todo := d.slots.Keys;
    assert SlotsOK(d0.slots);
    hide Base, Delivered, SlotsOK;
    DeliveredNothing(d, Served(f, todo));
    while todo != {}
      invariant Base(d) && todo <= d.slots.Keys == d0.slots.Keys && Delivered(d0, d, Served(f, todo))
      decreases todo
    {
      var p :| p in todo;
      ghost var was := d;
      StillToServe(d0, d, f, todo, p);
      if d.slots[p].joined {
        d := SendAll(d, p, f(p));
      } else {
        Unjoined(d0.slots, p);
      }
      ServedMore(d0, was, d, f, todo, p);
      todo := todo - {p};
      DeliveredKeys(d0, d, Served(f, todo));
    }
    DeliveredSame(d0, d, Served(f, {}), f);
    DeliveredQuiet(d0, d, f);
    WeatheredOK(d0.slots, d.slots);
  }

  lemma Unjoined(slots: Slots, p: ID)
    requires SlotsOK(slots) && p in slots && !slots[p].joined
    ensures slots[p].out.None?
  {
    assert SlotOK(slots[p]);
  }

  /** One frame to every joined slot. */
  method Broadcast(d0: Desk, f: Frame) returns (d: Desk)
    requires Sound(d0)
    ensures Sound(d) && Delivered(d0, d, Everyone([f])) && Weathered(d0.slots, d.slots) && Quiet(d0.chans, d.chans)
  {
    d := SendEach(d0, Everyone([f]));
  }

  // ---- ending ----

  /** Every channel that was bound is closed, having taken all the frames unless its queue was full before the last. */
  ghost predicate Farewell(a: Desk, b: Desk, fs: seq<Frame>) {
    && a.chans.Keys == b.chans.Keys
    && (forall p | p in a.slots && a.slots[p].out.Some? ::
          a.slots[p].out.value in a.chans && SeenOff(a.chans[a.slots[p].out.value], b.chans[a.slots[p].out.value], fs))
    && (forall c | c in a.chans && !BoundTo(a.slots, c) :: b.chans[c] == a.chans[c])
  }

  ghost predicate SeenOff(x: Chan, y: Chan, fs: seq<Frame>) {
    y.closed && (y.sent == x.sent + fs || CutShort(x, y, fs))
  }

  /** Slot p has been seen off; nothing else has changed but marks of who is joined. */
  ghost predicate OneSeenOff(a: Desk, b: Desk, p: ID, fs: seq<Frame>)
    requires p in a.slots
  {
    && a.slots.Keys == b.slots.Keys && a.chans.Keys == b.chans.Keys && b.slots[p].out.None?
    && (forall q | q in a.slots && q != p :: b.slots[q] == a.slots[q])
    && (forall c | c in a.chans ::
          if a.slots[p].out == Some(c) then SeenOff(a.chans[c], b.chans[c], fs) else b.chans[c] == a.chans[c])
  }

  /** The slots not in todo have been seen off. */
  ghost predicate SomeSeenOff(a: Desk, b: Desk, todo: set<ID>, fs: seq<Frame>) {
    && a.slots.Keys == b.slots.Keys && a.chans.Keys == b.chans.Keys
    && (forall p | p in a.slots :: if p in todo then b.slots[p] == a.slots[p] else b.slots[p].out.None?)
    && (forall p | p in a.slots && a.slots[p].out.Some? :: a.slots[p].out.value in a.chans
          && if p in todo then b.chans[a.slots[p].out.value] == a.chans[a.slots[p].out.value]
             else SeenOff(a.chans[a.slots[p].out.value], b.chans[a.slots[p].out.value], fs))
    && (forall c | c in a.chans && !BoundTo(a.slots, c) :: b.chans[c] == a.chans[c])
  }

  lemma SeeingOff(a: Desk, b: Desk, c: Desk, todo: set<ID>, p: ID, fs: seq<Frame>)
    requires Base(a) && SomeSeenOff(a, b, todo, fs) && p in todo && p in b.slots && OneSeenOff(b, c, p, fs)
    ensures SomeSeenOff(a, c, todo - {p}, fs)
  {
    hide SeenOff, Bound, JoinedSet;
    forall q | q in a.slots && a.slots[q].out.Some?
      ensures var x := a.slots[q].out.value;
              if q in todo - {p} then c.chans[x] == a.chans[x] else SeenOff(a.chans[x], c.chans[x], fs)
    {
      assert q != p ==> a.slots[q].out != a.slots[p].out;
    }
  }

  lemma NobodySeenOff(d: Desk, fs: seq<Frame>)
    requires Base(d)
    ensures SomeSeenOff(d, d, d.slots.Keys, fs)
  {
    assert forall p | p in d.slots && d.slots[p].out.Some? :: Bound(d, d.slots[p]);
  }

  lemma AllSeenOff(a: Desk, b: Desk, fs: seq<Frame>)
    requires SomeSeenOff(a, b, {}, fs)
    ensures Farewell(a, b, fs) && a.slots.Keys == b.slots.Keys && forall p | p in b.slots :: b.slots[p].out.None?
  {
  }

  lemma NotYetSeenOff(a: Desk, b: Desk, todo: set<ID>, fs: seq<Frame>, p: ID)
    requires SomeSeenOff(a, b, todo, fs) && p in todo && p in a.slots
    ensures a.slots.Keys == b.slots.Keys && b.slots[p] == a.slots[p]
  {
  }

  /** Nothing to close. */
  lemma NothingToSee(a: Desk, b: Desk, todo: set<ID>, fs: seq<Frame>, p: ID)
    requires SomeSeenOff(a, b, todo, fs) && p in todo && p in a.slots && a.slots[p].out.None?
    ensures SomeSeenOff(a, b, todo - {p}, fs)
  {
    hide SeenOff, BoundTo;
  }

  /** Frames sent before the farewell come before it. */
  lemma FarewellAfter(a: Desk, b: Desk, c: Desk, fs: seq<Frame>, gs: seq<Frame>)
    requires Base(a) && Delivered(a, b, Everyone(fs)) && Farewell(b, c, gs)
    ensures Farewell(a, c, fs + gs)
  {
    DeliveredQuiet(a, b, Everyone(fs));
    forall p | p in a.slots && a.slots[p].out.Some?
      ensures a.slots[p].out.value in a.chans
              && SeenOff(a.chans[a.slots[p].out.value], c.chans[a.slots[p].out.value], fs + gs)
    {
      assert Got(a, b, p, Everyone(fs)(p));
      if b.slots[p].out.None? { LostIsUnbound(a, b, p); }
      var x := a.slots[p].out.value;
      SeenOffAfter(a.chans[x], b.chans[x], c.chans[x], fs, gs, b.slots[p].out.None?);
    }
    forall x | x in a.chans && !BoundTo(a.slots, x)
      ensures c.chans[x] == a.chans[x]
    {
      StillUnbound(a, b, x);
    }
  }

  lemma SeenOffAfter(x: Chan, y: Chan, z: Chan, fs: seq<Frame>, gs: seq<Frame>, lost: bool)
    requires if lost then CutShort(x, y, fs) && z == y else y.sent == x.sent + fs && SeenOff(y, z, gs)
    ensures SeenOff(x, z, fs + gs)
  {
    if lost {
      var k :| 0 <= k < |fs| && y.sent == x.sent + fs[..k];
      assert (fs + gs)[..k] == fs[..k];
    } else if z.sent == y.sent + gs {
      assert x.sent + fs + gs == x.sent + (fs + gs);
    } else {
      var k :| 0 <= k < |gs| && z.sent == y.sent + gs[..k];
      ghost var n := |fs| + k;
      assert (fs + gs)[..n] == fs + gs[..k];
      assert z.sent == x.sent + (fs + gs)[..n];
    }
  }

  /** The last frames to one slot, and its channel is closed. */
  method GoodbyeOne(d0: Desk, p: ID, fs: seq<Frame>) returns (d: Desk)
    requires Base(d0) && p in d0.slots
    ensures Base(d) && OneSeenOff(d0, d, p, fs) && d.slots.Keys == d0.slots.Keys
  {
    hide Base, Quiet, Delivered;
    d := SendAll(d0, p, fs);
    ghost var sent := d;
    DeliveredKeys(d0, d, Only(p, fs));
    d := CloseSlot(d, p);
    LastFrames(d0, sent, d, p, fs);
  }

  /** Frames for p alone leave the others as they were. */
  lemma Untouched(a: Desk, b: Desk, p: ID, fs: seq<Frame>, q: ID)
    requires Delivered(a, b, Only(p, fs)) && q in a.slots && q != p
    ensures q in b.slots && b.slots[q] == a.slots[q]
    ensures a.slots[q].out.Some? ==>
              a.slots[q].out.value in a.chans && b.chans[a.slots[q].out.value] == a.chans[a.slots[q].out.value]
  {
    var only := Only(p, fs);
    assert Got(a, b, q, only(q)) && only(q) == [];
  }

  lemma LastFrames(a: Desk, b: Desk, c: Desk, p: ID, fs: seq<Frame>)
    requires Base(a) && p in a.slots && p in b.slots && Delivered(a, b, Only(p, fs))
    requires c.slots == b.slots[p := b.slots[p].(out := None, closedOnce := true)]
    requires if b.slots[p].out.None? then c.chans == b.chans
             else var x := b.slots[p].out.value;
                  x in b.chans && !b.chans[x].closed && c.chans == b.chans[x := Closed(b.chans[x])]
    ensures OneSeenOff(a, c, p, fs)
  {
    var only := Only(p, fs);
    DeliveredKeys(a, b, only);
    assert Got(a, b, p, only(p)) && only(p) == fs;
    assert fs + [] == fs;
    forall x | x in a.chans
      ensures if a.slots[p].out == Some(x) then SeenOff(a.chans[x], c.chans[x], fs) else c.chans[x] == a.chans[x]
    {
      if a.slots[p].out == Some(x) {
        SeenOffAfter(a.chans[x], b.chans[x], c.chans[x], fs, [], b.slots[p].out.None?);
      } else if q :| q in a.slots && a.slots[q].out == Some(x) {
        Untouched(a, b, p, fs, q);
      }
    }
    hide Delivered, Base, Got, SeenOff;
    forall q | q in a.slots && q != p
      ensures b.slots[q] == a.slots[q]
    {
      Untouched(a, b, p, fs, q);
    }
  }

  /** MatchOver to every joined slot, then its channel is closed. */
  method SayGoodbye(d0: Desk) returns (d: Desk)
    requires Sound(d0)
    ensures Base(d) && d.slots.Keys == d0.slots.Keys && (forall p | p in d.slots :: d.slots[p].out.None?)
            && Farewell(d0, d, [MatchOver])
  {
    d := d0;
    var todo := d.slots.Keys;
    assert SlotsOK(d0.slots);
    hide Base, SomeSeenOff, OneSeenOff, SlotsOK, Farewell;
    NobodySeenOff(d, [MatchOver]);
    while todo != {}
      invariant Base(d) && todo <= d.slots.Keys == d0.slots.Keys && SomeSeenOff(d0, d, todo, [MatchOver])
      decreases todo
    {
      var p :| p in todo;
      ghost var was := d;
      NotYetSeenOff(d0, d, todo, [MatchOver], p);
      if d.slots[p].joined {
        d := GoodbyeOne(d, p, [MatchOver]);
        SeeingOff(d0, was, d, todo, p, [MatchOver]);
      } else {
        Unjoined(d0.slots, p);
        NothingToSee(d0, d, todo, [MatchOver], p);
      }
      todo := todo - {p};
    }
    AllSeenOff(d0, d, [MatchOver]);
  }

  /** Unjoin every slot still joined. */
  method ReleaseJoinedGauge(d0: Desk) returns (d: Desk)
    requires Base(d0)
    ensures Base(d) && d.chans == d0.chans && d.slots.Keys == d0.slots.Keys && d.joinedCount == 0
    ensures forall p | p in d.slots :: d.slots[p] == d0.slots[p].(joined := false)
  {
    d := d0;
    var todo := d.slots.Keys;
    hide *;
    while todo != {}
      invariant Base(d) && d.chans == d0.chans && d.slots.Keys == d0.slots.Keys && todo <= d.slots.Keys
      invariant forall p | p in d.slots ::
                  d.slots[p] == if p in todo then d0.slots[p] else d0.slots[p].(joined := false)
      decreases todo
    {
      var p :| p in todo;
      todo := todo - {p};
      d := MarkUnjoined(d, p);
    }
    NobodyJoined(d);
  }

  lemma NobodyJoined(d: Desk)
    requires Base(d) && forall p | p in d.slots :: !d.slots[p].joined
    ensures d.joinedCount == 0
  {
    assert JoinedSet(d.slots) == {};
  }

  /** Close every channel still bound. */
  method CloseAll(d0: Desk) returns (d: Desk)
    requires Base(d0)
    ensures Base(d) && d.slots.Keys == d0.slots.Keys && d.joinedCount == d0.joinedCount && Farewell(d0, d, [])
    ensures forall p | p in d.slots :: d.slots[p].out.None? && d.slots[p].joined == d0.slots[p].joined
  {
    d := d0;
    var todo := d.slots.Keys;
    hide *;
    NobodySeenOff(d, []);
    while todo != {}
      invariant Base(d) && todo <= d.slots.Keys == d0.slots.Keys && SomeSeenOff(d0, d, todo, [])
      invariant d.joinedCount == d0.joinedCount
      invariant forall p | p in d.slots :: d.slots[p].joined == d0.slots[p].joined
      decreases todo
    {
      var p :| p in todo;
      ghost var was := d;
      NotYetSeenOff(d0, d, todo, [], p);
      if d.slots[p].out.Some? {
        d := CloseSlot(d, p);
        JustClosed(was, d, p);
        SeeingOff(d0, was, d, todo, p, []);
      } else {
        NothingToSee(d0, d, todo, [], p);
      }
      todo := todo - {p};
    }
    AllSeenOff(d0, d, []);
  }

  lemma JustClosed(a: Desk, b: Desk, p: ID)
    requires p in a.slots && a.slots[p].out.Some? && a.slots[p].out.value in a.chans
             && !a.chans[a.slots[p].out.value].closed
    requires b.slots == a.slots[p := a.slots[p].(out := None, closedOnce := true)]
    requires b.chans == a.chans[a.slots[p].out.value := Closed(a.chans[a.slots[p].out.value])]
    ensures OneSeenOff(a, b, p, [])
    ensures forall q | q in a.slots :: b.slots[q].joined == a.slots[q].joined
  {
    var x := a.chans[a.slots[p].out.value];
    assert x.sent + [] == x.sent;
  }

  /** A farewell never touches a closed channel. */
  lemma FarewellQuiet(a: Desk, b: Desk, fs: seq<Frame>)
    requires Base(a) && Farewell(a, b, fs)
    ensures Quiet(a.chans, b.chans)
  {
    forall c | c in a.chans && a.chans[c].closed
      ensures !BoundTo(a.slots, c)
    {
      assert forall p | p in a.slots && a.slots[p].out.Some? :: Bound(a, a.slots[p]);
    }
  }
}
