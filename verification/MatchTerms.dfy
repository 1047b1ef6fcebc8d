/** What joining, sending and the end of a match come to, slot by slot and frame by frame. */
module MatchTerms {
  import opened Options
  import opened Entities
  import opened MatchSlots
  import opened MatchActor
  import E = MatchEnd

  // ---- sending ----

  /**
   What becomes of a slot that is sent frames: without a channel nothing; with one it has taken them all, or its queue
   was full before the last, and then the slot is out and the channel closed.
   */
  lemma SlotFate(a: Desk, b: Desk, f: Script, p: ID)
    requires Delivered(a, b, f) && p in a.slots
    ensures p in b.slots && (a.slots[p].out.None? ==> b.slots[p] == a.slots[p])
    ensures a.slots[p].out.Some? ==>
              var c, s, s' := a.slots[p].out.value, a.slots[p], b.slots[p];
              && c in a.chans && c in b.chans
              && if s' == s then b.chans[c].sent == a.chans[c].sent + f(p)
                 else
                   && s' == Slot(joined := false, out := None, closedOnce := true, deadCam := s.deadCam, dc := s.dc,
                                 deadline := s.deadline)
                   && b.chans[c].closed && b.chans[c].waiting >= b.chans[c].capacity
                   && a.chans[c].sent <= b.chans[c].sent < a.chans[c].sent + f(p)
  {
    assert Got(a, b, p, f(p));
  }

  /** The last frames: taken before the channel closed, or the queue was full before the last of them. */
  lemma LastFrames(a: Desk, b: Desk, fs: seq<Frame>, p: ID)
    requires Farewell(a, b, fs) && p in a.slots && a.slots[p].out.Some?
    ensures var c := a.slots[p].out.value;
            && c in a.chans && c in b.chans && b.chans[c].closed
            && (b.chans[c].sent == a.chans[c].sent + fs
                || (b.chans[c].waiting >= b.chans[c].capacity
                    && a.chans[c].sent <= b.chans[c].sent < a.chans[c].sent + fs))
  {
  }

  // ---- coming back ----

  /**
   Whoever is back is out of grace on the new channel, which brings where things stand; the others only hear of it.
   */
  lemma BackMeans(d0: Desk, p: ID, out: ChanID, capacity: nat, now: nat, d: Desk)
    requires Base(d0) && p in d0.slots && out !in d0.chans
    requires Delivered(LitDesk(d0, p, out, capacity), d, Return(p, now))
    ensures p in d.slots && out in d.chans
    ensures var fs := [Resync(now), MapInit, Snapshot(p), Scoreboard, Rejoined(p)];
            if d.slots[p].out.Some? then
              && d.slots[p] == d0.slots[p].(out := Some(out), dc := false, deadline := 0) && d.chans[out].sent == fs
            else d.chans[out].closed && d.chans[out].sent < fs
    ensures forall q | q in d0.slots && q != p && d0.slots[q].out.Some? && q in d.slots && d.slots[q].out.Some? ::
              var c := d0.slots[q].out.value;
              && d.slots[q] == d0.slots[q] && c in d0.chans && c in d.chans
              && d.chans[c].sent == d0.chans[c].sent + [Rejoined(p)]
  {
    var lit := LitDesk(d0, p, out, capacity);
    SlotFate(lit, d, Return(p, now), p);
    assert lit.chans[out].sent == [];
    forall q | q in d0.slots && q != p && d0.slots[q].out.Some? && q in d.slots && d.slots[q].out.Some?
      ensures var c := d0.slots[q].out.value;
              && d.slots[q] == d0.slots[q] && c in d0.chans && c in d.chans
              && d.chans[c].sent == d0.chans[c].sent + [Rejoined(p)]
    {
      assert Bound(d0, d0.slots[q]);
      assert lit.slots[q] == d0.slots[q] && Return(p, now)(q) == [Rejoined(p)];
      SlotFate(lit, d, Return(p, now), q);
    }
  }

  // ---- joining and starting ----

  /** The slot is told that it has joined, on its new channel, and nobody else is told anything. */
  lemma SeatedMeans(cfg: MatchConfig, d0: Desk, p: ID, c: ChanID, capacity: nat, simMade: bool, told: Desk,
                    state: State, d: Desk)
    requires Base(d0) && c !in d0.chans && JoinedBy(cfg, d0, p, c, capacity, simMade, told, state, d)
    ensures p in d0.slots && p in told.slots && c in told.chans
    ensures told.slots[p].out.Some? ==>
              && told.slots[p] == d0.slots[p].(joined := true, out := Some(c)) && told.chans[c].sent == [Joined(p)]
    ensures forall q | q in d0.slots && q != p :: q in told.slots && told.slots[q] == d0.slots[q]
    ensures (exists q | q in told.slots :: !told.slots[q].joined) ==> state == WaitingForJoins && d == told
  {
    var seated := Seated(d0, p, c, capacity);
    SlotFate(seated, told, Only(p, [Joined(p)]), p);
    assert seated.chans[c].sent == [];
    forall q | q in d0.slots && q != p
      ensures q in told.slots && told.slots[q] == d0.slots[q]
    {
      assert seated.slots[q] == d0.slots[q] && Only(p, [Joined(p)])(q) == [];
      assert d0.slots[q].out.Some? ==> Bound(d0, d0.slots[q]);
      SlotFate(seated, told, Only(p, [Joined(p)]), q);
    }
  }

  /**
   With everyone in, the match starts if there is a map and one player against the machine or two against each other.
   Everyone gets the picture and the start, the last to join the picture once more, and grace runs for those already
   gone; or every channel closes.
   */
  lemma StartMeans(cfg: MatchConfig, d0: Desk, p: ID, c: ChanID, capacity: nat, simMade: bool, told: Desk, state: State,
                   d: Desk)
    requires JoinedBy(cfg, d0, p, c, capacity, simMade, told, state, d)
    requires forall q | q in told.slots :: told.slots[q].joined
    ensures state == Live || state == Ended
    ensures state == Live <==> simMade && told.joinedCount >= if cfg.level then 1 else 2
    ensures state == Live ==> d.slots.Keys == told.slots.Keys
    ensures state == Live ==> forall q | q in told.slots :: Begun(cfg, told, p, d, q)
    ensures state == Ended ==> forall q | q in told.slots && told.slots[q].out.Some? ::
              var o := told.slots[q].out.value;
              o in told.chans && o in d.chans && d.chans[o].closed && d.chans[o].sent == told.chans[o].sent
  {
    if state == Live {
      hide Delivered, Begun;
      forall q | q in told.slots
        ensures Begun(cfg, told, p, d, q)
      {
        BegunIs(cfg, told, p, d, q);
      }
    } else {
      hide Farewell;
      forall q | q in told.slots && told.slots[q].out.Some?
        ensures var o := told.slots[q].out.value;
                o in told.chans && o in d.chans && d.chans[o].closed && d.chans[o].sent == told.chans[o].sent
      {
        LastFrames(told, d, [], q);
      }
    }
  }

  /** A slot without a channel has its grace running; one that still has its channel has taken the opening frames. */
  ghost predicate Begun(cfg: MatchConfig, told: Desk, p: ID, d: Desk, q: ID)
    requires q in told.slots && q in d.slots
  {
    var s, s' := told.slots[q], d.slots[q];
    && (s.dc && s.joined && s.deadline == 0 && s.out.None? ==>
          s' == s.(deadline := if cfg.graceOverride == 0 then 900 else cfg.graceOverride))
    && (s'.out.Some? && !s.dc ==>
          && s' == s && s.out.value in told.chans && s.out.value in d.chans
          && d.chans[s.out.value].sent
             == told.chans[s.out.value].sent + [MapInit, Scoreboard, Snapshot(q), Started]
                + if q == p then [MapInit, Scoreboard, Snapshot(q)] else [])
  }

  lemma BegunIs(cfg: MatchConfig, told: Desk, p: ID, d: Desk, q: ID)
    requires Delivered(ArmedDesk(cfg, told), d, LastJoined(p)) && q in told.slots && q in d.slots
    ensures Begun(cfg, told, p, d, q)
  {
    SlotFate(ArmedDesk(cfg, told), d, LastJoined(p), q);
    hide Delivered;
    var frames := [MapInit, Scoreboard, Snapshot(q), Started] + if q == p then [MapInit, Scoreboard, Snapshot(q)]
                                                                else [];
    assert LastJoined(p)(q) == frames by {
      assert Opening()(q) == [MapInit, Scoreboard, Snapshot(q), Started];
      if q == p {
        assert LastJoined(p)(q) == Opening()(q) + [MapInit, Scoreboard, Snapshot(p)];
      } else {
        assert LastJoined(p)(q) == Opening()(q);
      }
    }
  }

  // ---- the verdict ----

  /** One verdict for every moment, the conditions in their order of precedence; the clock runs out at tick 18000. */
  lemma VerdictIs(slots: set<ID>, scores: map<ID, E.PlayerScore>, cleared: bool, startCount: nat, tick: nat,
                  v: E.Verdict)
    requires E.Judged(slots, scores, cleared, startCount, tick, v)
    ensures var alive := set p | p in slots && p in scores && !scores[p].eliminated;
            if cleared && alive != {} then v == E.Over(E.PvEComplete, 0)
            else if |alive| == 1 && startCount >= 2 then v.Over? && v.why == E.LastStanding && alive == {v.winner}
            else if alive == {} then v == E.Over(E.AllEliminated, 0)
            else if tick < 18_000 then v == E.GoesOn
            else v.Over? && v.why == E.Timer && LeaderOrNobody(slots, scores, v.winner)
  {
    assert E.Alive(slots, scores) == set p | p in slots && p in scores && !scores[p].eliminated;
  }

  /** The one with the most points, and nobody if two share them. */
  ghost predicate LeaderOrNobody(slots: set<ID>, scores: map<ID, E.PlayerScore>, w: ID) {
    if w != 0 then
      w in slots && w in scores
      && forall p | p in slots && p in scores && p != w :: scores[p].score < scores[w].score
    else
      forall p | p in slots && p in scores && p != 0 ::
        exists q | q in slots && q in scores && q != p :: scores[q].score >= scores[p].score
  }
}
