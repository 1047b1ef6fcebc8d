/** When a match is over, and who won. */
module MatchEnd {
  import opened Entities

  const MATCH_TIMER_TICKS := 18_000

  datatype PlayerScore = PlayerScore(lives: nat, score: int, eliminated: bool)

  datatype Reason = PvEComplete | LastStanding | AllEliminated | Timer

  datatype Verdict = GoesOn | Over(why: Reason, winner: ID)

  function Scored(slots: set<ID>, scores: map<ID, PlayerScore>): set<ID> {
    set p | p in slots && p in scores
  }

  function Alive(slots: set<ID>, scores: map<ID, PlayerScore>): set<ID> {
    set p | p in slots && p in scores && !scores[p].eliminated
  }

  /** w leads everyone else, and strictly. */
  predicate Leads(slots: set<ID>, scores: map<ID, PlayerScore>, w: ID) {
    w in Scored(slots, scores) && forall p | p in Scored(slots, scores) && p != w :: scores[p].score < scores[w].score
  }

  /** The winner by score: the strict leader, or 0 when nobody but 0 leads. */
  predicate Tops(slots: set<ID>, scores: map<ID, PlayerScore>, w: ID) {
    if w != 0 then Leads(slots, scores, w) else forall p | p in slots && p != 0 :: !Leads(slots, scores, p)
  }

  /** The strict leader, whatever order the map is walked in; a tie at the top has no winner. */
  method TimerWinner(slots: set<ID>, scores: map<ID, PlayerScore>) returns (w: ID)
    ensures Tops(slots, scores, w)
  {
    var bestID: ID, bestScore, tie, first := 0, 0, false, true;
    var todo := slots;
    ghost var seen: set<ID> := {};
    while todo != {}
      invariant seen + todo == slots && seen !! todo
      invariant first ==> Scored(seen, scores) == {}
      invariant !first ==> bestID in Scored(seen, scores) && bestScore == scores[bestID].score
      invariant !first ==> forall p | p in Scored(seen, scores) :: scores[p].score <= bestScore
      invariant !first ==>
                  (tie <==> exists p | p in Scored(seen, scores) && p != bestID :: scores[p].score == bestScore)
      invariant first ==> !tie && bestID == 0
      invariant bestID in slots || first
      decreases todo
    {
      var p :| p in todo;
      todo := todo - {p};
      ghost var before := seen;
      seen := seen + {p};
      if p in scores {
        var s := scores[p].score;
        if first {
          bestID, bestScore, first := p, s, false;
        } else if s > bestScore {
          bestID, bestScore, tie := p, s, false;
        } else if s == bestScore {
          tie := true;
        }
      } else {
        assert Scored(seen, scores) == Scored(before, scores);
      }
    }
    assert seen == slots;
    if tie {
      return 0;
    }
    w := bestID;
  }

  /** Which verdicts are right, each with its exact condition; `cleared` says that the machine has nothing left. */
  ghost predicate Judged(slots: set<ID>, scores: map<ID, PlayerScore>, cleared: bool, startCount: nat, tick: nat,
                         v: Verdict) {
    && (v == Over(PvEComplete, 0) <==> cleared && Alive(slots, scores) != {})
    && (v.Over? && v.why == LastStanding <==>
        v != Over(PvEComplete, 0) && |Alive(slots, scores)| == 1 && startCount >= 2)
    && (v.Over? && v.why == LastStanding ==> Alive(slots, scores) == {v.winner})
    && (v == Over(AllEliminated, 0) <==> Alive(slots, scores) == {})
    && (v.Over? && v.why in {PvEComplete, AllEliminated} ==> v.winner == 0)
    && (v.GoesOn? || (v.Over? && v.why == Timer) ==> (v.GoesOn? <==> tick < MATCH_TIMER_TICKS))
    && (v.Over? && v.why == Timer ==> Tops(slots, scores, v.winner))
  }

  /** At any moment exactly one verdict is right. */
  lemma OneVerdict(slots: set<ID>, scores: map<ID, PlayerScore>, cleared: bool, startCount: nat, tick: nat, v: Verdict,
                   w: Verdict)
    requires Judged(slots, scores, cleared, startCount, tick, v) && Judged(slots, scores, cleared, startCount, tick, w)
    ensures v == w
  {
    if v.Over? && v.why == LastStanding && w.Over? && w.why == LastStanding {
      assert v.winner in {w.winner};
    }
    if v.Over? && v.why == Timer && w.Over? && w.why == Timer && v.winner != 0 && w.winner != 0 {
      OneLeader(slots, scores, v.winner, w.winner);
    }
  }

  /** At most one player leads. */
  lemma OneLeader(slots: set<ID>, scores: map<ID, PlayerScore>, a: ID, b: ID)
    requires Leads(slots, scores, a) && Leads(slots, scores, b)
    ensures a == b
  {
  }

  /** Clearing the machine first, then the last one standing, then nobody left, then the clock. */
  method EvaluateMatchEnd(slots: set<ID>, scores: map<ID, PlayerScore>, isPvE: bool, liveGens: nat, liveSnipes: nat,
                          startCount: nat, tick: nat)
    returns (v: Verdict)
    ensures Judged(slots, scores, isPvE && liveGens == 0 && liveSnipes == 0, startCount, tick, v)
  {
    var live, lastAlive: ID := 0, 0;
    var todo := slots;
    ghost var seen: set<ID> := {};
    while todo != {}
      invariant seen + todo == slots && seen !! todo
      invariant live == |Alive(seen, scores)|
      invariant if Alive(seen, scores) == {} then lastAlive == 0 else lastAlive in Alive(seen, scores)
      decreases todo
    {
      var p :| p in todo;
      todo := todo - {p};
      if p in scores && !scores[p].eliminated {
        assert Alive(seen + {p}, scores) == Alive(seen, scores) + {p};
        live := live + 1;
        if lastAlive == 0 || p < lastAlive {
          lastAlive := p;
        }
      } else {
        assert Alive(seen + {p}, scores) == Alive(seen, scores);
      }
      seen := seen + {p};
    }
    assert seen == slots;
    ghost var alive := Alive(slots, scores);
    if isPvE && liveGens == 0 && liveSnipes == 0 && live >= 1 {
      return Over(PvEComplete, 0);
    }
    if live == 1 && startCount >= 2 {
      Singleton(alive, lastAlive);
      return Over(LastStanding, lastAlive);
    }
    if live == 0 {
      return Over(AllEliminated, 0);
    }
    if tick >= MATCH_TIMER_TICKS {
      var w := TimerWinner(slots, scores);
      return Over(Timer, w);
    }
    return GoesOn;
  }

  lemma Singleton(s: set<ID>, x: ID)
    requires |s| == 1 && x in s
    ensures s == {x}
  {
    assert |s - {x}| == 0;
  }
}
