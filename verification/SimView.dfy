/** From the simulation's slab to what a player is sent. */
module SimView {
  import opened Options
  import opened Grid
  import opened Entities
  import opened Slab
  import opened Ledger
  import opened SimState
  import opened Setup
  import opened Simulation
  import Ranking
  import A = Aoi

  /** Every occupied slot's entity once, by ID. */
  ghost predicate Listing(slots: seq<Entity>, es: seq<Entity>) {
    && (forall i, j | 0 <= i < j < |es| :: es[i].id < es[j].id)
    && (forall e :: e in es <==> e.id != 0 && e in slots)
  }

  method ListEntities(slots: seq<Entity>) returns (es: seq<Entity>)
    requires Unique(slots)
    ensures Listing(slots, es)
  {
    var ids := LiveIDsSorted(slots);
    es := [];
    for k := 0 to |ids|
      invariant |es| == k && forall j | 0 <= j < k :: es[j].id == ids[j] && es[j] in slots
    {
      assert ids[k] in ids;
      var idx := FindByID(slots, ids[k]);
      es := es + [slots[idx]];
    }
    forall e
      ensures e in es <==> e.id != 0 && e in slots
    {
      if e in es {
        var k :| 0 <= k < |es| && es[k] == e;
        assert ids[k] in ids;
      }
      if e.id != 0 && e in slots {
        assert Present(slots, e.id);
        var k :| 0 <= k < |ids| && ids[k] == e.id;
        var i :| 0 <= i < |slots| && slots[i] == e;
        var j :| 0 <= j < |slots| && slots[j] == es[k];
        OneSlot(slots, i, j);
      }
    }
  }

  lemma {:induction false} PlayersCounted(slots: seq<Entity>)
    ensures |Ranking.Filter(slots, (e: Entity) => IsOf(e, Player))| == Population(slots, Player)
  {
    if slots != [] {
      PlayersCounted(slots[..|slots| - 1]);
    }
  }

  /** No more players are listed than a match admits. */
  lemma FewListed(slots: seq<Entity>, es: seq<Entity>)
    requires Listing(slots, es)
    ensures |Ranking.Filter(es, (e: Entity) => e.kind == Player)| <= Population(slots, Player)
  {
    var listed, held := Ranking.Filter(es, (e: Entity) => e.kind == Player),
      Ranking.Filter(slots, (e: Entity) => IsOf(e, Player));
    Ranking.FilterIs(es, (e: Entity) => e.kind == Player);
    Ranking.FilterIs(slots, (e: Entity) => IsOf(e, Player));
    PlayersCounted(slots);
    forall e | e in listed
      ensures Ranking.Carries(held, e.id)
    {
      assert e in held;
    }
    A.NoLonger(listed, held);
  }

  /** At any state between ticks, whatever else there is, every live player is in everybody's snapshot. */
  lemma PlayersAlwaysSeen(m: Maze, startLives: nat, noRespawn: bool, level: Option<Level>, st: Store, tick: nat,
                          quiesced: bool, log: seq<LifeEvent>, s: A.Scene, e: Entity)
    requires Rest(m, startLives, noRespawn, level, st, tick, quiesced, log) && Listing(st.slots, s.entities)
    requires e in st.slots && Live(e) && e.kind == Player
    ensures e in A.View(s)
  {
    NeverCrowded(m, startLives, noRespawn, level, st, tick, quiesced, log);
    hide Rest;
    FewListed(st.slots, s.entities);
    A.FewPlayers(s, MAX_PLAYERS);
    A.PlayersAlwaysShown(s, e);
  }
}
