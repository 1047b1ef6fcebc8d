/** A live match and its simulation together: every tick of the one is a tick of the other. */
module Game {
  import opened Options
  import opened Grid
  import opened Entities
  import opened Slab
  import opened Ledger
  import opened SimState
  import opened Cleanup
  import opened Setup
  import opened Stages
  import S = Simulation
  import E = MatchEnd
  import R = Runs
  import A = MatchActor
  import D = MatchSlots

  // ---- what the match is told ----

  function ScoresOf(players: map<ID, PlayerState>): map<ID, E.PlayerScore> {
    map p | p in players :: E.PlayerScore(players[p].lives, players[p].score, players[p].eliminated)
  }

  /** The accounts that follow from the record of kills alone. */
  function RecordScores(players: set<ID>, startLives: nat, log: seq<LifeEvent>): map<ID, E.PlayerScore> {
    map p | p in players ::
      E.PlayerScore(if Deaths(log, p) < startLives then startLives - Deaths(log, p) else 0, Score(log, p),
                    Deaths(log, p) >= startLives)
  }

  /** In every state between ticks, what the match reads off is what the record says. */
  lemma ScoresAreRecord(m: Maze, startLives: nat, noRespawn: bool, level: Option<Level>, st: Store, tick: nat,
                        quiesced: bool, log: seq<LifeEvent>)
    requires S.Rest(m, startLives, noRespawn, level, st, tick, quiesced, log)
    ensures ScoresOf(st.players) == RecordScores(st.players.Keys, startLives, log)
  {
    hide ScoresOf, S.Rest, Deaths, Kills;
    forall p | p in st.players
      ensures st.players[p].lives == startLives - Deaths(log, p)
      ensures st.players[p].score == Score(log, p) && (st.players[p].eliminated <==> st.players[p].lives == 0)
    {
      S.AccountsAgree(m, startLives, noRespawn, level, st, tick, quiesced, log, p);
    }
    ScoresWord(st.players, startLives, log);
  }

  lemma ScoresWord(players: map<ID, PlayerState>, startLives: nat, log: seq<LifeEvent>)
    requires forall p | p in players ::
               && players[p].lives == startLives - Deaths(log, p) && players[p].score == Score(log, p)
               && (players[p].eliminated <==> players[p].lives == 0)
    ensures ScoresOf(players) == RecordScores(players.Keys, startLives, log)
  {
  }

  predicate Stands(e: Entity, kind: Kind) { Live(e) && e.kind == kind }

  method CountStanding(slots: seq<Entity>, kind: Kind) returns (n: nat)
    ensures n == 0 <==> forall i | 0 <= i < |slots| :: !Stands(slots[i], kind)
  {
    n := 0;
    for i := 0 to |slots|
      invariant n == 0 <==> forall j | 0 <= j < i :: !Stands(slots[j], kind)
    {
      if Stands(slots[i], kind) {
        n := n + 1;
      }
    }
  }

  /** No generator and no snipe is left. */
  predicate Cleared(slots: seq<Entity>) {
    forall i | 0 <= i < |slots| :: !Stands(slots[i], Generator) && !Stands(slots[i], Snipe)
  }

  /**
   The right verdict on a match with these slots, by the slab and the record alone: who has died as often as it had
   lives is out, and points are kills and deaths.
   */
  ghost predicate Decided(slots: set<ID>, level: bool, startCount: nat, tick: nat, st: Store, startLives: nat,
                          log: seq<LifeEvent>, v: E.Verdict) {
    E.Judged(slots, RecordScores(st.players.Keys, startLives, log), level && Cleared(st.slots), startCount, tick, v)
  }

  /** A player of the match with lives left by the record. */
  predicate HasLives(slots: set<ID>, players: set<ID>, startLives: nat, log: seq<LifeEvent>, p: ID) {
    p in slots && p in players && Deaths(log, p) < startLives
  }

  /** What that means: the last one standing is the one with lives left, and a leader has the most points by kills. */
  lemma WonByRecord(slots: set<ID>, level: bool, startCount: nat, tick: nat, st: Store, startLives: nat,
                    log: seq<LifeEvent>, v: E.Verdict)
    requires Decided(slots, level, startCount, tick, st, startLives, log, v)
    ensures v == E.Over(E.AllEliminated, 0) <==> forall p :: !HasLives(slots, st.players.Keys, startLives, log, p)
    ensures v.Over? && v.why == E.LastStanding ==>
              forall p :: HasLives(slots, st.players.Keys, startLives, log, p) <==> p == v.winner
    ensures v.Over? && v.why == E.Timer && v.winner != 0 ==>
              && v.winner in slots && v.winner in st.players
              && forall p | p in slots && p in st.players && p != v.winner :: Score(log, p) < Score(log, v.winner)
    ensures v == E.Over(E.PvEComplete, 0) <==>
              && level && (forall i | 0 <= i < |st.slots| && st.slots[i].id != 0 && !st.slots[i].flags.dead ::
                             st.slots[i].kind != Generator && st.slots[i].kind != Snipe)
              && exists p :: HasLives(slots, st.players.Keys, startLives, log, p)
  {
    var scores := RecordScores(st.players.Keys, startLives, log);
    assert Cleared(st.slots) <==>
             forall i | 0 <= i < |st.slots| && st.slots[i].id != 0 && !st.slots[i].flags.dead ::
               st.slots[i].kind != Generator && st.slots[i].kind != Snipe;
    hide Deaths, Score, Cleared;
    forall p
      ensures p in E.Alive(slots, scores) <==> HasLives(slots, st.players.Keys, startLives, log, p)
    {
    }
    assert E.Alive(slots, scores) == {} <==> forall p :: p !in E.Alive(slots, scores);
  }

  // ---- the two together ----

  function Leaves(gone: seq<ID>): seq<R.Act> { seq(|gone|, i requires 0 <= i < |gone| => R.Leave(gone[i])) }

  lemma OneMoreLeaves(st0: Store, gone: seq<ID>, k: nat, st: Store, st': Store)
    requires k < |gone| && R.ActedAll(st0, Leaves(gone[..k]), st) && R.Acted(st, R.Leave(gone[k]), st')
    ensures R.ActedAll(st0, Leaves(gone[..k + 1]), st')
  {
    hide R.Acted;
    var acts := Leaves(gone[..k + 1]);
    assert acts[..|acts| - 1] == Leaves(gone[..k]);
  }

  lemma NobodyLeaves(st: Store, gone: seq<ID>)
    ensures R.ActedAll(st, Leaves(gone[..0]), st)
  {
  }

  lemma LeavesIs(st: Store, id: ID, st': Store)
    requires !Present(st.slots, id) ==> st' == st
    requires forall k | 0 <= k < |st.slots| && st.slots[k].id == id :: st' == Removed(st, k)
    ensures R.Acted(st, R.Leave(id), st')
  {
    if Present(st.slots, id) {
      var k :| 0 <= k < |st.slots| && st.slots[k].id == id;
      assert st' == Removed(st, k);
    }
  }

  lemma EmptyIsNot()
    ensures !D.EMPTY_SLOT.joined
  {
  }

  lemma FreezesIs(st: Store, p: ID, st': Store)
    requires st' == S.Frozen(st, p)
    ensures R.Acted(st, R.Freeze(p), st')
  {
  }

  lemma DarkKeys(before: D.Desk, after: D.Desk, p: ID, mid: D.Desk, f: D.Script)
    requires p in before.slots && mid.slots.Keys == before.slots.Keys && D.Delivered(mid, after, f)
    ensures after.slots.Keys == before.slots.Keys
  {
    hide D.Got;
  }

  /** Who was left out of the match, and who is still in it. */
  lemma RanKeys(d0: D.Desk, r: A.Report, now: nat, late: bool, sent: D.Desk, cams: D.Slots, gone: seq<ID>, d: D.Desk)
    requires A.Ran(d0, r, now, late, sent, cams, gone, d)
    ensures forall p :: p in gone <==> p in d0.slots && d0.slots[p].dc && now >= d0.slots[p].deadline
    ensures d.slots.Keys <= d0.slots.Keys
  {
    hide D.Got;
  }

  lemma Clock(m: Maze, noRespawn: bool, level: Option<Level>, inputs: seq<S.PlayerInput>, st0: Store, tick0: nat,
              quiesced0: bool, log0: seq<LifeEvent>, t: Option<Stages>, st: Store, tick: nat)
    requires S.Ticked(m, noRespawn, level, inputs, st0, tick0, quiesced0, log0, true, t, st, tick)
    ensures tick == tick0 + 1
  {
    hide AllStages, S.LivePlayers;
  }

  lemma SimRests(s: S.Sim)
    requires s.Valid()
    ensures S.Rest(s.m, s.startLives, s.noRespawn, s.level, s.store, s.serverTick, s.quiesced, s.log)
  {
    hide S.Rest;
  }

  /** A match that goes on is not yet at the time limit. */
  lemma OnlyEarly(slots: set<ID>, level: bool, startCount: nat, tick: nat, st: Store, startLives: nat,
                  log: seq<LifeEvent>, v: E.Verdict)
    requires Decided(slots, level, startCount, tick, st, startLives, log, v) && v.GoesOn?
    ensures tick < 18_000
  {
  }

  lemma ToldRight(slots: set<ID>, level: bool, startCount: nat, tick: nat, st: Store, startLives: nat,
                  log: seq<LifeEvent>, gens: nat, snipes: nat, v: E.Verdict)
    requires ScoresOf(st.players) == RecordScores(st.players.Keys, startLives, log)
    requires gens == 0 <==> forall i | 0 <= i < |st.slots| :: !Stands(st.slots[i], Generator)
    requires snipes == 0 <==> forall i | 0 <= i < |st.slots| :: !Stands(st.slots[i], Snipe)
    requires E.Judged(slots, ScoresOf(st.players), level && gens == 0 && snipes == 0, startCount, tick, v)
    ensures Decided(slots, level, startCount, tick, st, startLives, log, v)
  {
    assert gens == 0 && snipes == 0 <==> Cleared(st.slots);
    hide E.Judged, ScoresOf, RecordScores;
  }

  lemma NoZero(slots: D.Slots, gone: seq<ID>)
    requires 0 !in slots && forall p | p in gone :: p in slots
    ensures forall k | 0 <= k < |gone| :: gone[k] != 0
  {
    forall k | 0 <= k < |gone|
      ensures gone[k] != 0
    {
      assert gone[k] in gone;
    }
  }

  class Game {
    const actor: A.Match
    const sim: S.Sim

    /** While the match is live its clock is that of the simulation. */
    ghost predicate Valid()
      reads this, actor, sim
    {
      && actor.Valid() && sim.Valid()
      && (actor.state == A.Live ==> actor.sim == Some(sim.serverTick) && 0 !in actor.desk.slots)
    }

    constructor (actor: A.Match, sim: S.Sim)
      requires actor.Valid() && sim.Valid()
      requires actor.state == A.Live && actor.sim == Some(sim.serverTick) && 0 !in actor.desk.slots
      ensures Valid() && this.actor == actor && this.sim == sim
    {
      this.actor, this.sim := actor, sim;
    }

    /**
     One step of the simulation, and all that the match makes of it. It goes on exactly if the step succeeded and the
     verdict by the record is that it does, which it never is at the time limit; whoever's grace has run out leaves
     the simulation too.
     */
    method Tick(inputs: seq<S.PlayerInput>, events: nat, scoreboard: bool)
      returns (ok: bool, gone: seq<ID>, ghost stages: Option<Stages>, ghost stepped: Store, ghost judged: set<ID>,
               ghost verdict: E.Verdict)
      requires actor.state == A.Live && Valid()
      modifies actor, sim
      ensures actor.startCount == old(actor.startCount) && old(sim.log) <= sim.log
      ensures actor.state == if ok && verdict.GoesOn? then A.Live else A.Ended
      ensures actor.state == A.Live ==> sim.serverTick < 18_000 && judged == actor.desk.slots.Keys
      ensures ok ==> forall p :: p in gone <==>
                p in old(actor.desk).slots && old(actor.desk).slots[p].dc
                  && sim.serverTick >= old(actor.desk).slots[p].deadline
      ensures if ok then R.ActedAll(stepped, Leaves(gone), sim.store) else sim.store == stepped
      ensures ok ==> Decided(judged, actor.cfg.level, actor.startCount, sim.serverTick, stepped, sim.startLives,
                             sim.log, verdict)
      ensures Valid()
      ensures S.Ticked(sim.m, sim.noRespawn, sim.level, inputs, old(sim.store), old(sim.serverTick),
                       old(sim.quiesced), old(sim.log), ok, stages, stepped, sim.serverTick)
    {
      hide *;
      GameIs(this);
      ok, stages := sim.Tick(inputs);
      stepped := sim.store;
      var gens := CountStanding(sim.store.slots, Generator);
      var snipes := CountStanding(sim.store.slots, Snipe);
      var r := A.Report(ok, events, scoreboard, ScoresOf(sim.store.players), gens, snipes);
      ghost var sent, cams, last;
      sent, cams, gone, last, verdict := actor.Tick(r);
      judged := last.slots.Keys;
      if ok {
        Clock(sim.m, sim.noRespawn, sim.level, inputs, old(sim.store), old(sim.serverTick), old(sim.quiesced),
              old(sim.log), stages, stepped, sim.serverTick);
        RanKeys(old(actor.desk), r, sim.serverTick, old(actor.overBudget), sent, cams, gone, last);
        SimRests(sim);
        ScoresAreRecord(sim.m, sim.startLives, sim.noRespawn, sim.level, stepped, sim.serverTick, sim.quiesced,
                        sim.log);
        ToldRight(judged, actor.cfg.level, actor.startCount, sim.serverTick, stepped, sim.startLives, sim.log, gens,
                  snipes, verdict);
        if verdict.GoesOn? {
          OnlyEarly(judged, actor.cfg.level, actor.startCount, sim.serverTick, stepped, sim.startLives, sim.log,
                    verdict);
        }
        NoZero(old(actor.desk).slots, gone);
        Depart(gone);
      }
      GameAgain(this);
    }

    /** A dropped connection that enters grace freezes its player. */
    method HandleDC(p: ID)
      requires actor.state == A.Live && Valid()
      modifies actor, sim
      ensures actor.state == A.Live && sim.log == old(sim.log)
              && sim.serverTick == old(sim.serverTick) && sim.quiesced == old(sim.quiesced)
      ensures var slots := old(actor.desk).slots;
              if p in slots && slots[p].joined && !slots[p].dc then
                && p in actor.desk.slots
                && actor.desk.slots[p] == slots[p].(dc := true, out := None,
                                                    deadline := sim.serverTick +
                                                      if actor.cfg.graceOverride == 0 then 900
                                                                                 else actor.cfg.graceOverride)
                && R.Acted(old(sim.store), R.Freeze(p), sim.store)
              else sim.store == old(sim.store) && actor.desk == old(actor.desk)
      ensures Valid()
    {
      hide *;
      EmptyIsNot();
      GameIs(this);
      ghost var before := actor.desk;
      var dark := p in actor.desk.slots && actor.desk.slots[p].joined && !actor.desk.slots[p].dc;
      actor.HandleDC(p);
      if dark {
        ghost var slots := before.slots[p := actor.desk.slots[p]];
        DarkKeys(before, actor.desk, p, before.(slots := slots), D.Everyone([D.Disconnected(p)]));
        sim.FreezePlayer(p);
        FreezesIs(old(sim.store), p, sim.store);
      }
      GameAgain(this);
    }

    /** Whoever is gone from the match is gone from the simulation. */
    method Depart(gone: seq<ID>)
      requires sim.Valid() && forall k | 0 <= k < |gone| :: gone[k] != 0
      modifies sim`store
      ensures sim.Valid() && R.ActedAll(old(sim.store), Leaves(gone), sim.store)
    {
      hide *;
      NobodyLeaves(sim.store, gone);
      for k := 0 to |gone|
        invariant sim.Valid() && R.ActedAll(old(sim.store), Leaves(gone[..k]), sim.store)
      {
        ghost var was := sim.store;
        sim.RemovePlayer(gone[k]);
        LeavesIs(was, gone[k], sim.store);
        OneMoreLeaves(old(sim.store), gone, k, was, sim.store);
      }
      assert gone[..|gone|] == gone;
    }
  }

  lemma GameIs(g: Game)
    requires g.Valid()
    ensures g.actor.Valid() && g.sim.Valid()
    ensures g.actor.state == A.Live ==> g.actor.sim == Some(g.sim.serverTick) && 0 !in g.actor.desk.slots
  {
  }

  lemma GameAgain(g: Game)
    requires g.actor.Valid() && g.sim.Valid()
    requires g.actor.state == A.Live ==> g.actor.sim == Some(g.sim.serverTick) && 0 !in g.actor.desk.slots
    ensures g.Valid()
  {
  }
}
