/** The first state of a game, map and level, in plain numbers. */
module Openings {
  import opened Grid
  import opened Physics
  import opened Entities
  import opened SimState
  import opened SnipeMind
  import opened PathFinding
  import opened MazeCarve
  import opened Setup
  import opened Simulation
  import M = MazeGenerate

  // ---- the level table ----

  /** One of these capitals or its small letter. */
  predicate IsAmong(c: char, first: char, last: char) {
    first <= c <= last || first as int + 32 <= c as int <= last as int + 32
  }

  /** What each letter asks, by the four groups of the alphabet in either case, and what each digit asks. */
  lemma LevelTable(c: char, number: int)
    requires InTable(c as nat, number)
    ensures 1 <= number <= 9 && ('A' <= c <= 'Z' || 'a' <= c <= 'z')
    ensures var l := LookupLevel(c as nat, number);
            && l.maxSnipes == 6 * number && l.lives + number == 10
            && (IsAmong(c, 'A', 'F') ==> l.snipes == Tuning(24, 20, 0, 12) && l.generatorHP == 3)
            && (IsAmong(c, 'G', 'M') ==> l.snipes == Tuning(24, 20, 1, 16) && l.generatorHP == 3)
            && (IsAmong(c, 'N', 'S') ==> l.snipes == Tuning(24, 15, 2, 20) && l.generatorHP == 3)
            && (IsAmong(c, 'T', 'Z') ==> l.snipes == Tuning(30, 15, 2, 28) && l.generatorHP == 5)
  {
  }

  /** A later letter is never easier, and neither is a higher digit. */
  lemma HarderLater(c: char, d: char, number: int, higher: int)
    requires ('A' <= c <= d <= 'Z' || 'a' <= c <= d <= 'z') && 1 <= number <= higher <= 9
    ensures InTable(c as nat, number) && InTable(d as nat, higher)
    ensures var l, h := LookupLevel(c as nat, number), LookupLevel(d as nat, higher);
            && l.snipes.speed <= h.snipes.speed && l.snipes.fireCooldown >= h.snipes.fireCooldown
            && l.snipes.lead <= h.snipes.lead && l.snipes.sight <= h.snipes.sight && l.generatorHP <= h.generatorHP
            && l.maxSnipes <= h.maxSnipes && l.lives >= h.lives
  {
  }

  /** Exactly which configurations a simulation is made for. */
  lemma ValidMeans(cfg: Config)
    ensures ValidConfig(cfg) <==>
            && 50 <= cfg.width <= 120 && 40 <= cfg.height <= 80 && 1 <= |cfg.playerIDs| <= 8
            && (forall i | 0 <= i < |cfg.playerIDs| :: 0 < cfg.playerIDs[i] <= 4_293_918_719)
            && (forall i, j | 0 <= i < j < |cfg.playerIDs| :: cfg.playerIDs[i] != cfg.playerIDs[j])
            && ((cfg.letter == 0 && cfg.number == 0)
                || (1 <= cfg.number <= 9 && cfg.letter < 128 && IsAmong(cfg.letter as char, 'A', 'Z')))
  {
    assert 0 in cfg.playerIDs <==> exists i :: 0 <= i < |cfg.playerIDs| && cfg.playerIDs[i] == 0;
  }

  // ---- the map ----

  /** Less than d tiles apart on both axes. */
  predicate Within(x: int, y: int, x': int, y': int, d: int) {
    -d < x - x' < d && -d < y - y' < d
  }

  /** The middle of a maze cell of this map. */
  predicate Middle(m: Maze, x: int, y: int) {
    x % 7 == 4 && y % 7 == 4 && 4 <= x <= m.W - 4 && 4 <= y <= m.H - 4
  }

  /** The middle of a cell on the rim of the map. */
  predicate Rim(m: Maze, x: int, y: int) {
    Middle(m, x, y) && (x < 11 || y < 11 || x > m.W - 11 || y > m.H - 11)
  }

  lemma MiddleOfCell(m: Maze, g: Size, c: Cell)
    requires g == M.GridOf(m.W, m.H) && InGrid(g, c)
    ensures var p := M.CellCenter(c); p.x == 7 * c.cx + 4 && p.y == 7 * c.cy + 4 && Middle(m, p.x, p.y)
    ensures var p := M.CellCenter(c); Rim(m, p.x, p.y) <==> M.OnRing(g, c)
  {
    assert (7 * c.cx + 4) % 7 == 4 && (7 * c.cy + 4) % 7 == 4;
  }

  lemma CellOfMiddle(m: Maze, x: int, y: int) returns (c: Cell)
    requires Middle(m, x, y)
    ensures InGrid(M.GridOf(m.W, m.H), c) && x == 7 * c.cx + 4 && y == 7 * c.cy + 4
  {
    c := Cell(x / 7, y / 7);
  }

  lemma GapInTiles(c: Cell, d: Cell, gap: int)
    ensures M.Chebyshev(c, d) >= gap
            <==> !Within(7 * c.cx + 4, 7 * c.cy + 4, 7 * d.cx + 4, 7 * d.cy + 4, 7 * gap)
  {
  }

  ghost predicate Made(a: M.Attempt, playerCount: nat) {
    a.Made? && M.WellMade(M.GridOf(a.maze.W, a.maze.H), a, playerCount)
  }

  predicate Generates(m: Maze, x: int, y: int) { At(m, x, y) == SpawnGenerator }
  predicate Spawns(m: Maze, x: int, y: int) { At(m, x, y) == SpawnPlayer }

  /** Which of the cells has its middle here. */
  lemma MarkedCell(a: M.Attempt, n: nat, cells: seq<Cell>, x: int, y: int) returns (i: int)
    requires Made(a, n) && M.CenterOf(cells, x, y) && (cells == a.gens || cells == a.spawns + a.extras)
    ensures 0 <= i < |cells| && InGrid(M.GridOf(a.maze.W, a.maze.H), cells[i])
    ensures x == 7 * cells[i].cx + 4 && y == 7 * cells[i].cy + 4 && Middle(a.maze, x, y)
    ensures Rim(a.maze, x, y) <==> M.OnRing(M.GridOf(a.maze.W, a.maze.H), cells[i])
  {
    i :| 0 <= i < |cells| && M.CellCenter(cells[i]) == Pos(x, y);
    MiddleOfCell(a.maze, M.GridOf(a.maze.W, a.maze.H), cells[i]);
  }

  lemma SpreadInTiles(a: M.Attempt, n: nat, cells: seq<Cell>)
    requires Made(a, n) && M.Spread(cells, 2) && (cells == a.gens || cells == a.spawns + a.extras)
    ensures forall x, y, x', y' | M.CenterOf(cells, x, y) && M.CenterOf(cells, x', y') && (x, y) != (x', y') ::
              !Within(x, y, x', y', 14)
  {
    hide M.WellMade, M.CenterOf, Rim, Middle, Within;
    forall x, y, x', y' | M.CenterOf(cells, x, y) && M.CenterOf(cells, x', y') && (x, y) != (x', y')
      ensures !Within(x, y, x', y', 14)
    {
      var i := MarkedCell(a, n, cells, x, y);
      var j := MarkedCell(a, n, cells, x', y');
      GapInTiles(cells[i], cells[j], 2);
      GapInTiles(cells[j], cells[i], 2);
    }
  }

  lemma AvoidsInTiles(a: M.Attempt, n: nat, gap: int)
    requires Made(a, n) && M.Avoids(a.spawns + a.extras, a.gens, gap)
    ensures forall x, y, x', y' | M.CenterOf(a.spawns + a.extras, x, y) && M.CenterOf(a.gens, x', y') ::
              !Within(x, y, x', y', 7 * gap)
  {
    hide M.WellMade, M.CenterOf, Rim, Middle, Within;
    var cells := a.spawns + a.extras;
    forall x, y, x', y' | M.CenterOf(cells, x, y) && M.CenterOf(a.gens, x', y')
      ensures !Within(x, y, x', y', 7 * gap)
    {
      var i := MarkedCell(a, n, cells, x, y);
      var j := MarkedCell(a, n, a.gens, x', y');
      GapInTiles(cells[i], a.gens[j], gap);
    }
  }

  /**
   Generators stand in the middle of cells, no two within 14 tiles, and off the rim of a map with three cells a side;
   so do spawns, on the rim too, no two within 14 tiles and none within 7 of a generator.
   */
  lemma MarkersStand(a: M.Attempt, n: nat)
    requires Made(a, n)
    ensures forall x, y | Generates(a.maze, x, y) || Spawns(a.maze, x, y) :: Middle(a.maze, x, y)
    ensures a.maze.W >= 22 && a.maze.H >= 22 ==> forall x, y | Generates(a.maze, x, y) :: !Rim(a.maze, x, y)
    ensures forall x, y, x', y' | Generates(a.maze, x, y) && Generates(a.maze, x', y') && (x, y) != (x', y') ::
              !Within(x, y, x', y', 14)
    ensures forall x, y, x', y' | Spawns(a.maze, x, y) && Spawns(a.maze, x', y') && (x, y) != (x', y') ::
              !Within(x, y, x', y', 14)
    ensures forall x, y, x', y' | Spawns(a.maze, x, y) && Generates(a.maze, x', y') :: !Within(x, y, x', y', 7)
  {
    SpreadInTiles(a, n, a.gens);
    SpreadInTiles(a, n, a.spawns + a.extras);
    AvoidsInTiles(a, n, 1);
    forall x, y | Generates(a.maze, x, y)
      ensures Middle(a.maze, x, y) && (a.maze.W >= 22 && a.maze.H >= 22 ==> !Rim(a.maze, x, y))
    {
      var i := MarkedCell(a, n, a.gens, x, y);
    }
    forall x, y | Spawns(a.maze, x, y)
      ensures Middle(a.maze, x, y)
    {
      var i := MarkedCell(a, n, a.spawns + a.extras, x, y);
    }
  }

  /** A spawn here would be within 14 tiles of another, or within this many of a generator. */
  ghost predicate NoRoom(m: Maze, x: int, y: int, gap: int) {
    || (exists x', y' :: Rim(m, x', y') && Spawns(m, x', y') && Within(x, y, x', y', 14))
    || (exists x', y' :: Generates(m, x', y') && Within(x, y, x', y', gap))
  }

  lemma CrowdedInTiles(a: M.Attempt, n: nat, k: nat, genGap: int, c: Cell)
    requires Made(a, n) && k <= |a.spawns + a.extras|
    requires forall i | 0 <= i < k :: M.OnRing(M.GridOf(a.maze.W, a.maze.H), (a.spawns + a.extras)[i])
    requires M.Crowded(c, (a.spawns + a.extras)[..k], 2, a.gens, genGap)
    ensures NoRoom(a.maze, 7 * c.cx + 4, 7 * c.cy + 4, 7 * genGap)
  {
    var cells, g := a.spawns + a.extras, M.GridOf(a.maze.W, a.maze.H);
    hide M.Chebyshev;
    if i :| 0 <= i < k && M.Chebyshev(c, cells[..k][i]) < 2 {
      GapInTiles(c, cells[i], 2);
      MiddleOfCell(a.maze, g, cells[i]);
      var p := M.CellCenter(cells[i]);
      assert M.CenterOf(cells, p.x, p.y);
      assert Rim(a.maze, p.x, p.y) && Spawns(a.maze, p.x, p.y);
    } else {
      var j :| 0 <= j < |a.gens| && M.Chebyshev(c, a.gens[j]) < genGap;
      GapInTiles(c, a.gens[j], genGap);
      MiddleOfCell(a.maze, g, a.gens[j]);
      var p := M.CellCenter(a.gens[j]);
      assert M.CenterOf(a.gens, p.x, p.y);
      assert Generates(a.maze, p.x, p.y);
    }
  }

  /**
   A spawn off the rim means that the rim had no room left. The distance kept from generators is 14 tiles, or 7 where
   not even the players could be placed 14 away.
   */
  lemma RimFirst(a: M.Attempt, n: nat) returns (gap: int)
    requires Made(a, n)
    ensures gap == 14 || gap == 7
    ensures (exists x, y :: Spawns(a.maze, x, y) && !Rim(a.maze, x, y)) ==>
              forall x, y | Rim(a.maze, x, y) :: NoRoom(a.maze, x, y, gap)
    ensures gap == 14 ==>
              forall x, y, x', y' | Spawns(a.maze, x, y) && Generates(a.maze, x', y') :: !Within(x, y, x', y', 14)
    ensures gap == 7 ==> M.StrictStuck(M.GridOf(a.maze.W, a.maze.H), n, a.gens, 2)
  {
    var cells, g := a.spawns + a.extras, M.GridOf(a.maze.W, a.maze.H);
    var cellGap := if M.Avoids(cells, a.gens, 2) && M.RingFirst(g, cells, a.gens, 2) then 2 else 1;
    gap := 7 * cellGap;
    if cellGap == 2 { AvoidsInTiles(a, n, 2); }
    hide M.StrictStuck, M.Avoids, M.Crowded, NoRoom;
    var k: nat :| M.RingUpTo(g, cells, a.gens, cellGap, k);
    if x', y' :| Spawns(a.maze, x', y') && !Rim(a.maze, x', y') {
      var i := MarkedCell(a, n, cells, x', y');
      forall x, y | Rim(a.maze, x, y)
        ensures NoRoom(a.maze, x, y, gap)
      {
        var c := CellOfMiddle(a.maze, x, y);
        MiddleOfCell(a.maze, g, c);
        CrowdedInTiles(a, n, k, cellGap, c);
      }
    }
  }

  // ---- the first state ----

  /** As many generators as players and one, but at least three; fewer where the inner cells are not four for each. */
  lemma HowManyGenerators(cfg: Config)
    requires ValidConfig(cfg)
    ensures var n, inner := |cfg.playerIDs|, ((cfg.width - 1) / 7 - 2) * ((cfg.height - 1) / 7 - 2);
            var count := M.GeneratorCount(n, M.GridOf(cfg.width, cfg.height), cfg.noGenerators);
            && (cfg.noGenerators ==> count == 0)
            && (!cfg.noGenerators ==>
                  (count == n + 1 || (n == 1 && count == 3) || count == inner / 4) && 3 <= count <= 9)
            && (!cfg.noGenerators && inner >= 36 ==> count == if n == 1 then 3 else n + 1)
  {
  }

  /** Standing in the middle of a tile. */
  predicate StandsOn(e: Entity, t: (int, int)) {
    (e.x, e.y, e.vx, e.vy) == (256 * t.0 + 128, 256 * t.1 + 128, 0, 0) && e.facing == S
  }

  /** The tiles the players and the generators start from. */
  function Tiles(cells: seq<Cell>): (ts: seq<(int, int)>)
    ensures |ts| == |cells|
  {
    seq(|cells|, i requires 0 <= i < |cells| => (7 * cells[i].cx + 4, 7 * cells[i].cy + 4))
  }

  /** The player IDs as configured, every player protected until tick 60 and with the lives its level gives. */
  lemma PlayersStart(cfg: Config, a: M.Attempt, gens: seq<Cell>, base: ID, m: Maze, st: Store, i: nat)
    requires Started(cfg, a, gens, base, m, st) && i < |cfg.playerIDs|
    ensures |Tiles(a.spawns)| == |cfg.playerIDs| <= |st.slots| == 256
    ensures var e, t := st.slots[i], Tiles(a.spawns)[i];
            && StandsOn(e, t) && Spawns(m, t.0, t.1)
            && (e.id, e.kind, e.hp, e.flags) == (cfg.playerIDs[i], Player, 1, Flags(false, true, false))
    ensures cfg.playerIDs[i] in st.players
    ensures var ps := st.players[cfg.playerIDs[i]];
            && (ps.score, ps.eliminated, ps.hasRespawnAt, ps.spawnInvulnUntil) == (0, false, false, 60)
            && (ps.fireCooldown, ps.lastDir, ps.lastInputTick) == (0, Idle, 0)
            && ps.lives == if cfg.letter == 0 then 3 else 10 - cfg.number
  {
    hide M.WellMade, Roster, RowMajor, Timed, Spawns, StartLives, GeneratorHP;
    PlayerSlot(cfg, a, gens, base, m, st, i);
    hide Opening;
    SpawnStands(cfg, a, m, i);
    LivesGiven(cfg);
  }

  lemma PlayerSlot(cfg: Config, a: M.Attempt, gens: seq<Cell>, base: ID, m: Maze, st: Store, i: nat)
    requires Started(cfg, a, gens, base, m, st) && i < |cfg.playerIDs|
    ensures |a.spawns| == |cfg.playerIDs| <= |st.slots| == 256
    ensures st.slots[i] == NewPlayer(cfg.playerIDs[i], a.spawns[i])
    ensures cfg.playerIDs[i] in st.players && st.players[cfg.playerIDs[i]] == NEW_STATE.(lives := StartLives(cfg))
  {
    hide M.WellMade, Roster, RowMajor, Timed, StartLives, GeneratorHP;
    assert st.slots[i] == OpeningSlot(cfg.playerIDs, a.spawns, gens, GeneratorHP(cfg), base, i);
    assert cfg.playerIDs[i] in cfg.playerIDs;
  }

  lemma LivesGiven(cfg: Config)
    requires ValidLevel(cfg.letter, cfg.number)
    ensures StartLives(cfg) == if cfg.letter == 0 then 3 else 10 - cfg.number
  {
    if cfg.letter != 0 { LevelTable(cfg.letter as char, cfg.number); }
  }

  lemma SpawnStands(cfg: Config, a: M.Attempt, m: Maze, i: nat)
    requires a.Made? && m == a.maze && m.W == cfg.width && m.H == cfg.height && i < |a.spawns|
    requires M.WellMade(M.GridOf(cfg.width, cfg.height), a, |cfg.playerIDs|)
    ensures var t := Tiles(a.spawns)[i];
            M.CellCenter(a.spawns[i]) == Pos(t.0, t.1) && Spawns(m, t.0, t.1)
  {
    assert (a.spawns + a.extras)[i] == a.spawns[i];
    MiddleOfCell(m, M.GridOf(cfg.width, cfg.height), a.spawns[i]);
    var p := M.CellCenter(a.spawns[i]);
    assert M.CenterOf(a.spawns + a.extras, p.x, p.y);
  }

  /**
   The generators follow in row order under the IDs after the largest player ID. With a level each first emits after
   120 to 240 ticks.
   */
  lemma GeneratorsStart(cfg: Config, a: M.Attempt, gens: seq<Cell>, base: ID, m: Maze, st: Store, j: nat)
    requires Started(cfg, a, gens, base, m, st) && j < |gens|
    ensures |cfg.playerIDs| + |gens| <= |st.slots| && base - 1 in cfg.playerIDs
            && forall p | p in cfg.playerIDs :: p < base
    ensures var e, t := st.slots[|cfg.playerIDs| + j], Tiles(gens)[j];
            && StandsOn(e, t) && Generates(m, t.0, t.1)
            && (e.id, e.kind, e.flags) == (base + j, Generator, Flags(false, false, false))
            && e.hp == if cfg.letter != 0 && IsAmong(cfg.letter as char, 'T', 'Z') then 5 else 3
    ensures forall k: nat | k < j :: var t, u := Tiles(gens)[k], Tiles(gens)[j];
                                     t.1 < u.1 || (t.1 == u.1 && t.0 <= u.0)
    ensures if cfg.letter == 0 then base + j !in st.generators
            else base + j in st.generators && 120 <= st.generators[base + j].cooldown <= 240
                 && st.generators[base + j].rotation == (base + j) % 8
  {
    hide M.WellMade, Generates, GeneratorHP;
    GeneratorSlot(cfg, a, gens, base, m, st, j);
    hide Opening;
    GeneratorStands(cfg, a, gens, base, m, st, j);
    forall k: nat | k < j
      ensures var t, u := Tiles(gens)[k], Tiles(gens)[j]; t.1 < u.1 || (t.1 == u.1 && t.0 <= u.0)
    {
      GeneratorStands(cfg, a, gens, base, m, st, k);
      assert RowKey(gens[k], cfg.width) <= RowKey(gens[j], cfg.width);
      InRows(Tiles(gens)[k].0, Tiles(gens)[k].1, Tiles(gens)[j].0, Tiles(gens)[j].1, cfg.width);
    }
    HitPointsGiven(cfg);
  }

  lemma HitPointsGiven(cfg: Config)
    requires ValidLevel(cfg.letter, cfg.number)
    ensures GeneratorHP(cfg) == if cfg.letter != 0 && IsAmong(cfg.letter as char, 'T', 'Z') then 5 else 3
  {
    if cfg.letter != 0 { LevelTable(cfg.letter as char, cfg.number); }
  }

  lemma GeneratorSlot(cfg: Config, a: M.Attempt, gens: seq<Cell>, base: ID, m: Maze, st: Store, j: nat)
    requires Started(cfg, a, gens, base, m, st) && j < |gens|
    ensures |cfg.playerIDs| + |gens| <= |st.slots|
    ensures st.slots[|cfg.playerIDs| + j] == NewGenerator(base + j, gens[j], GeneratorHP(cfg))
  {
    hide M.WellMade, Roster, RowMajor, Timed, GeneratorHP;
    var i := |cfg.playerIDs| + j;
    assert st.slots[i] == OpeningSlot(cfg.playerIDs, a.spawns, gens, GeneratorHP(cfg), base, i);
  }

  lemma GeneratorStands(cfg: Config, a: M.Attempt, gens: seq<Cell>, base: ID, m: Maze, st: Store, k: nat)
    requires Started(cfg, a, gens, base, m, st) && k < |gens|
    ensures var t := Tiles(gens)[k];
            M.CellCenter(gens[k]) == Pos(t.0, t.1) && 4 <= t.0 < cfg.width && Generates(m, t.0, t.1)
  {
    assert gens[k] in multiset(gens);
    assert gens[k] in multiset(a.gens);
    var x :| 0 <= x < |a.gens| && a.gens[x] == gens[k];
    MiddleOfCell(m, M.GridOf(cfg.width, cfg.height), gens[k]);
    var p := M.CellCenter(a.gens[x]);
    assert M.CenterOf(a.gens, p.x, p.y);
  }

  lemma InRows(x: int, y: int, x': int, y': int, w: int)
    requires y * w + x <= y' * w + x' && 0 <= x < w && 0 <= x' < w
    ensures y < y' || (y == y' && x <= x')
  {
    if y > y' { LaterRow(x, y, x', y', w); }
  }

  lemma LaterRow(x: int, y: int, x': int, y': int, w: int)
    requires y > y' && 0 <= x < w && 0 <= x' < w
    ensures y * w + x > y' * w + x'
  {
    assert (y - y' - 1) * w >= 0;
    assert (y - y' - 1) * w == y * w - y' * w - w;
  }

  /** Nothing else is there. */
  lemma NothingElse(cfg: Config, a: M.Attempt, gens: seq<Cell>, base: ID, m: Maze, st: Store)
    requires Started(cfg, a, gens, base, m, st)
    ensures |cfg.playerIDs| + |gens| <= |st.slots| && forall i | |cfg.playerIDs| + |gens| <= i < |st.slots| ::
              st.slots[i].id == 0
    ensures st.players.Keys == set p | p in cfg.playerIDs
    ensures |st.snipes| == |st.projectiles| == 0 && st.nextID == base + |gens|
  {
    forall i | |cfg.playerIDs| + |gens| <= i < |st.slots|
      ensures st.slots[i].id == 0
    {
      assert st.slots[i] == OpeningSlot(cfg.playerIDs, a.spawns, gens, GeneratorHP(cfg), base, i);
    }
  }
}
