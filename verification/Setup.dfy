/** What a new simulation starts from. */
module Setup {
  import opened Sequences
  import opened Options
  import opened Grid
  import opened Physics
  import opened Entities
  import opened Slab
  import opened SimState
  import opened Movement
  import opened SnipeMind
  import opened Emission
  import M = MazeGenerate
  import opened MazeCarve

  const MIN_WIDTH := 50
  const MAX_WIDTH := 120
  const MIN_HEIGHT := 40
  const MAX_HEIGHT := 80
  const GENERATOR_HP := 3
  const DEFAULT_LIVES := 3
  const SPAWN_INVULN := 60
  const HEADROOM := MAX_ENTITIES * 4096

  datatype Level = Level(snipes: Tuning, generatorHP: nat, maxSnipes: nat, lives: nat)

  /** A zero letter stands for no level. */
  datatype Config = Config(width: int, height: int, playerIDs: seq<ID>, noRespawn: bool, noGenerators: bool,
                           letter: nat, number: int)

  datatype SimError =
    | InvalidMapSize | NoPlayers | TooManyPlayers | ZeroPlayerID | DuplicatePlayerID | NoHeadroom | InvalidLevel
    | MazeFailed

  // ---- the level table ----

  function UpperCase(letter: nat): nat {
    if 'a' as nat <= letter <= 'z' as nat then letter - 32 else letter
  }

  predicate InTable(letter: nat, number: int) {
    'A' as nat <= UpperCase(letter) <= 'Z' as nat && 1 <= number <= 9
  }

  /** Either no level at all, or a row of the table. */
  predicate ValidLevel(letter: nat, number: int) {
    (letter == 0 && number == 0) || InTable(letter, number)
  }

  function LookupLevel(letter: nat, number: int): Level
    requires InTable(letter, number)
  {
    var c := UpperCase(letter);
    var tuning := if c <= 'F' as nat then Tuning(24, 20, 0, 12) else if c <= 'M' as nat then Tuning(24, 20, 1, 16)
                  else if c <= 'S' as nat then Tuning(24, 15, 2, 20) else Tuning(30, 15, 2, 28);
    Level(tuning, if c >= 'T' as nat then 5 else 3, number * 6, if 10 - number > 1 then 10 - number else 1)
  }

  function LevelOf(cfg: Config): Option<Level>
    requires ValidLevel(cfg.letter, cfg.number)
  {
    if cfg.letter == 0 then None else Some(LookupLevel(cfg.letter, cfg.number))
  }

  /** What the rest of the simulation needs of a level. */
  predicate LevelOK(l: Level) {
    2 <= l.snipes.speed < SUBTILE && 0 < l.generatorHP && l.maxSnipes <= MAX_SNIPES && 0 < l.lives
  }

  lemma LevelInBounds(cfg: Config)
    requires ValidLevel(cfg.letter, cfg.number)
    ensures LevelOf(cfg).Some? ==> LevelOK(LevelOf(cfg).value)
    ensures StartLives(cfg) > 0
  {
  }

  function StartLives(cfg: Config): nat
    requires ValidLevel(cfg.letter, cfg.number)
  {
    if cfg.letter == 0 then DEFAULT_LIVES else LookupLevel(cfg.letter, cfg.number).lives
  }

  function GeneratorHP(cfg: Config): nat
    requires ValidLevel(cfg.letter, cfg.number)
  {
    if cfg.letter == 0 then GENERATOR_HP else LookupLevel(cfg.letter, cfg.number).generatorHP
  }

  // ---- validation ----

  predicate ValidSize(cfg: Config) {
    MIN_WIDTH <= cfg.width <= MAX_WIDTH && MIN_HEIGHT <= cfg.height <= MAX_HEIGHT
  }

  predicate HasHeadroom(ids: seq<ID>) {
    forall i | 0 <= i < |ids| :: ids[i] <= MAX_ID - HEADROOM
  }

  predicate ValidConfig(cfg: Config) {
    && ValidSize(cfg) && 0 < |cfg.playerIDs| <= MAX_PLAYERS
    && 0 !in cfg.playerIDs && NoRepeat(cfg.playerIDs) && HasHeadroom(cfg.playerIDs)
    && ValidLevel(cfg.letter, cfg.number)
  }

  /** Nothing is wrong with the IDs before this one. */
  predicate FineBefore(ids: seq<ID>, i: int)
    requires 0 <= i <= |ids|
  {
    0 !in ids[..i] && NoRepeat(ids[..i])
  }

  /** Which complaint is made: the first of the checks to fail, and among the IDs the first that is at fault. */
  ghost predicate Complaint(cfg: Config, err: SimError) {
    var ids := cfg.playerIDs;
    match err
    case InvalidMapSize => !ValidSize(cfg)
    case NoPlayers => ValidSize(cfg) && ids == []
    case TooManyPlayers => ValidSize(cfg) && |ids| > MAX_PLAYERS
    case ZeroPlayerID => ValidSize(cfg) && |ids| <= MAX_PLAYERS && exists i ::
                                                                     0 <= i < |ids| && FineBefore(ids, i) && ids[i] == 0
    case DuplicatePlayerID =>
      ValidSize(cfg) && |ids| <= MAX_PLAYERS
        && exists i :: 0 <= i < |ids| && FineBefore(ids, i) && ids[i] != 0 && ids[i] in ids[..i]
    case NoHeadroom => ValidSize(cfg) && 0 < |ids| <= MAX_PLAYERS && FineBefore(ids, |ids|) && !HasHeadroom(ids)
    case InvalidLevel =>
      ValidSize(cfg) && 0 < |ids| <= MAX_PLAYERS && FineBefore(ids, |ids|) && HasHeadroom(ids)
        && !ValidLevel(cfg.letter, cfg.number)
    case _ => false
  }

  lemma FineEarlier(ids: seq<ID>, i: int, j: int)
    requires 0 <= i <= j <= |ids| && FineBefore(ids, j)
    ensures FineBefore(ids, i)
    ensures i < j ==> ids[i] != 0 && ids[i] !in ids[..i]
  {
    assert forall k | 0 <= k < i :: ids[..i][k] == ids[..j][k];
    if i < j { assert ids[..j][i] == ids[i]; }
  }

  /** A configuration draws at most one complaint, and only if it is not valid. */
  lemma OneComplaint(cfg: Config, a: SimError, b: SimError)
    requires Complaint(cfg, a)
    ensures !ValidConfig(cfg) && (Complaint(cfg, b) ==> b == a)
  {
    var ids := cfg.playerIDs;
    assert ids[..|ids|] == ids;
    forall i, j | 0 <= i <= j <= |ids| && FineBefore(ids, j)
      ensures FineBefore(ids, i) && (i < j ==> ids[i] != 0 && ids[i] !in ids[..i])
    {
      FineEarlier(ids, i, j);
    }
    hide NoRepeat, FineBefore, ValidLevel;
    assert ValidConfig(cfg) ==>
             FineBefore(ids, |ids|) by { assert FineBefore(ids, |ids|) <==> 0 !in ids && NoRepeat(ids); }
  }

  method ValidateConfig(cfg: Config) returns (err: Option<SimError>)
    ensures err.None? <==> ValidConfig(cfg)
    ensures err.Some? ==> Complaint(cfg, err.value)
  {
    if cfg.width < MIN_WIDTH || cfg.width > MAX_WIDTH || cfg.height < MIN_HEIGHT || cfg.height > MAX_HEIGHT {
      return Some(InvalidMapSize);
    }
    var ids := cfg.playerIDs;
    if |ids| == 0 {
      return Some(NoPlayers);
    }
    if |ids| > MAX_PLAYERS {
      return Some(TooManyPlayers);
    }
    var seen: set<ID> := {};
    for i := 0 to |ids|
      invariant FineBefore(ids, i)
      invariant forall id :: id in seen <==> id in ids[..i]
    {
      if ids[i] == 0 {
        return Some(ZeroPlayerID);
      }
      if ids[i] in seen {
        var j :| 0 <= j < i && ids[..i][j] == ids[i];
        assert ids[j] == ids[i];
        return Some(DuplicatePlayerID);
      }
      seen := seen + {ids[i]};
    }
    assert ids[..|ids|] == ids;
    for i := 0 to |ids|
      invariant forall j | 0 <= j < i :: ids[j] <= MAX_ID - HEADROOM
    {
      if ids[i] > MAX_ID - HEADROOM {
        return Some(NoHeadroom);
      }
    }
    if !ValidLevel(cfg.letter, cfg.number) {
      return Some(InvalidLevel);
    }
    return None;
  }

  // ---- the first store ----

  function NewPlayer(id: ID, c: Cell): Entity {
    Entity(id, Player, 1, S, Flags(false, true, false), CellMid(c.cx), CellMid(c.cy), 0, 0)
  }

  function NewGenerator(id: ID, c: Cell, hp: nat): Entity {
    Entity(id, Generator, hp, S, NO_FLAGS, CellMid(c.cx), CellMid(c.cy), 0, 0)
  }

  const NEW_STATE := PlayerState(0, Idle, 0, 0, false, 0, 0, SPAWN_INVULN, false, 0, 0)

  /** Players first in the order given, then generators under the IDs after the largest player ID. */
  function OpeningSlot(ids: seq<ID>, spawns: seq<Cell>, gens: seq<Cell>, hp: nat, base: ID, i: nat): Entity
    requires |spawns| == |ids|
  {
    if i < |ids| then NewPlayer(ids[i], spawns[i])
    else if i < |ids| + |gens| then NewGenerator(base + (i - |ids|), gens[i - |ids|], hp)
    else FREE
  }

  ghost predicate Opening(ids: seq<ID>, spawns: seq<Cell>, gens: seq<Cell>, hp: nat, lives: nat, base: ID, st: Store) {
    && |spawns| == |ids| && |ids| + |gens| <= |st.slots| == MAX_ENTITIES
    && st.nextID == base + |gens|
    && (forall i: nat | i < |st.slots| :: st.slots[i] == OpeningSlot(ids, spawns, gens, hp, base, i))
    && (forall p :: p in st.players <==> p in ids)
    && (forall p | p in st.players :: st.players[p] == NEW_STATE.(lives := lives))
    && st.histories == map[] && st.projectiles == map[] && st.snipes == map[]
  }

  /** With a level every generator has a timer; without one none has. */
  ghost predicate Timed(timed: bool, base: ID, n: nat, generators: map<ID, GenState>) {
    && (forall g :: g in generators <==> timed && base <= g < base + n)
    && (forall g | g in generators ::
          EMIT_MIN <= generators[g].cooldown <= EMIT_MAX && generators[g].rotation == g % 8)
  }

  /** Player IDs are distinct and nonzero, and the generators' begin above them all. */
  ghost predicate Roster(ids: seq<ID>, base: ID) {
    NoRepeat(ids) && 0 !in ids && 0 < base && forall id | id in ids :: id < base
  }

  lemma OpeningUnique(ids: seq<ID>, spawns: seq<Cell>, gens: seq<Cell>, hp: nat, lives: nat, base: ID, st: Store)
    requires Opening(ids, spawns, gens, hp, lives, base, st) && Roster(ids, base)
    ensures Unique(st.slots)
  {
    forall i, j | 0 <= i < j < |st.slots| && st.slots[i].id != 0
      ensures st.slots[i].id != st.slots[j].id
    {
      assert st.slots[i] == OpeningSlot(ids, spawns, gens, hp, base, i)
             && st.slots[j] == OpeningSlot(ids, spawns, gens, hp, base, j);
      if i < |ids| { assert ids[i] in ids; }
    }
  }

  lemma OpeningIdentity(ids: seq<ID>, spawns: seq<Cell>, gens: seq<Cell>, hp: nat, lives: nat, base: ID, st: Store)
    requires Opening(ids, spawns, gens, hp, lives, base, st) && Roster(ids, base) && st.nextID <= MAX_ID
    ensures Identity(st)
  {
    OpeningUnique(ids, spawns, gens, hp, lives, base, st);
    hide Unique;
    forall i: nat | i < |st.slots|
      ensures Registered(st, st.slots[i])
    {
      assert st.slots[i] == OpeningSlot(ids, spawns, gens, hp, base, i);
      if i < |ids| { assert ids[i] in ids; }
    }
  }

  lemma OpeningBooks(ids: seq<ID>, spawns: seq<Cell>, gens: seq<Cell>, hp: nat, lives: nat, base: ID, st: Store)
    requires Opening(ids, spawns, gens, hp, lives, base, st) && lives > 0
    ensures Books(st, [], lives)
  {
    forall i: nat | i < |st.slots|
      ensures Vitals(st, [], st.slots[i])
    {
      assert st.slots[i] == OpeningSlot(ids, spawns, gens, hp, base, i);
    }
  }

  lemma OpeningPeopled(ids: seq<ID>, spawns: seq<Cell>, gens: seq<Cell>, hp: nat, lives: nat, base: ID, st: Store)
    requires Opening(ids, spawns, gens, hp, lives, base, st) && |ids| <= MAX_PLAYERS && |gens| <= MAX_GENERATORS
    ensures Peopled(st.slots) && Population(st.slots, Snipe) == 0
  {
    var n := |ids|;
    forall i | 0 <= i < |st.slots|
      ensures IsOf(st.slots[i], Player) ==> 0 <= i < n
      ensures IsOf(st.slots[i], Generator) ==> n <= i < n + |gens|
      ensures !IsOf(st.slots[i], Snipe) && !IsOf(st.slots[i], Projectile)
    {
      assert st.slots[i] == OpeningSlot(ids, spawns, gens, hp, base, i);
    }
    hide Opening;
    PopulationWithin(st.slots, Player, 0, n);
    PopulationWithin(st.slots, Generator, n, n + |gens|);
    PopulationWithin(st.slots, Snipe, 0, 0);
    PopulationWithin(st.slots, Projectile, 0, 0);
  }

  /** The cells of a generated maze suit their occupants. */
  ghost predicate Placed(m: Maze, spawns: seq<Cell>, gens: seq<Cell>) {
    && (forall i | 0 <= i < |spawns| :: Free(AlongX(m), CellMid(spawns[i].cx), CellMid(spawns[i].cy), PLAYER_HALF))
    && (forall i, j | 0 <= i < |spawns| && 0 <= j < |gens| ::
          !Overlaps(GeneratorAt(spawns[i].cx, spawns[i].cy), GeneratorAt(gens[j].cx, gens[j].cy)))
    && (forall i, j | 0 <= i < j < |gens| ::
          Apart(GeneratorAt(gens[i].cx, gens[i].cy), GeneratorAt(gens[j].cx, gens[j].cy)))
  }

  lemma OpeningStands(m: Maze, ids: seq<ID>, spawns: seq<Cell>, gens: seq<Cell>, hp: nat, lives: nat, base: ID,
                      st: Store, i: nat)
    requires Opening(ids, spawns, gens, hp, lives, base, st) && Placed(m, spawns, gens) && i < |st.slots|
    ensures Standing(m, st.slots[i])
  {
    hide Free;
    assert st.slots[i] == OpeningSlot(ids, spawns, gens, hp, base, i);
    if |ids| <= i < |ids| + |gens| {
      assert BoxOf(st.slots[i]) == GeneratorAt(gens[i - |ids|].cx, gens[i - |ids|].cy);
    }
  }

  lemma OpeningSafe(m: Maze, ids: seq<ID>, spawns: seq<Cell>, gens: seq<Cell>, hp: nat, lives: nat, base: ID, st: Store)
    requires Opening(ids, spawns, gens, hp, lives, base, st) && Placed(m, spawns, gens)
    ensures Safe(m, st.slots)
  {
    forall i: nat | i < |st.slots|
      ensures Standing(m, st.slots[i])
    {
      OpeningStands(m, ids, spawns, gens, hp, lives, base, st, i);
    }
    hide Standing, Overlaps, Apart, CellMid;
    forall i: nat, j: nat | i < |st.slots| && j < |st.slots|
      ensures NoClash(st.slots[i], st.slots[j])
      ensures i < j ==> GeneratorsApart(st.slots[i], st.slots[j])
    {
      assert st.slots[i] == OpeningSlot(ids, spawns, gens, hp, base, i)
             && st.slots[j] == OpeningSlot(ids, spawns, gens, hp, base, j);
    }
  }

  lemma MazePlaces(g: Size, a: M.Attempt, n: nat)
    requires a.Made? && M.WellMade(g, a, n)
    ensures Placed(a.maze, a.spawns, a.gens) && GoodMaze(a.maze)
  {
    forall i | 0 <= i < |a.spawns + a.extras|
      ensures var c := (a.spawns + a.extras)[i];
              && Free(AlongX(a.maze), CellMid(c.cx), CellMid(c.cy), PLAYER_HALF)
              && TileMid(M.CellCenter(c).x) == CellMid(c.cx) && TileMid(M.CellCenter(c).y) == CellMid(c.cy)
      ensures i < |a.spawns| ==> (a.spawns + a.extras)[i] == a.spawns[i]
      ensures Clear(GeneratorAt((a.spawns + a.extras)[i].cx, (a.spawns + a.extras)[i].cy), M.GeneratorBoxes(a.gens))
    {
      M.SpawnFree(g, a, n, i);
    }
    M.PlacedLayout(a.gens);
    forall x, y | At(a.maze, x, y) == SpawnPlayer
      ensures Free(AlongX(a.maze), TileMid(x), TileMid(y), PLAYER_HALF)
    {
      assert M.CenterOf(a.spawns + a.extras, x, y);
    }
    hide Free, CellMid, Overlaps, Apart, M.WellMade;
    forall i, j | 0 <= i < |a.spawns| && 0 <= j < |a.gens|
      ensures !Overlaps(GeneratorAt(a.spawns[i].cx, a.spawns[i].cy), GeneratorAt(a.gens[j].cx, a.gens[j].cy))
    {
      assert (a.spawns + a.extras)[i] == a.spawns[i];
      assert M.GeneratorBoxes(a.gens)[j] == GeneratorAt(a.gens[j].cx, a.gens[j].cy);
    }
    forall i, j | 0 <= i < j < |a.gens|
      ensures Apart(GeneratorAt(a.gens[i].cx, a.gens[i].cy), GeneratorAt(a.gens[j].cx, a.gens[j].cy))
    {
      assert M.GeneratorBoxes(a.gens)[j] == GeneratorAt(a.gens[j].cx, a.gens[j].cy);
      assert M.GeneratorBoxes(a.gens)[i] == GeneratorAt(a.gens[i].cx, a.gens[i].cy);
    }
  }

  // ---- generators in row-major order ----

  function RowKey(c: Cell, w: nat): int { M.CellCenter(c).y * w + M.CellCenter(c).x }

  predicate RowMajor(cells: seq<Cell>, w: nat) {
    forall i, j | 0 <= i < j < |cells| :: RowKey(cells[i], w) <= RowKey(cells[j], w)
  }

  /** The order of the generators is of no account to where they may stand. */
  lemma PlacedPermuted(m: Maze, spawns: seq<Cell>, a: seq<Cell>, b: seq<Cell>)
    requires Placed(m, spawns, a) && multiset(a) == multiset(b)
    ensures Placed(m, spawns, b)
  {
    hide Free, Overlaps, CellMid;
    forall j | 0 <= j < |b|
      ensures b[j] in a
    {
      assert b[j] in multiset(b);
    }
    forall i, j | 0 <= i < j < |b|
      ensures Apart(GeneratorAt(b[i].cx, b[i].cy), GeneratorAt(b[j].cx, b[j].cy))
    {
      TwoPlaces(a, b, i, j);
    }
  }

  lemma TwoPlaces(a: seq<Cell>, b: seq<Cell>, i: int, j: int)
    requires multiset(a) == multiset(b) && 0 <= i < j < |b|
    requires forall x, y | 0 <= x < y < |a| :: Apart(GeneratorAt(a[x].cx, a[x].cy), GeneratorAt(a[y].cx, a[y].cy))
    ensures Apart(GeneratorAt(b[i].cx, b[i].cy), GeneratorAt(b[j].cx, b[j].cy))
  {
    assert b[i] in multiset(b) && b[j] in multiset(b);
    var x :| 0 <= x < |a| && a[x] == b[i];
    if b[i] == b[j] {
      Twice(b, i, j);
      OnceIn(a, x);
    } else {
      var y :| 0 <= y < |a| && a[y] == b[j];
      assert x < y ==> Apart(GeneratorAt(a[x].cx, a[x].cy), GeneratorAt(a[y].cx, a[y].cy));
      assert y < x ==> Apart(GeneratorAt(a[y].cx, a[y].cy), GeneratorAt(a[x].cx, a[x].cy));
    }
  }

  /** Cells that stand apart from each other appear once. */
  lemma OnceIn(a: seq<Cell>, x: int)
    requires 0 <= x < |a|
    requires forall i, j | 0 <= i < j < |a| :: Apart(GeneratorAt(a[i].cx, a[i].cy), GeneratorAt(a[j].cx, a[j].cy))
    ensures multiset(a)[a[x]] == 1
  {
    var l, r := a[..x], a[x + 1..];
    assert a == l + [a[x]] + r;
    assert a[x] !in l && a[x] !in r;
    assert a[x] !in multiset(l) && a[x] !in multiset(r);
  }

  method SortRowMajor(cells: seq<Cell>, w: nat) returns (r: seq<Cell>)
    ensures RowMajor(r, w) && multiset(r) == multiset(cells) && |r| == |cells|
  {
    r := [];
    for i := 0 to |cells|
      invariant RowMajor(r, w) && multiset(r) == multiset(cells[..i]) && |r| == i
    {
      var c := cells[i];
      var j := i;
      while j > 0 && RowKey(r[j - 1], w) > RowKey(c, w)
        invariant 0 <= j <= i
        invariant forall k | j <= k < i :: RowKey(r[k], w) > RowKey(c, w)
      {
        j := j - 1;
      }
      InsertRow(r, c, j, w);
      assert cells[..i + 1] == cells[..i] + [c];
      assert r == r[..j] + r[j..];
      r := r[..j] + [c] + r[j..];
    }
    assert cells[..|cells|] == cells;
  }

  lemma InsertRow(r: seq<Cell>, c: Cell, k: int, w: nat)
    requires RowMajor(r, w) && 0 <= k <= |r|
    requires (k > 0 ==> RowKey(r[k - 1], w) <= RowKey(c, w))
             && forall j | k <= j < |r| :: RowKey(r[j], w) > RowKey(c, w)
    ensures RowMajor(r[..k] + [c] + r[k..], w)
  {
    hide RowKey;
    var s := r[..k] + [c] + r[k..];
    forall i, j | 0 <= i < j < |s|
      ensures RowKey(s[i], w) <= RowKey(s[j], w)
    {
      assert i < k ==> s[i] == r[i] && RowKey(r[i], w) <= RowKey(r[k - 1], w);
      assert i > k ==> s[i] == r[i - 1];
      assert j < k ==> s[j] == r[j];
      assert j > k ==> s[j] == r[j - 1];
    }
  }

  // ---- filling the slab ----

  method PlacePlayers(ids: seq<ID>, spawns: seq<Cell>, lives: nat, slots0: seq<Entity>)
    returns (slots: seq<Entity>, players: map<ID, PlayerState>)
    requires |spawns| == |ids| <= |slots0| && 0 !in ids && forall i | 0 <= i < |slots0| :: slots0[i] == FREE
    ensures |slots| == |slots0|
    ensures forall i | 0 <= i < |slots| :: slots[i] == if i < |ids| then NewPlayer(ids[i], spawns[i]) else FREE
    ensures (forall p :: p in players <==> p in ids)
            && forall p | p in players :: players[p] == NEW_STATE.(lives := lives)
  {
    slots, players := slots0, map[];
    hide CellMid;
    for k := 0 to |ids|
      invariant |slots| == |slots0|
      invariant forall i | 0 <= i < |slots| :: slots[i] == if i < k then NewPlayer(ids[i], spawns[i]) else FREE
      invariant (forall p :: p in players <==> p in ids[..k])
                && forall p | p in players :: players[p] == NEW_STATE.(lives := lives)
    {
      var idx := Alloc(slots);
      assert ids[k] in ids;
      assert slots[k].id == 0;
      assert forall i | 0 <= i < k :: slots[i].id == ids[i] && ids[i] in ids;
      assert idx == k;
      slots := slots[idx := NewPlayer(ids[k], spawns[k])];
      players := players[ids[k] := NEW_STATE.(lives := lives)];
    }
    assert ids[..|ids|] == ids;
  }

  method PlaceGenerators(n: nat, gens: seq<Cell>, hp: nat, base: ID, slots0: seq<Entity>, timed: bool)
    returns (slots: seq<Entity>, nextID: nat, generators: map<ID, GenState>)
    requires 0 < base && base + |gens| <= MAX_ID && n + |gens| <= |slots0|
    requires forall i | 0 <= i < |slots0| :: if i < n then slots0[i].id != 0 else slots0[i] == FREE
    ensures |slots| == |slots0| && nextID == base + |gens|
    ensures forall i | 0 <= i < |slots| ::
              slots[i] == if n <= i < n + |gens| then NewGenerator(base + (i - n), gens[i - n], hp) else slots0[i]
    ensures Timed(timed, base, |gens|, generators)
  {
    slots, nextID, generators := slots0, base, map[];
    hide CellMid;
    for k := 0 to |gens|
      invariant |slots| == |slots0| && nextID == base + k
      invariant forall i | 0 <= i < |slots| ::
                  slots[i] == if n <= i < n + k then NewGenerator(base + (i - n), gens[i - n], hp) else slots0[i]
      invariant Timed(timed, base, k, generators)
    {
      var (id, next) := AllocID(nextID);
      nextID := next;
      var idx := Alloc(slots);
      assert slots[n + k].id == 0;
      assert idx == n + k;
      slots := slots[idx := NewGenerator(id, gens[k], hp)];
      if timed {
        var c := DrawCooldown();
        generators := generators[id := GenState(c, id % 8)];
      }
    }
  }

  method LargestID(ids: seq<ID>) returns (top: ID)
    requires |ids| > 0
    ensures top in ids && forall id | id in ids :: id <= top
  {
    top := ids[0];
    for i := 1 to |ids|
      invariant top in ids && forall j | 0 <= j < i :: ids[j] <= top
    {
      if ids[i] > top {
        top := ids[i];
      }
    }
  }

  /** The slab and sidecars of a fresh simulation on a generated maze. */
  method BuildStore(cfg: Config, spawns: seq<Cell>, gens: seq<Cell>) returns (st: Store, ghost base: ID)
    requires ValidConfig(cfg)
    requires |spawns| == |cfg.playerIDs| && |gens| <= MAX_PLAYERS + 1
    ensures Opening(cfg.playerIDs, spawns, gens, GeneratorHP(cfg), StartLives(cfg), base, st)
    ensures Roster(cfg.playerIDs, base) && st.nextID <= MAX_ID
    ensures base - 1 in cfg.playerIDs
    ensures Timed(cfg.letter != 0, base, |gens|, st.generators)
  {
    var ids := cfg.playerIDs;
    var top := LargestID(ids);
    base := top + 1;
    var hp := GeneratorHP(cfg);
    var slots := seq(MAX_ENTITIES, _ => FREE);
    var players, nextID, generators;
    slots, players := PlacePlayers(ids, spawns, StartLives(cfg), slots);
    assert forall i | 0 <= i < |ids| :: slots[i].id == ids[i] && ids[i] in ids;
    slots, nextID, generators := PlaceGenerators(|ids|, gens, hp, top + 1, slots, cfg.letter != 0);
    st := Store(slots, players, map[], map[], generators, map[], nextID);
  }

  lemma FewGenerators(n: nat, g: Size, noGen: bool)
    requires n <= MAX_PLAYERS
    ensures M.GeneratorCount(n, g, noGen) <= MAX_PLAYERS + 1
  {
  }
}
