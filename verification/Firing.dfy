/** Projectiles leaving players and snipes. */
module Firing {
  import opened Grid
  import opened Physics
  import opened Entities
  import opened Slab
  import opened History
  import opened Ledger
  import opened SimState
  import opened Control
  import opened Movement
  import opened SnipeMind

  const PROJECTILE_LIFETIME := 90
  const FIRE_COOLDOWN := 6

  function Bullet(id: ID, from: Entity, d: Dir): Entity {
    var (vx, vy) := VelocityFor(d, PROJECTILE_SPEED);
    Entity(id, Projectile, 1, d, NO_FLAGS, from.x, from.y, vx, vy)
  }

  function InFlight(slots: seq<Entity>): nat { Population(slots, Projectile) }

  method CountInFlight(slots: seq<Entity>) returns (n: nat)
    ensures n == InFlight(slots)
  {
    n := 0;
    for i := 0 to |slots|
      invariant n == InFlight(slots[..i])
    {
      assert slots[..i + 1][..i] == slots[..i];
      if slots[i].id != 0 && slots[i].kind == Projectile {
        n := n + 1;
      }
    }
    assert slots[..|slots|] == slots;
  }

  // ---- stores that only gain entities ----

  /**
   Whoever was there keeps its ID, kind, health, dead flag and place; newcomers are live projectiles or snipes under
   fresh IDs.
   */
  predicate Stays(e: Entity, e': Entity) {
    e'.id == e.id && e'.kind == e.kind && e'.hp == e.hp && e'.flags.dead == e.flags.dead && e'.x == e.x && e'.y == e.y
  }

  predicate Newcomer(from: nat, upTo: nat, e: Entity) {
    from <= e.id < upTo && (e.kind == Projectile || e.kind == Snipe) && !e.flags.dead
  }

  ghost predicate Grown(st0: Store, st: Store) {
    && |st.slots| == |st0.slots| && st0.nextID <= st.nextID
    && (forall i | 0 <= i < |st.slots| ::
          if st0.slots[i].id != 0 then Stays(st0.slots[i], st.slots[i])
          else st.slots[i] == st0.slots[i] || Newcomer(st0.nextID, st.nextID, st.slots[i]))
    && st.histories == st0.histories
  }

  lemma GrownPending(st0: Store, st: Store, noRespawn: bool, from: int, upTo: int)
    requires Grown(st0, st) && Pending(st0, noRespawn, from, upTo)
    requires st.players.Keys == st0.players.Keys
             && forall p | p in st0.players :: SameLife(st0.players[p], st.players[p])
    ensures Pending(st, noRespawn, from, upTo)
  {
    forall i | 0 <= i < |st.slots|
      ensures Waits(st, noRespawn, from, upTo, st.slots[i])
    {
      assert Waits(st0, noRespawn, from, upTo, st0.slots[i]);
    }
  }

  lemma GrownCovers(st0: Store, st: Store, solids: seq<Box>)
    requires Grown(st0, st) && Covers(st0.slots, solids)
    ensures Covers(st.slots, solids)
  {
    hide Layout;
    forall s | s in solids
      ensures exists j ::
                0 <= j < |st.slots| && Live(st.slots[j]) && st.slots[j].kind == Generator && BoxOf(st.slots[j]) == s
    {
      var j :| 0 <= j < |st0.slots| && Live(st0.slots[j]) && st0.slots[j].kind == Generator && BoxOf(st0.slots[j]) == s;
      assert Stays(st0.slots[j], st.slots[j]);
    }
    forall j | 0 <= j < |st.slots| && Live(st.slots[j]) && st.slots[j].kind == Generator
      ensures BoxOf(st.slots[j]) in solids
    {
      assert Stays(st0.slots[j], st.slots[j]);
    }
  }

  // ---- launching one projectile ----

  /** As many projectiles as there may be. */
  predicate Jammed(slots: seq<Entity>) { InFlight(slots) >= MAX_IN_FLIGHT }

  function Launched(st: Store, k: int, from: Entity, d: Dir, owt: nat): Store
    requires 0 <= k < |st.slots|
  {
    st.(slots := st.slots[k := Bullet(st.nextID, from, d)],
        projectiles := st.projectiles[st.nextID := ProjState(PROJECTILE_LIFETIME, from.id, owt)],
        nextID := st.nextID + 1)
  }

  datatype Launch = NoRoom | NoID | Away(slot: nat)

  ghost predicate Outcome(st: Store, from: Entity, d: Dir, owt: nat, st': Store, r: Launch) {
    match r
    case NoRoom => st' == st && Jammed(st.slots)
    case NoID => st' == st && !Jammed(st.slots) && st.nextID == MAX_ID
    case Away(k) => !Jammed(st.slots) && st.nextID != MAX_ID && k < |st.slots| && st.slots[k].id == 0
                    && st' == Launched(st, k, from, d, owt)
  }

  lemma BulletStands(m: Maze, from: Entity, id: ID, d: Dir)
    requires Standing(m, from) && Live(from) && (from.kind == Player || from.kind == Snipe)
    ensures Standing(m, Bullet(id, from, d))
  {
    VelocityBounded(d, PROJECTILE_SPEED);
    SmallerFree(AlongX(m), from.x, from.y, HalfExt(from.kind), PROJECTILE_HALF);
  }

  lemma LaunchKeeps(m: Maze, startLives: nat, st: Store, log: seq<LifeEvent>, k: int, from: Entity, d: Dir, owt: nat)
    requires Inv(m, startLives, st, log) && 0 <= k < |st.slots| && st.slots[k].id == 0 && st.nextID != MAX_ID
    requires !Jammed(st.slots)
    requires Standing(m, from) && Live(from) && (from.kind == Player || from.kind == Snipe)
    ensures Inv(m, startLives, Launched(st, k, from, d, owt), log)
  {
    BulletStands(m, from, st.nextID, d);
    assert 0 < st.nextID <= MAX_ID;
    hide Inv, Standing, VelocityFor;
    AddKeeps(m, startLives, st, Launched(st, k, from, d, owt), log, k, Bullet(st.nextID, from, d));
  }

  /** A shot fails for want of room exactly at the cap, and for want of an ID exactly when the last one is gone. */
  method TryLaunch(ghost m: Maze, ghost startLives: nat, ghost log: seq<LifeEvent>, st: Store, from: Entity, d: Dir,
                   owt: nat)
    returns (st': Store, r: Launch)
    requires Inv(m, startLives, st, log)
    requires Standing(m, from) && Live(from) && (from.kind == Player || from.kind == Snipe)
    ensures Inv(m, startLives, st', log) && Outcome(st, from, d, owt, st', r)
  {
    assert 0 < st.nextID <= MAX_ID;
    hide Inv, Standing, VelocityFor;
    var n := CountInFlight(st.slots);
    if n >= MAX_IN_FLIGHT {
      return st, NoRoom;
    }
    NeverFull(m, startLives, st, log);
    var k := Alloc(st.slots);
    if k < 0 {
      return st, NoRoom;
    }
    var (pid, nextID) := AllocID(st.nextID);
    if pid == 0 {
      return st, NoID;
    }
    LaunchKeeps(m, startLives, st, log, k, from, d, owt);
    st' := st.(slots := st.slots[k := Bullet(pid, from, d)],
               projectiles := st.projectiles[pid := ProjState(PROJECTILE_LIFETIME, from.id, owt)],
               nextID := nextID);
    r := Away(k);
  }

  lemma LaunchGrows(st: Store, from: Entity, d: Dir, owt: nat, st': Store, r: Launch)
    requires Outcome(st, from, d, owt, st', r) && 0 < st.nextID
    ensures Grown(st, st') && (forall i | 0 <= i < |st.slots| && st.slots[i].id != 0 :: st'.slots[i] == st.slots[i])
    ensures InFlight(st'.slots) == InFlight(st.slots) + if r.Away? then 1 else 0
  {
    if r.Away? {
      PopulationUpdate(st.slots, r.slot, Bullet(st.nextID, from, d), Projectile);
    }
  }

  // ---- step 4.5: snipes decide ----

  function Advised(e: Entity, a: Advice, speed: int): Entity {
    var e1 := e.(facing := a.facing, flags := if a.wake then e.flags.(invuln := false) else e.flags);
    match a.move
    case KeepGoing => e1
    case Halt => e1.(vx := 0, vy := 0)
    case Shoot(d) => e1.(vx := 0, vy := 0, facing := d)
    case Walk(d) => var (vx, vy) := VelocityFor(d, speed); e1.(vx := vx, vy := vy)
  }

  /** The entity once its decision, if it made one, is carried out. */
  function Heeding(e: Entity, advice: map<ID, Advice>, speed: int): Entity {
    if e.id in advice then Advised(e, advice[e.id], speed) else e
  }

  predicate Decides(st: Store, e: Entity) { LiveSnipe(e) && e.id in st.snipes }

  /** A fresh projectile at the place of its shooter, never lag-compensated. */
  predicate SnipesBullet(st: Store, from: Entity, a: Advice, e: Entity) {
    && a.move.Shoot? && e == Bullet(e.id, from, a.move.dir)
    && e.id in st.projectiles && st.projectiles[e.id] == ProjState(PROJECTILE_LIFETIME, from.id, 0)
  }

  ghost predicate SnipeShot(st0: Store, advice: map<ID, Advice>, st: Store, e: Entity) {
    exists j ::
      0 <= j < |st0.slots| && st0.slots[j].id in advice && SnipesBullet(st, st0.slots[j], advice[st0.slots[j].id], e)
  }

  /** The newcomer in this slot was shot by that entity. */
  predicate ShotInSlot(st0: Store, st: Store, k: int, shooter: ID)
    requires 0 <= k < |st.slots| == |st0.slots|
  {
    && st0.slots[k].id == 0 && st.slots[k].id != 0
    && st.slots[k].id in st.projectiles && st.projectiles[st.slots[k].id].shooter == shooter
  }

  ghost predicate HasShot(st0: Store, st: Store, shooter: ID) {
    |st.slots| == |st0.slots| && exists k :: 0 <= k < |st.slots| && ShotInSlot(st0, st, k, shooter)
  }

  /** Nobody shot twice. */
  ghost predicate OneEach(st0: Store, st: Store)
    requires |st.slots| == |st0.slots|
  {
    forall k, l, s | 0 <= k < l < |st.slots| && ShotInSlot(st0, st, k, s) :: !ShotInSlot(st0, st, l, s)
  }

  ghost predicate AdvisedSlots(st0: Store, speed: int, advice: map<ID, Advice>, st: Store) {
    && Grown(st0, st)
    && (forall i | 0 <= i < |st.slots| && st0.slots[i].id != 0 :: st.slots[i] == Heeding(st0.slots[i], advice, speed))
    && (forall p | p in st0.projectiles :: p in st.projectiles && st.projectiles[p] == st0.projectiles[p])
    && st == st0.(slots := st.slots, projectiles := st.projectiles, snipes := st.snipes, nextID := st.nextID)
  }

  ghost predicate AdvisedShots(st0: Store, advice: map<ID, Advice>, st: Store) {
    && |st.slots| == |st0.slots|
    && (forall i | 0 <= i < |st.slots| && st0.slots[i].id == 0 && st.slots[i].id != 0 ::
          SnipeShot(st0, advice, st, st.slots[i]))
    && OneEach(st0, st)
    && (forall s | s in advice && advice[s].move.Shoot? ::
          HasShot(st0, st, s) || Jammed(st.slots) || st.nextID == MAX_ID)
  }

  /** Some decisions carried out: one projectile for each that shoots, except for want of room or of IDs. */
  ghost predicate AdvisedBy(st0: Store, speed: int, advice: map<ID, Advice>, st: Store) {
    AdvisedSlots(st0, speed, advice, st) && AdvisedShots(st0, advice, st)
  }

  ghost predicate Deciders(st0: Store, advice: map<ID, Advice>) {
    forall s :: s in advice <==> exists i | 0 <= i < |st0.slots| :: st0.slots[i].id == s && Decides(st0, st0.slots[i])
  }

  /** What is remembered of a decision: a shot that came off starts the cooldown. */
  function MindAfter(t: Tuning, a: Advice, shot: bool): Mind {
    if shot then a.mind.(fireCooldown := t.fireCooldown) else a.mind
  }

  ghost predicate MindsBy(st0: Store, t: Tuning, advice: map<ID, Advice>, st: Store) {
    && st.snipes.Keys == st0.snipes.Keys
    && forall s | s in st0.snipes ::
         st.snipes[s] == if s in advice then st0.snipes[s].(mind := MindAfter(t, advice[s], HasShot(st0, st, s)))
                         else st0.snipes[s]
  }

  /** What a snipe sees in its turn: everybody but the snipes as before the step, and perhaps new projectiles. */
  ghost predicate Alike(st0: Store, view: seq<Entity>) {
    && |view| == |st0.slots|
    && forall i | 0 <= i < |view| ::
         if st0.slots[i].id == 0 then
           view[i] == st0.slots[i] || (view[i].kind == Projectile && view[i].id >= st0.nextID)
         else if st0.slots[i].kind == Snipe then view[i].id == st0.slots[i].id && view[i].kind == Snipe
         else view[i] == st0.slots[i]
  }

  ghost predicate Thought(m: Maze, st0: Store, tick: nat, t: Tuning, s: ID, a: Advice) {
    s in st0.snipes && exists i, view ::
      && 0 <= i < |st0.slots| && st0.slots[i].id == s && Alike(st0, view)
      && Thinks(m, view, tick, t, st0.slots[i], st0.snipes[s], a)
  }

  ghost predicate Thoughts(m: Maze, st0: Store, tick: nat, t: Tuning, advice: map<ID, Advice>) {
    forall s | s in advice :: Thought(m, st0, tick, t, s, advice[s])
  }

  /** Step 4.5 as a whole: exactly the live snipes have decided, each for itself. */
  ghost predicate AdvisedStore(m: Maze, st0: Store, tick: nat, t: Tuning, advice: map<ID, Advice>, st: Store) {
    && AdvisedBy(st0, t.speed, advice, st) && Deciders(st0, advice)
    && Thoughts(m, st0, tick, t, advice) && MindsBy(st0, t, advice, st)
  }

  /** Some snipe shot to no effect although there was room. */
  ghost predicate Denied(st0: Store, advice: map<ID, Advice>, st: Store) {
    |st.slots| == |st0.slots| && !Jammed(st.slots)
      && exists s :: s in advice && advice[s].move.Shoot? && !HasShot(st0, st, s)
  }

  lemma AdvisedStands(m: Maze, e: Entity, a: Advice, speed: int)
    requires Standing(m, e) && 2 <= speed < SUBTILE && LiveSnipe(e)
    ensures Standing(m, Advised(e, a, speed)) && SameVital(e, Advised(e, a, speed))
            && BoxOf(Advised(e, a, speed)) == BoxOf(e)
  {
    if a.move.Walk? { VelocityBounded(a.move.dir, speed); }
  }

  /** The store once the snipe in this slot has turned, before it shoots. */
  function Turned(st: Store, idx: int, a: Advice, speed: int): Store
    requires 0 <= idx < |st.slots|
  {
    st.(slots := st.slots[idx := Advised(st.slots[idx], a, speed)])
  }

  lemma TurnedKeeps(m: Maze, startLives: nat, st: Store, log: seq<LifeEvent>, idx: int, a: Advice, speed: int)
    requires Inv(m, startLives, st, log) && 0 <= idx < |st.slots| && LiveSnipe(st.slots[idx]) && 2 <= speed < SUBTILE
    ensures Inv(m, startLives, Turned(st, idx, a, speed), log)
    ensures Standing(m, Advised(st.slots[idx], a, speed))
  {
    assert Standing(m, st.slots[idx]);
    AdvisedStands(m, st.slots[idx], a, speed);
    UpdateKeeps(m, startLives, st, log, idx, Advised(st.slots[idx], a, speed));
  }

  lemma TurnedPopulation(st: Store, idx: int, a: Advice, speed: int)
    requires 0 <= idx < |st.slots|
    ensures InFlight(Turned(st, idx, a, speed).slots) == InFlight(st.slots)
  {
    PopulationUpdate(st.slots, idx, Advised(st.slots[idx], a, speed), Projectile);
  }

  /** What carrying out one decision comes to. */
  ghost predicate AdviceOutcome(st: Store, idx: int, a: Advice, speed: int, st': Store, r: Launch)
    requires 0 <= idx < |st.slots|
  {
    var st1 := Turned(st, idx, a, speed);
    if a.move.Shoot? then Outcome(st1, st1.slots[idx], a.move.dir, 0, st', r) else st' == st1 && r == NoRoom
  }

  method CarryOut(ghost m: Maze, ghost startLives: nat, ghost log: seq<LifeEvent>, st: Store, idx: int, a: Advice,
                  speed: int)
    returns (st': Store, r: Launch)
    requires Inv(m, startLives, st, log) && 0 <= idx < |st.slots| && LiveSnipe(st.slots[idx]) && 2 <= speed < SUBTILE
    ensures Inv(m, startLives, st', log) && AdviceOutcome(st, idx, a, speed, st', r)
  {
    TurnedKeeps(m, startLives, st, log, idx, a, speed);
    st', r := Turned(st, idx, a, speed), NoRoom;
    if a.move.Shoot? {
      hide Inv, Standing, Outcome;
      st', r := TryLaunch(m, startLives, log, st', st'.slots[idx], a.move.dir, 0);
    }
  }

  /** The snipe under this ID is left with this mind. */
  function Minded(st: Store, s: ID, mind: Mind): Store
    requires s in st.snipes
  {
    st.(snipes := st.snipes[s := st.snipes[s].(mind := mind)])
  }

  lemma SnipesKeep(m: Maze, startLives: nat, st: Store, snipes: map<ID, SnipeState>, log: seq<LifeEvent>)
    requires Inv(m, startLives, st, log) && snipes.Keys <= st.snipes.Keys
    ensures Inv(m, startLives, st.(snipes := snipes), log)
  {
    var st' := st.(snipes := snipes);
    hide Safe, OnceALife, Account, AliveIn, Unique, Peopled;
    forall i | 0 <= i < |st'.slots|
      ensures Registered(st', st'.slots[i]) && Vitals(st', log, st'.slots[i])
    {
      assert Registered(st, st.slots[i]) && Vitals(st, log, st.slots[i]);
    }
  }

  /** One snipe's turn: think, act, remember. */
  method AdviseOne(m: Maze, ghost startLives: nat, ghost log: seq<LifeEvent>, tick: nat, t: Tuning, st: Store, idx: int)
    returns (st': Store, r: Launch, ghost a: Advice, ghost acted: Store)
    requires Inv(m, startLives, st, log) && 0 <= idx < |st.slots| && Decides(st, st.slots[idx])
             && 2 <= t.speed < SUBTILE
    ensures Inv(m, startLives, st', log) && AdviceOutcome(st, idx, a, t.speed, acted, r)
    ensures Thinks(m, st.slots, tick, t, st.slots[idx], st.snipes[st.slots[idx].id], a)
    ensures acted.snipes == st.snipes && st' == Minded(acted, st.slots[idx].id, MindAfter(t, a, r.Away?))
  {
    InvSlab(m, startLives, st, log);
    hide Inv, Thinks, Unique;
    var e := st.slots[idx];
    var advice := Think(m, st.slots, tick, t, e, st.snipes[e.id]);
    a := advice;
    st', r := CarryOut(m, startLives, log, st, idx, advice, t.speed);
    acted := st';
    st' := Minded(st', e.id, MindAfter(t, advice, r.Away?));
    SnipesKeep(m, startLives, acted, st'.snipes, log);
  }

  /** A decision that puts nothing into the air. */
  lemma QuietSlots(st0: Store, speed: int, advice: map<ID, Advice>, st: Store, idx: int, a: Advice)
    requires Unique(st0.slots) && AdvisedSlots(st0, speed, advice, st) && 0 <= idx < |st.slots|
    requires st0.slots[idx].id != 0 && st0.slots[idx].id !in advice && 0 < st0.nextID
    ensures AdvisedSlots(st0, speed, advice[st0.slots[idx].id := a], Turned(st, idx, a, speed))
  {
    forall i | 0 <= i < |st0.slots| && st0.slots[i].id != 0 && i != idx
      ensures st0.slots[i].id != st0.slots[idx].id
    {
      if st0.slots[i].id == st0.slots[idx].id { OneSlot(st0.slots, i, idx); }
    }
  }

  lemma SameShots(st0: Store, st: Store, st': Store, idx: int)
    requires 0 <= idx < |st.slots| == |st'.slots| == |st0.slots| && st0.slots[idx].id != 0
             && st'.projectiles == st.projectiles
    requires forall i | 0 <= i < |st.slots| && i != idx :: st'.slots[i] == st.slots[i]
    ensures forall k, s | 0 <= k < |st.slots| :: ShotInSlot(st0, st', k, s) <==> ShotInSlot(st0, st, k, s)
    ensures forall s :: HasShot(st0, st', s) <==> HasShot(st0, st, s)
  {
    assert forall k, s | 0 <= k < |st.slots| :: ShotInSlot(st0, st', k, s) <==> ShotInSlot(st0, st, k, s);
  }

  lemma QuietShots(st0: Store, speed: int, advice: map<ID, Advice>, st: Store, idx: int, a: Advice)
    requires AdvisedShots(st0, advice, st) && 0 <= idx < |st.slots|
    requires st0.slots[idx].id != 0 && st0.slots[idx].id !in advice
    requires a.move.Shoot? ==> Jammed(st.slots) || st.nextID == MAX_ID
    ensures AdvisedShots(st0, advice[st0.slots[idx].id := a], Turned(st, idx, a, speed))
  {
    var st' := Turned(st, idx, a, speed);
    var advice' := advice[st0.slots[idx].id := a];
    TurnedPopulation(st, idx, a, speed);
    SameShots(st0, st, st', idx);
    hide InFlight, ShotInSlot;
    forall i | 0 <= i < |st'.slots| && st0.slots[i].id == 0 && st'.slots[i].id != 0
      ensures SnipeShot(st0, advice', st', st'.slots[i])
    {
      assert SnipeShot(st0, advice, st, st.slots[i]);
      var j :| 0 <= j < |st0.slots| && st0.slots[j].id in advice
        && SnipesBullet(st, st0.slots[j], advice[st0.slots[j].id], st.slots[i]);
      assert SnipesBullet(st', st0.slots[j], advice'[st0.slots[j].id], st'.slots[i]);
    }
  }

  /** A snipe that has not decided yet has not shot yet. */
  lemma NotYetShot(st0: Store, advice: map<ID, Advice>, st: Store, s: ID)
    requires AdvisedShots(st0, advice, st) && s !in advice
    ensures !HasShot(st0, st, s)
  {
    forall k | 0 <= k < |st.slots|
      ensures !ShotInSlot(st0, st, k, s)
    {
      assert st0.slots[k].id == 0 && st.slots[k].id != 0 ==> SnipeShot(st0, advice, st, st.slots[k]);
    }
  }

  /** The store once the snipe in slot idx has turned and its projectile is in slot k. */
  function Sniped(st: Store, idx: int, a: Advice, speed: int, k: int): Store
    requires 0 <= idx < |st.slots| && 0 <= k < |st.slots| && a.move.Shoot?
  {
    var st1 := Turned(st, idx, a, speed);
    Launched(st1, k, st1.slots[idx], a.move.dir, 0)
  }

  lemma SnipedSlots(st0: Store, speed: int, advice: map<ID, Advice>, st: Store, idx: int, a: Advice, k: int)
    requires Unique(st0.slots) && AdvisedSlots(st0, speed, advice, st) && 0 <= idx < |st.slots| && 0 < st0.nextID
    requires st0.slots[idx].id != 0 && st0.slots[idx].id !in advice && st.nextID !in st.projectiles
    requires 0 <= k < |st.slots| && st.slots[k].id == 0 && a.move.Shoot?
    ensures AdvisedSlots(st0, speed, advice[st0.slots[idx].id := a], Sniped(st, idx, a, speed, k))
  {
    QuietSlots(st0, speed, advice, st, idx, a);
    assert st0.slots[k].id == 0;
  }

  lemma SnipedShots(st0: Store, speed: int, advice: map<ID, Advice>, st: Store, idx: int, a: Advice, k: int)
    requires AdvisedSlots(st0, speed, advice, st) && AdvisedShots(st0, advice, st) && 0 <= idx < |st.slots|
             && 0 < st0.nextID
    requires st0.slots[idx].id != 0 && st0.slots[idx].id !in advice && st.nextID !in st.projectiles
    requires 0 <= k < |st.slots| && st.slots[k].id == 0 && a.move.Shoot? && !Jammed(st.slots) && st.nextID != MAX_ID
    ensures AdvisedShots(st0, advice[st0.slots[idx].id := a], Sniped(st, idx, a, speed, k))
    ensures forall s ::
              HasShot(st0, Sniped(st, idx, a, speed, k), s) <==> HasShot(st0, st, s) || s == st0.slots[idx].id
  {
    var me := st0.slots[idx].id;
    var st' := Sniped(st, idx, a, speed, k);
    var advice' := advice[me := a];
    assert st0.slots[k].id == 0 && st.slots[idx] == st0.slots[idx];
    NotYetShot(st0, advice, st, me);
    assert forall i | 0 <= i < |st.slots| && st0.slots[i].id == 0 && st.slots[i].id != 0 ::
             SnipeShot(st0, advice, st, st.slots[i]);
    OneShotMore(st0, st, st', k, me);
    hide AdvisedSlots, InFlight, Heeding, SnipeShot, ShotInSlot, HasShot, OneEach, SnipesBullet, Turned, Launched;
    forall i | 0 <= i < |st'.slots| && st0.slots[i].id == 0 && st'.slots[i].id != 0
      ensures SnipeShot(st0, advice', st', st'.slots[i])
    {
      if i == k { SnipedNow(st0, st, advice, idx, a, speed,
                            k); } else { SnipedBefore(st0, st, advice, idx, a, speed, k, i); }
    }
  }

  lemma SnipedNow(st0: Store, st: Store, advice: map<ID, Advice>, idx: int, a: Advice, speed: int, k: int)
    requires |st.slots| == |st0.slots| && 0 <= idx < |st.slots| && 0 <= k < |st.slots| && a.move.Shoot?
    requires st0.slots[idx] == st.slots[idx]
    ensures var st' := Sniped(st, idx, a, speed, k); SnipeShot(st0, advice[st0.slots[idx].id := a], st', st'.slots[k])
  {
    var st' := Sniped(st, idx, a, speed, k);
    hide VelocityFor;
    assert SnipesBullet(st', st0.slots[idx], a, st'.slots[k]);
  }

  lemma SnipedBefore(st0: Store, st: Store, advice: map<ID, Advice>, idx: int, a: Advice, speed: int, k: int, i: int)
    requires |st.slots| == |st0.slots| && 0 <= idx < |st.slots| && 0 <= k < |st.slots| && a.move.Shoot?
    requires 0 <= i < |st.slots| && i != k && st0.slots[i].id == 0 != st0.slots[idx].id
    requires st0.slots[idx].id !in advice && st.nextID !in st.projectiles
    requires var st' := Sniped(st, idx, a, speed, k);
             st'.slots[i].id != 0 && (st.slots[i].id != 0 ==> SnipeShot(st0, advice, st, st.slots[i]))
    ensures var st' := Sniped(st, idx, a, speed, k); SnipeShot(st0, advice[st0.slots[idx].id := a], st', st'.slots[i])
  {
    var st' := Sniped(st, idx, a, speed, k);
    hide Bullet, Advised;
    var j :| 0 <= j < |st0.slots| && st0.slots[j].id in advice
      && SnipesBullet(st, st0.slots[j], advice[st0.slots[j].id], st.slots[i]);
    assert SnipesBullet(st', st0.slots[j], advice[st0.slots[j].id], st'.slots[i]);
  }

  /** One newcomer more, shot by someone who had not. */
  lemma OneShotMore(st0: Store, st: Store, st': Store, k: int, me: ID)
    requires |st.slots| == |st0.slots| == |st'.slots| && 0 <= k < |st.slots| && OneEach(st0, st)
             && !HasShot(st0, st, me)
    requires st0.slots[k].id == 0 == st.slots[k].id && st'.slots[k].id == st.nextID != 0 && st.nextID !in st.projectiles
    requires st.nextID in st'.projectiles && st'.projectiles[st.nextID].shooter == me
    requires forall p | p in st.projectiles :: p in st'.projectiles && st'.projectiles[p] == st.projectiles[p]
    requires forall i | 0 <= i < |st.slots| && i != k && st0.slots[i].id == 0 :: st'.slots[i] == st.slots[i]
    requires forall i | 0 <= i < |st.slots| && st0.slots[i].id == 0 && st.slots[i].id != 0 ::
               st.slots[i].id in st.projectiles
    ensures OneEach(st0, st')
    ensures forall s :: HasShot(st0, st', s) <==> HasShot(st0, st, s) || s == me
  {
    assert ShotInSlot(st0, st', k, me);
    assert forall i, s | 0 <= i < |st.slots| && i != k :: ShotInSlot(st0, st', i, s) <==> ShotInSlot(st0, st, i, s);
    forall i, j, s | 0 <= i < j < |st'.slots| && ShotInSlot(st0, st', i, s)
      ensures !ShotInSlot(st0, st', j, s)
    {
      assert j != k && i != k ==> (ShotInSlot(st0, st, i, s) ==> !ShotInSlot(st0, st, j, s));
    }
    forall s | HasShot(st0, st, s)
      ensures HasShot(st0, st', s)
    {
      var i :| 0 <= i < |st.slots| && ShotInSlot(st0, st, i, s);
      assert i != k && ShotInSlot(st0, st', i, s);
    }
  }

  /**
   One more decision carried out; someone is denied a shot afterwards exactly if someone was before or the IDs have
   run out now.
   */
  lemma AdviceNext(st0: Store, speed: int, advice: map<ID, Advice>, st: Store, idx: int, a: Advice, st': Store,
                   r: Launch)
    requires Unique(st0.slots) && AdvisedBy(st0, speed, advice, st) && 0 <= idx < |st.slots| && 0 < st0.nextID
    requires st0.slots[idx].id != 0 && st0.slots[idx].id !in advice && st.nextID !in st.projectiles
    requires AdviceOutcome(st, idx, a, speed, st', r)
    ensures AdvisedBy(st0, speed, advice[st0.slots[idx].id := a], st')
    ensures Denied(st0, advice[st0.slots[idx].id := a], st') <==> Denied(st0, advice, st) || r == NoID
    ensures forall s :: HasShot(st0, st', s) <==> HasShot(st0, st, s) || (r.Away? && s == st0.slots[idx].id)
  {
    var me := st0.slots[idx].id;
    var st1 := Turned(st, idx, a, speed);
    TurnedPopulation(st, idx, a, speed);
    NotYetShot(st0, advice, st, me);
    if r.Away? {
      SnipedSlots(st0, speed, advice, st, idx, a, r.slot);
      SnipedShots(st0, speed, advice, st, idx, a, r.slot);
      LaunchGrows(st1, st1.slots[idx], a.move.dir, 0, st', r);
    } else {
      QuietSlots(st0, speed, advice, st, idx, a);
      QuietShots(st0, speed, advice, st, idx, a);
      SameShots(st0, st, st', idx);
    }
    hide Grown, AdvisedSlots, OneEach, SnipeShot, Launched, Turned, InFlight;
    assert forall s | s in advice :: s != me && advice[me := a][s] == advice[s];
    assert r != NoID && a.move.Shoot? && !Jammed(st'.slots) ==> HasShot(st0, st', me);
    DeniedNext(st0, advice, st, me, a, st', r);
  }

  lemma DeniedNext(st0: Store, advice: map<ID, Advice>, st: Store, me: ID, a: Advice, st': Store, r: Launch)
    requires |st.slots| == |st'.slots| == |st0.slots| && me !in advice && !HasShot(st0, st, me)
    requires AdvisedShots(st0, advice, st) && AdvisedShots(st0, advice[me := a], st')
    requires r.Away? ==>
               a.move.Shoot? && st.nextID != MAX_ID && HasShot(st0, st', me)
                 && forall s | HasShot(st0, st, s) :: HasShot(st0, st', s)
    requires r.Away? ==> !Jammed(st.slots)
    requires !r.Away? ==>
               (Jammed(st'.slots) <==> Jammed(st.slots)) && st'.nextID == st.nextID
                 && forall s :: HasShot(st0, st', s) <==> HasShot(st0, st, s)
    requires r == NoRoom ==> !a.move.Shoot? || Jammed(st.slots)
    requires r == NoID ==> a.move.Shoot? && !Jammed(st.slots)
    ensures Denied(st0, advice[me := a], st') <==> Denied(st0, advice, st) || r == NoID
  {
    var advice' := advice[me := a];
    hide Jammed, HasShot, OneEach, SnipeShot;
    if r == NoID {
      assert me in advice' && advice'[me].move.Shoot? && !HasShot(st0, st', me);
    }
    if Denied(st0, advice, st) && !r.Away? {
      var s :| s in advice && advice[s].move.Shoot? && !HasShot(st0, st, s);
      assert s in advice' && advice'[s].move.Shoot? && !HasShot(st0, st', s);
    }
    if Denied(st0, advice', st') {
      var s :| s in advice' && advice'[s].move.Shoot? && !HasShot(st0, st', s);
      assert s != me ==> s in advice && advice[s].move.Shoot?;
    }
  }

  /** The decider found for the next ID stands as it did before the step. */
  lemma DeciderFound(st0: Store, speed: int, advice: map<ID, Advice>, st: Store, ids: seq<ID>, k: int, idx: int)
    requires AdvisedBy(st0, speed, advice, st) && Unique(st.slots) && IDsOf(st0.slots, ids) && 0 <= k < |ids|
    requires 0 <= idx < |st.slots| && st.slots[idx].id == ids[k] && ids[k] !in advice
    requires ids[k] in st.snipes <==> ids[k] in st0.snipes
    ensures st.slots[idx] == st0.slots[idx] && ids[k] != 0
            && (Decides(st, st.slots[idx]) <==> Decides(st0, st0.slots[idx]))
  {
    assert ids[k] in ids;
    var i :| 0 <= i < |st0.slots| && st0.slots[i].id == ids[k];
    assert st.slots[i] == Heeding(st0.slots[i], advice, speed);
    OneSlot(st.slots, i, idx);
  }

  /** Those among the first k IDs that decide have decided. */
  ghost predicate DecidedSoFar(st0: Store, ids: seq<ID>, k: int, advice: map<ID, Advice>)
    requires 0 <= k <= |ids|
  {
    forall s ::
      s in advice <==>
          s in ids[..k] && exists i | 0 <= i < |st0.slots| :: st0.slots[i].id == s && Decides(st0, st0.slots[i])
  }

  lemma NotDecided(st0: Store, ids: seq<ID>, k: int, advice: map<ID, Advice>)
    requires IDsOf(st0.slots, ids) && 0 <= k < |ids| && DecidedSoFar(st0, ids, k, advice)
    ensures ids[k] !in advice
  {
  }

  lemma DecidedNext(st0: Store, ids: seq<ID>, k: int, advice: map<ID, Advice>, idx: int, a: Advice)
    requires Unique(st0.slots) && IDsOf(st0.slots, ids) && 0 <= k < |ids| && DecidedSoFar(st0, ids, k, advice)
    requires 0 <= idx < |st0.slots| && st0.slots[idx].id == ids[k]
    ensures DecidedSoFar(st0, ids, k + 1, if Decides(st0, st0.slots[idx]) then advice[ids[k] := a] else advice)
  {
    assert ids[..k + 1] == ids[..k] + [ids[k]];
    forall i | 0 <= i < |st0.slots| && st0.slots[i].id == ids[k] && Decides(st0, st0.slots[i])
      ensures i == idx
    {
      OneSlot(st0.slots, i, idx);
    }
  }

  lemma AllDecided(m: Maze, st0: Store, tick: nat, t: Tuning, ids: seq<ID>, advice: map<ID, Advice>, st: Store)
    requires IDsOf(st0.slots, ids) && DecidedSoFar(st0, ids, |ids|, advice) && AdvisedBy(st0, t.speed, advice, st)
    requires Thoughts(m, st0, tick, t, advice) && MindsBy(st0, t, advice, st)
    ensures AdvisedStore(m, st0, tick, t, advice, st)
  {
    assert ids[..|ids|] == ids;
    hide AdvisedBy, Thoughts, MindsBy;
    forall i | 0 <= i < |st0.slots| && Decides(st0, st0.slots[i])
      ensures st0.slots[i].id in ids
    {
      assert Present(st0.slots, st0.slots[i].id);
    }
  }

  /** The store a snipe finds in its turn is one of those it may have seen. */
  lemma TurnsAlike(st0: Store, speed: int, advice: map<ID, Advice>, st: Store, ids: seq<ID>, k: int)
    requires Unique(st0.slots) && IDsOf(st0.slots, ids) && 0 <= k <= |ids|
    requires AdvisedBy(st0, speed, advice, st) && DecidedSoFar(st0, ids, k, advice) && 0 < st0.nextID
    ensures Alike(st0, st.slots)
  {
    hide OneEach, HasShot, Jammed, VelocityFor;
    forall i | 0 <= i < |st.slots|
      ensures if st0.slots[i].id == 0 then
                st.slots[i] == st0.slots[i] || (st.slots[i].kind == Projectile && st.slots[i].id >= st0.nextID)
              else if st0.slots[i].kind == Snipe then st.slots[i].id == st0.slots[i].id && st.slots[i].kind == Snipe
              else st.slots[i] == st0.slots[i]
    {
      if st0.slots[i].id == 0 {
        assert st.slots[i].id != 0 ==> SnipeShot(st0, advice, st, st.slots[i]);
      } else {
        assert st.slots[i] == Heeding(st0.slots[i], advice, speed);
        if st0.slots[i].id in advice {
          var j :| 0 <= j < |st0.slots| && st0.slots[j].id == st0.slots[i].id && Decides(st0, st0.slots[j]);
          OneSlot(st0.slots, i, j);
        }
      }
    }
  }

  /** Minding nothing but slots, shots and IDs, what has been carried out stays so when minds change. */
  lemma MindsApart(st0: Store, speed: int, advice: map<ID, Advice>, st: Store, st': Store)
    requires AdvisedBy(st0, speed, advice, st) && st' == st.(snipes := st'.snipes)
    ensures AdvisedBy(st0, speed, advice, st') && (Denied(st0, advice, st') <==> Denied(st0, advice, st))
    ensures forall s :: HasShot(st0, st', s) <==> HasShot(st0, st, s)
  {
    assert forall k, s | 0 <= k < |st.slots| :: ShotInSlot(st0, st', k, s) <==> ShotInSlot(st0, st, k, s);
    forall i | 0 <= i < |st.slots| && st0.slots[i].id == 0 && st.slots[i].id != 0
      ensures SnipeShot(st0, advice, st', st'.slots[i])
    {
      assert SnipeShot(st0, advice, st, st.slots[i]);
      var j :| 0 <= j < |st0.slots| && st0.slots[j].id in advice
               && SnipesBullet(st, st0.slots[j], advice[st0.slots[j].id], st.slots[i]);
      assert SnipesBullet(st', st0.slots[j], advice[st0.slots[j].id], st'.slots[i]);
    }
    hide Bullet, Heeding;
  }

  lemma MindsNext(st0: Store, t: Tuning, advice: map<ID, Advice>, st: Store, me: ID, a: Advice, acted: Store,
                  st': Store, away: bool)
    requires MindsBy(st0, t, advice, st) && me !in advice && me in st0.snipes && acted.snipes == st.snipes
    requires forall s :: HasShot(st0, acted, s) <==> HasShot(st0, st, s) || (away && s == me)
    requires forall s :: HasShot(st0, st', s) <==> HasShot(st0, acted, s)
    requires !HasShot(st0, st, me) && st'.snipes == acted.snipes[me := acted.snipes[me].(mind := MindAfter(t, a, away))]
    ensures MindsBy(st0, t, advice[me := a], st')
  {
    hide HasShot;
  }

  lemma ThoughtsNext(m: Maze, st0: Store, tick: nat, t: Tuning, advice: map<ID, Advice>, view: seq<Entity>, idx: int,
                     a: Advice)
    requires Thoughts(m, st0, tick, t, advice) && 0 <= idx < |st0.slots| && st0.slots[idx].id in st0.snipes
    requires Alike(st0, view) && Thinks(m, view, tick, t, st0.slots[idx], st0.snipes[st0.slots[idx].id], a)
    ensures Thoughts(m, st0, tick, t, advice[st0.slots[idx].id := a])
  {
    hide Thinks, Alike;
    assert Thought(m, st0, tick, t, st0.slots[idx].id, a);
  }

  lemma NobodyAdvised(m: Maze, st: Store, tick: nat, t: Tuning, ids: seq<ID>)
    ensures AdvisedBy(st, t.speed, map[], st) && DecidedSoFar(st, ids, 0, map[]) && !Denied(st, map[], st)
    ensures Thoughts(m, st, tick, t, map[]) && MindsBy(st, t, map[], st)
  {
  }

  lemma AdvisedFinds(st0: Store, speed: int, advice: map<ID, Advice>, st: Store, ids: seq<ID>, k: int)
    requires IDsOf(st0.slots, ids) && 0 <= k < |ids| && AdvisedBy(st0, speed, advice, st)
    ensures Present(st.slots, ids[k]) && |st.slots| == |st0.slots|
  {
    assert ids[k] in ids;
    var i :| 0 <= i < |st0.slots| && st0.slots[i].id == ids[k];
    assert st.slots[i] == Heeding(st0.slots[i], advice, speed);
  }

  lemma InOrder(slots: seq<Entity>, ids: seq<ID>)
    requires Ascending(ids) && forall id :: id in ids <==> id != 0 && Present(slots, id)
    ensures IDsOf(slots, ids)
  {
  }

  lemma DecidersLive(st: Store, e: Entity)
    ensures Decides(st, e) ==> LiveSnipe(e) && e.id in st.snipes
  {
  }

  /** What holds when the first k IDs have had their turns. */
  ghost predicate Advising(m: Maze, st0: Store, tick: nat, t: Tuning, ids: seq<ID>, k: int, advice: map<ID, Advice>,
                           st: Store) {
    && 0 <= k <= |ids| && AdvisedBy(st0, t.speed, advice, st) && DecidedSoFar(st0, ids, k, advice)
    && Thoughts(m, st0, tick, t, advice) && MindsBy(st0, t, advice, st)
  }

  lemma AdvisingIs(m: Maze, st0: Store, tick: nat, t: Tuning, ids: seq<ID>, k: int, advice: map<ID, Advice>, st: Store)
    ensures Advising(m, st0, tick, t, ids, k, advice, st) <==>
              && 0 <= k <= |ids| && AdvisedBy(st0, t.speed, advice, st) && DecidedSoFar(st0, ids, k, advice)
              && Thoughts(m, st0, tick, t, advice) && MindsBy(st0, t, advice, st)
  {
  }

  lemma MindUntouched(st0: Store, t: Tuning, advice: map<ID, Advice>, st: Store, s: ID)
    requires MindsBy(st0, t, advice, st) && s !in advice
    ensures s in st.snipes <==> s in st0.snipes
    ensures s in st0.snipes ==> st.snipes[s] == st0.snipes[s]
  {
  }

  /** The next decider's turn, with everything that has been said of the ones before. */
  lemma TurnAdvises(m: Maze, st0: Store, tick: nat, t: Tuning, ids: seq<ID>, k: int, advice: map<ID, Advice>, st: Store,
                    idx: int, a: Advice, acted: Store, st': Store, r: Launch)
    requires Unique(st0.slots) && IDsOf(st0.slots, ids) && k < |ids| && Advising(m, st0, tick, t, ids, k, advice, st)
    requires 0 <= idx < |st.slots| == |st0.slots| && st0.slots[idx].id == ids[k] != 0 && st.slots[idx] == st0.slots[idx]
    requires 0 < st0.nextID && st.nextID !in st.projectiles && ids[k] !in advice && Decides(st0, st0.slots[idx])
    requires ids[k] in st.snipes && AdviceOutcome(st, idx, a, t.speed, acted, r) && acted.snipes == st.snipes
    requires Thinks(m, st.slots, tick, t, st0.slots[idx], st.snipes[ids[k]], a)
    requires st' == Minded(acted, ids[k], MindAfter(t, a, r.Away?))
    ensures Advising(m, st0, tick, t, ids, k + 1, advice[ids[k] := a], st')
    ensures Denied(st0, advice[ids[k] := a], st') <==> Denied(st0, advice, st) || r == NoID
  {
    hide *;
    AdvisingIs(m, st0, tick, t, ids, k, advice, st);
    MindUntouched(st0, t, advice, st, ids[k]);
    AdvisedUnshot(st0, t.speed, advice, st, ids[k]);
    TurnsAlike(st0, t.speed, advice, st, ids, k);
    AdviceNext(st0, t.speed, advice, st, idx, a, acted, r);
    MindedIs(acted, ids[k], MindAfter(t, a, r.Away?));
    MindsApart(st0, t.speed, advice[ids[k] := a], acted, st');
    MindsNext(st0, t, advice, st, ids[k], a, acted, st', r.Away?);
    ThoughtsNext(m, st0, tick, t, advice, st.slots, idx, a);
    DecidedNext(st0, ids, k, advice, idx, a);
    AdvisingIs(m, st0, tick, t, ids, k + 1, advice[ids[k] := a], st');
  }

  lemma AdvisedUnshot(st0: Store, speed: int, advice: map<ID, Advice>, st: Store, s: ID)
    requires AdvisedBy(st0, speed, advice, st) && s !in advice
    ensures !HasShot(st0, st, s)
  {
    NotYetShot(st0, advice, st, s);
  }

  lemma MindedIs(st: Store, s: ID, mind: Mind)
    requires s in st.snipes
    ensures Minded(st, s, mind) == st.(snipes := st.snipes[s := st.snipes[s].(mind := mind)])
  {
  }

  /**
   Step 4.5: every live snipe decides, in ID order; IDs have run out exactly if one is denied a shot there is room
   for.
   */
  method StepSnipes(m: Maze, ghost startLives: nat, ghost log: seq<LifeEvent>, tick: nat, t: Tuning, st0: Store)
    returns (st: Store, exhausted: bool, ghost advice: map<ID, Advice>)
    requires Inv(m, startLives, st0, log) && 2 <= t.speed < SUBTILE
    ensures Inv(m, startLives, st, log) && AdvisedStore(m, st0, tick, t, advice, st)
    ensures exhausted <==> Denied(st0, advice, st)
  {
    hide *;
    st, exhausted, advice := st0, false, map[];
    InvSlab(m, startLives, st, log);
    InvIDs(m, startLives, st, log);
    var ids := LiveIDsSorted(st0.slots);
    InOrder(st0.slots, ids);
    NobodyAdvised(m, st, tick, t, ids);
    AdvisingIs(m, st0, tick, t, ids, 0, advice, st);
    for k := 0 to |ids|
      invariant Inv(m, startLives, st, log) && Advising(m, st0, tick, t, ids, k, advice, st)
      invariant exhausted <==> Denied(st0, advice, st)
    {
      AdvisingIs(m, st0, tick, t, ids, k, advice, st);
      InvSlab(m, startLives, st, log);
      InvIDs(m, startLives, st, log);
      AdvisedFinds(st0, t.speed, advice, st, ids, k);
      var idx := FindByID(st.slots, ids[k]);
      NotDecided(st0, ids, k, advice);
      MindUntouched(st0, t, advice, st, ids[k]);
      DeciderFound(st0, t.speed, advice, st, ids, k, idx);
      DecidedNext(st0, ids, k, advice, idx, Advice(false, Idle, Halt, NEWBORN));
      if Decides(st, st.slots[idx]) {
        DecidersLive(st, st.slots[idx]);
        var st1, r;
        ghost var a, acted;
        st1, r, a, acted := AdviseOne(m, startLives, log, tick, t, st, idx);
        TurnAdvises(m, st0, tick, t, ids, k, advice, st, idx, a, acted, st1, r);
        st, advice, exhausted := st1, advice[ids[k] := a], exhausted || r == NoID;
      } else {
        AdvisingIs(m, st0, tick, t, ids, k + 1, advice, st);
      }
    }
    AdvisingIs(m, st0, tick, t, ids, |ids|, advice, st);
    AllDecided(m, st0, tick, t, ids, advice, st);
  }

  // ---- step 7: players fire ----

  predicate CanFire(st: Store, inputs: map<ID, Input>, tick: nat, e: Entity) {
    && Live(e) && e.kind == Player && e.id in st.players && e.id in inputs
    && inputs[e.id].fireDir != Idle && !e.flags.turbo
    && st.players[e.id].fireCooldown == 0 && st.players[e.id].spawnInvulnUntil <= tick
  }

  function OwtOf(inp: Input): nat {
    if inp.owtTicks > LAG_COMP_TICKS then LAG_COMP_TICKS else inp.owtTicks
  }

  function Reloading(ps: PlayerState): PlayerState { ps.(fireCooldown := FIRE_COOLDOWN) }

  /** A fresh projectile at the place of a player that could fire and now reloads. */
  ghost predicate PlayerShot(st0: Store, inputs: map<ID, Input>, tick: nat, st: Store, e: Entity) {
    && e.kind == Projectile && e.id in st.projectiles
    && exists j :: 0 <= j < |st0.slots| && CanFire(st0, inputs, tick, st0.slots[j])
                   && ShotBy(st0.slots[j], inputs, st, e)
  }

  predicate ShotBy(from: Entity, inputs: map<ID, Input>, st: Store, e: Entity)
    requires from.id in inputs && e.id in st.projectiles
  {
    && e == Bullet(e.id, from, inputs[from.id].fireDir)
    && st.projectiles[e.id] == ProjState(PROJECTILE_LIFETIME, from.id, OwtOf(inputs[from.id]))
    && from.id in st.players && st.players[from.id].fireCooldown == FIRE_COOLDOWN
  }

  /** One player's sidecar once its turn has come. */
  ghost predicate FiredOrNot(st0: Store, inputs: map<ID, Input>, tick: nat, st: Store, e: Entity) {
    e.id in st0.players && e.id in st.players ==>
      if CanFire(st0, inputs, tick, e) then
        || (st.players[e.id] == Reloading(st0.players[e.id]) && HasShot(st0, st, e.id))
        || (st.players[e.id] == st0.players[e.id] && Jammed(st.slots))
      else st.players[e.id] == st0.players[e.id]
  }

  ghost predicate FiredBy(st0: Store, inputs: map<ID, Input>, tick: nat, done: set<ID>, st: Store) {
    && Grown(st0, st)
    && (forall i | 0 <= i < |st.slots| && st0.slots[i].id != 0 :: st.slots[i] == st0.slots[i])
    && (forall i | 0 <= i < |st.slots| && st0.slots[i].id == 0 && st.slots[i].id != 0 ::
          PlayerShot(st0, inputs, tick, st, st.slots[i]))
    && (forall p | p in st0.projectiles :: p in st.projectiles && st.projectiles[p] == st0.projectiles[p])
    && st == st0.(slots := st.slots, projectiles := st.projectiles, nextID := st.nextID, players := st.players)
    && OneEach(st0, st) && st.players.Keys == st0.players.Keys
    && (forall p | p in st0.players :: st.players[p] == st0.players[p] || st.players[p] == Reloading(st0.players[p]))
    && (forall p | p in st0.players && p !in done :: st.players[p] == st0.players[p])
    && (forall i | 0 <= i < |st.slots| && st0.slots[i].id in done :: FiredOrNot(st0, inputs, tick, st, st0.slots[i]))
  }

  /** Step 7 as a whole: exactly the players that could fire did, one projectile each, except for want of room. */
  ghost predicate FiredStore(st0: Store, inputs: map<ID, Input>, tick: nat, st: Store) {
    && FiredBy(st0, inputs, tick, st0.players.Keys, st)
  }

  ghost predicate Trigger(st: Store, inputs: map<ID, Input>, tick: nat, e: Entity, st': Store, r: Launch)
    requires CanFire(st, inputs, tick, e)
  {
    exists mid: Store ::
      && Outcome(st, e, inputs[e.id].fireDir, OwtOf(inputs[e.id]), mid, r)
      && st' == if r.Away? then mid.(players := mid.players[e.id := Reloading(st.players[e.id])]) else mid
  }

  method FireOne(ghost m: Maze, ghost startLives: nat, ghost log: seq<LifeEvent>, st: Store, inputs: map<ID, Input>,
                 tick: nat, idx: int)
    returns (st': Store, r: Launch)
    requires Inv(m, startLives, st, log) && 0 <= idx < |st.slots| && CanFire(st, inputs, tick, st.slots[idx])
    ensures Inv(m, startLives, st', log) && Trigger(st, inputs, tick, st.slots[idx], st', r)
  {
    var e := st.slots[idx];
    assert Standing(m, e);
    hide Inv, Standing, Outcome;
    var mid;
    mid, r := TryLaunch(m, startLives, log, st, e, inputs[e.id].fireDir, OwtOf(inputs[e.id]));
    st' := mid;
    if r.Away? {
      LaunchFrame(st, e, inputs[e.id].fireDir, OwtOf(inputs[e.id]), mid, r);
      st' := mid.(players := mid.players[e.id := Reloading(st.players[e.id])]);
      PlayerKeeps(m, startLives, mid, log, e.id, Reloading(st.players[e.id]));
    }
  }

  lemma LaunchFrame(st: Store, from: Entity, d: Dir, owt: nat, st': Store, r: Launch)
    requires Outcome(st, from, d, owt, st', r)
    ensures st' == st.(slots := st'.slots, projectiles := st'.projectiles, nextID := st'.nextID)
  {
  }

  lemma StayShots(st0: Store, inputs: map<ID, Input>, tick: nat, st: Store, st': Store, e: Entity)
    requires PlayerShot(st0, inputs, tick, st, e)
    requires e.id in st'.projectiles && st'.projectiles[e.id] == st.projectiles[e.id]
    requires forall p | p in st.players ::
               p in st'.players && (st'.players[p] == st.players[p] || st'.players[p].fireCooldown == FIRE_COOLDOWN)
    ensures PlayerShot(st0, inputs, tick, st', e)
  {
  }

  /** A player's turn finds it as it was before the step. */
  lemma TurnFindsSame(st0: Store, inputs: map<ID, Input>, tick: nat, done: set<ID>, st: Store, ids: seq<ID>, k: int,
                      idx: int)
    requires Unique(st.slots) && IDsOf(st0.slots, ids) && 0 <= k < |ids| && ids[k] !in done
    requires FiredBy(st0, inputs, tick, done, st)
    requires 0 <= idx < |st.slots| && st.slots[idx].id == ids[k]
    ensures st.slots[idx] == st0.slots[idx] && ids[k] != 0
    ensures CanFire(st, inputs, tick, st.slots[idx]) <==> CanFire(st0, inputs, tick, st0.slots[idx])
  {
    assert ids[k] in ids;
    var i :| 0 <= i < |st0.slots| && st0.slots[i].id == ids[k];
    assert st.slots[i] == st0.slots[i];
    OneSlot(st.slots, i, idx);
  }

  lemma FireSkip(st0: Store, inputs: map<ID, Input>, tick: nat, done: set<ID>, st: Store, idx: int)
    requires Unique(st0.slots) && FiredBy(st0, inputs, tick, done, st)
    requires 0 <= idx < |st.slots| && st0.slots[idx].id != 0 && st0.slots[idx].id !in done
    requires !CanFire(st0, inputs, tick, st0.slots[idx]) || Jammed(st.slots)
    ensures FiredBy(st0, inputs, tick, done + {st0.slots[idx].id}, st)
  {
    forall i | 0 <= i < |st0.slots| && st0.slots[i].id in done + {st0.slots[idx].id}
      ensures FiredOrNot(st0, inputs, tick, st, st0.slots[i])
    {
      if st0.slots[i].id == st0.slots[idx].id { OneSlot(st0.slots, i, idx); }
    }
  }

  /** The store once the shooter reloads. */
  function Shot(st: Store, k: int, e: Entity, inputs: map<ID, Input>): Store
    requires 0 <= k < |st.slots| && e.id in inputs && e.id in st.players
  {
    Launched(st, k, e, inputs[e.id].fireDir,
             OwtOf(inputs[e.id])).(players := st.players[e.id := Reloading(st.players[e.id])])
  }

  lemma ShotShots(st0: Store, inputs: map<ID, Input>, tick: nat, done: set<ID>, st: Store, idx: int, k: int)
    requires FiredBy(st0, inputs, tick, done, st) && st.nextID !in st.projectiles && 0 < st.nextID
    requires 0 <= idx < |st.slots| && 0 <= k < |st.slots| && CanFire(st0, inputs, tick, st0.slots[idx])
    ensures var st' := Shot(st, k, st0.slots[idx], inputs);
            forall i | 0 <= i < |st'.slots| && st0.slots[i].id == 0 && st'.slots[i].id != 0 ::
              PlayerShot(st0, inputs, tick, st', st'.slots[i])
  {
    var st' := Shot(st, k, st0.slots[idx], inputs);
    forall i | 0 <= i < |st'.slots| && st0.slots[i].id == 0 && st'.slots[i].id != 0
      ensures PlayerShot(st0, inputs, tick, st', st'.slots[i])
    {
      if i == k {
        assert ShotBy(st0.slots[idx], inputs, st', st'.slots[i]);
      } else {
        assert PlayerShot(st0, inputs, tick, st, st.slots[i]);
        hide FiredBy, PlayerShot;
        StayShots(st0, inputs, tick, st, st', st.slots[i]);
      }
    }
  }

  /** A player whose turn is to come has not shot. */
  lemma NotYetFired(st0: Store, inputs: map<ID, Input>, tick: nat, done: set<ID>, st: Store, idx: int)
    requires FiredBy(st0, inputs, tick, done, st)
    requires 0 <= idx < |st0.slots| && CanFire(st0, inputs, tick, st0.slots[idx]) && st0.slots[idx].id !in done
    ensures !HasShot(st0, st, st0.slots[idx].id)
    ensures forall i | 0 <= i < |st.slots| && st0.slots[i].id == 0 && st.slots[i].id != 0 ::
              st.slots[i].id in st.projectiles
  {
    assert |st.slots| == |st0.slots|;
    hide Grown, OneEach, FiredOrNot;
    forall k | 0 <= k < |st.slots|
      ensures !ShotInSlot(st0, st, k, st0.slots[idx].id)
    {
      assert st0.slots[k].id == 0 && st.slots[k].id != 0 ==> PlayerShot(st0, inputs, tick, st, st.slots[k]);
    }
  }

  lemma ShotEach(st0: Store, inputs: map<ID, Input>, tick: nat, done: set<ID>, st: Store, idx: int, k: int)
    requires FiredBy(st0, inputs, tick, done, st) && 0 < st.nextID && st.nextID !in st.projectiles
    requires 0 <= idx < |st.slots| && CanFire(st0, inputs, tick, st0.slots[idx]) && st0.slots[idx].id !in done
    requires 0 <= k < |st.slots| && st.slots[k].id == 0
    ensures var st' := Shot(st, k, st0.slots[idx], inputs);
            OneEach(st0, st') && forall s :: HasShot(st0, st', s) <==> HasShot(st0, st, s) || s == st0.slots[idx].id
  {
    NotYetFired(st0, inputs, tick, done, st, idx);
    assert st0.slots[k].id == 0;
    OneShotMore(st0, st, Shot(st, k, st0.slots[idx], inputs), k, st0.slots[idx].id);
  }

  lemma ShotPlayers(st0: Store, inputs: map<ID, Input>, tick: nat, done: set<ID>, st: Store, idx: int, k: int)
    requires Unique(st0.slots) && FiredBy(st0, inputs, tick, done, st) && !Jammed(st.slots)
    requires 0 <= idx < |st.slots| && 0 <= k < |st.slots| && CanFire(st0, inputs, tick, st0.slots[idx])
    requires st0.slots[idx].id !in done && st.slots[k].id == 0 && 0 < st.nextID && st.nextID !in st.projectiles
    ensures var st' := Shot(st, k, st0.slots[idx], inputs);
            forall i | 0 <= i < |st0.slots| && st0.slots[i].id in done + {st0.slots[idx].id} ::
              FiredOrNot(st0, inputs, tick, st', st0.slots[i])
  {
    var e := st0.slots[idx];
    var st' := Shot(st, k, e, inputs);
    ShotEach(st0, inputs, tick, done, st, idx, k);
    hide Jammed, HasShot, OneEach, PlayerShot, Grown;
    forall i | 0 <= i < |st0.slots| && st0.slots[i].id in done + {e.id}
      ensures FiredOrNot(st0, inputs, tick, st', st0.slots[i])
    {
      if st0.slots[i].id
        == e.id { OneSlot(st0.slots, i, idx); } else { assert FiredOrNot(st0, inputs, tick, st, st0.slots[i]); }
    }
  }

  lemma ShotGrows(st0: Store, inputs: map<ID, Input>, tick: nat, done: set<ID>, st: Store, idx: int, k: int)
    requires FiredBy(st0, inputs, tick, done, st) && 0 < st0.nextID && st.nextID !in st.projectiles
    requires 0 <= idx < |st.slots| && 0 <= k < |st.slots| && st.slots[k].id == 0
             && CanFire(st0, inputs, tick, st0.slots[idx])
    ensures var st' := Shot(st, k, st0.slots[idx], inputs);
            && Grown(st0, st')
            && (forall i | 0 <= i < |st'.slots| && st0.slots[i].id != 0 :: st'.slots[i] == st0.slots[i])
            && (forall p | p in st0.projectiles :: p in st'.projectiles && st'.projectiles[p] == st0.projectiles[p])
  {
    hide PlayerShot, FiredOrNot;
  }

  lemma FireAway(st0: Store, inputs: map<ID, Input>, tick: nat, done: set<ID>, st: Store, idx: int, k: int)
    requires Unique(st0.slots) && FiredBy(st0, inputs, tick, done, st) && 0 < st0.nextID <= st.nextID
             && st.nextID !in st.projectiles
    requires 0 <= idx < |st.slots| && CanFire(st0, inputs, tick, st0.slots[idx]) && st0.slots[idx].id !in done
    requires !Jammed(st.slots) && 0 <= k < |st.slots| && st.slots[k].id == 0
    ensures FiredBy(st0, inputs, tick, done + {st0.slots[idx].id}, Shot(st, k, st0.slots[idx], inputs))
  {
    ShotGrows(st0, inputs, tick, done, st, idx, k);
    ShotShots(st0, inputs, tick, done, st, idx, k);
    ShotPlayers(st0, inputs, tick, done, st, idx, k);
    ShotEach(st0, inputs, tick, done, st, idx, k);
    hide Grown, PlayerShot, FiredOrNot, Jammed, Bullet, OneEach, HasShot;
  }

  lemma FiredMonotone(st0: Store, inputs: map<ID, Input>, tick: nat, done: set<ID>, st: Store)
    requires FiredBy(st0, inputs, tick, done, st)
    ensures st0.nextID <= st.nextID && |st.slots| == |st0.slots|
  {
  }

  lemma FireStep(st0: Store, inputs: map<ID, Input>, tick: nat, done: set<ID>, st: Store, idx: int, st': Store,
                 r: Launch)
    requires Unique(st0.slots) && FiredBy(st0, inputs, tick, done, st) && 0 < st0.nextID && st.nextID !in st.projectiles
    requires 0 <= idx < |st.slots| && st0.slots[idx].id != 0 && st0.slots[idx].id !in done
             && st.slots[idx] == st0.slots[idx]
    requires CanFire(st0, inputs, tick, st0.slots[idx]) && CanFire(st, inputs, tick, st0.slots[idx])
    requires Trigger(st, inputs, tick, st0.slots[idx], st', r) && r != NoID
    ensures FiredBy(st0, inputs, tick, done + {st0.slots[idx].id}, st')
  {
    var e := st0.slots[idx];
    var mid: Store :| Outcome(st, e, inputs[e.id].fireDir, OwtOf(inputs[e.id]), mid, r)
                      && st' == if r.Away? then mid.(players := mid.players[e.id := Reloading(st.players[e.id])])
                                else mid;
    FiredMonotone(st0, inputs, tick, done, st);
    hide FiredBy;
    if r.Away? {
      FireAway(st0, inputs, tick, done, st, idx, r.slot);
      assert st' == Shot(st, r.slot, e, inputs);
    } else {
      FireSkip(st0, inputs, tick, done, st, idx);
    }
  }

  lemma NoneFired(st: Store, inputs: map<ID, Input>, tick: nat)
    ensures FiredBy(st, inputs, tick, {}, st)
  {
  }

  lemma AllFired(st0: Store, inputs: map<ID, Input>, tick: nat, ids: seq<ID>, st: Store)
    requires IDsOf(st0.slots, ids) && FiredBy(st0, inputs, tick, Prefix(ids, |ids|), st)
    ensures FiredStore(st0, inputs, tick, st)
  {
    forall i | 0 <= i < |st.slots| && st0.slots[i].id in st0.players && st0.slots[i].id != 0
      ensures FiredOrNot(st0, inputs, tick, st, st0.slots[i])
    {
      assert Present(st0.slots, st0.slots[i].id);
      assert st0.slots[i].id in ids;
      assert st0.slots[i].id in Prefix(ids, |ids|);
    }
  }

  /** A player that could fire, and for which there was room, has found no ID left. */
  ghost predicate Misfires(st0: Store, inputs: map<ID, Input>, tick: nat, st: Store, i: int) {
    && 0 <= i < |st0.slots| && CanFire(st0, inputs, tick, st0.slots[i])
    && st0.slots[i].id in st.players && st.players[st0.slots[i].id] == st0.players[st0.slots[i].id]
    && !Jammed(st.slots) && st.nextID == MAX_ID
  }

  ghost function Below(keys: set<ID>, id: ID): set<ID> { set p | p in keys && p < id }

  /** Step 7 broken off at such a player: those before it have had their turn, the others have not. */
  ghost predicate BrokenOff(st0: Store, inputs: map<ID, Input>, tick: nat, st: Store) {
    exists i ::
      Misfires(st0, inputs, tick, st, i) && FiredBy(st0, inputs, tick, Below(st0.players.Keys, st0.slots[i].id), st)
  }

  lemma AllOrBroken(st0: Store, inputs: map<ID, Input>, tick: nat, st: Store)
    requires FiredStore(st0, inputs, tick, st)
    ensures !BrokenOff(st0, inputs, tick, st)
  {
    forall i
      ensures !Misfires(st0, inputs, tick, st, i)
    {
      assert 0 <= i < |st0.slots| && CanFire(st0, inputs, tick, st0.slots[i]) ==>
               FiredOrNot(st0, inputs, tick, st, st0.slots[i]);
    }
  }

  lemma BreaksOff(st0: Store, inputs: map<ID, Input>, tick: nat, ids: seq<ID>, k: int, st: Store, idx: int)
    requires IDsOf(st0.slots, ids) && 0 <= k < |ids| && FiredBy(st0, inputs, tick, Prefix(ids, k), st)
             && 0 !in st0.players
    requires 0 <= idx < |st0.slots| && st0.slots[idx].id == ids[k] && CanFire(st0, inputs, tick, st0.slots[idx])
    requires !Jammed(st.slots) && st.nextID == MAX_ID
    ensures BrokenOff(st0, inputs, tick, st)
  {
    var done := Below(st0.players.Keys, ids[k]);
    PrefixNext(ids, k);
    hide Jammed, HasShot, OneEach, PlayerShot, Grown, FiredOrNot, CanFire;
    forall i | 0 <= i < |st0.slots| && st0.slots[i].id in done
      ensures st0.slots[i].id in Prefix(ids, k)
    {
      assert Present(st0.slots, st0.slots[i].id);
      var j :| 0 <= j < |ids| && ids[j] == st0.slots[i].id;
      assert j < k;
    }
    forall p | p in Prefix(ids, k)
      ensures p < ids[k]
    {
    }
    assert Misfires(st0, inputs, tick, st, idx) by { assert CanFire(st0, inputs, tick, st0.slots[idx]); }
    assert FiredBy(st0, inputs, tick, done, st);
  }

  /** Step 7: live players that may fire do so, in ID order; running out of IDs stops the step. */
  method FirePlayers(ghost m: Maze, ghost startLives: nat, ghost log: seq<LifeEvent>, st0: Store,
                     inputs: map<ID, Input>, tick: nat)
    returns (st: Store, exhausted: bool)
    requires Inv(m, startLives, st0, log)
    ensures Inv(m, startLives, st, log)
    ensures !exhausted ==> FiredStore(st0, inputs, tick, st)
    ensures exhausted <==> BrokenOff(st0, inputs, tick, st)
  {
    st, exhausted := st0, false;
    InvSlab(m, startLives, st, log);
    InvIDs(m, startLives, st, log);
    NoneFired(st0, inputs, tick);
    var ids := LiveIDsSorted(st0.slots);
    hide Inv, FiredBy, Trigger, Prefix, FiredStore, BrokenOff, Jammed;
    assert Prefix(ids, 0) == {} by { EmptyPrefix(ids); }
    for k := 0 to |ids|
      invariant Inv(m, startLives, st, log) && FiredBy(st0, inputs, tick, Prefix(ids, k), st)
    {
      PrefixNext(ids, k);
      InvSlab(m, startLives, st, log);
      InvIDs(m, startLives, st, log);
      var idx := FindByID(st.slots, ids[k]);
      FiredFinds(st0, inputs, tick, Prefix(ids, k), st, ids, k);
      TurnFindsSame(st0, inputs, tick, Prefix(ids, k), st, ids, k, idx);
      if CanFire(st, inputs, tick, st.slots[idx]) {
        var st1, r := FireOne(m, startLives, log, st, inputs, tick, idx);
        if r == NoID {
          TriggerOut(st, inputs, tick, st.slots[idx], st1, r);
          BreaksOff(st0, inputs, tick, ids, k, st, idx);
          return st1, true;
        }
        FireStep(st0, inputs, tick, Prefix(ids, k), st, idx, st1, r);
        st := st1;
      } else {
        FireSkip(st0, inputs, tick, Prefix(ids, k), st, idx);
      }
    }
    AllFired(st0, inputs, tick, ids, st);
    AllOrBroken(st0, inputs, tick, st);
  }

  lemma EmptyPrefix(ids: seq<ID>)
    ensures Prefix(ids, 0) == {}
  {
  }

  lemma InvIDs(m: Maze, startLives: nat, st: Store, log: seq<LifeEvent>)
    requires Inv(m, startLives, st, log)
    ensures 0 < st.nextID <= MAX_ID && st.nextID !in st.projectiles && st.nextID !in st.players && 0 !in st.players
  {
  }

  lemma FiredFinds(st0: Store, inputs: map<ID, Input>, tick: nat, done: set<ID>, st: Store, ids: seq<ID>, k: int)
    requires IDsOf(st0.slots, ids) && 0 <= k < |ids| && FiredBy(st0, inputs, tick, done, st)
    ensures Present(st.slots, ids[k]) && |st.slots| == |st0.slots|
  {
    assert ids[k] in ids;
    var i :| 0 <= i < |st0.slots| && st0.slots[i].id == ids[k];
    assert st.slots[i] == st0.slots[i];
  }

  lemma TriggerOut(st: Store, inputs: map<ID, Input>, tick: nat, e: Entity, st': Store, r: Launch)
    requires CanFire(st, inputs, tick, e) && Trigger(st, inputs, tick, e, st', r)
    ensures r == NoID ==> st' == st && !Jammed(st.slots) && st.nextID == MAX_ID
  {
  }

  lemma FiredPending(st0: Store, inputs: map<ID, Input>, tick: nat, st: Store, noRespawn: bool, from: int, upTo: int)
    requires FiredStore(st0, inputs, tick, st) && Pending(st0, noRespawn, from, upTo)
    ensures Pending(st, noRespawn, from, upTo)
  {
    GrownPending(st0, st, noRespawn, from, upTo);
  }
}
