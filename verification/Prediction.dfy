/** The client's guess at its own motion, and how a server snapshot corrects it. */
module Prediction {
  import opened Grid
  import opened Physics
  import opened Control
  import opened Walking
  import Client = ClientPhysics

  const RING_CAPACITY := 32
  const DIVERGE_THRESHOLD := 4

  /** Where the player is, how it moves, and the direction turbo is locked to. */
  datatype Kinematic = Kinematic(x: int, y: int, vx: int, vy: int, halfExt: nat, lastDir: Dir)

  datatype Entry = Entry(clientTick: int, input: Input, state: Kinematic)

  /** What a step does to a player, with the maze and the solid boxes of its tick fixed. */
  type Step = (Kinematic, Input) -> Kinematic

  // ---- one step, as the client computes it ----

  ghost function StepPlayer(m: Maze, solids: seq<Box>, prev: Kinematic, inp: Input): Kinematic {
    var s := Steer(prev.lastDir, inp);
    var (vx, vy) := Velocity(s);
    if vx == 0 && vy == 0 then prev.(vx := 0, vy := 0, lastDir := s.lock)
    else
      var r := Slide(m, Motion(prev.x, prev.y, vx, vy), prev.halfExt, solids);
      Kinematic(r.x, r.y, r.vx, r.vy, prev.halfExt, s.lock)
  }

  /** From prev, in this direction at this speed, and with room all the way there. */
  ghost predicate Walks(m: Maze, solids: seq<Box>, prev: Kinematic, d: Dir, turbo: bool, next: Kinematic) {
    var (dx, dy) := Paces(d, turbo);
    && next.halfExt == prev.halfExt
    && (prev.halfExt > 0 && Roomy(m, prev.x, prev.y, prev.halfExt, solids) ==>
          (next.x, next.y, next.vx, next.vy) == (prev.x + dx, prev.y + dy, dx, dy))
  }

  lemma StepWalks(m: Maze, solids: seq<Box>, prev: Kinematic, inp: Input, next: Kinematic)
    requires next == StepPlayer(m, solids, prev, inp)
    ensures !inp.turbo ==> next.lastDir == Idle && Walks(m, solids, prev, inp.dir, false, next)
    ensures inp.dir == Idle ==> next == prev.(vx := 0, vy := 0, lastDir := Idle)
    ensures inp.turbo && inp.dir != Idle ==>
              && next.lastDir == (if prev.lastDir == Idle then inp.dir else prev.lastDir)
              && Walks(m, solids, prev, next.lastDir, true, next)
  {
    hide Slide, Roomy, VelocityFor;
    var s := Steer(prev.lastDir, inp);
    PacesAre(s.dir);
    if prev.halfExt > 0 && Roomy(m, prev.x, prev.y, prev.halfExt, solids) { Onward(m, solids, prev, s); }
  }

  lemma Onward(m: Maze, solids: seq<Box>, prev: Kinematic, s: Steering)
    requires prev.halfExt > 0 && Roomy(m, prev.x, prev.y, prev.halfExt, solids)
    ensures var (vx, vy) := Velocity(s);
            Slide(m, Motion(prev.x, prev.y, vx, vy), prev.halfExt, solids)
            == Motion(prev.x + vx, prev.y + vy, vx, vy)
  {
    var (vx, vy) := Velocity(s);
    GoesOn(m, prev.x, prev.y, vx, vy, prev.halfExt, solids);
  }

  /**
   The turbo lock worked out once more, with the speed taken from the direction that results. Without turbo the player
   walks where it is told; with turbo it runs in the direction it was first told; told nothing, it stands.
   */
  method StepLocal(m: Maze, solids: seq<Box>, prev: Kinematic, inp: Input) returns (next: Kinematic)
    ensures next == StepPlayer(m, solids, prev, inp)
    ensures !inp.turbo ==> next.lastDir == Idle && Walks(m, solids, prev, inp.dir, false, next)
    ensures inp.dir == Idle ==> next == prev.(vx := 0, vy := 0, lastDir := Idle)
    ensures inp.turbo && inp.dir != Idle ==>
              && next.lastDir == (if prev.lastDir == Idle then inp.dir else prev.lastDir)
              && Walks(m, solids, prev, next.lastDir, true, next)
  {
    next := Locally(m, solids, prev, inp);
    StepWalks(m, solids, prev, inp, next);
  }

  method Locally(m: Maze, solids: seq<Box>, prev: Kinematic, inp: Input) returns (next: Kinematic)
    ensures next == StepPlayer(m, solids, prev, inp)
  {
    var effectiveDir, nextLock := inp.dir, Idle;
    if inp.turbo && inp.dir != Idle {
      if prev.lastDir == Idle {
        nextLock := inp.dir;
      } else {
        effectiveDir, nextLock := prev.lastDir, prev.lastDir;
      }
    } else if inp.turbo {
      effectiveDir := Idle;
    }
    var speed := if inp.turbo && effectiveDir != Idle then TURBO_SPEED else PLAYER_SPEED;
    Client.SameVelocity(effectiveDir, speed);
    var (vx, vy) := Client.ClientVelocity(effectiveDir, speed);
    if vx == 0 && vy == 0 {
      return prev.(vx := 0, vy := 0, lastDir := nextLock);
    }
    hide Slide;
    var x, y, nvx, nvy := Client.ClientMove(m, prev.x, prev.y, vx, vy, prev.halfExt, solids);
    next := Kinematic(x, y, nvx, nvy, prev.halfExt, nextLock);
  }

  ghost function Local(m: Maze, solids: seq<Box>): (step: Step)
    ensures forall k, inp :: step(k, inp) == StepPlayer(m, solids, k, inp)
  {
    (k: Kinematic, inp: Input) => StepPlayer(m, solids, k, inp)
  }

  // ---- tick numbers ----

  const WRAP := 0x1_0000

  /** The distance between two 16-bit ticks, as a signed 16-bit number. */
  function Modular16Diff(a: int, b: int): int {
    var d := (a - b) % WRAP;
    if d > 0x7fff then d - WRAP else d
  }

  /** Each tick follows the one before, wrapping at 2^16. */
  ghost predicate ConsecutiveTicks(buf: seq<Entry>) {
    && (forall i | 0 <= i < |buf| :: 0 <= buf[i].clientTick < WRAP)
    && (forall i, j | 0 <= i < j < |buf| :: buf[j].clientTick == (buf[i].clientTick + (j - i)) % WRAP)
  }

  /** Within a full ring, later entries are later ticks, and no two are the same. */
  lemma LaterIsPositive(buf: seq<Entry>, i: int, j: int)
    requires ConsecutiveTicks(buf) && |buf| <= RING_CAPACITY && 0 <= i < j < |buf|
    ensures Modular16Diff(buf[j].clientTick, buf[i].clientTick) == j - i > 0
    ensures buf[j].clientTick != buf[i].clientTick
  {
    var a, b := buf[i].clientTick, buf[j].clientTick;
    assert b == (a + (j - i)) % WRAP;
    assert b == a + (j - i) || b == a + (j - i) - WRAP;
  }

  // ---- replaying ----

  /** One step for each entry: the boxes in the way may differ from tick to tick. */
  ghost function Replay(steps: seq<Step>, from: Kinematic, es: seq<Entry>): Kinematic
    requires |es| <= |steps|
  {
    if es == [] then from else steps[|es| - 1](Replay(steps, from, es[..|es| - 1]), es[|es| - 1].input)
  }

  /** The same boxes throughout. */
  ghost function Same(step: Step, n: nat): (steps: seq<Step>)
    ensures |steps| == n && forall i | 0 <= i < n :: steps[i] == step
  {
    seq(n, _ => step)
  }

  /** Each state is the step of its own tick from the one before. */
  ghost predicate Chain(steps: seq<Step>, buf: seq<Entry>) {
    |steps| == |buf| && forall i | 1 <= i < |buf| :: Follows(steps[i], buf[i - 1], buf[i])
  }

  ghost predicate Follows(step: Step, a: Entry, b: Entry) {
    b.state == step(a.state, b.input)
  }

  /**
   The entries after the acknowledged one, re-stepped from cur; entries that are not later than it are passed over.
   */
  ghost function Rebuilt(step: Step, es: seq<Entry>, acked: int, cur: Kinematic): seq<Entry>
    ensures |Rebuilt(step, es, acked, cur)| == |es|
  {
    if es == [] then []
    else if Modular16Diff(es[0].clientTick, acked) <= 0 then [es[0]] + Rebuilt(step, es[1..], acked, cur)
    else
      var next := step(cur, es[0].input);
      [es[0].(state := next)] + Rebuilt(step, es[1..], acked, next)
  }

  /** Each entry of r is the one of es with the state replayed so far, after the entries before. */
  ghost predicate ReplaysAfter(steps: seq<Step>, from: Kinematic, before: seq<Entry>, es: seq<Entry>, r: seq<Entry>) {
    && |r| == |es| && |before| + |es| <= |steps|
    && forall i | 0 <= i < |r| :: r[i] == es[i].(state := Replay(steps, from, before + es[..i + 1]))
  }

  lemma ReplaysOneMore(steps: seq<Step>, from: Kinematic, before: seq<Entry>, es: seq<Entry>, r: seq<Entry>)
    requires es != [] && |r| == |es| && |before| + |es| <= |steps|
    requires r[0] == es[0].(state := Replay(steps, from, before + [es[0]]))
             && ReplaysAfter(steps, from, before + [es[0]], es[1..], r[1..])
    ensures ReplaysAfter(steps, from, before, es, r)
  {
    hide Replay;
    forall i | 0 <= i < |r|
      ensures r[i] == es[i].(state := Replay(steps, from, before + es[..i + 1]))
    {
      if i == 0 {
        assert before + es[..1] == before + [es[0]];
      } else {
        assert before + es[..i + 1] == before + [es[0]] + es[1..][..i - 1 + 1];
        assert r[i] == r[1..][i - 1] && es[i] == es[1..][i - 1];
      }
    }
  }

  /** With later ticks only, nothing is passed over: each entry is the replay up to itself. */
  lemma {:induction false} RebuiltReplays(step: Step, es: seq<Entry>, acked: int, before: seq<Entry>, from: Kinematic)
    requires forall i | 0 <= i < |es| :: Modular16Diff(es[i].clientTick, acked) > 0
    ensures var steps := Same(step, |before| + |es|);
            ReplaysAfter(steps, from, before, es, Rebuilt(step, es, acked, Replay(steps, from, before)))
    decreases |es|
  {
    if es != [] {
      var steps := Same(step, |before| + |es|);
      var more := before + [es[0]];
      assert Same(step, |more| + |es[1..]|) == steps;
      assert more[..|more| - 1] == before && more[|more| - 1] == es[0];
      assert Replay(steps, from, more) == step(Replay(steps, from, before), es[0].input);
      assert Modular16Diff(es[0].clientTick, acked) > 0;
      hide Modular16Diff, Replay, ReplaysAfter;
      RebuiltReplays(step, es[1..], acked, more, from);
      var r := Rebuilt(step, es, acked, Replay(steps, from, before));
      assert r[1..] == Rebuilt(step, es[1..], acked, Replay(steps, from, more));
      ReplaysOneMore(steps, from, before, es, r);
    }
  }

  // ---- the buffer ----

  datatype Outcome = Outcome(replayed: nat, diverged: nat)

  predicate Near(a: Kinematic, b: Kinematic) {
    -DIVERGE_THRESHOLD <= a.x - b.x <= DIVERGE_THRESHOLD && -DIVERGE_THRESHOLD <= a.y - b.y <= DIVERGE_THRESHOLD
  }

  /** The first entry with this tick, or -1. */
  ghost predicate FirstAt(buf: seq<Entry>, tick: int, idx: int) {
    && -1 <= idx < |buf|
    && (idx >= 0 ==> buf[idx].clientTick == tick)
    && (forall i | 0 <= i < (if idx >= 0 then idx else |buf|) :: buf[i].clientTick != tick)
  }

  /** What reconciling does to the ring and the fallback state. */
  ghost predicate Reconciled(step: Step, buf0: seq<Entry>, spawn0: Kinematic, acked: int, server: Kinematic,
                             buf: seq<Entry>, spawn: Kinematic, diverged: bool) {
    exists idx ::
      FirstAt(buf0, acked, idx) && ReconciledAt(step, buf0, spawn0, acked, server, idx, buf, spawn, diverged)
  }

  ghost predicate ReconciledAt(step: Step, buf0: seq<Entry>, spawn0: Kinematic, acked: int, server: Kinematic, idx: int,
                               buf: seq<Entry>, spawn: Kinematic, diverged: bool)
    requires -1 <= idx < |buf0|
  {
    if idx < 0 then buf == [] && spawn == server && !diverged
    else if Near(server, buf0[idx].state) then buf == buf0 && spawn == spawn0 && !diverged
    else
      && buf == buf0[..idx] + [buf0[idx].(state := server)] + Rebuilt(step, buf0[idx + 1..], acked, server)
      && spawn == spawn0 && diverged
  }

  method FindTick(buf: seq<Entry>, tick: int) returns (idx: int)
    ensures FirstAt(buf, tick, idx)
  {
    for i := 0 to |buf|
      invariant forall j | 0 <= j < i :: buf[j].clientTick != tick
    {
      if buf[i].clientTick == tick {
        return i;
      }
    }
    return -1;
  }

  lemma RebuiltHead(step: Step, buf0: seq<Entry>, i: nat, acked: int, cur: Kinematic)
    requires i < |buf0|
    ensures Rebuilt(step, buf0[i..], acked, cur)
            == if Modular16Diff(buf0[i].clientTick, acked) <= 0 then
                 [buf0[i]] + Rebuilt(step, buf0[i + 1..], acked, cur)
               else
                 var next := step(cur, buf0[i].input);
                 [buf0[i].(state := next)] + Rebuilt(step, buf0[i + 1..], acked, next)
  {
    hide Modular16Diff;
    assert buf0[i..][0] == buf0[i] && buf0[i..][1..] == buf0[i + 1..];
  }

  /** Re-step everything after idx. */
  method ReplayFrom(m: Maze, solids: seq<Box>, buf0: seq<Entry>, idx: nat, acked: int, server: Kinematic)
    returns (buf: seq<Entry>, replayed: nat)
    requires idx < |buf0|
    ensures buf == buf0[..idx] + [buf0[idx].(state := server)] + Rebuilt(Local(m, solids), buf0[idx + 1..], acked,
                                                                         server)
    ensures ConsecutiveTicks(buf0) && |buf0| <= RING_CAPACITY && acked == buf0[idx].clientTick ==>
              replayed == |buf0| - idx - 1
  {
    hide *;
    ghost var step := Local(m, solids);
    ghost var want := buf0[..idx] + [buf0[idx].(state := server)] + Rebuilt(step, buf0[idx + 1..], acked, server);
    var cur := server;
    buf := buf0[idx := buf0[idx].(state := server)];
    replayed := 0;
    assert buf[..idx + 1] == buf0[..idx] + [buf0[idx].(state := server)];
    RebuildBegins(step, buf0, idx, acked, server, want, buf);
    for i := idx + 1 to |buf0|
      invariant Rebuilding(step, buf0, acked, want, i, cur, buf)
      invariant AllLater(buf0, idx, acked) ==> replayed == i - idx - 1
    {
      RebuildNext(step, buf0, acked, want, i, cur, buf);
      LaterThere(buf0, idx, acked, i);
      var e := buf[i];
      if Modular16Diff(e.clientTick, acked) > 0 {
        cur := StepLocal(m, solids, cur, e.input);
        LocalSteps(m, solids, buf0[i], e.input);
        buf := buf[i := e.(state := cur)];
        replayed := replayed + 1;
      }
    }
    RebuildDone(step, buf0, acked, want, cur, buf);
    AllLaterIs(buf0, idx, acked);
  }

  ghost predicate AllLater(buf0: seq<Entry>, idx: int, acked: int) {
    0 <= idx < |buf0| && ConsecutiveTicks(buf0) && |buf0| <= RING_CAPACITY && acked == buf0[idx].clientTick
  }

  lemma AllLaterIs(buf0: seq<Entry>, idx: nat, acked: int)
    requires idx < |buf0|
    ensures AllLater(buf0, idx, acked) <==>
              ConsecutiveTicks(buf0) && |buf0| <= RING_CAPACITY && acked == buf0[idx].clientTick
  {
    hide ConsecutiveTicks;
  }

  lemma LaterThere(buf0: seq<Entry>, idx: nat, acked: int, i: int)
    requires idx < i < |buf0|
    ensures AllLater(buf0, idx, acked) ==> Modular16Diff(buf0[i].clientTick, acked) > 0
  {
    if AllLater(buf0, idx, acked) { LaterIsPositive(buf0, idx, i); }
  }

  lemma LocalSteps(m: Maze, solids: seq<Box>, e: Entry, inp: Input)
    ensures forall k :: Local(m, solids)(k, inp) == StepPlayer(m, solids, k, inp)
  {
    hide StepPlayer;
  }

  /** What is rebuilt so far, and what follows from the state reached, make up the whole. */
  ghost predicate Rebuilding(step: Step, buf0: seq<Entry>, acked: int, want: seq<Entry>, i: int, cur: Kinematic,
                             buf: seq<Entry>) {
    && 0 <= i <= |buf0| == |buf| && (forall j | i <= j < |buf0| :: buf[j] == buf0[j])
    && want == buf[..i] + Rebuilt(step, buf0[i..], acked, cur)
  }

  lemma RebuildBegins(step: Step, buf0: seq<Entry>, idx: nat, acked: int, server: Kinematic, want: seq<Entry>,
                      buf: seq<Entry>)
    requires idx < |buf0| && buf == buf0[idx := buf0[idx].(state := server)]
    requires want == buf[..idx + 1] + Rebuilt(step, buf0[idx + 1..], acked, server)
    ensures Rebuilding(step, buf0, acked, want, idx + 1, server, buf)
  {
  }

  lemma RebuildNext(step: Step, buf0: seq<Entry>, acked: int, want: seq<Entry>, i: int, cur: Kinematic, buf: seq<Entry>)
    requires Rebuilding(step, buf0, acked, want, i, cur, buf) && i < |buf0|
    ensures |buf| == |buf0| && buf[i] == buf0[i]
    ensures if Modular16Diff(buf0[i].clientTick, acked) <= 0 then Rebuilding(step, buf0, acked, want, i + 1, cur, buf)
            else
              var next := step(cur, buf0[i].input);
              Rebuilding(step, buf0, acked, want, i + 1, next, buf[i := buf0[i].(state := next)])
  {
    RebuiltHead(step, buf0, i, acked, cur);
    hide Modular16Diff, Rebuilt;
    var now := if Modular16Diff(buf0[i].clientTick, acked) <= 0 then buf[i]
               else buf0[i].(state := step(cur, buf0[i].input));
    var buf' := buf[i := now];
    assert buf'[..i + 1] == buf[..i] + [now];
    assert Modular16Diff(buf0[i].clientTick, acked) <= 0 ==> buf' == buf;
  }

  lemma RebuildDone(step: Step, buf0: seq<Entry>, acked: int, want: seq<Entry>, cur: Kinematic, buf: seq<Entry>)
    requires Rebuilding(step, buf0, acked, want, |buf0|, cur, buf)
    ensures buf == want
  {
    RebuiltNone(step, buf0[|buf0|..], acked, cur);
    assert buf[..|buf0|] == buf;
  }

  lemma RebuiltNone(step: Step, es: seq<Entry>, acked: int, cur: Kinematic)
    requires es == []
    ensures Rebuilt(step, es, acked, cur) == []
  {
  }

  class PredictionBuffer {
    var buf: seq<Entry>
    var spawnState: Kinematic
    ghost var steps: seq<Step>

    /** At most a full ring, each entry under the step that made it. */
    ghost predicate Valid()
      reads this
    {
      |steps| == |buf| <= RING_CAPACITY
    }

    constructor (initial: Kinematic)
      ensures Valid() && buf == [] && spawnState == initial
    {
      buf, spawnState, steps := [], initial, [];
    }

    function Predicted(): Kinematic
      reads this
    {
      if buf == [] then spawnState else buf[|buf| - 1].state
    }

    method Push(e: Entry, ghost step: Step)
      requires Valid()
      modifies this`buf, this`steps
      ensures Valid()
      ensures buf == if |old(buf)| < 32 then old(buf) + [e] else old(buf)[1..] + [e]
      ensures steps == if |old(buf)| < 32 then old(steps) + [step] else old(steps)[1..] + [step]
    {
      buf, steps := buf + [e], steps + [step];
      if |buf| > RING_CAPACITY {
        buf, steps := buf[1..], steps[1..];
      }
    }

    method Step(m: Maze, solids: seq<Box>, inp: Input) returns (next: Kinematic)
      requires Valid()
      modifies this`buf, this`steps
      ensures Valid() && next == StepPlayer(m, solids, old(Predicted()), inp) && Predicted() == next
      ensures steps != [] && steps[|steps| - 1] == Local(m, solids)
      ensures Chain(old(steps), old(buf)) ==> Chain(steps, buf)
      ensures ConsecutiveTicks(old(buf)) && NextTick(old(buf), inp.clientTick) ==> ConsecutiveTicks(buf)
    {
      hide StepPlayer;
      var prev := Predicted();
      next := StepLocal(m, solids, prev, inp);
      ghost var buf0, steps0 := buf, steps;
      ghost var e := Entry(inp.clientTick, inp, next);
      Push(Entry(inp.clientTick, inp, next), Local(m, solids));
      PushedChain(steps0, Local(m, solids), buf0, e, steps, buf);
      PushedTicks(buf0, e, buf);
    }

    /**
     An unknown tick leaves nothing but the server's state. Otherwise the entry decides: off by more than four
     subtiles on either axis it takes the server's state and the later ones are stepped again, under the boxes of now;
     within four on both, nothing changes.
     */
    method Reconcile(m: Maze, solids: seq<Box>, acked: int, server: Kinematic) returns (r: Outcome)
      requires Valid()
      modifies this
      ensures Valid() && r.diverged <= 1
      ensures (forall e | e in old(buf) :: e.clientTick != acked) ==>
                r.diverged == 0 && buf == [] && Predicted() == server
      ensures forall idx | 0 <= idx < |old(buf)| && old(buf)[idx].clientTick == acked
                           && forall j | 0 <= j < idx :: old(buf)[j].clientTick != acked ::
                var dx, dy := server.x - old(buf)[idx].state.x, server.y - old(buf)[idx].state.y;
                && (r.diverged == 1 <==> dx > 4 || dx < -4 || dy > 4 || dy < -4)
                && (r.diverged == 0 ==> buf == old(buf) && spawnState == old(spawnState))
                && (r.diverged == 1 ==>
                    |buf| == |old(buf)| && buf[..idx] == old(buf)[..idx] && buf[idx].state == server)
      ensures Reconciled(Local(m, solids), old(buf), old(spawnState), acked, server, buf, spawnState, r.diverged == 1)
      ensures if r.diverged == 0 then r.replayed == 0
              else ConsecutiveTicks(old(buf)) ==> r.replayed == |LaterThan(old(buf), acked)|
      ensures forall idx | r.diverged == 1 && FirstAt(old(buf), acked, idx) && idx >= 0 ::
                steps == old(steps)[..idx + 1] + Same(Local(m, solids), |old(buf)| - idx - 1)
    {
      r := Correct(m, solids, acked, server);
      ReconciledMeans(Local(m, solids), old(buf), old(spawnState), acked, server, buf, spawnState, r.diverged == 1);
      hide *;
    }

    method Correct(m: Maze, solids: seq<Box>, acked: int, server: Kinematic) returns (r: Outcome)
      requires Valid()
      modifies this
      ensures Valid() && r.diverged <= 1
      ensures Reconciled(Local(m, solids), old(buf), old(spawnState), acked, server, buf, spawnState, r.diverged == 1)
      ensures if r.diverged == 0 then r.replayed == 0
              else ConsecutiveTicks(old(buf)) ==> r.replayed == |LaterThan(old(buf), acked)|
      ensures forall idx | r.diverged == 1 && FirstAt(old(buf), acked, idx) && idx >= 0 ::
                steps == old(steps)[..idx + 1] + Same(Local(m, solids), |old(buf)| - idx - 1)
    {
      hide Rebuilt, StepPlayer;
      if |buf| == 0 {
        spawnState := server;
        assert FirstAt(old(buf), acked, -1);
        return Outcome(0, 0);
      }
      var idx := FindTick(buf, acked);
      if idx < 0 {
        spawnState := server;
        buf, steps := [], [];
        return Outcome(0, 0);
      }
      if Near(server, buf[idx].state) {
        return Outcome(0, 0);
      }
      var next, replayed := ReplayFrom(m, solids, buf, idx, acked, server);
      LaterAre(buf, acked, idx);
      buf, steps := next, steps[..idx + 1] + Same(Local(m, solids), |buf| - idx - 1);
      r := Outcome(replayed, 1);
    }

    method Reset(state: Kinematic)
      modifies this
      ensures Valid() && buf == [] && spawnState == state
    {
      buf, spawnState, steps := [], state, [];
    }
  }

  /** What reconciling does, by coordinates. */
  lemma ReconciledMeans(step: Step, buf0: seq<Entry>, spawn0: Kinematic, acked: int, server: Kinematic, buf: seq<Entry>,
                        spawn: Kinematic, diverged: bool)
    requires Reconciled(step, buf0, spawn0, acked, server, buf, spawn, diverged)
    ensures (forall e | e in buf0 :: e.clientTick != acked) ==> !diverged && buf == [] && spawn == server
    ensures forall idx | 0 <= idx < |buf0| && buf0[idx].clientTick == acked
                         && forall j | 0 <= j < idx :: buf0[j].clientTick != acked ::
              var dx, dy := server.x - buf0[idx].state.x, server.y - buf0[idx].state.y;
              && (diverged <==> dx > 4 || dx < -4 || dy > 4 || dy < -4)
              && (!diverged ==> buf == buf0 && spawn == spawn0)
              && (diverged ==> |buf| == |buf0| && buf[..idx] == buf0[..idx] && buf[idx].state == server)
  {
    hide Rebuilt;
    var k :| FirstAt(buf0, acked, k) && ReconciledAt(step, buf0, spawn0, acked, server, k, buf, spawn, diverged);
    if k >= 0 { assert buf0[k] in buf0; }
  }

  ghost predicate NextTick(buf: seq<Entry>, tick: int) {
    0 <= tick < WRAP && (buf != [] ==> tick == (buf[|buf| - 1].clientTick + 1) % WRAP)
  }

  lemma PushedChain(steps0: seq<Step>, step: Step, buf0: seq<Entry>, e: Entry, steps: seq<Step>, buf: seq<Entry>)
    requires |steps0| == |buf0| <= RING_CAPACITY
    requires buf == if |buf0| < RING_CAPACITY then buf0 + [e] else buf0[1..] + [e]
    requires steps == if |buf0| < RING_CAPACITY then steps0 + [step] else steps0[1..] + [step]
    requires buf0 != [] ==> Follows(step, buf0[|buf0| - 1], e)
    ensures Chain(steps0, buf0) ==> Chain(steps, buf)
  {
    hide Follows;
    forall i | 1 <= i < |buf| && Chain(steps0, buf0)
      ensures Follows(steps[i], buf[i - 1], buf[i])
    {
      var d := if |buf0| < RING_CAPACITY then 0 else 1;
      assert i < |buf| - 1 ==> buf[i] == buf0[i + d] && buf[i - 1] == buf0[i + d - 1] && steps[i] == steps0[i + d];
    }
  }

  lemma PushedTicks(buf0: seq<Entry>, e: Entry, buf: seq<Entry>)
    requires buf == (if |buf0| < RING_CAPACITY then buf0 + [e] else buf0[1..] + [e]) && |buf0| <= RING_CAPACITY
    ensures ConsecutiveTicks(buf0) && NextTick(buf0, e.clientTick) ==> ConsecutiveTicks(buf)
  {
    if ConsecutiveTicks(buf0) && NextTick(buf0, e.clientTick) {
      var d := if |buf0| < RING_CAPACITY then 0 else 1;
      forall i, j | 0 <= i < j < |buf|
        ensures buf[j].clientTick == (buf[i].clientTick + (j - i)) % WRAP
      {
        if j < |buf| - 1 {
          assert buf[j] == buf0[j + d] && buf[i] == buf0[i + d];
        } else {
          assert buf[i] == buf0[i + d];
          TickAfter(buf0, i + d, e.clientTick);
        }
      }
    }
  }

  lemma TickAfter(buf: seq<Entry>, i: int, tick: int)
    requires ConsecutiveTicks(buf) && NextTick(buf, tick) && 0 <= i < |buf|
    ensures tick == (buf[i].clientTick + (|buf| - i)) % WRAP
  {
    var last := |buf| - 1;
    OneFurther(buf[i].clientTick, last - i);
    assert i < last ==> buf[last].clientTick == (buf[i].clientTick + (last - i)) % WRAP;
  }

  lemma OneFurther(a: int, k: int)
    requires 0 <= a < WRAP && k >= 0
    ensures ((a + k) % WRAP + 1) % WRAP == (a + k + 1) % WRAP && (k == 0 ==> (a + k) % WRAP == a)
  {
  }

  /** The entries after the acknowledged one, in order. */
  function LaterThan(buf: seq<Entry>, acked: int): seq<Entry> {
    if buf == [] then []
    else if buf[0].clientTick == acked then buf[1..]
    else LaterThan(buf[1..], acked)
  }

  lemma {:induction false} LaterAre(buf: seq<Entry>, acked: int, idx: int)
    requires FirstAt(buf, acked, idx) && idx >= 0
    ensures LaterThan(buf, acked) == buf[idx + 1..]
    ensures forall k | FirstAt(buf, acked, k) :: k == idx
    decreases idx
  {
    if idx > 0 {
      LaterAre(buf[1..], acked, idx - 1);
      assert buf[0].clientTick != acked;
    }
  }

  // ---- what reconciling guarantees ----

  /** Each entry of r is the one of es with the state replayed so far under one step. */
  ghost predicate ReplaysOf(step: Step, from: Kinematic, es: seq<Entry>, r: seq<Entry>) {
    |r| == |es| && forall i | 0 <= i < |r| :: r[i] == es[i].(state := Replay(Same(step, |es|), from, es[..i + 1]))
  }

  lemma LaterReplays(step: Step, buf0: seq<Entry>, acked: int, server: Kinematic, idx: nat)
    requires ConsecutiveTicks(buf0) && |buf0| <= RING_CAPACITY && idx < |buf0| && buf0[idx].clientTick == acked
    ensures ReplaysOf(step, server, buf0[idx + 1..], Rebuilt(step, buf0[idx + 1..], acked, server))
  {
    var es := buf0[idx + 1..];
    forall i | 0 <= i < |es|
      ensures Modular16Diff(es[i].clientTick, acked) > 0
    {
      LaterIsPositive(buf0, idx, idx + 1 + i);
    }
    var none: seq<Entry> := [];
    RebuiltReplays(step, es, acked, none, server);
    var steps := Same(step, |es|);
    assert Same(step, |none| + |es|) == steps;
    assert Replay(steps, server, none) == server;
    var r := Rebuilt(step, es, acked, server);
    hide Rebuilt, Replay, Modular16Diff;
    forall i | 0 <= i < |r|
      ensures r[i] == es[i].(state := Replay(steps, server, es[..i + 1]))
    {
      assert [] + es[..i + 1] == es[..i + 1];
    }
  }

  lemma ReplayNext(steps: seq<Step>, from: Kinematic, es: seq<Entry>, i: nat)
    requires i < |es| <= |steps|
    ensures Replay(steps, from, es[..i + 1]) == steps[i](Replay(steps, from, es[..i]), es[i].input)
  {
    assert es[..i + 1][..i] == es[..i];
  }

  lemma ReplaysChain(step: Step, from: Kinematic, es: seq<Entry>, r: seq<Entry>, h: Entry)
    requires ReplaysOf(step, from, es, r) && h.state == from
    ensures Chain(Same(step, |r| + 1), [h] + r)
  {
    var all, steps := [h] + r, Same(step, |es|);
    forall i | 1 <= i < |all|
      ensures Follows(step, all[i - 1], all[i])
    {
      ReplayNext(steps, from, es, i - 1);
      assert all[i] == r[i - 1];
      if i == 1 { assert es[..0] == []; } else { assert all[i - 1] == r[i - 2]; }
    }
  }

  /**
   With consecutive ticks, a diverged reconcile leaves the prediction at the replay of every later input from the
   server's state under the boxes of now, and the entries from the acknowledged one on a chain under them.
   */
  lemma DivergedReplays(step: Step, buf0: seq<Entry>, spawn0: Kinematic, acked: int, server: Kinematic, idx: nat,
                        buf: seq<Entry>, spawn: Kinematic)
    requires ConsecutiveTicks(buf0) && |buf0| <= RING_CAPACITY && idx < |buf0| && buf0[idx].clientTick == acked
    requires Reconciled(step, buf0, spawn0, acked, server, buf, spawn, true)
    ensures |buf| == |buf0| && buf[|buf| - 1].state == Replay(Same(step, |buf0| - idx - 1), server, buf0[idx + 1..])
    ensures Chain(Same(step, |buf0| - idx), buf[idx..]) && buf[idx].state == server
    ensures forall i | 0 <= i < |buf| :: buf[i].clientTick == buf0[i].clientTick && buf[i].input == buf0[i].input
  {
    hide Rebuilt, Replay, Near;
    var k :| FirstAt(buf0, acked, k) && ReconciledAt(step, buf0, spawn0, acked, server, k, buf, spawn, true);
    if 0 <= k < idx { LaterIsPositive(buf0, k, idx); }
    hide ConsecutiveTicks;
    RebuiltTail(step, buf0, acked, server, idx, buf);
  }

  lemma RebuiltTail(step: Step, buf0: seq<Entry>, acked: int, server: Kinematic, idx: nat, buf: seq<Entry>)
    requires ConsecutiveTicks(buf0) && |buf0| <= RING_CAPACITY && idx < |buf0| && buf0[idx].clientTick == acked
    requires buf == buf0[..idx] + [buf0[idx].(state := server)] + Rebuilt(step, buf0[idx + 1..], acked, server)
    ensures |buf| == |buf0| && buf[|buf| - 1].state == Replay(Same(step, |buf0| - idx - 1), server, buf0[idx + 1..])
    ensures Chain(Same(step, |buf0| - idx), buf[idx..]) && buf[idx].state == server
    ensures forall i | 0 <= i < |buf| :: buf[i].clientTick == buf0[i].clientTick && buf[i].input == buf0[i].input
  {
    var es := buf0[idx + 1..];
    var r := Rebuilt(step, es, acked, server);
    var h := buf0[idx].(state := server);
    hide Rebuilt, Chain, Replay, ConsecutiveTicks;
    LaterReplays(step, buf0, acked, server, idx);
    ReplaysChain(step, server, es, r, h);
    assert buf[idx..] == [h] + r;
    LastReplay(step, server, es, r);
    hide ReplaysOf;
    assert buf[|buf| - 1] == if r == [] then h else r[|r| - 1];
    forall i | 0 <= i < |buf|
      ensures buf[i].clientTick == buf0[i].clientTick && buf[i].input == buf0[i].input
    {
      if i > idx {
        assert buf[i] == r[i - idx - 1] && es[i - idx - 1] == buf0[i];
        ReplayKeepsInput(step, server, es, r, i - idx - 1);
      }
    }
  }

  lemma LastReplay(step: Step, from: Kinematic, es: seq<Entry>, r: seq<Entry>)
    requires ReplaysOf(step, from, es, r)
    ensures var all := Replay(Same(step, |es|), from, es); if r == [] then all == from else r[|r| - 1].state == all
  {
    if es != [] { assert es[..|es| - 1 + 1] == es; }
  }

  lemma ReplayKeepsInput(step: Step, from: Kinematic, es: seq<Entry>, r: seq<Entry>, i: nat)
    requires ReplaysOf(step, from, es, r) && i < |es|
    ensures r[i].clientTick == es[i].clientTick && r[i].input == es[i].input
  {
    hide Replay;
  }

  lemma {:induction false} ReplayPrefix(a: seq<Step>, b: seq<Step>, from: Kinematic, es: seq<Entry>)
    requires |es| <= |a| && |es| <= |b| && forall i | 0 <= i < |es| :: a[i] == b[i]
    ensures Replay(a, from, es) == Replay(b, from, es)
  {
    if es != [] {
      ReplayPrefix(a, b, from, es[..|es| - 1]);
    }
  }

  /** A chain is the replay of its own inputs. */
  lemma {:induction false} ChainReplays(steps: seq<Step>, from: Kinematic, buf: seq<Entry>, i: nat)
    requires Chain(steps, buf) && (buf != [] ==> buf[0].state == steps[0](from, buf[0].input)) && i < |buf|
    ensures buf[i].state == Replay(steps, from, buf[..i + 1])
  {
    ReplayNext(steps, from, buf, i);
    if i > 0 {
      ChainReplays(steps, from, buf, i - 1);
      assert Follows(steps[i], buf[i - 1], buf[i]);
    } else {
      assert buf[..0] == [];
    }
  }

  /**
   A server that has stepped through the same inputs, among the same boxes tick by tick, from the same state is
   exactly where the buffer says.
   */
  lemma NeverDiverges(steps: seq<Step>, from: Kinematic, buf: seq<Entry>, idx: nat, server: Kinematic)
    requires Chain(steps, buf) && idx < |buf| && buf[0].state == steps[0](from, buf[0].input)
    requires server == Replay(steps, from, buf[..idx + 1])
    ensures server == buf[idx].state && Near(server, buf[idx].state)
  {
    ChainReplays(steps, from, buf, idx);
  }
}
