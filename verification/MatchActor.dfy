/** The match actor: joins, disconnect grace, reconnects, backpressure and the end, one message at a time. */
module MatchActor {
  import E = MatchEnd
  import opened Sequences
  import opened Options
  import opened Entities
  import opened MatchSlots

  const MAX_PLAYERS := 8
  const DC_GRACE_TICKS := 900
  const TOKEN_TTL := 60_000
  const SNAPSHOT_EVERY := 2

  type Token = string

  datatype State = WaitingForJoins | Live | Ended
  datatype PendingJoin = PendingJoin(token: Token, player: ID, issuedAt: int)
  datatype MatchConfig = MatchConfig(players: seq<PendingJoin>, level: bool, graceOverride: nat)

  /** Minted joins carry distinct, nonempty tokens for distinct players. */
  ghost predicate Minted(players: seq<PendingJoin>) {
    && (forall i, j | 0 <= i < j < |players| ::
          players[i].token != players[j].token && players[i].player != players[j].player)
    && (forall i | 0 <= i < |players| :: players[i].token != "")
  }

  /** This token was minted for this player. */
  ghost predicate Owns(players: seq<PendingJoin>, t: Token, p: ID) {
    exists i | 0 <= i < |players| :: players[i].token == t && players[i].player == p
  }

  lemma OwnersAre(players: seq<PendingJoin>, bySession: map<Token, ID>)
    requires Minted(players) && forall t | t in bySession :: Owns(players, t, bySession[t])
    requires forall i | 0 <= i < |players| :: players[i].token in bySession
    ensures forall t, p :: Owns(players, t, p) <==> t in bySession && bySession[t] == p
  {
    forall t, p | Owns(players, t, p)
      ensures t in bySession && bySession[t] == p
    {
      OneOwner(players, t, p, t, bySession[t]);
    }
  }

  lemma OneOwner(players: seq<PendingJoin>, t: Token, p: ID, t': Token, p': ID)
    requires Minted(players) && Owns(players, t, p) && Owns(players, t', p')
    ensures t == t' <==> p == p'
  {
  }

  function Grace(cfg: MatchConfig): nat {
    if cfg.graceOverride != 0 then cfg.graceOverride else DC_GRACE_TICKS
  }

  // ---- what holds between actor steps ----

  /** A token still good for a first join belongs to a slot nobody has joined. */
  ghost predicate Admits(cfg: MatchConfig, slots: Slots, bySession: map<Token, ID>, everJoined: set<ID>) {
    forall t | t in bySession ::
      && Owns(cfg.players, t, bySession[t]) && bySession[t] in slots && bySession[t] !in everJoined
      && !slots[bySession[t]].joined && slots[bySession[t]].out.None? && !slots[bySession[t]].closedOnce
        && !slots[bySession[t]].dc
  }

  /** Exactly the tokens of slots in disconnect grace, each grace still running. */
  ghost predicate Graced(cfg: MatchConfig, slots: Slots, dcTokens: map<Token, ID>, now: nat) {
    && (forall t | t in dcTokens :: Owns(cfg.players, t, dcTokens[t]) && dcTokens[t] in slots && slots[dcTokens[t]].dc)
    && (forall t, p | p in slots && slots[p].dc && Owns(cfg.players, t, p) :: t in dcTokens)
    && (forall p | p in slots && slots[p].dc :: now < slots[p].deadline)
  }

  /** Whoever is joined has joined, and every slot was reserved. */
  ghost predicate Reserved(cfg: MatchConfig, slots: Slots, everJoined: set<ID>) {
    forall p | p in slots :: (exists t :: Owns(cfg.players, t, p)) && (slots[p].joined ==> p in everJoined)
  }

  /** Nobody is joined and nothing is bound. */
  ghost predicate Over(d: Desk) {
    Base(d) && d.joinedCount == 0 && forall p | p in d.slots :: d.slots[p].out.None? && !d.slots[p].joined
  }

  ghost predicate Running(cfg: MatchConfig, d: Desk, bySession: map<Token, ID>, everJoined: set<ID>) {
    Minted(cfg.players) && Sound(d) && Admits(cfg, d.slots, bySession, everJoined) && Reserved(cfg, d.slots, everJoined)
  }

  ghost predicate Ready(cfg: MatchConfig, state: State, sim: Option<nat>, d: Desk, bySession: map<Token, ID>,
                        dcTokens: map<Token, ID>, everJoined: set<ID>) {
    match state
    case WaitingForJoins =>
      Running(cfg, d, bySession, everJoined) && sim.None? && dcTokens == map[]
        && forall p | p in d.slots :: d.slots[p].deadline == 0
    case Live => Running(cfg, d, bySession, everJoined) && sim.Some? && Graced(cfg, d.slots, dcTokens, sim.value)
    case Ended => Over(d)
  }

  // ---- sending leaves all that alone ----

  lemma WeatheredAdmits(cfg: MatchConfig, a: Slots, b: Slots, bySession: map<Token, ID>, everJoined: set<ID>)
    requires Weathered(a, b)
    ensures Admits(cfg, a, bySession, everJoined) ==> Admits(cfg, b, bySession, everJoined)
    ensures Reserved(cfg, a, everJoined) ==> Reserved(cfg, b, everJoined)
  {
  }

  lemma WeatheredGraced(cfg: MatchConfig, a: Slots, b: Slots, dcTokens: map<Token, ID>, now: nat)
    requires Weathered(a, b) && SlotsOK(a) && Graced(cfg, a, dcTokens, now)
    ensures Graced(cfg, b, dcTokens, now)
  {
    forall p | p in a
      ensures b[p].dc == a[p].dc && b[p].deadline == a[p].deadline
    {
    }
  }

  lemma WeatheredReady(cfg: MatchConfig, state: State, sim: Option<nat>, a: Desk, b: Desk, bySession: map<Token, ID>,
                       dcTokens: map<Token, ID>, everJoined: set<ID>)
    requires Ready(cfg, state, sim, a, bySession, dcTokens, everJoined) && Base(b) && Weathered(a.slots, b.slots)
             && state != Ended
    ensures Ready(cfg, state, sim, b, bySession, dcTokens, everJoined)
  {
    WeatheredOK(a.slots, b.slots);
    WeatheredAdmits(cfg, a.slots, b.slots, bySession, everJoined);
    if state == Live { WeatheredGraced(cfg, a.slots, b.slots, dcTokens, sim.value); }
  }

  // ---- ending ----

  lemma OverByParts(d: Desk)
    requires Base(d) && forall p | p in d.slots :: d.slots[p].out.None? && !d.slots[p].joined
    ensures Over(d)
  {
    NobodyJoined(d);
  }

  /** The end of a match that has run: match_end to all, MatchOver to each, channels closed, everyone unjoined. */
  method FinishAll(d0: Desk, winner: ID) returns (d: Desk)
    requires Sound(d0)
    ensures Over(d) && Quiet(d0.chans, d.chans) && d.slots.Keys == d0.slots.Keys
            && Farewell(d0, d, [MatchEnd(winner), MatchOver])
  {
    assert Base(d0);
    hide Base, SlotsOK, Sound, Delivered, Quiet, Farewell, Weathered;
    d := Broadcast(d0, MatchEnd(winner));
    DeliveredKeys(d0, d, Everyone([MatchEnd(winner)]));
    ghost var a := d;
    d := SayGoodbye(d);
    ghost var last := d;
    FarewellAfter(d0, a, d, [MatchEnd(winner)], [MatchOver]);
    assert [MatchEnd(winner)] + [MatchOver] == [MatchEnd(winner), MatchOver];
    d := ReleaseJoinedGauge(d);
    SameFarewell(d0, last, d0, d, [MatchEnd(winner), MatchOver]);
    FarewellQuiet(d0, d, [MatchEnd(winner), MatchOver]);
    OverByParts(d);
  }

  /** A farewell is about which channels were bound, and about channels. */
  lemma SameFarewell(a: Desk, b: Desk, a': Desk, b': Desk, fs: seq<Frame>)
    requires Farewell(a, b, fs) && a'.chans == a.chans && b'.chans == b.chans && a'.slots.Keys == a.slots.Keys
    requires forall p | p in a.slots :: a'.slots[p].out == a.slots[p].out
    ensures Farewell(a', b', fs)
  {
    hide SeenOff;
    forall c | c in a.chans && !BoundTo(a'.slots, c)
      ensures !BoundTo(a.slots, c)
    {
      forall p | p in a.slots
        ensures a.slots[p].out != Some(c)
      {
        assert a'.slots[p].out == a.slots[p].out;
      }
    }
  }

  /** The end of a match that never ran: channels closed, everyone unjoined. */
  method CloseBeforeStart(d0: Desk) returns (d: Desk)
    requires Base(d0)
    ensures Over(d) && Quiet(d0.chans, d.chans) && d.slots.Keys == d0.slots.Keys && Farewell(d0, d, [])
  {
    hide Base, Farewell;
    d := CloseAll(d0);
    ghost var closed := d;
    d := ReleaseJoinedGauge(d);
    SameFarewell(d0, closed, d0, d, []);
    FarewellQuiet(d0, d, []);
    OverByParts(d);
  }

  /** A graceful stop: everyone unjoined, channels closed, no last frame. */
  method CloseQuietly(d0: Desk) returns (d: Desk)
    requires Base(d0)
    ensures Over(d) && Quiet(d0.chans, d.chans) && d.slots.Keys == d0.slots.Keys && Farewell(d0, d, [])
  {
    hide Base, Farewell;
    d := ReleaseJoinedGauge(d0);
    ghost var released := d;
    d := CloseAll(d);
    SameFarewell(released, d, d0, d, []);
    FarewellQuiet(d0, d, []);
    OverByParts(d);
  }

  // ---- starting ----

  /** Slots that dropped during warmup get their full grace from the first tick on. */
  function Armed(s: Slot, now: nat, grace: nat): Slot {
    if s.joined && s.dc && s.deadline == 0 then s.(deadline := now + grace) else s
  }

  method TokenFor(players: seq<PendingJoin>, p: ID) returns (t: Token)
    requires Minted(players)
    ensures t != "" ==> Owns(players, t, p)
    ensures t == "" ==> forall u :: !Owns(players, u, p)
  {
    for i := 0 to |players|
      invariant forall j | 0 <= j < i :: players[j].player != p
    {
      if players[i].player == p {
        return players[i].token;
      }
    }
    return "";
  }

  /** The slots outside todo are armed and their tokens registered. */
  ghost predicate ArmedBut(cfg: MatchConfig, slots0: Slots, todo: set<ID>, slots: Slots, dcTokens: map<Token, ID>,
                           now: nat) {
    && slots.Keys == slots0.Keys && todo <= slots.Keys
    && (forall p | p in slots :: slots[p] == if p in todo then slots0[p] else Armed(slots0[p], now, Grace(cfg)))
    && (forall t | t in dcTokens :: Owns(cfg.players, t, dcTokens[t]) && dcTokens[t] in slots && slots[dcTokens[t]].dc)
    && (forall t, p | p in slots && p !in todo && slots[p].dc && Owns(cfg.players, t, p) :: t in dcTokens)
  }

  lemma ArmNext(cfg: MatchConfig, slots0: Slots, todo: set<ID>, slots: Slots, dcTokens: map<Token, ID>, now: nat, p: ID,
                t: Token)
    requires Minted(cfg.players) && ArmedBut(cfg, slots0, todo, slots, dcTokens, now) && p in todo
    requires slots0[p].joined && slots0[p].dc && slots0[p].deadline == 0
    requires if t != "" then Owns(cfg.players, t, p) else forall u :: !Owns(cfg.players, u, p)
    ensures ArmedBut(cfg, slots0, todo - {p}, slots[p := slots[p].(deadline := now + Grace(cfg))],
                     if t != "" then dcTokens[t := p] else dcTokens, now)
  {
    forall u | Owns(cfg.players, u, p)
      ensures u == t
    {
      OneOwner(cfg.players, u, p, t, p);
    }
    hide Owns, Minted, Grace;
  }

  lemma ArmSkip(cfg: MatchConfig, slots0: Slots, todo: set<ID>, slots: Slots, dcTokens: map<Token, ID>, now: nat, p: ID)
    requires ArmedBut(cfg, slots0, todo, slots, dcTokens, now) && p in todo && SlotOK(slots0[p])
             && slots0[p].deadline == 0
    requires !(slots0[p].joined && slots0[p].dc && slots0[p].deadline == 0)
    ensures ArmedBut(cfg, slots0, todo - {p}, slots, dcTokens, now)
  {
    hide Owns, Grace;
  }

  lemma ArmDone(cfg: MatchConfig, slots0: Slots, slots: Slots, dcTokens: map<Token, ID>, now: nat)
    requires ArmedBut(cfg, slots0, {}, slots, dcTokens, now) && SlotsOK(slots0)
             && forall p | p in slots0 :: slots0[p].deadline == 0
    ensures SlotsOK(slots) && Graced(cfg, slots, dcTokens, now)
  {
    hide Owns;
  }

  /** Every slot already in grace is armed, and its token registered. */
  method ArmAll(cfg: MatchConfig, d0: Desk, now: nat) returns (d: Desk, dcTokens: map<Token, ID>)
    requires Minted(cfg.players) && Sound(d0) && forall p | p in d0.slots :: d0.slots[p].deadline == 0
    ensures Sound(d) && d.chans == d0.chans && d.slots.Keys == d0.slots.Keys && d.joinedCount == d0.joinedCount
    ensures forall p | p in d.slots :: d.slots[p] == Armed(d0.slots[p], now, Grace(cfg))
    ensures Graced(cfg, d.slots, dcTokens, now)
  {
    d, dcTokens := d0, map[];
    var todo := d.slots.Keys;
    assert SlotsOK(d0.slots);
    hide Base, Owns, Minted;
    while todo != {}
      invariant Base(d) && d.chans == d0.chans && d.joinedCount == d0.joinedCount
      invariant ArmedBut(cfg, d0.slots, todo, d.slots, dcTokens, now)
      decreases todo
    {
      var p :| p in todo;
      var s := d.slots[p];
      if s.joined && s.dc && s.deadline == 0 {
        SameBase(d, p, s.(deadline := now + Grace(cfg)));
        var t := TokenFor(cfg.players, p);
        ArmNext(cfg, d0.slots, todo, d.slots, dcTokens, now, p, t);
        d := d.(slots := d.slots[p := s.(deadline := now + Grace(cfg))]);
        if t != "" {
          dcTokens := dcTokens[t := p];
        }
      } else {
        ArmSkip(cfg, d0.slots, todo, d.slots, dcTokens, now, p);
      }
      todo := todo - {p};
    }
    ArmDone(cfg, d0.slots, d.slots, dcTokens, now);
  }

  lemma SameBase(d: Desk, p: ID, s: Slot)
    requires Base(d) && p in d.slots && s.joined == d.slots[p].joined && s.out == d.slots[p].out
             && s.closedOnce == d.slots[p].closedOnce
    ensures Base(d.(slots := d.slots[p := s]))
  {
    assert s.out.Some? ==> Bound(d, d.slots[p]);
    BaseUpdate(d, p, s, d.(slots := d.slots[p := s]));
  }

  /** The full picture, for each slot its own. */
  function Picture(): Script { (q: ID) => [MapInit, Scoreboard, Snapshot(q)] }

  /** What the start brings. */
  function Opening(): Script { (q: ID) => [MapInit, Scoreboard, Snapshot(q), Started] }

  function ArmedDesk(cfg: MatchConfig, d: Desk): Desk {
    d.(slots := map p | p in d.slots :: Armed(d.slots[p], 0, Grace(cfg)))
  }

  lemma ArmedRunning(cfg: MatchConfig, a: Slots, b: Slots, now: nat, bySession: map<Token, ID>, everJoined: set<ID>)
    requires a.Keys == b.Keys && forall p | p in b :: b[p] == Armed(a[p], now, Grace(cfg))
    requires Admits(cfg, a, bySession, everJoined) && Reserved(cfg, a, everJoined)
    ensures Admits(cfg, b, bySession, everJoined) && Reserved(cfg, b, everJoined)
  {
    hide Owns;
  }

  /** Two players are enough to start, one against the machine; fewer, or no map, and the match is off. */
  function MinPlayers(cfg: MatchConfig): nat { if cfg.level then 1 else 2 }

  method Open(d0: Desk) returns (d: Desk)
    requires Sound(d0)
    ensures Sound(d) && Delivered(d0, d, Opening())
  {
    hide Delivered, Weathered, Quiet;
    d := SendEach(d0, Picture());
    ghost var welcomed := d;
    d := Broadcast(d, Started);
    DeliveredMore(d0, welcomed, d, Picture(), Everyone([Started]), Opening());
  }

  method StartOrAbort(cfg: MatchConfig, d0: Desk, ghost bySession: map<Token, ID>, ghost everJoined: set<ID>,
                      simMade: bool)
    returns (state: State, sim: Option<nat>, d: Desk, dcTokens: map<Token, ID>)
    requires Ready(cfg, WaitingForJoins, None, d0, bySession, map[], everJoined)
    ensures Ready(cfg, state, sim, d, bySession, dcTokens, everJoined) && Quiet(d0.chans, d.chans)
            && d.slots.Keys == d0.slots.Keys
    ensures if simMade && d0.joinedCount >= MinPlayers(cfg)
            then state == Live && sim == Some(0) && Delivered(ArmedDesk(cfg, d0), d, Opening())
            else state == Ended && dcTokens == map[] && Farewell(d0, d, [])
  {
    assert d0.joinedCount == |JoinedSet(d0.slots)|;
    hide Base, Admits, Reserved, Graced, Minted, Over, SlotsOK, Weathered, Quiet, JoinedSet, Delivered, Farewell;
    if |JoinedSet(d0.slots)| < MinPlayers(cfg) || !simMade {
      d := CloseBeforeStart(d0);
      return Ended, None, d, map[];
    }
    state, sim := Live, Some(0);
    d, dcTokens := GoLive(cfg, d0, bySession, everJoined);
  }

  lemma ArmedIs(cfg: MatchConfig, d0: Desk, armed: Desk)
    requires armed.slots.Keys == d0.slots.Keys
             && forall p | p in armed.slots :: armed.slots[p] == Armed(d0.slots[p], 0, Grace(cfg))
    ensures armed.slots == ArmedDesk(cfg, d0).slots && ArmedDesk(cfg, d0).chans == d0.chans
  {
    hide Armed, Grace;
  }

  method GoLive(cfg: MatchConfig, d0: Desk, ghost bySession: map<Token, ID>, ghost everJoined: set<ID>)
    returns (d: Desk, dcTokens: map<Token, ID>)
    requires Ready(cfg, WaitingForJoins, None, d0, bySession, map[], everJoined)
    ensures Ready(cfg, Live, Some(0), d, bySession, dcTokens, everJoined) && Quiet(d0.chans, d.chans)
            && d.slots.Keys == d0.slots.Keys
    ensures Delivered(ArmedDesk(cfg, d0), d, Opening())
  {
    hide Base, Admits, Reserved, Graced, Minted, Over, SlotsOK, Weathered, Quiet, Delivered, Armed, ArmedDesk, Opening;
    d, dcTokens := ArmAll(cfg, d0, 0);
    ArmedRunning(cfg, d0.slots, d.slots, 0, bySession, everJoined);
    ghost var armed := d;
    assert Ready(cfg, Live, Some(0), armed, bySession, dcTokens, everJoined);
    hide Running, Ready;
    d := Open(d);
    SentReady(cfg, Live, Some(0), armed, d, bySession, dcTokens, everJoined, Opening());
    ArmedIs(cfg, d0, armed);
    DeliveredOn(armed, d, ArmedDesk(cfg, d0), d, Opening());
  }

  /** Delivery is about slots and channels only. */
  lemma DeliveredOn(a: Desk, b: Desk, a': Desk, b': Desk, f: Script)
    requires Delivered(a, b, f) && a'.slots == a.slots && a'.chans == a.chans && b'.slots == b.slots
             && b'.chans == b.chans
    ensures Delivered(a', b', f)
  {
    forall p | p in a'.slots
      ensures Got(a', b', p, f(p))
    {
      assert Got(a, b, p, f(p));
    }
  }

  /** Delivery leaves what holds between actor steps alone. */
  lemma SentReady(cfg: MatchConfig, state: State, sim: Option<nat>, a: Desk, b: Desk, bySession: map<Token, ID>,
                  dcTokens: map<Token, ID>, everJoined: set<ID>, f: Script)
    requires Ready(cfg, state, sim, a, bySession, dcTokens, everJoined) && Base(b) && Delivered(a, b, f)
             && state != Ended
    ensures Ready(cfg, state, sim, b, bySession, dcTokens, everJoined)
    ensures Weathered(a.slots, b.slots) && Quiet(a.chans, b.chans) && a.slots.Keys == b.slots.Keys
  {
    ReadyBase(cfg, state, sim, a, bySession, dcTokens, everJoined);
    hide Ready, Base, Delivered;
    DeliveredQuiet(a, b, f);
    WeatheredReady(cfg, state, sim, a, b, bySession, dcTokens, everJoined);
  }

  lemma SameKeys(a: Slots, b: Slots)
    requires Weathered(a, b)
    ensures a.Keys == b.Keys
  {
  }

  // ---- joining ----

  lemma BindBase(d: Desk, p: ID, c: ChanID, capacity: nat)
    requires Base(d) && p in d.slots && d.slots[p].out.None? && !d.slots[p].closedOnce && c !in d.chans
    ensures var s := d.slots[p].(joined := true, out := Some(c), dc := false, deadline := 0);
            var more := if d.slots[p].joined then 0 else 1;
            Base(Desk(d.slots[p := s], d.chans[c := NewChan(capacity)], d.joinedCount + more, d.gauge + more))
  {
    var s := d.slots[p].(joined := true, out := Some(c), dc := false, deadline := 0);
    JoinOne(d.slots, p, s);
    forall q | q in d.slots && d.slots[q].out.Some?
      ensures d.slots[q].out.value in d.chans
    {
      assert Bound(d, d.slots[q]);
    }
    var more := if d.slots[p].joined then 0 else 1;
    var d' := Desk(d.slots[p := s], d.chans[c := NewChan(capacity)], d.joinedCount + more, d.gauge + more);
    forall q | q in d'.slots && d'.slots[q].out.Some?
      ensures Bound(d', d'.slots[q])
    {
      if q != p { assert Bound(d, d.slots[q]); }
    }
  }

  /** The slot joined and bound to a fresh channel. */
  function Seated(d: Desk, p: ID, c: ChanID, capacity: nat): Desk
    requires p in d.slots
  {
    Desk(d.slots[p := d.slots[p].(joined := true, out := Some(c))], d.chans[c := NewChan(capacity)], d.joinedCount + 1,
         d.gauge + 1)
  }

  lemma JoinAdmits(cfg: MatchConfig, slots: Slots, bySession: map<Token, ID>, everJoined: set<ID>, token: Token,
                   s: Slot)
    requires Minted(cfg.players) && Admits(cfg, slots, bySession, everJoined) && Reserved(cfg, slots, everJoined)
             && SlotsOK(slots)
    requires token in bySession && SlotOK(s)
    ensures var p := bySession[token];
            && Admits(cfg, slots[p := s], bySession - {token}, everJoined + {p})
            && Reserved(cfg, slots[p := s], everJoined + {p}) && SlotsOK(slots[p := s])
  {
    var p := bySession[token];
    forall t | t in bySession && t != token
      ensures bySession[t] != p
    {
      if bySession[t] == p { OneOwner(cfg.players, t, p, token, p); }
    }
    hide Owns, Minted;
  }

  lemma JoinReady(cfg: MatchConfig, d: Desk, bySession: map<Token, ID>, everJoined: set<ID>, token: Token, c: ChanID,
                  capacity: nat)
    requires Ready(cfg, WaitingForJoins, None, d, bySession, map[], everJoined) && token in bySession && c !in d.chans
    ensures var p := bySession[token];
            && p in d.slots && !d.slots[p].joined && p !in everJoined
            && Ready(cfg, WaitingForJoins, None, Seated(d, p, c, capacity),
                     bySession - {token}, map[], everJoined + {p})
  {
    var p := bySession[token];
    var s := d.slots[p].(joined := true, out := Some(c));
    assert SlotOK(d.slots[p]);
    assert s == d.slots[p].(joined := true, out := Some(c), dc := false, deadline := 0) && SlotOK(s);
    hide Base, Owns, Admits, Reserved, SlotsOK, Minted;
    BindBase(d, p, c, capacity);
    JoinAdmits(cfg, d.slots, bySession, everJoined, token, s);
  }

  /** The slot is bound to its first and only fresh channel, and told so; its token is used up. */
  method JoinSlot(cfg: MatchConfig, d0: Desk, bySession0: map<Token, ID>, ghost ever0: set<ID>, token: Token, c: ChanID,
                  capacity: nat)
    returns (d: Desk, bySession: map<Token, ID>, ghost everJoined: set<ID>, p: ID)
    requires Ready(cfg, WaitingForJoins, None, d0, bySession0, map[], ever0) && token in bySession0 && c !in d0.chans
    ensures p == bySession0[token] && p !in ever0 && everJoined == ever0 + {p} && bySession == bySession0 - {token}
    ensures Ready(cfg, WaitingForJoins, None, d, bySession, map[], everJoined)
    ensures Quiet(d0.chans, d.chans) && d.slots.Keys == d0.slots.Keys && p in d.slots
    ensures p in d0.slots && Delivered(Seated(d0, p, c, capacity), d, Only(p, [Joined(p)]))
  {
    JoinReady(cfg, d0, bySession0, ever0, token, c, capacity);
    p := bySession0[token];
    d := Seated(d0, p, c, capacity);
    bySession, everJoined := bySession0 - {token}, ever0 + {p};
    assert Quiet(d0.chans, d.chans);
    ghost var bound := d;
    ReadyBase(cfg, WaitingForJoins, None, d, bySession, map[], everJoined);
    hide Ready, Base, Weathered, Quiet, Delivered;
    d := SendTo(d, p, Joined(p));
    SentReady(cfg, WaitingForJoins, None, bound, d, bySession, map[], everJoined, Only(p, [Joined(p)]));
    QuietMore(d0.chans, bound.chans, d.chans);
  }

  lemma ReadyBase(cfg: MatchConfig, state: State, sim: Option<nat>, d: Desk, bySession: map<Token, ID>,
                  dcTokens: map<Token, ID>, everJoined: set<ID>)
    requires Ready(cfg, state, sim, d, bySession, dcTokens, everJoined)
    ensures Base(d) && (state != Ended ==> Sound(d) && Minted(cfg.players)) && (state == Live ==> sim.Some?)
  {
  }

  // ---- disconnect grace ----

  function Dark(s: Slot, deadline: nat): Slot { s.(dc := true, deadline := deadline, out := None) }

  /** Replacing one slot of a player who has joined. */
  lemma OneSlotRunning(cfg: MatchConfig, slots: Slots, bySession: map<Token, ID>, everJoined: set<ID>, p: ID, s: Slot)
    requires Admits(cfg, slots, bySession, everJoined) && Reserved(cfg, slots, everJoined) && SlotsOK(slots)
    requires p in slots && slots[p].joined && SlotOK(s)
    ensures Admits(cfg, slots[p := s], bySession, everJoined) && Reserved(cfg, slots[p := s], everJoined)
            && SlotsOK(slots[p := s])
  {
    hide Owns;
  }

  lemma DarkGraced(cfg: MatchConfig, slots: Slots, dcTokens: map<Token, ID>, now: nat, p: ID, t: Token)
    requires Graced(cfg, slots, dcTokens, now) && p in slots && Minted(cfg.players)
    requires if t != "" then Owns(cfg.players, t, p) else forall u :: !Owns(cfg.players, u, p)
    ensures Graced(cfg, slots[p := Dark(slots[p], now + Grace(cfg))], if t != "" then dcTokens[t := p] else dcTokens,
                   now)
  {
    forall u | Owns(cfg.players, u, p)
      ensures u == t
    {
      OneOwner(cfg.players, u, p, t, p);
    }
    hide Owns, Minted;
  }

  lemma DarkRunning(cfg: MatchConfig, d: Desk, bySession: map<Token, ID>, everJoined: set<ID>, p: ID, deadline: nat)
    requires Running(cfg, d, bySession, everJoined) && p in d.slots && d.slots[p].joined
    ensures Running(cfg, d.(slots := d.slots[p := Dark(d.slots[p], deadline)]), bySession, everJoined)
  {
    var s := Dark(d.slots[p], deadline);
    assert SlotOK(d.slots[p]) && SlotOK(s);
    hide Base, Admits, Reserved, SlotsOK, Minted;
    BaseUpdate(d, p, s, d.(slots := d.slots[p := s]));
    OneSlotRunning(cfg, d.slots, bySession, everJoined, p, s);
  }

  lemma DarkWarm(cfg: MatchConfig, d: Desk, bySession: map<Token, ID>, everJoined: set<ID>, p: ID)
    requires Ready(cfg, WaitingForJoins, None, d, bySession, map[], everJoined) && p in d.slots && d.slots[p].joined
    ensures Ready(cfg, WaitingForJoins, None, d.(slots := d.slots[p := Dark(d.slots[p], 0)]), bySession, map[],
                  everJoined)
  {
    hide Running;
    DarkRunning(cfg, d, bySession, everJoined, p, 0);
  }

  lemma DarkLive(cfg: MatchConfig, now: nat, d: Desk, bySession: map<Token, ID>, dcTokens: map<Token, ID>,
                 everJoined: set<ID>, p: ID, t: Token)
    requires Ready(cfg, Live, Some(now), d, bySession, dcTokens, everJoined) && p in d.slots && d.slots[p].joined
    requires if t != "" then Owns(cfg.players, t, p) else forall u :: !Owns(cfg.players, u, p)
    ensures Ready(cfg, Live, Some(now), d.(slots := d.slots[p := Dark(d.slots[p], now + Grace(cfg))]), bySession,
                  if t != "" then dcTokens[t := p] else dcTokens, everJoined)
  {
    assert Minted(cfg.players);
    hide Running, Graced, Minted, Owns, Grace, Dark;
    DarkRunning(cfg, d, bySession, everJoined, p, now + Grace(cfg));
    DarkGraced(cfg, d.slots, dcTokens, now, p, t);
  }

  /** A dropped connection: the slot keeps its place without a channel, and everyone else is told. */
  method GoDark(cfg: MatchConfig, state: State, sim: Option<nat>, d0: Desk, ghost bySession: map<Token, ID>,
                dcTokens0: map<Token, ID>, ghost everJoined: set<ID>, p: ID)
    returns (d: Desk, dcTokens: map<Token, ID>)
    requires Ready(cfg, state, sim, d0, bySession, dcTokens0, everJoined) && state != Ended
    requires state == WaitingForJoins ==> sim == None && dcTokens0 == map[]
    requires p in d0.slots && d0.slots[p].joined && !d0.slots[p].dc
    ensures Ready(cfg, state, sim, d, bySession, dcTokens, everJoined)
    ensures p in d.slots && d.slots[p] == Dark(d0.slots[p], if state == Live then sim.value + Grace(cfg) else 0)
    ensures state == WaitingForJoins ==> dcTokens == dcTokens0
    ensures Quiet(d0.chans, d.chans) && d.slots.Keys == d0.slots.Keys
    ensures Delivered(d0.(slots := d0.slots[p := Dark(d0.slots[p], if state == Live then sim.value + Grace(cfg)
                                                                   else 0)]), d, Everyone([Disconnected(p)]))
  {
    hide *;
    ReadyBase(cfg, state, sim, d0, bySession, dcTokens0, everJoined);
    var t := TokenFor(cfg.players, p);
    var deadline := 0;
    dcTokens := dcTokens0;
    if state == Live {
      DarkLive(cfg, sim.value, d0, bySession, dcTokens0, everJoined, p, t);
      deadline := sim.value + Grace(cfg);
      if t != "" {
        dcTokens := dcTokens0[t := p];
      }
    } else {
      DarkWarm(cfg, d0, bySession, everJoined, p);
    }
    d := d0.(slots := d0.slots[p := Dark(d0.slots[p], deadline)]);
    ghost var dark := d;
    DarkOut(d0.slots[p], deadline);
    ReadyBase(cfg, state, sim, d, bySession, dcTokens, everJoined);
    d := Broadcast(d, Disconnected(p));
    WeatheredReady(cfg, state, sim, dark, d, bySession, dcTokens, everJoined);
    Unbound(dark.slots, d.slots, p);
  }

  lemma DarkOut(s: Slot, deadline: nat)
    ensures Dark(s, deadline).out.None?
  {
  }

  /** A slot without a channel weathers anything unchanged. */
  lemma Unbound(a: Slots, b: Slots, p: ID)
    requires Weathered(a, b) && p in a && a[p].out.None?
    ensures a.Keys == b.Keys && b[p] == a[p]
  {
  }

  lemma LitGraced(cfg: MatchConfig, slots: Slots, dcTokens: map<Token, ID>, now: nat, token: Token, s: Slot)
    requires Graced(cfg, slots, dcTokens, now) && token in dcTokens && Minted(cfg.players) && !s.dc
    ensures dcTokens[token] in slots && slots[dcTokens[token]].dc && now < slots[dcTokens[token]].deadline
    ensures Graced(cfg, slots[dcTokens[token] := s], dcTokens - {token}, now)
  {
    var p := dcTokens[token];
    forall t | t in dcTokens && t != token
      ensures dcTokens[t] != p
    {
      if dcTokens[t] == p { OneOwner(cfg.players, t, p, token, p); }
    }
    forall t, q | q in slots && q != p && slots[q].dc && Owns(cfg.players, t, q)
      ensures t in dcTokens && t != token
    {
      if t == token { OneOwner(cfg.players, t, q, token, p); }
    }
    hide Owns, Minted;
  }

  function Lit(s: Slot, c: ChanID): Slot { s.(dc := false, deadline := 0, out := Some(c)) }

  lemma RebindReady(cfg: MatchConfig, now: nat, d: Desk, bySession: map<Token, ID>, dcTokens: map<Token, ID>,
                    everJoined: set<ID>, token: Token, c: ChanID, capacity: nat)
    requires Ready(cfg, Live, Some(now), d, bySession, dcTokens, everJoined) && token in dcTokens && c !in d.chans
    ensures dcTokens[token] in d.slots && d.slots[dcTokens[token]].dc && now < d.slots[dcTokens[token]].deadline
    ensures Ready(cfg, Live, Some(now),
                  d.(slots := d.slots[dcTokens[token] := Lit(d.slots[dcTokens[token]], c)],
                     chans := d.chans[c := NewChan(capacity)]),
                  bySession, dcTokens - {token}, everJoined)
  {
    var p := dcTokens[token];
    var s := Lit(d.slots[p], c);
    LitGraced(cfg, d.slots, dcTokens, now, token, s);
    assert SlotOK(d.slots[p]) && SlotOK(s);
    assert s == d.slots[p].(joined := true, out := Some(c), dc := false, deadline := 0);
    hide Base, Owns, Minted, Admits, Reserved, SlotsOK, Graced;
    BindBase(d, p, c, capacity);
    OneSlotRunning(cfg, d.slots, bySession, everJoined, p, s);
  }

  lemma QuietNew(chans: map<ChanID, Chan>, c: ChanID, capacity: nat)
    requires c !in chans
    ensures Quiet(chans, chans[c := NewChan(capacity)])
  {
  }

  /** A returning connection takes over its slot and gets the full picture; its token is used up. */
  method Rebind(cfg: MatchConfig, now: nat, d0: Desk, ghost bySession: map<Token, ID>, dcTokens0: map<Token, ID>,
                ghost everJoined: set<ID>, token: Token, c: ChanID, capacity: nat)
    returns (d: Desk, dcTokens: map<Token, ID>)
    requires Ready(cfg, Live, Some(now), d0, bySession, dcTokens0, everJoined) && token in dcTokens0 && c !in d0.chans
    requires dcTokens0[token] in d0.slots
    ensures Ready(cfg, Live, Some(now), d, bySession, dcTokens, everJoined)
    ensures dcTokens == dcTokens0 - {token} && Quiet(d0.chans, d.chans) && d.slots.Keys == d0.slots.Keys
    ensures dcTokens0[token] in d.slots && !d.slots[dcTokens0[token]].dc
    ensures Delivered(LitDesk(d0, dcTokens0[token], c, capacity), d, Return(dcTokens0[token], now))
  {
    hide *;
    var p := dcTokens0[token];
    RebindReady(cfg, now, d0, bySession, dcTokens0, everJoined, token, c, capacity);
    d := d0.(slots := d0.slots[p := Lit(d0.slots[p], c)], chans := d0.chans[c := NewChan(capacity)]);
    LitDeskIs(d0, p, c, capacity);
    dcTokens := dcTokens0 - {token};
    QuietNew(d0.chans, c, capacity);
    ghost var lit := d;
    ReadyBase(cfg, Live, Some(now), d, bySession, dcTokens, everJoined);
    var first := [Resync(now), MapInit, Snapshot(p), Scoreboard];
    d := SendAll(d, p, first);
    SentReady(cfg, Live, Some(now), lit, d, bySession, dcTokens, everJoined, Only(p, first));
    ReadyBase(cfg, Live, Some(now), d, bySession, dcTokens, everJoined);
    QuietMore(d0.chans, lit.chans, d.chans);
    ghost var sent := d;
    SameKeys(lit.slots, sent.slots);
    d := Broadcast(d, Rejoined(p));
    WeatheredReady(cfg, Live, Some(now), sent, d, bySession, dcTokens, everJoined);
    QuietMore(d0.chans, sent.chans, d.chans);
    SameKeys(sent.slots, d.slots);
    ReturnIs(p, now);
    DeliveredMore(lit, sent, d, Only(p, first), Everyone([Rejoined(p)]), Return(p, now));
    LitNotDark(d0.slots[p], c);
    NotDark(lit.slots, sent.slots, p);
    NotDark(sent.slots, d.slots, p);
  }

  function LitDesk(d: Desk, p: ID, c: ChanID, capacity: nat): Desk
    requires p in d.slots
  {
    d.(slots := d.slots[p := Lit(d.slots[p], c)], chans := d.chans[c := NewChan(capacity)])
  }

  lemma LitDeskIs(d: Desk, p: ID, c: ChanID, capacity: nat)
    requires p in d.slots
    ensures LitDesk(d, p, c, capacity) == d.(slots := d.slots[p := Lit(d.slots[p], c)],
                                             chans := d.chans[c := NewChan(capacity)])
  {
  }

  /** The one who is back gets where things stand; everyone hears of it. */
  function Return(p: ID, now: nat): Script {
    (q: ID) => if q == p then [Resync(now), MapInit, Snapshot(p), Scoreboard, Rejoined(p)] else [Rejoined(p)]
  }

  lemma ReturnIs(p: ID, now: nat)
    ensures forall q: ID ::
              Return(p, now)(q) == Only(p, [Resync(now), MapInit, Snapshot(p), Scoreboard])(q) +
                Everyone([Rejoined(p)])(q)
  {
  }

  lemma LitNotDark(s: Slot, c: ChanID)
    ensures !Lit(s, c).dc
  {
  }

  lemma NotDark(a: Slots, b: Slots, p: ID)
    requires Weathered(a, b) && p in a
    ensures p in b && b[p].dc == a[p].dc
  {
  }

  // ---- a tick ----

  /** Grace as a tick finds it: deadlines may have come, except among the slots already looked at. */
  ghost predicate Closing(cfg: MatchConfig, slots: Slots, dcTokens: map<Token, ID>, now: nat, todo: set<ID>) {
    && (forall t | t in dcTokens :: Owns(cfg.players, t, dcTokens[t]) && dcTokens[t] in slots && slots[dcTokens[t]].dc)
    && (forall t, p | p in slots && slots[p].dc && Owns(cfg.players, t, p) :: t in dcTokens)
    && (forall p | p in slots && slots[p].dc ::
          now <= slots[p].deadline && slots[p].deadline != 0 && (p !in todo ==> now < slots[p].deadline))
  }

  lemma WeatheredClosing(cfg: MatchConfig, a: Slots, b: Slots, dcTokens: map<Token, ID>, now: nat, todo: set<ID>)
    requires Weathered(a, b) && Closing(cfg, a, dcTokens, now, todo)
    ensures Closing(cfg, b, dcTokens, now, todo)
  {
    forall p | p in a
      ensures b[p].dc == a[p].dc && b[p].deadline == a[p].deadline
    {
    }
    hide Owns;
  }

  /** What a tick keeps until its end. */
  ghost predicate Ticking(cfg: MatchConfig, d: Desk, bySession: map<Token, ID>, dcTokens: map<Token, ID>,
                          everJoined: set<ID>, now: nat, todo: set<ID>) {
    Running(cfg, d, bySession, everJoined) && Closing(cfg, d.slots, dcTokens, now, todo)
  }

  lemma WeatheredTicking(cfg: MatchConfig, a: Desk, b: Desk, bySession: map<Token, ID>, dcTokens: map<Token, ID>,
                         everJoined: set<ID>, now: nat, todo: set<ID>)
    requires Ticking(cfg, a, bySession, dcTokens, everJoined, now, todo) && Base(b) && Weathered(a.slots, b.slots)
    ensures Ticking(cfg, b, bySession, dcTokens, everJoined, now, todo)
  {
    WeatheredOK(a.slots, b.slots);
    WeatheredAdmits(cfg, a.slots, b.slots, bySession, everJoined);
    WeatheredClosing(cfg, a.slots, b.slots, dcTokens, now, todo);
  }

  lemma StartTicking(cfg: MatchConfig, d: Desk, bySession: map<Token, ID>, dcTokens: map<Token, ID>,
                     everJoined: set<ID>, now: nat)
    requires Ready(cfg, Live, Some(now), d, bySession, dcTokens, everJoined)
    ensures Ticking(cfg, d, bySession, dcTokens, everJoined, now + 1, d.slots.Keys)
  {
  }

  lemma DoneTicking(cfg: MatchConfig, d: Desk, bySession: map<Token, ID>, dcTokens: map<Token, ID>, everJoined: set<ID>,
                    now: nat)
    requires Ticking(cfg, d, bySession, dcTokens, everJoined, now, {})
    ensures Ready(cfg, Live, Some(now), d, bySession, dcTokens, everJoined)
  {
  }

  lemma TickingBase(cfg: MatchConfig, d: Desk, bySession: map<Token, ID>, dcTokens: map<Token, ID>, everJoined: set<ID>,
                    now: nat, todo: set<ID>)
    requires Ticking(cfg, d, bySession, dcTokens, everJoined, now, todo)
    ensures Base(d) && Sound(d) && Minted(cfg.players)
  {
  }

  /** Only dead-cam marks differ. */
  ghost predicate SameButCam(a: Slots, b: Slots) {
    a.Keys == b.Keys && forall p | p in a :: b[p] == a[p].(deadCam := b[p].deadCam)
  }

  lemma CamRunning(cfg: MatchConfig, a: Slots, b: Slots, bySession: map<Token, ID>, everJoined: set<ID>)
    requires Admits(cfg, a, bySession, everJoined) && Reserved(cfg, a, everJoined) && SlotsOK(a) && SameButCam(a, b)
    ensures Admits(cfg, b, bySession, everJoined) && Reserved(cfg, b, everJoined) && SlotsOK(b)
  {
    assert forall p | p in b :: SlotOK(a[p]) && SlotOK(b[p]);
    hide Owns;
  }

  lemma CamClosing(cfg: MatchConfig, a: Slots, b: Slots, dcTokens: map<Token, ID>, now: nat, todo: set<ID>)
    requires Closing(cfg, a, dcTokens, now, todo) && SameButCam(a, b)
    ensures Closing(cfg, b, dcTokens, now, todo)
  {
    hide Owns;
  }

  lemma CamTicking(cfg: MatchConfig, d: Desk, b: Slots, bySession: map<Token, ID>, dcTokens: map<Token, ID>,
                   everJoined: set<ID>, now: nat, todo: set<ID>)
    requires Ticking(cfg, d, bySession, dcTokens, everJoined, now, todo) && SameButCam(d.slots, b)
    ensures Ticking(cfg, d.(slots := b), bySession, dcTokens, everJoined, now, todo)
  {
    hide Base, Owns, Minted, Admits, Reserved, SlotsOK, Closing, SameButCam;
    CamBase(d, b);
    CamRunning(cfg, d.slots, b, bySession, everJoined);
    CamClosing(cfg, d.slots, b, dcTokens, now, todo);
  }

  lemma CamBase(d: Desk, b: Slots)
    requires Base(d) && SameButCam(d.slots, b)
    ensures Base(d.(slots := b))
  {
    SameJoined(d.slots, b);
    forall q | q in b && b[q].out.Some?
      ensures Bound(d.(slots := b), b[q])
    {
      assert Bound(d, d.slots[q]);
    }
  }

  lemma SameJoined(a: Slots, b: Slots)
    requires SameButCam(a, b)
    ensures JoinedSet(a) == JoinedSet(b)
  {
  }

  /** Joined slots whose player is out of lives watch from now on. */
  method MarkDeadCams(slots0: Slots, eliminated: set<ID>) returns (slots: Slots)
    ensures SameButCam(slots0, slots)
    ensures forall p | p in slots :: slots[p].deadCam <==> slots0[p].deadCam || (slots0[p].joined && p in eliminated)
  {
    slots := slots0;
    var todo := slots.Keys;
    while todo != {}
      invariant SameButCam(slots0, slots) && todo <= slots.Keys
      invariant forall p | p in slots ::
                  slots[p].deadCam <==> slots0[p].deadCam || (p !in todo && slots0[p].joined && p in eliminated)
      decreases todo
    {
      var p :| p in todo;
      todo := todo - {p};
      if slots[p].joined && !slots[p].deadCam && p in eliminated {
        slots := slots[p := slots[p].(deadCam := true)];
      }
    }
  }

  lemma GoneClosing(cfg: MatchConfig, slots: Slots, dcTokens: map<Token, ID>, now: nat, todo: set<ID>, p: ID)
    requires Closing(cfg, slots, dcTokens, now, todo) && p in slots && Minted(cfg.players)
    ensures Closing(cfg, slots - {p}, map t | t in dcTokens && dcTokens[t] != p :: dcTokens[t], now, todo - {p})
  {
    forall t, q | q in slots && q != p && slots[q].dc && Owns(cfg.players, t, q)
      ensures t in dcTokens && dcTokens[t] != p
    {
      if dcTokens[t] == p { OneOwner(cfg.players, t, q, t, p); }
    }
    hide Owns, Minted;
  }

  lemma GoneRunning(cfg: MatchConfig, slots: Slots, bySession: map<Token, ID>, everJoined: set<ID>, p: ID)
    requires Admits(cfg, slots, bySession, everJoined) && Reserved(cfg, slots, everJoined) && SlotsOK(slots)
             && p in slots && p in everJoined
    ensures Admits(cfg, slots - {p}, bySession, everJoined) && Reserved(cfg, slots - {p}, everJoined)
            && SlotsOK(slots - {p})
  {
    hide Owns;
  }

  lemma GoneBase(d: Desk, p: ID)
    requires Base(d) && p in d.slots && d.slots[p].joined
    ensures Base(d.(slots := d.slots - {p}, joinedCount := d.joinedCount - 1, gauge := d.gauge - 1))
  {
    LoseOne(d.slots, p);
    var d' := d.(slots := d.slots - {p}, joinedCount := d.joinedCount - 1, gauge := d.gauge - 1);
    forall q | q in d'.slots && d'.slots[q].out.Some?
      ensures Bound(d', d'.slots[q])
    {
      assert Bound(d, d.slots[q]);
    }
  }

  function Forgotten(dcTokens: map<Token, ID>, p: ID): map<Token, ID> {
    map t | t in dcTokens && dcTokens[t] != p :: dcTokens[t]
  }

  lemma GoneTicking(cfg: MatchConfig, d: Desk, bySession: map<Token, ID>, dcTokens: map<Token, ID>, everJoined: set<ID>,
                    now: nat, todo: set<ID>, p: ID)
    requires Ticking(cfg, d, bySession, dcTokens, everJoined, now, todo) && p in d.slots && d.slots[p].dc
    ensures d.slots[p].joined
    ensures Ticking(cfg, d.(slots := d.slots - {p}, joinedCount := d.joinedCount - 1, gauge := d.gauge - 1),
                    bySession, Forgotten(dcTokens, p), everJoined, now, todo - {p})
  {
    assert SlotOK(d.slots[p]);
    assert p in everJoined;
    hide Base, Owns, Minted, Admits, Reserved, SlotsOK, Closing;
    GoneBase(d, p);
    GoneRunning(cfg, d.slots, bySession, everJoined, p);
    GoneClosing(cfg, d.slots, dcTokens, now, todo, p);
  }

  ghost predicate SameGrace(a: Slots, b: Slots) {
    a.Keys == b.Keys && forall p | p in a :: b[p].dc == a[p].dc && b[p].deadline == a[p].deadline
  }

  lemma WeatheredGrace(a: Slots, b: Slots, p: ID)
    requires Weathered(a, b)
    ensures SameGrace(a - {p}, b - {p})
  {
  }

  /** The slots still here, of which those not in todo have been looked at. */
  ghost predicate Pruned(slots0: Slots, todo: set<ID>, slots: Slots, now: nat) {
    && todo <= slots.Keys <= slots0.Keys
    && (forall p | p in slots :: slots[p].dc == slots0[p].dc && slots[p].deadline == slots0[p].deadline)
    && (forall p | p in slots0 && p !in slots :: slots0[p].dc && now >= slots0[p].deadline)
    && (forall p | p in slots && p !in todo :: !(slots0[p].dc && now >= slots0[p].deadline))
  }

  lemma PrunedDrop(slots0: Slots, todo: set<ID>, slots: Slots, now: nat, p: ID, slots': Slots)
    requires Pruned(slots0, todo, slots, now) && p in todo && SameGrace(slots - {p}, slots') && slots[p].dc
             && now >= slots[p].deadline
    ensures Pruned(slots0, todo - {p}, slots', now)
  {
  }

  lemma PrunedKeep(slots0: Slots, todo: set<ID>, slots: Slots, now: nat, p: ID)
    requires Pruned(slots0, todo, slots, now) && p in todo && !(slots[p].dc && now >= slots[p].deadline)
    ensures Pruned(slots0, todo - {p}, slots, now)
  {
  }

  lemma PrunedHas(slots0: Slots, todo: set<ID>, slots: Slots, now: nat, p: ID)
    requires Pruned(slots0, todo, slots, now) && p in todo
    ensures p in slots && p in slots0 && slots[p].dc == slots0[p].dc
  {
  }

  lemma PrunedStart(slots: Slots, now: nat)
    ensures Pruned(slots, slots.Keys, slots, now)
  {
  }

  lemma PrunedEnd(slots0: Slots, slots: Slots, now: nat)
    requires Pruned(slots0, {}, slots, now)
    ensures forall p | p in slots0 :: p in slots <==> !(slots0[p].dc && now >= slots0[p].deadline)
  {
  }

  /** The grace is over: everyone is told, the token dies with the slot, and the counters let go of it. */
  method DropDCSlot(cfg: MatchConfig, d0: Desk, ghost bySession: map<Token, ID>, dcTokens0: map<Token, ID>,
                    ghost everJoined: set<ID>, ghost now: nat, ghost todo: set<ID>, p: ID)
    returns (d: Desk, dcTokens: map<Token, ID>)
    requires Ticking(cfg, d0, bySession, dcTokens0, everJoined, now, todo) && p in d0.slots && d0.slots[p].dc
             && d0.slots[p].out.None?
    ensures Ticking(cfg, d, bySession, dcTokens, everJoined, now, todo - {p})
    ensures Quiet(d0.chans, d.chans) && SameGrace(d0.slots - {p}, d.slots) && dcTokens == Forgotten(dcTokens0, p)
    ensures Delivered(Without(d0, {p}), d, Everyone([Left(p)]))
  {
    hide *;
    TickingBase(cfg, d0, bySession, dcTokens0, everJoined, now, todo);
    d := Broadcast(d0, Left(p));
    WithoutUnbound(d0, d, p, Everyone([Left(p)]));
    WithoutIs(d, {p});
    ghost var told := Without(d, {p});
    WeatheredGrace(d0.slots, d.slots, p);
    WeatheredTicking(cfg, d0, d, bySession, dcTokens0, everJoined, now, todo);
    Unbound(d0.slots, d.slots, p);
    GoneTicking(cfg, d, bySession, dcTokens0, everJoined, now, todo, p);
    dcTokens := Forgotten(dcTokens0, p);
    d := d.(slots := d.slots - {p}, joinedCount := d.joinedCount - 1, gauge := d.gauge - 1);
    DeliveredOn(Without(d0, {p}), told, Without(d0, {p}), d, Everyone([Left(p)]));
  }

  /** The desk without some of its slots. */
  ghost function Without(d: Desk, gone: set<ID>): Desk {
    Desk(d.slots - gone, d.chans, |JoinedSet(d.slots - gone)|, |JoinedSet(d.slots - gone)|)
  }

  lemma WithoutIs(d: Desk, gone: set<ID>)
    requires Base(d)
    ensures Without(d, gone).slots == d.slots - gone && Without(d, gone).chans == d.chans && Base(Without(d, gone))
  {
    var w := Without(d, gone);
    forall p | p in w.slots && w.slots[p].out.Some?
      ensures Bound(w, w.slots[p])
    {
      assert Bound(d, d.slots[p]);
    }
  }

  lemma WithoutMore(d: Desk, gone: set<ID>, p: ID)
    ensures Without(Without(d, gone), {p}) == Without(d, gone + {p})
  {
    assert d.slots - gone - {p} == d.slots - (gone + {p});
  }

  /** A slot without a channel plays no part in a delivery. */
  lemma WithoutUnbound(a: Desk, b: Desk, p: ID, f: Script)
    requires Delivered(a, b, f) && p in a.slots && a.slots[p].out.None?
    ensures Delivered(Without(a, {p}), Without(b, {p}), f)
  {
    var a', b' := Without(a, {p}), Without(b, {p});
    forall q | q in a'.slots
      ensures Got(a', b', q, f(q))
    {
      assert Got(a, b, q, f(q));
    }
    forall c | c in a'.chans && !BoundTo(a'.slots, c)
      ensures !BoundTo(a.slots, c)
    {
      forall q | q in a.slots
        ensures a.slots[q].out != Some(c)
      {
        assert q != p ==> a'.slots[q] == a.slots[q];
      }
    }
  }

  /** Who left, in order. */
  function Lefts(gone: seq<ID>): seq<Frame> { seq(|gone|, i requires 0 <= i < |gone| => Left(gone[i])) }

  function SetOf(s: seq<ID>): set<ID> { set p | p in s }

  lemma OneMoreGone(gone: seq<ID>, p: ID)
    requires NoRepeat(gone) && p !in gone
    ensures NoRepeat(gone + [p]) && SetOf(gone + [p]) == SetOf(gone) + {p}
    ensures forall q: ID :: Everyone(Lefts(gone + [p]))(q) == Everyone(Lefts(gone))(q) + Everyone([Left(p)])(q)
  {
    assert Lefts(gone + [p]) == Lefts(gone) + [Left(p)];
  }

  lemma NobodyGone(d: Desk)
    requires Base(d)
    ensures Delivered(Without(d, SetOf([])), d, Everyone(Lefts([]))) && NoRepeat<ID>([])
  {
    DeliveredNothing(d, Everyone(Lefts([])));
    assert d.slots - SetOf([]) == d.slots;
    DeliveredOn(d, d, Without(d, SetOf([])), d, Everyone(Lefts([])));
  }

  /** One more slot gone, everyone told. */
  lemma SweptOne(d0: Desk, d: Desk, d': Desk, gone: seq<ID>, p: ID)
    requires Base(d0) && NoRepeat(gone) && p in d0.slots && d0.slots[p].out.None? && p !in gone
    requires Delivered(Without(d0, SetOf(gone)), d, Everyone(Lefts(gone)))
             && Delivered(Without(d, {p}), d', Everyone([Left(p)]))
    ensures NoRepeat(gone + [p]) && Delivered(Without(d0, SetOf(gone + [p])), d', Everyone(Lefts(gone + [p])))
  {
    hide Delivered, Base;
    var g := SetOf(gone);
    var base := Without(d0, g);
    OneMoreGone(gone, p);
    WithoutIs(d0, g);
    WithoutUnbound(base, d, p, Everyone(Lefts(gone)));
    WithoutMore(d0, g, p);
    WithoutIs(d0, g + {p});
    DeliveredMore(Without(d0, g + {p}), Without(d, {p}), d', Everyone(Lefts(gone)), Everyone([Left(p)]),
                  Everyone(Lefts(gone + [p])));
  }

  lemma DarkUnbound(cfg: MatchConfig, d: Desk, bySession: map<Token, ID>, dcTokens: map<Token, ID>, everJoined: set<ID>,
                    now: nat, todo: set<ID>, p: ID)
    requires Ticking(cfg, d, bySession, dcTokens, everJoined, now, todo) && p in d.slots && d.slots[p].dc
    ensures d.slots[p].out.None? && d.slots[p].deadline != 0
  {
    assert SlotOK(d.slots[p]);
  }

  lemma StillGraced(cfg: MatchConfig, d: Desk, bySession: map<Token, ID>, dcTokens: map<Token, ID>, everJoined: set<ID>,
                    now: nat, todo: set<ID>, p: ID)
    requires Ticking(cfg, d, bySession, dcTokens, everJoined, now, todo) && p in d.slots
             && (d.slots[p].dc ==> now < d.slots[p].deadline)
    ensures Ticking(cfg, d, bySession, dcTokens, everJoined, now, todo - {p})
  {
  }

  /** Every slot whose deadline has come is dropped, and only those. */
  method DropExpired(cfg: MatchConfig, d0: Desk, ghost bySession: map<Token, ID>, dcTokens0: map<Token, ID>,
                     ghost everJoined: set<ID>, now: nat)
    returns (d: Desk, dcTokens: map<Token, ID>, gone: seq<ID>)
    requires Ticking(cfg, d0, bySession, dcTokens0, everJoined, now, d0.slots.Keys)
    ensures Ready(cfg, Live, Some(now), d, bySession, dcTokens, everJoined) && Quiet(d0.chans, d.chans)
    ensures forall p | p in d0.slots :: p in d.slots <==> !(d0.slots[p].dc && now >= d0.slots[p].deadline)
    ensures NoRepeat(gone) && Delivered(Without(d0, SetOf(gone)), d, Everyone(Lefts(gone)))
    ensures forall p :: p in gone <==> p in d0.slots && p !in d.slots
  {
    d, dcTokens, gone := d0, dcTokens0, [];
    var todo := d.slots.Keys;
    hide *;
    TickingBase(cfg, d, bySession, dcTokens, everJoined, now, todo);
    NobodyGone(d);
    QuietSame(d.chans);
    PrunedStart(d.slots, now);
    while todo != {}
      invariant Ticking(cfg, d, bySession, dcTokens, everJoined, now, todo) && Quiet(d0.chans, d.chans)
      invariant Pruned(d0.slots, todo, d.slots, now)
      invariant NoRepeat(gone) && Delivered(Without(d0, SetOf(gone)), d, Everyone(Lefts(gone)))
      invariant forall p :: p in gone <==> p in d0.slots && p !in d.slots
      decreases todo
    {
      var p :| p in todo;
      PrunedHas(d0.slots, todo, d.slots, now, p);
      var was := d;
      d, dcTokens := LookAt(cfg, d, bySession, dcTokens, everJoined, now, todo, p);
      QuietMore(d0.chans, was.chans, d.chans);
      if was.slots[p].dc && now >= was.slots[p].deadline {
        PrunedDrop(d0.slots, todo, was.slots, now, p, d.slots);
        SoundDark(d0, p);
        SweptOne(d0, was, d, gone, p);
        SameGraceKeys(was.slots - {p}, d.slots);
        gone := gone + [p];
      } else {
        PrunedKeep(d0.slots, todo, was.slots, now, p);
      }
      todo := todo - {p};
    }
    PrunedEnd(d0.slots, d.slots, now);
    DoneTicking(cfg, d, bySession, dcTokens, everJoined, now);
  }

  lemma SoundDark(d: Desk, p: ID)
    requires Sound(d) && p in d.slots && d.slots[p].dc
    ensures d.slots[p].out.None?
  {
    assert SlotOK(d.slots[p]);
  }

  /** One slot of the sweep. */
  method LookAt(cfg: MatchConfig, d0: Desk, ghost bySession: map<Token, ID>, dcTokens0: map<Token, ID>,
                ghost everJoined: set<ID>, now: nat, ghost todo: set<ID>, p: ID)
    returns (d: Desk, dcTokens: map<Token, ID>)
    requires Ticking(cfg, d0, bySession, dcTokens0, everJoined, now, todo) && p in d0.slots
    ensures Ticking(cfg, d, bySession, dcTokens, everJoined, now, todo - {p}) && Quiet(d0.chans, d.chans)
    ensures if d0.slots[p].dc && now >= d0.slots[p].deadline
            then SameGrace(d0.slots - {p}, d.slots) && Delivered(Without(d0, {p}), d, Everyone([Left(p)]))
            else d == d0
  {
    hide *;
    d, dcTokens := d0, dcTokens0;
    QuietSame(d.chans);
    var s := d.slots[p];
    if s.dc { DarkUnbound(cfg, d, bySession, dcTokens, everJoined, now, todo, p); }
    if s.dc && s.deadline != 0 && now >= s.deadline {
      d, dcTokens := DropDCSlot(cfg, d, bySession, dcTokens, everJoined, now, todo, p);
    } else {
      StillGraced(cfg, d, bySession, dcTokens, everJoined, now, todo, p);
    }
  }

  lemma QuietSame(chans: map<ChanID, Chan>)
    ensures Quiet(chans, chans)
  {
  }

  // ---- the actor ----

  /**
   What the simulation reports after one step: its events, every player's account, and what is left of the machine.
   */
  datatype Report = Report(ok: bool, events: nat, scoreboard: bool, scores: map<ID, E.PlayerScore>, liveGens: nat,
                           liveSnipes: nat)

  function Eliminated(r: Report): set<ID> {
    set p | p in r.scores && r.scores[p].eliminated
  }

  /** Everything between the simulation's step and the end-of-match check. */
  method RunTick(cfg: MatchConfig, d0: Desk, ghost bySession: map<Token, ID>, dcTokens0: map<Token, ID>,
                 ghost everJoined: set<ID>, now: nat, r: Report, overBudget0: bool)
    returns (d: Desk, dcTokens: map<Token, ID>, overBudget: bool, ghost sent: Desk, ghost cams: Slots,
             gone: seq<ID>)
    requires Ready(cfg, Live, Some(now), d0, bySession, dcTokens0, everJoined)
    ensures Ready(cfg, Live, Some(now + 1), d, bySession, dcTokens, everJoined) && Quiet(d0.chans, d.chans)
    ensures forall p | p in d0.slots :: p in d.slots <==> !(d0.slots[p].dc && now + 1 >= d0.slots[p].deadline)
    ensures overBudget == (overBudget0 && !SnapshotDue(now + 1))
    ensures Ran(d0, r, now + 1, overBudget0, sent, cams, gone, d)
  {
    hide *;
    StartTicking(cfg, d0, bySession, dcTokens0, everJoined, now);
    ghost var all := d0.slots.Keys;
    d := SendEvents(cfg, d0, bySession, dcTokens0, everJoined, now + 1, r.events);
    sent := d;
    var marked := MarkDeadCams(d.slots, Eliminated(r));
    cams := marked;
    CamTicking(cfg, d, cams, bySession, dcTokens0, everJoined, now + 1, all);
    CamGrace(d.slots, cams);
    d := d.(slots := marked);
    ghost var watched := d;
    GraceMore(d0.slots, sent.slots, d.slots);
    SameGraceKeys(d0.slots, d.slots);
    TickingBase(cfg, d, bySession, dcTokens0, everJoined, now + 1, all);
    d, dcTokens, gone := DropExpired(cfg, d, bySession, dcTokens0, everJoined, now + 1);
    QuietMore(d0.chans, sent.chans, d.chans);
    ghost var dropped := d;
    d, overBudget := Beat(cfg, d, bySession, dcTokens, everJoined, now + 1, r.scoreboard, overBudget0);
    QuietMore(d0.chans, dropped.chans, d.chans);
    ghost var snap := SnapshotDue(now + 1) && !overBudget0;
    BeatsAfter(gone, r.scoreboard, snap);
    WithoutIs(watched, SetOf(gone));
    DeliveredMore(Without(watched, SetOf(gone)), dropped, d, Everyone(Lefts(gone)), Beats([], r.scoreboard, snap),
                  Beats(gone, r.scoreboard, snap));
    RanIs(d0, r, now + 1, overBudget0, sent, cams, gone, d);
  }

  lemma RanIs(d0: Desk, r: Report, now: nat, late: bool, sent: Desk, cams: Slots, gone: seq<ID>, d: Desk)
    requires Delivered(d0, sent, Everyone(Events(r.events))) && SameButCam(sent.slots, cams)
             && SameGrace(d0.slots, cams)
    requires forall p | p in cams ::
               cams[p].deadCam <==> sent.slots[p].deadCam || (sent.slots[p].joined && p in Eliminated(r))
    requires NoRepeat(gone) && forall p :: p in gone <==> p in cams && cams[p].dc && now >= cams[p].deadline
    requires Delivered(Without(sent.(slots := cams), SetOf(gone)), d,
                       Beats(gone, r.scoreboard, SnapshotDue(now) && !late))
    ensures Ran(d0, r, now, late, sent, cams, gone, d)
  {
    hide Delivered;
  }

  lemma CamGrace(a: Slots, b: Slots)
    requires SameButCam(a, b)
    ensures SameGrace(a, b)
  {
  }

  lemma GraceMore(a: Slots, b: Slots, c: Slots)
    requires SameGrace(a, b) && SameGrace(b, c)
    ensures SameGrace(a, c)
  {
  }

  lemma SameGraceKeys(a: Slots, b: Slots)
    requires SameGrace(a, b)
    ensures a.Keys == b.Keys && forall p | p in a :: b[p].dc == a[p].dc && b[p].deadline == a[p].deadline
  {
  }

  lemma WeatheredSameGrace(a: Slots, b: Slots)
    requires Weathered(a, b)
    ensures SameGrace(a, b)
  {
  }

  /** The tick's events, each to everyone. */
  method SendEvents(cfg: MatchConfig, d0: Desk, ghost bySession: map<Token, ID>, ghost dcTokens: map<Token, ID>,
                    ghost everJoined: set<ID>, ghost now: nat, n: nat)
    returns (d: Desk)
    requires Ticking(cfg, d0, bySession, dcTokens, everJoined, now, d0.slots.Keys)
    ensures Ticking(cfg, d, bySession, dcTokens, everJoined, now, d0.slots.Keys)
    ensures Quiet(d0.chans, d.chans) && SameGrace(d0.slots, d.slots) && Delivered(d0, d, Everyone(Events(n)))
  {
    d := d0;
    hide *;
    TickingBase(cfg, d, bySession, dcTokens, everJoined, now, d0.slots.Keys);
    NoEvents();
    DeliveredNothing(d, Everyone(Events(0)));
    DeliveredQuiet(d, d, Everyone(Events(0)));
    WeatheredSameGrace(d.slots, d.slots);
    for i := 0 to n
      invariant Ticking(cfg, d, bySession, dcTokens, everJoined, now, d0.slots.Keys)
      invariant Quiet(d0.chans, d.chans) && SameGrace(d0.slots, d.slots) && Delivered(d0, d, Everyone(Events(i)))
    {
      TickingBase(cfg, d, bySession, dcTokens, everJoined, now, d0.slots.Keys);
      ghost var was := d;
      d := Broadcast(d, SimEvent);
      WeatheredTicking(cfg, was, d, bySession, dcTokens, everJoined, now, d0.slots.Keys);
      WeatheredSameGrace(was.slots, d.slots);
      GraceMore(d0.slots, was.slots, d.slots);
      QuietMore(d0.chans, was.chans, d.chans);
      OneMoreEvent(i);
      DeliveredMore(d0, was, d, Everyone(Events(i)), Everyone([SimEvent]), Everyone(Events(i + 1)));
    }
  }

  function Events(n: nat): seq<Frame> { seq(n, _ => SimEvent) }

  lemma NoEvents()
    ensures forall q: ID :: Everyone(Events(0))(q) == []
  {
  }

  lemma OneMoreEvent(n: nat)
    ensures forall q: ID :: Everyone(Events(n + 1))(q) == Everyone(Events(n))(q) + Everyone([SimEvent])(q)
  {
    assert Events(n + 1) == Events(n) + [SimEvent];
  }

  /** What a tick brings after the sweep, the departures before it included. */
  function Beats(gone: seq<ID>, scoreboard: bool, snapshot: bool): Script {
    (q: ID) => Lefts(gone) + (if scoreboard then [Scoreboard] else []) + (if snapshot then [Snapshot(q)] else [])
  }

  predicate SnapshotDue(now: nat) { now % SNAPSHOT_EVERY == 0 }

  /**
   Who got what in a tick: first the events, then dead-cam marks, then departures, scoreboard and snapshot without
   those gone.
   */
  ghost predicate Ran(d0: Desk, r: Report, now: nat, late: bool, sent: Desk, cams: Slots, gone: seq<ID>, d: Desk) {
    && Delivered(d0, sent, Everyone(Events(r.events)))
    && SameButCam(sent.slots, cams)
    && (forall p | p in cams ::
          cams[p].deadCam <==> sent.slots[p].deadCam || (sent.slots[p].joined && p in Eliminated(r)))
    && NoRepeat(gone) && (forall p :: p in gone <==> p in d0.slots && d0.slots[p].dc && now >= d0.slots[p].deadline)
    && Delivered(Without(sent.(slots := cams), SetOf(gone)), d, Beats(gone, r.scoreboard, SnapshotDue(now) && !late))
  }

  /** All that a slot is sent in a tick if it stays: snapshots come with every second tick. */
  function TickFrames(r: Report, gone: seq<ID>, now: nat, late: bool, p: ID): seq<Frame> {
    seq(r.events, _ => SimEvent) + seq(|gone|, i requires 0 <= i < |gone| => Left(gone[i]))
    + (if r.scoreboard then [Scoreboard] else []) + if now % 2 == 0 && !late then [Snapshot(p)] else []
  }

  lemma GotSent(a: Desk, b: Desk, f: Script, p: ID)
    requires Delivered(a, b, f) && p in b.slots && b.slots[p].out.Some?
    ensures p in a.slots && a.slots[p].out == b.slots[p].out
            && b.slots[p].out.value in a.chans && b.slots[p].out.value in b.chans
    ensures b.chans[b.slots[p].out.value].sent == a.chans[b.slots[p].out.value].sent + f(p)
  {
    assert Got(a, b, p, f(p));
  }

  /** Whoever still has its channel at the end of a tick has been sent exactly that. */
  lemma StayersGet(d0: Desk, r: Report, now: nat, late: bool, sent: Desk, cams: Slots, gone: seq<ID>, d: Desk, p: ID)
    requires Ran(d0, r, now, late, sent, cams, gone, d) && p in d.slots && d.slots[p].out.Some?
    ensures p in d0.slots && d0.slots[p].out == d.slots[p].out && d.slots[p].out.value in d0.chans
            && d.slots[p].out.value in d.chans
    ensures d.chans[d.slots[p].out.value].sent
            == d0.chans[d.slots[p].out.value].sent + TickFrames(r, gone, now, late, p)
  {
    hide Delivered;
    var due := SnapshotDue(now) && !late;
    GotSent(Without(sent.(slots := cams), SetOf(gone)), d, Beats(gone, r.scoreboard, due), p);
    GotSent(d0, sent, Everyone(Events(r.events)), p);
    assert Events(r.events) + Beats(gone, r.scoreboard, due)(p) == TickFrames(r, gone, now, late, p);
  }

  /** Scoreboard when due, and a snapshot on even ticks unless the tick before ran long. */
  method Beat(cfg: MatchConfig, d0: Desk, ghost bySession: map<Token, ID>, ghost dcTokens: map<Token, ID>,
              ghost everJoined: set<ID>, now: nat, scoreboard: bool, overBudget0: bool)
    returns (d: Desk, overBudget: bool)
    requires Ready(cfg, Live, Some(now), d0, bySession, dcTokens, everJoined)
    ensures Ready(cfg, Live, Some(now), d, bySession, dcTokens, everJoined) && Quiet(d0.chans, d.chans)
    ensures d.slots.Keys == d0.slots.Keys && overBudget == (overBudget0 && !SnapshotDue(now))
    ensures Delivered(d0, d, Beats([], scoreboard, SnapshotDue(now) && !overBudget0))
  {
    d, overBudget := d0, overBudget0;
    var beat := SnapshotDue(now);
    hide *;
    ReadyBase(cfg, Live, Some(now), d, bySession, dcTokens, everJoined);
    if scoreboard {
      d := Broadcast(d, Scoreboard);
    } else {
      NoFrames();
      DeliveredNothing(d, Everyone([]));
    }
    ghost var board := if scoreboard then [Scoreboard] else [];
    assert Delivered(d0, d, Everyone(board));
    ghost var mid := d;
    SoundBase(d);
    SentReady(cfg, Live, Some(now), d0, d, bySession, dcTokens, everJoined, Everyone(board));
    ghost var shots: Script := Everyone([]);
    ReadyBase(cfg, Live, Some(now), d, bySession, dcTokens, everJoined);
    if beat && !overBudget {
      d := SendEach(d, Snapshots());
      shots := Snapshots();
    } else {
      NoFrames();
      DeliveredNothing(d, shots);
    }
    SoundBase(d);
    overBudget := overBudget && !beat;
    SentReady(cfg, Live, Some(now), mid, d, bySession, dcTokens, everJoined, shots);
    QuietMore(d0.chans, mid.chans, d.chans);
    ghost var snap := beat && !overBudget0;
    assert shots == if snap then Snapshots() else Everyone([]);
    BeatsAre(scoreboard, snap, board, shots);
    DeliveredMore(d0, mid, d, Everyone(board), shots, Beats([], scoreboard, snap));
  }

  lemma SoundBase(d: Desk)
    ensures Sound(d) ==> Base(d)
  {
  }

  function Snapshots(): Script { (q: ID) => [Snapshot(q)] }

  lemma NoFrames()
    ensures forall q: ID :: Everyone([])(q) == []
  {
  }

  lemma BeatsAre(scoreboard: bool, snapshot: bool, board: seq<Frame>, shots: Script)
    requires board == (if scoreboard then [Scoreboard] else []) && shots == if snapshot then Snapshots()
                                                                            else Everyone([])
    ensures forall q: ID :: Beats([], scoreboard, snapshot)(q) == Everyone(board)(q) + shots(q)
  {
  }

  lemma BeatsAfter(gone: seq<ID>, scoreboard: bool, snapshot: bool)
    ensures forall q: ID ::
              Beats(gone, scoreboard, snapshot)(q) == Everyone(Lefts(gone))(q) + Beats([], scoreboard, snapshot)(q)
  {
  }

  lemma GraceAlive(cfg: MatchConfig, now: nat, d: Desk, bySession: map<Token, ID>, dcTokens: map<Token, ID>,
                   everJoined: set<ID>, t: Token)
    requires Ready(cfg, Live, Some(now), d, bySession, dcTokens, everJoined)
    ensures t in dcTokens <==> exists p | p in d.slots :: d.slots[p].dc && Owns(cfg.players, t, p)
    ensures forall p | p in d.slots && d.slots[p].dc :: d.slots[p].deadline != 0 && now < d.slots[p].deadline
    ensures t in dcTokens ==> dcTokens[t] in d.slots && d.slots[dcTokens[t]].dc
  {
    if p :| p in d.slots && d.slots[p].dc && Owns(cfg.players, t, p) { assert t in dcTokens; }
  }

  lemma NoGraceYet(cfg: MatchConfig, sim: Option<nat>, d: Desk, bySession: map<Token, ID>, dcTokens: map<Token, ID>,
                   everJoined: set<ID>)
    requires Ready(cfg, WaitingForJoins, sim, d, bySession, dcTokens, everJoined)
    ensures sim == None && dcTokens == map[]
  {
  }

  lemma AdmitsSlot(cfg: MatchConfig, d: Desk, bySession: map<Token, ID>, everJoined: set<ID>, t: Token)
    requires Ready(cfg, WaitingForJoins, None, d, bySession, map[], everJoined) && t in bySession
    ensures bySession[t] in d.slots && !d.slots[bySession[t]].joined
    ensures exists i | 0 <= i < |cfg.players| :: cfg.players[i].token == t
    ensures forall i, j | 0 <= i < |cfg.players| && 0 <= j < |cfg.players|
              && cfg.players[i].token == cfg.players[j].token :: i == j
  {
    assert Owns(cfg.players, t, bySession[t]);
  }

  lemma Revoked(cfg: MatchConfig, state: State, sim: Option<nat>, d: Desk, bySession: map<Token, ID>,
                dcTokens: map<Token, ID>, everJoined: set<ID>, t: Token)
    requires Ready(cfg, state, sim, d, bySession, dcTokens, everJoined)
    ensures Ready(cfg, state, sim, d, bySession - {t}, dcTokens, everJoined)
  {
  }

  lemma EndReady(cfg: MatchConfig, sim: Option<nat>, d: Desk, bySession: map<Token, ID>, dcTokens: map<Token, ID>,
                 everJoined: set<ID>)
    requires Over(d)
    ensures Ready(cfg, Ended, sim, d, bySession, dcTokens, everJoined)
  {
  }

  method IssuedAt(players: seq<PendingJoin>, t: Token) returns (at: int)
    requires exists i | 0 <= i < |players| :: players[i].token == t
    ensures exists i | 0 <= i < |players| :: players[i].token == t && players[i].issuedAt == at
  {
    for i := 0 to |players|
      invariant forall j | 0 <= j < i :: players[j].token != t
    {
      if players[i].token == t {
        return players[i].issuedAt;
      }
    }
    assert false;
    at := 0;
  }

  method OpenSlots(players: seq<PendingJoin>) returns (d: Desk, bySession: map<Token, ID>)
    requires Minted(players)
    ensures d.chans == map[] && d.joinedCount == d.gauge == 0
    ensures (forall p :: p in d.slots <==> exists t :: Owns(players, t, p))
            && forall p | p in d.slots :: d.slots[p] == EMPTY_SLOT
    ensures forall p :: p in d.slots <==> exists j :: 0 <= j < |players| && players[j].player == p
    ensures forall j | 0 <= j < |players| :: players[j].token in bySession
    ensures forall t ::
              (t in bySession <==> exists p :: Owns(players, t, p))
                && (t in bySession ==> Owns(players, t, bySession[t]))
  {
    var slots: Slots := map[];
    bySession := map[];
    for i := 0 to |players|
      invariant forall p :: p in slots <==> exists j | 0 <= j < i :: players[j].player == p
      invariant forall p | p in slots :: slots[p] == EMPTY_SLOT
      invariant forall t :: t in bySession <==> exists j | 0 <= j < i :: players[j].token == t
      invariant forall j | 0 <= j < i ::
                  players[j].token in bySession && bySession[players[j].token] == players[j].player
    {
      slots := slots[players[i].player := EMPTY_SLOT];
      bySession := bySession[players[i].token := players[i].player];
    }
    d := Desk(slots, map[], 0, 0);
    forall i | 0 <= i < |players|
      ensures Owns(players, players[i].token, players[i].player)
    {
    }
  }

  lemma OpenReady(cfg: MatchConfig, d: Desk, bySession: map<Token, ID>)
    requires Minted(cfg.players) && d.chans == map[] && d.joinedCount == d.gauge == 0
    requires (forall p :: p in d.slots <==> exists t :: Owns(cfg.players, t, p))
             && forall p | p in d.slots :: d.slots[p] == EMPTY_SLOT
    requires forall t | t in bySession :: Owns(cfg.players, t, bySession[t])
    ensures Ready(cfg, WaitingForJoins, None, d, bySession, map[], {})
  {
    assert JoinedSet(d.slots) == {};
  }

  /** Both counters are the number of joined slots, and zero once the match has ended. */
  lemma CountersExact(cfg: MatchConfig, state: State, sim: Option<nat>, d: Desk, bySession: map<Token, ID>,
                      dcTokens: map<Token, ID>, everJoined: set<ID>)
    requires Ready(cfg, state, sim, d, bySession, dcTokens, everJoined)
    ensures d.joinedCount == d.gauge == |JoinedSet(d.slots)|
    ensures state == Ended ==> d.joinedCount == 0 && forall p | p in d.slots :: d.slots[p].out.None?
    ensures forall p, q | p in d.slots && q in d.slots && d.slots[p].out.Some? && d.slots[p].out == d.slots[q].out ::
              p == q
    ensures forall p | p in d.slots && d.slots[p].out.Some? ::
              d.slots[p].out.value in d.chans && !d.chans[d.slots[p].out.value].closed
  {
    forall p | p in d.slots && d.slots[p].out.Some?
      ensures d.slots[p].out.value in d.chans && !d.chans[d.slots[p].out.value].closed
    {
      assert Bound(d, d.slots[p]);
    }
    assert state == Ended ==> forall p | p in d.slots :: d.slots[p].out.None?;
  }

  /** What the last to join is sent: the opening, and then the picture a second time. */
  function LastJoined(p: ID): Script { (q: ID) => Opening()(q) + Only(p, [MapInit, Scoreboard, Snapshot(p)])(q) }

  /** A first join: the slot is told, and if everyone is in now, the match starts or is called off. */
  ghost predicate JoinedBy(cfg: MatchConfig, d0: Desk, p: ID, c: ChanID, capacity: nat, simMade: bool, told: Desk,
                           state: State, d: Desk) {
    && p in d0.slots && Delivered(Seated(d0, p, c, capacity), told, Only(p, [Joined(p)]))
    && if !AllJoined(told.slots) then state == WaitingForJoins && d == told
       else if simMade && told.joinedCount >= MinPlayers(cfg) then
              state == Live && Delivered(ArmedDesk(cfg, told), d, LastJoined(p))
       else state == Ended && Farewell(told, d, [])
  }

  lemma ArmedBase(cfg: MatchConfig, d: Desk)
    requires Base(d)
    ensures Base(ArmedDesk(cfg, d))
  {
    var a := ArmedDesk(cfg, d);
    assert JoinedSet(a.slots) == JoinedSet(d.slots);
    forall p | p in a.slots && a.slots[p].out.Some?
      ensures Bound(a, a.slots[p])
    {
      assert Bound(d, d.slots[p]);
    }
  }

  class Match {
    const cfg: MatchConfig
    var state: State
    var sim: Option<nat>              // the simulation's tick, once there is one
    var desk: Desk
    var bySession: map<Token, ID>     // tokens not yet used to join
    var dcTokens: map<Token, ID>      // tokens of slots in disconnect grace
    var overBudget: bool
    var startCount: nat               // how many were joined when the match went live
    ghost var everJoined: set<ID>

    ghost predicate Valid()
      reads this
    {
      Ready(cfg, state, sim, desk, bySession, dcTokens, everJoined)
    }

    constructor (cfg: MatchConfig)
      requires 1 <= |cfg.players| <= MAX_PLAYERS && Minted(cfg.players)
      ensures Valid() && this.cfg == cfg && state == WaitingForJoins && everJoined == {}
      ensures desk.chans == map[] && desk.joinedCount == desk.gauge == 0 && dcTokens == map[] && !overBudget
      ensures forall p | p in desk.slots ::
                desk.slots[p] == Slot(joined := false, out := None, closedOnce := false, deadCam := false, dc := false,
                                      deadline := 0)
      ensures forall t, p :: Owns(cfg.players, t, p) <==> t in bySession && bySession[t] == p
      ensures forall p :: p in desk.slots <==> exists i :: 0 <= i < |cfg.players| && cfg.players[i].player == p
    {
      hide Ready, Owns, Minted;
      this.cfg := cfg;
      var d, tokens := OpenSlots(cfg.players);
      OpenReady(cfg, d, tokens);
      OwnersAre(cfg.players, tokens);
      state, sim, desk, bySession, dcTokens, overBudget, startCount, everJoined := WaitingForJoins, None, d, tokens,
        map[], false, 0, {};
    }

    /** Join with a token: a token in grace reconnects; any other is good once, before the start, while it is fresh. */
    method HandleJoin(token: Token, out: ChanID, capacity: nat, now: int, simMade: bool)
      returns (r: Option<ID>, ghost told: Desk)
      requires Valid() && out !in desk.chans
      modifies this
      ensures old(state) == Live ==> startCount == old(startCount)
      ensures Valid() && Quiet(old(desk).chans, desk.chans) && old(everJoined) <= everJoined
      ensures old(state) == Live ==> (r.Some? <==> token in old(dcTokens)) && everJoined == old(everJoined)
      ensures old(state) == Ended ==> r.None?
      ensures old(state) == WaitingForJoins && r.Some? ==>
                token in old(bySession) && r.value == old(bySession)[token] && token !in bySession
      ensures old(state) == WaitingForJoins && r.Some? ==>
                r.value !in old(everJoined) && everJoined == old(everJoined) + {r.value}
      ensures old(state) == WaitingForJoins && r.None? ==> desk == old(desk) && state == old(state)
      ensures old(state) == WaitingForJoins && token in old(bySession) ==>
                (r.Some? <==>
                 exists i | 0 <= i < |cfg.players| ::
                   cfg.players[i].token == token && now - cfg.players[i].issuedAt <= 60_000)
      ensures old(state) == WaitingForJoins && r.Some? ==>
                JoinedBy(cfg, old(desk), r.value, out, capacity, simMade, told, state, desk)
      ensures old(state) == Live && r.Some? ==>
                r.value in old(desk).slots
                  && Delivered(LitDesk(old(desk), r.value, out, capacity), desk, Return(r.value, old(sim).value))
    {
      hide Ready, Quiet, Delivered, Farewell, Base, LitDesk;
      QuietSame(desk.chans);
      told := desk;
      ReadyBase(cfg, state, sim, desk, bySession, dcTokens, everJoined);
      if state == WaitingForJoins { NoGraceYet(cfg, sim, desk, bySession, dcTokens, everJoined); }
      if token in dcTokens && state != Ended {
        r := HandleReconnect(token, out, capacity);
        return;
      }
      if state == Live || state == Ended {
        return None, told;
      }
      if token !in bySession {
        return None, told;
      }
      AdmitsSlot(cfg, desk, bySession, everJoined, token);
      var issuedAt := IssuedAt(cfg.players, token);
      if now - issuedAt > TOKEN_TTL {
        Revoked(cfg, state, sim, desk, bySession, dcTokens, everJoined, token);
        bySession := bySession - {token};
        return None, told;
      }
      if desk.slots[bySession[token]].joined {
        return None, told;
      }
      ghost var ever;
      var d, tokens, p;
      d, tokens, ever, p := JoinSlot(cfg, desk, bySession, everJoined, token, out, capacity);
      told := d;
      ReadyBase(cfg, state, sim, d, tokens, dcTokens, ever);
      desk, bySession, everJoined := d, tokens, ever;
      if AllJoined(desk.slots) {
        StartMatch(simMade);
        QuietMore(old(desk).chans, d.chans, desk.chans);
      }
      if state == Live {
        ghost var started := desk;
        ArmedBase(cfg, told);
        Welcome(p);
        QuietMore(old(desk).chans, started.chans, desk.chans);
        DeliveredMore(ArmedDesk(cfg, told), started, desk, Opening(), Only(p, [MapInit, Scoreboard, Snapshot(p)]),
                      LastJoined(p));
      }
      r := Some(p);
    }

    /** Go live if enough have joined and a map could be made; otherwise the match is off. */
    method StartMatch(simMade: bool)
      requires Valid() && state == WaitingForJoins
      modifies this`state, this`sim, this`desk, this`dcTokens, this`startCount
      ensures Valid() && Quiet(old(desk).chans, desk.chans) && desk.slots.Keys == old(desk).slots.Keys
      ensures if simMade && old(desk).joinedCount >= (if cfg.level then 1 else 2)
              then state == Live && startCount == old(desk).joinedCount
                && Delivered(ArmedDesk(cfg, old(desk)), desk, Opening())
              else state == Ended && Farewell(old(desk), desk, [])
    {
      hide Ready, Quiet, Delivered, Farewell;
      NoGraceYet(cfg, sim, desk, bySession, dcTokens, everJoined);
      var st, sm, d, tokens := StartOrAbort(cfg, desk, bySession, everJoined, simMade);
      if st == Live {
        startCount := desk.joinedCount;
      }
      state, sim, desk, dcTokens := st, sm, d, tokens;
    }

    /** The full picture to one slot. */
    method Welcome(p: ID)
      requires Valid() && state == Live && p in desk.slots
      modifies this`desk
      ensures Valid() && Quiet(old(desk).chans, desk.chans)
              && Delivered(old(desk), desk, Only(p, [MapInit, Scoreboard, Snapshot(p)]))
    {
      hide Ready, Quiet, Base, Delivered;
      ReadyBase(cfg, state, sim, desk, bySession, dcTokens, everJoined);
      var d := SendAll(desk, p, [MapInit, Scoreboard, Snapshot(p)]);
      SentReady(cfg, state, sim, desk, d, bySession, dcTokens, everJoined, Only(p, [MapInit, Scoreboard, Snapshot(p)]));
      desk := d;
    }

    /**
     While live, a token in grace always gets its slot back, and no other token does: the deadline check never fails.
     */
    method HandleReconnect(token: Token, out: ChanID, capacity: nat) returns (r: Option<ID>)
      requires Valid() && out !in desk.chans
      modifies this`desk, this`dcTokens
      ensures Valid() && Quiet(old(desk).chans, desk.chans)
      ensures old(state) == Live ==> (r.Some? <==> token in old(dcTokens))
      ensures r.Some? ==>
                token in old(dcTokens) && r.value == old(dcTokens)[token] && token !in dcTokens && r.value in desk.slots
                  && !desk.slots[r.value].dc
      ensures r.None? ==> desk == old(desk) && dcTokens == old(dcTokens)
      ensures old(state) != Live ==> r.None?
      ensures r.Some? ==> r.value in old(desk).slots && old(sim).Some?
                          && Delivered(LitDesk(old(desk), r.value, out, capacity), desk,
                                       Return(r.value, old(sim).value))
    {
      hide Ready, Quiet, Delivered, LitDesk;
      QuietSame(desk.chans);
      if state != Live || token !in dcTokens {
        return None;
      }
      ReadyBase(cfg, state, sim, desk, bySession, dcTokens, everJoined);
      GraceAlive(cfg, sim.value, desk, bySession, dcTokens, everJoined, token);
      var p := dcTokens[token];
      if p !in desk.slots || !desk.slots[p].dc {
        return None;
      }
      if sim.value >= desk.slots[p].deadline {
        return None;
      }
      var d, tokens := Rebind(cfg, sim.value, desk, bySession, dcTokens, everJoined, token, out, capacity);
      desk, dcTokens := d, tokens;
      r := Some(p);
    }

    /** A dropped connection enters grace, once. */
    method HandleDC(p: ID)
      requires Valid()
      modifies this`desk, this`dcTokens
      ensures Valid() && Quiet(old(desk).chans, desk.chans)
      ensures var s := if p in old(desk).slots then old(desk).slots[p] else EMPTY_SLOT;
              if state == Ended || !s.joined || s.dc then desk == old(desk)
              else p in desk.slots
                   && desk.slots[p] == s.(dc := true, out := None,
                                          deadline := if state != Live then 0
                                                      else if cfg.graceOverride == 0 then sim.value + 900
                                                      else sim.value + cfg.graceOverride)
                   && Delivered(old(desk).(slots := old(desk).slots[p := desk.slots[p]]), desk,
                                Everyone([Disconnected(p)]))
    {
      hide Ready, Quiet, Base, Delivered;
      QuietSame(desk.chans);
      if state == Ended || p !in desk.slots || !desk.slots[p].joined || desk.slots[p].dc {
        return;
      }
      if state == WaitingForJoins { NoGraceYet(cfg, sim, desk, bySession, dcTokens, everJoined); }
      var d, tokens := GoDark(cfg, state, sim, desk, bySession, dcTokens, everJoined, p);
      desk, dcTokens := d, tokens;
    }

    /** A revoked token is no longer good for a first join. */
    method RevokeToken(token: Token)
      requires Valid()
      modifies this`bySession
      ensures Valid() && bySession == old(bySession) - {token}
    {
      hide Ready;
      Revoked(cfg, state, sim, desk, bySession, dcTokens, everJoined, token);
      bySession := bySession - {token};
    }

    /** A client's ping is answered on its own slot. */
    method HandlePing(p: ID)
      requires Valid() && state != Ended
      modifies this`desk
      ensures Valid() && Quiet(old(desk).chans, desk.chans)
      ensures if p in old(desk).slots && old(desk).slots[p].joined then Delivered(old(desk), desk, Only(p, [Pong]))
              else desk == old(desk)
    {
      hide Ready, Quiet, Base, Delivered;
      QuietSame(desk.chans);
      if p !in desk.slots || !desk.slots[p].joined {
        return;
      }
      ReadyBase(cfg, state, sim, desk, bySession, dcTokens, everJoined);
      var d := SendTo(desk, p, Pong);
      SentReady(cfg, state, sim, desk, d, bySession, dcTokens, everJoined, Only(p, [Pong]));
      desk := d;
    }

    /**
     One simulation step and all that follows from it; grace that has run out costs the slot, and the match may be
     over.
     */
    method Tick(r: Report)
      returns (ghost sent: Desk, ghost cams: Slots, gone: seq<ID>, ghost last: Desk, ghost verdict: E.Verdict)
      requires Valid() && state == Live
      modifies this
      ensures old(state) == Live ==> startCount == old(startCount)
      ensures Valid() && Quiet(old(desk).chans, desk.chans) && everJoined == old(everJoined)
              && bySession == old(bySession)
      ensures r.ok ==>
                E.Judged(last.slots.Keys, r.scores, cfg.level && r.liveGens == 0 && r.liveSnipes == 0, startCount,
                         old(sim).value + 1, verdict)
      ensures state == if r.ok && verdict.GoesOn? then Live else Ended
      ensures state == Live ==> sim == Some(old(sim).value + 1)
      ensures state == Live ==> forall p | p in old(desk).slots ::
                p in desk.slots <==> !(old(desk).slots[p].dc && sim.value >= old(desk).slots[p].deadline)
      ensures !r.ok ==> Farewell(old(desk), desk, [MatchEnd(0), MatchOver])
      ensures r.ok ==> Ran(old(desk), r, old(sim).value + 1, old(overBudget), sent, cams, gone, last)
      ensures r.ok ==> overBudget == (old(overBudget) && (old(sim).value + 1) % 2 != 0)
      ensures r.ok ==>
                if verdict.Over? then Farewell(last, desk, [MatchEnd(verdict.winner), MatchOver]) else desk == last
    {
      hide Ready, Quiet, Ran, Farewell;
      ReadyBase(cfg, state, sim, desk, bySession, dcTokens, everJoined);
      sent, cams, gone, last, verdict := desk, desk.slots, [], desk, E.GoesOn;
      if !r.ok {
        Abort();
        return;
      }
      var d, tokens, late;
      d, tokens, late, sent, cams,
        gone := RunTick(cfg, desk, bySession, dcTokens, everJoined, sim.value, r, overBudget);
      last := d;
      ghost var was := desk.chans;
      desk, dcTokens, overBudget, sim := d, tokens, late, Some(sim.value + 1);
      var v := E.EvaluateMatchEnd(desk.slots.Keys, r.scores, cfg.level, r.liveGens, r.liveSnipes, startCount,
                                  sim.value);
      verdict := v;
      if v.Over? {
        EndMatch(v.winner);
        QuietMore(was, d.chans, desk.chans);
      }
    }

    /** The tick just run took too long: the next snapshot is skipped. */
    method RanLong()
      requires Valid()
      modifies this`overBudget
      ensures Valid() && overBudget
    {
      hide Ready;
      overBudget := true;
    }

    method EndMatch(winner: ID)
      requires Valid() && state == Live
      modifies this`state, this`desk
      ensures Valid() && state == Ended && Quiet(old(desk).chans, desk.chans)
      ensures Farewell(old(desk), desk, [MatchEnd(winner), MatchOver])
    {
      hide Ready, Quiet, Base, Farewell;
      ReadyBase(cfg, state, sim, desk, bySession, dcTokens, everJoined);
      var d := FinishAll(desk, winner);
      EndReady(cfg, sim, d, bySession, dcTokens, everJoined);
      state, desk := Ended, d;
    }

    /** Whatever went wrong: a last frame if there was a game, and the end. */
    method Abort()
      requires Valid()
      modifies this`state, this`desk
      ensures Valid() && state == Ended && Quiet(old(desk).chans, desk.chans)
      ensures if old(state) == Ended then desk == old(desk)
              else Farewell(old(desk), desk, if sim.Some? then [MatchEnd(0), MatchOver] else [])
    {
      hide Ready, Quiet, Base, Farewell;
      QuietSame(desk.chans);
      if state == Ended {
        return;
      }
      ReadyBase(cfg, state, sim, desk, bySession, dcTokens, everJoined);
      var d;
      if sim.Some? {
        d := FinishAll(desk, 0);
      } else {
        d := CloseBeforeStart(desk);
      }
      EndReady(cfg, sim, d, bySession, dcTokens, everJoined);
      state, desk := Ended, d;
    }

    method Shutdown()
      requires Valid()
      modifies this`state, this`desk
      ensures Valid() && state == Ended && Quiet(old(desk).chans, desk.chans)
      ensures if old(state) == Ended then desk == old(desk) else Farewell(old(desk), desk, [])
    {
      hide Ready, Quiet, Base, Farewell;
      QuietSame(desk.chans);
      if state == Ended {
        return;
      }
      ReadyBase(cfg, state, sim, desk, bySession, dcTokens, everJoined);
      var d := CloseQuietly(desk);
      EndReady(cfg, sim, d, bySession, dcTokens, everJoined);
      state, desk := Ended, d;
    }
  }

  predicate AllJoined(slots: Slots) {
    forall p | p in slots :: slots[p].joined
  }
}
