/** The lobby's state: rooms and sessions, who sits where, and sending, which can throw a client out. */
module LobbyHall {
  import opened Sequences
  import opened Options
  import opened RoomViews
  import C = ChatBucket

  type SessionID = string
  type Token = string

  /** A connected client; `sent` is everything queued to it. */
  datatype Session = Session(nick: string, room: Option<RoomID>, lastSeen: int, chat: C.Bucket, sent: seq<Message>)

  datatype Room = Room(name: string, host: SessionID, max: nat, level: Level, state: RoomState, members: seq<SessionID>,
                       matchID: string, emptySince: Option<int>)

  datatype Pending = Pending(matchID: string, session: SessionID, issuedAt: int)

  datatype Hall = Hall(sessions: map<SessionID, Session>, rooms: map<RoomID, Room>, tokens: map<Token, Pending>,
                       roomsDirty: bool)

  // Times are in nanoseconds.
  const GC_THRESHOLD := 30_000_000_000
  const IDLE_TIMEOUT := 60_000_000_000
  const TOKEN_TTL := 60_000_000_000
  const CHAT_MAX := 1024

  // ---- what clients should see ----

  function Describe(id: RoomID, r: Room): Descriptor {
    Descriptor(id, r.name, |r.members|, r.max, r.level, r.state)
  }

  function Described(rooms: map<RoomID, Room>): View {
    map id | id in rooms :: Describe(id, rooms[id])
  }

  /** The view has exactly these rooms, each under its name, with its members, places, level and state. */
  ghost predicate Shows(v: View, rooms: map<RoomID, Room>) {
    && (forall id :: id in v <==> id in rooms)
    && forall id | id in rooms ::
         && v[id].id == id && v[id].name == rooms[id].name && v[id].level == rooms[id].level
         && v[id].players == |rooms[id].members| && v[id].max == rooms[id].max && v[id].state == rooms[id].state
  }

  lemma DescribedShows(rooms: map<RoomID, Room>)
    ensures Shows(Described(rooms), rooms)
    ensures forall v :: Shows(v, rooms) ==> v == Described(rooms)
  {
    forall v | Shows(v, rooms)
      ensures v == Described(rooms)
    {
      forall id | id in rooms
        ensures v[id] == Describe(id, rooms[id])
      {
      }
    }
  }

  /** Every client that has said hello holds exactly the rooms there are, unless a resync is due. */
  ghost predicate Synced(h: Hall) {
    h.roomsDirty
      || forall s | s in h.sessions && h.sessions[s].nick != "" :: Fold(h.sessions[s].sent) == Described(h.rooms)
  }

  // ---- who is where ----

  /** A live session is a member of exactly the room it says it is in, and rooms are within bounds. */
  ghost predicate Seated(h: Hall) {
    && (forall s, r | s in h.sessions && r in h.rooms :: s in h.rooms[r].members <==> h.sessions[s].room == Some(r))
    && (forall s | s in h.sessions && h.sessions[s].room.Some? ::
          h.sessions[s].room.value in h.rooms && h.sessions[s].nick != "")
    && (forall r | r in h.rooms :: NoRepeat(h.rooms[r].members) && |h.rooms[r].members| <= h.rooms[r].max)
  }

  ghost predicate Good(h: Hall) {
    Synced(h) && Seated(h)
  }

  // ---- leaving a room ----

  /** The list without the first occurrence of s. */
  function Without(ms: seq<SessionID>, s: SessionID): seq<SessionID> {
    if ms == [] then [] else if ms[0] == s then ms[1..] else [ms[0]] + Without(ms[1..], s)
  }

  lemma {:induction false} WithoutIs(ms: seq<SessionID>, s: SessionID)
    requires NoRepeat(ms)
    ensures NoRepeat(Without(ms, s)) && |Without(ms, s)| <= |ms|
    ensures forall x :: x in Without(ms, s) <==> x in ms && x != s
    ensures s !in ms ==> Without(ms, s) == ms
  {
    if ms != [] {
      var rest := ms[1..];
      assert NoRepeat(rest) && ms[0] !in rest;
      if ms[0] != s {
        WithoutIs(rest, s);
        assert ms == [ms[0]] + rest;
      }
    }
  }

  /** The room once s is out: the host's place goes to whoever has been there longest. */
  function Left(r: Room, s: SessionID, now: int): Room {
    var ms := Without(r.members, s);
    r.(members := ms, host := if r.host == s && ms != [] then ms[0] else r.host,
       emptySince := if ms == [] then Some(now) else r.emptySince)
  }

  lemma {:induction false} WithoutAt(ms: seq<SessionID>, s: SessionID, i: nat)
    requires i <= |ms| && forall j | 0 <= j < i :: ms[j] != s
    ensures if i < |ms| && ms[i] == s then Without(ms, s) == ms[..i] + ms[i + 1..]
            else i == |ms| ==> Without(ms, s) == ms
  {
    if ms != [] && ms[0] != s && (i == |ms| || ms[i] == s) {
      WithoutAt(ms[1..], s, i - 1);
      assert ms == [ms[0]] + ms[1..];
    }
  }

  /** The others stay in the order they came in; the first of them is host if it was s; an empty room is stamped. */
  method RemoveMember(r: Room, s: SessionID, now: int) returns (r': Room)
    ensures r' == Left(r, s, now)
    ensures s !in r.members ==> r'.members == r.members
    ensures forall i | 0 <= i < |r.members| && r.members[i] == s && s !in r.members[..i] ::
              r'.members == r.members[..i] + r.members[i + 1..]
    ensures r'.host == if r.host == s && r'.members != [] then r'.members[0] else r.host
    ensures r'.emptySince == if r'.members == [] then Some(now) else r.emptySince
    ensures r' == r.(members := r'.members, host := r'.host, emptySince := r'.emptySince)
  {
    var ms := r.members;
    for i := 0 to |ms|
      invariant forall j | 0 <= j < i :: ms[j] != s
    {
      if ms[i] == s {
        WithoutAt(ms, s, i);
        return Handover(r.(members := ms[..i] + ms[i + 1..]), s, now);
      }
    }
    WithoutAt(ms, s, |ms|);
    r' := Handover(r, s, now);
  }

  function Handover(r: Room, s: SessionID, now: int): Room {
    r.(host := if r.host == s && r.members != [] then r.members[0] else r.host,
       emptySince := if r.members == [] then Some(now) else r.emptySince)
  }

  /** s out of room r, both sides of it. */
  function Unseated(h: Hall, s: SessionID, r: RoomID, now: int): Hall
    requires r in h.rooms
  {
    h.(rooms := h.rooms[r := Left(h.rooms[r], s, now)],
       sessions := if s in h.sessions then h.sessions[s := h.sessions[s].(room := None)] else h.sessions)
  }

  lemma UnseatedSeated(h: Hall, s: SessionID, r: RoomID, now: int)
    requires Seated(h) && r in h.rooms && (s in h.sessions ==> h.sessions[s].room == Some(r))
    ensures Seated(Unseated(h, s, r, now))
  {
    WithoutIs(h.rooms[r].members, s);
  }

  // ---- who is left ----

  /** The list without the sessions gone. */
  function Sift(ms: seq<SessionID>, gone: set<SessionID>): seq<SessionID> {
    if ms == [] then [] else (if ms[0] in gone then [] else [ms[0]]) + Sift(ms[1..], gone)
  }

  lemma {:induction false} SiftIs(ms: seq<SessionID>, gone: set<SessionID>)
    ensures forall x :: x in Sift(ms, gone) <==> x in ms && x !in gone
    ensures (forall x | x in ms :: x !in gone) ==> Sift(ms, gone) == ms
  {
    if ms != [] {
      SiftIs(ms[1..], gone);
      assert ms == [ms[0]] + ms[1..];
    }
  }

  lemma {:induction false} SiftTwice(ms: seq<SessionID>, a: set<SessionID>, b: set<SessionID>)
    ensures Sift(Sift(ms, a), b) == Sift(ms, a + b)
  {
    if ms != [] {
      SiftTwice(ms[1..], a, b);
      var rest := Sift(ms[1..], a);
      if ms[0] !in a { assert Sift(ms, a)[1..] == rest; } else { assert Sift(ms, a) == rest; }
    }
  }

  lemma {:induction false} SiftOne(ms: seq<SessionID>, s: SessionID)
    requires NoRepeat(ms)
    ensures Sift(ms, {s}) == Without(ms, s)
  {
    if ms != [] {
      assert NoRepeat(ms[1..]);
      if ms[0] == s {
        assert s !in ms[1..];
        SiftIs(ms[1..], {s});
      } else {
        SiftOne(ms[1..], s);
      }
    }
  }

  /**
   A room that lost these sessions: only one that has not started gives up their places, in order, and hands on the
   host's.
   */
  ghost predicate ThinnedRoom(r0: Room, gone: set<SessionID>, now: int, r: Room) {
    && r == r0.(members := r.members, host := r.host, emptySince := r.emptySince)
    && r.members == (if r0.state == Open then Sift(r0.members, gone) else r0.members)
    && r.emptySince == (if r.members == [] && r0.members != [] then Some(now) else r0.emptySince)
    && (r.members != [] ==>
        r.host == if r0.state == Open && r0.host in r0.members && r0.host in gone then r.members[0] else r0.host)
  }

  /** Some sessions are gone, and every room is without them. */
  ghost predicate Thinned(h0: Hall, h: Hall, now: int) {
    && h.sessions.Keys <= h0.sessions.Keys && h.rooms.Keys == h0.rooms.Keys
    && forall r | r in h0.rooms :: ThinnedRoom(h0.rooms[r], h0.sessions.Keys - h.sessions.Keys, now, h.rooms[r])
  }

  lemma {:induction false} SiftHead(ms: seq<SessionID>, gone: set<SessionID>)
    requires ms != [] && ms[0] !in gone
    ensures Sift(ms, gone) != [] && Sift(ms, gone)[0] == ms[0]
  {
  }

  lemma ThinnedRoomMore(a: Room, g: set<SessionID>, b: Room, g': set<SessionID>, c: Room, now: int)
    requires ThinnedRoom(a, g, now, b) && ThinnedRoom(b, g', now, c)
    ensures ThinnedRoom(a, g + g', now, c)
  {
    SiftTwice(a.members, g, g');
    SiftIs(a.members, g);
    SiftIs(b.members, g');
    if b.members != [] && b.members[0] !in g' { SiftHead(b.members, g'); }
    if c.members != [] && b.members == [] { assert false; }
  }

  lemma ThinnedMore(a: Hall, b: Hall, c: Hall, now: int)
    requires Thinned(a, b, now) && Thinned(b, c, now)
    ensures Thinned(a, c, now)
  {
    var g, g' := a.sessions.Keys - b.sessions.Keys, b.sessions.Keys - c.sessions.Keys;
    assert a.sessions.Keys - c.sessions.Keys == g + g';
    hide ThinnedRoom;
    forall r | r in a.rooms
      ensures ThinnedRoom(a.rooms[r], g + g', now, c.rooms[r])
    {
      ThinnedRoomMore(a.rooms[r], g, b.rooms[r], g', c.rooms[r], now);
    }
  }

  lemma NobodyGone(h: Hall, h': Hall, now: int)
    requires h'.sessions.Keys == h.sessions.Keys && h'.rooms == h.rooms
    ensures Thinned(h, h', now)
  {
    assert h.sessions.Keys - h'.sessions.Keys == {};
    forall r | r in h.rooms
      ensures Sift(h.rooms[r].members, {}) == h.rooms[r].members
    {
      SiftIs(h.rooms[r].members, {});
    }
  }

  lemma LeftThins(r: Room, s: SessionID, now: int)
    requires NoRepeat(r.members) && s in r.members && r.state == Open
    ensures ThinnedRoom(r, {s}, now, Left(r, s, now))
  {
    SiftOne(r.members, s);
    WithoutIs(r.members, s);
  }

  lemma OtherThins(r: Room, s: SessionID, now: int)
    requires s !in r.members || r.state != Open
    ensures ThinnedRoom(r, {s}, now, r)
  {
    SiftIs(r.members, {s});
  }

  /** A session thrown out leaves its place in an open room and nothing else. */
  lemma DroppedThins(h: Hall, s: SessionID, now: int)
    requires Seated(h) && s in h.sessions
    ensures Thinned(h, Dropped(h, s, now), now)
  {
    var h' := Dropped(h, s, now);
    assert h.sessions.Keys - h'.sessions.Keys == {s};
    hide ThinnedRoom, Left;
    forall r | r in h.rooms
      ensures ThinnedRoom(h.rooms[r], {s}, now, h'.rooms[r])
    {
      if s in h.rooms[r].members && h.rooms[r].state == Open {
        LeftThins(h.rooms[r], s, now);
      } else {
        OtherThins(h.rooms[r], s, now);
      }
    }
  }

  // ---- sending ----

  /** A session thrown out: its channel closed, and its place in a room that has not started freed. */
  function Dropped(h: Hall, s: SessionID, now: int): Hall
    requires s in h.sessions
  {
    var at := h.sessions[s].room;
    var h1 := h.(sessions := h.sessions - {s});
    if at.Some? && at.value in h.rooms && h.rooms[at.value].state == Open then
      Unseated(h1, s, at.value, now).(roomsDirty := true) else h1
  }

  method DropSession(h: Hall, s: SessionID, now: int) returns (h': Hall)
    requires s in h.sessions
    ensures h' == Dropped(h, s, now)
  {
    var at := h.sessions[s].room;
    h' := h.(sessions := h.sessions - {s});
    if at.Some? && at.value in h.rooms && h.rooms[at.value].state == Open {
      var r := RemoveMember(h.rooms[at.value], s, now);
      h' := h'.(rooms := h'.rooms[at.value := r], roomsDirty := true);
    }
  }

  lemma DroppedSeated(h: Hall, s: SessionID, now: int)
    requires Seated(h) && s in h.sessions
    ensures Seated(Dropped(h, s, now))
  {
    var at := h.sessions[s].room;
    if at.Some? && h.rooms[at.value].state == Open {
      UnseatedSeated(h.(sessions := h.sessions - {s}), s, at.value, now);
    }
  }

  /** s has one message more, or is gone; rooms change only with a resync due. */
  ghost predicate SentTo(h0: Hall, s: SessionID, m: Message, h: Hall) {
    && h.sessions.Keys <= h0.sessions.Keys && h0.sessions.Keys <= h.sessions.Keys + {s}
    && (forall q | q in h.sessions ::
          h.sessions[q] == if q == s then h0.sessions[q].(sent := h0.sessions[q].sent + [m]) else h0.sessions[q])
    && (h0.roomsDirty ==> h.roomsDirty) && (!h.roomsDirty ==> h.rooms == h0.rooms) && h.tokens == h0.tokens
    && (h.roomsDirty && !h0.roomsDirty ==> s !in h.sessions)
    && h.rooms.Keys == h0.rooms.Keys
  }

  function Queued(h: Hall, s: SessionID, m: Message): Hall
    requires s in h.sessions
  {
    h.(sessions := h.sessions[s := h.sessions[s].(sent := h.sessions[s].sent + [m])])
  }

  /** Queue a message, or throw the session out when its queue is full. Only a live session can be sent to. */
  method Deliver(h: Hall, s: SessionID, m: Message, full: bool, now: int) returns (h': Hall)
    requires s in h.sessions && Seated(h)
    ensures Seated(h') && SentTo(h, s, m, h') && Thinned(h, h', now)
    ensures h' == if full then Dropped(h, s, now) else Queued(h, s, m)
  {
    if full {
      DroppedSeated(h, s, now);
      DroppedThins(h, s, now);
      h' := DropSession(h, s, now);
    } else {
      h' := h.(sessions := h.sessions[s := h.sessions[s].(sent := h.sessions[s].sent + [m])]);
      NobodyGone(h, h', now);
    }
  }

  /** Whether the queue is full is up to the client. */
  method Send(h: Hall, s: SessionID, m: Message, now: int) returns (h': Hall)
    requires s in h.sessions && Seated(h)
    ensures Seated(h') && SentTo(h, s, m, h') && Thinned(h, h', now)
    ensures h' == Dropped(h, s, now) || h' == Queued(h, s, m)
  {
    var full: bool := *;
    h' := Deliver(h, s, m, full, now);
  }

  // ---- broadcasting ----

  /** Every session got the message or is gone; rooms change only with a resync due. */
  ghost predicate Fanned(h0: Hall, m: Message, h: Hall) {
    && h.sessions.Keys <= h0.sessions.Keys
    && (forall q | q in h.sessions :: Heard(h0.sessions[q], m, h.sessions[q]))
    && (h0.roomsDirty ==> h.roomsDirty) && (!h.roomsDirty ==> h.rooms == h0.rooms) && h.tokens == h0.tokens
    && (h.roomsDirty && !h0.roomsDirty ==> h.sessions.Keys < h0.sessions.Keys)
    && h.rooms.Keys == h0.rooms.Keys
  }

  /** One message more, in the same room or thrown out of it with someone else's. */
  predicate Heard(s: Session, m: Message, s': Session) {
    s' == s.(sent := s.sent + [m])
  }

  ghost predicate Fanning(h0: Hall, m: Message, todo: set<SessionID>, h: Hall) {
    && todo <= h.sessions.Keys <= h0.sessions.Keys
    && (forall q | q in h.sessions ::
          if q in todo then h.sessions[q] == h0.sessions[q] else Heard(h0.sessions[q], m, h.sessions[q]))
    && (h0.roomsDirty ==> h.roomsDirty) && (!h.roomsDirty ==> h.rooms == h0.rooms) && h.tokens == h0.tokens
    && (h.roomsDirty && !h0.roomsDirty ==> h.sessions.Keys < h0.sessions.Keys)
    && h.rooms.Keys == h0.rooms.Keys
  }

  lemma FanNext(h0: Hall, m: Message, todo: set<SessionID>, h: Hall, s: SessionID, h': Hall)
    requires Fanning(h0, m, todo, h) && s in todo && SentTo(h, s, m, h')
    ensures Fanning(h0, m, todo - {s}, h')
  {
  }

  /** One message to every session, in whatever order the map yields them; those thrown out on the way get nothing. */
  method Broadcast(h0: Hall, m: Message, now: int) returns (h: Hall)
    requires Seated(h0)
    ensures Seated(h) && Fanned(h0, m, h) && Thinned(h0, h, now)
  {
    h := h0;
    var todo := h.sessions.Keys;
    NobodyGone(h0, h, now);
    hide Seated, SentTo, Thinned;
    while todo != {}
      invariant Seated(h) && Fanning(h0, m, todo, h) && Thinned(h0, h, now)
      decreases todo
    {
      var s :| s in todo;
      ghost var was := h;
      h := Send(h, s, m, now);
      FanNext(h0, m, todo, was, s, h);
      ThinnedMore(h0, was, h, now);
      todo := todo - {s};
    }
  }

  /** Every client that has said hello holds v. */
  ghost predicate Agree(h: Hall, v: View) {
    forall s | s in h.sessions && h.sessions[s].nick != "" :: Fold(h.sessions[s].sent) == v
  }

  lemma FannedAgrees(h0: Hall, m: Message, h: Hall, v: View)
    requires Fanned(h0, m, h) && (Agree(h0, v) || m.RoomList?)
    ensures Agree(h, Apply(v, m))
  {
    forall s | s in h.sessions && h.sessions[s].nick != ""
      ensures Fold(h.sessions[s].sent) == Apply(v, m)
    {
      assert Heard(h0.sessions[s], m, h.sessions[s]);
      FoldMore(h0.sessions[s].sent, m);
    }
  }

  ghost function DescribedBut(rooms: map<RoomID, Room>, todo: set<RoomID>): View {
    map id | id in rooms && id !in todo :: Describe(id, rooms[id])
  }

  lemma DescribedNext(rooms: map<RoomID, Room>, todo: set<RoomID>, list: seq<Descriptor>, id: RoomID)
    requires AsMap(list) == DescribedBut(rooms, todo) && id in todo && id in rooms
    ensures AsMap(list + [Describe(id, rooms[id])]) == DescribedBut(rooms, todo - {id})
  {
    var next := list + [Describe(id, rooms[id])];
    assert next[..|next| - 1] == list;
    assert DescribedBut(rooms, todo - {id}) == DescribedBut(rooms, todo)[id := Describe(id, rooms[id])];
  }

  /** The rooms in whatever order the map yields them. */
  method BuildRoomList(rooms: map<RoomID, Room>) returns (list: seq<Descriptor>)
    ensures AsMap(list) == Described(rooms)
  {
    list := [];
    var todo := rooms.Keys;
    assert AsMap(list) == DescribedBut(rooms, todo);
    assert DescribedBut(rooms, {}) == Described(rooms);
    hide AsMap, DescribedBut, Described;
    while todo != {}
      invariant todo <= rooms.Keys && AsMap(list) == DescribedBut(rooms, todo)
      decreases todo
    {
      var id :| id in todo;
      DescribedNext(rooms, todo, list, id);
      list := list + [Describe(id, rooms[id])];
      todo := todo - {id};
    }
  }

  method BroadcastRoomList(h0: Hall, now: int) returns (h: Hall, ghost listed: Message)
    requires Seated(h0)
    ensures Thinned(h0, h, now) && listed.RoomList? && AsMap(listed.rooms) == Described(h0.rooms)
    ensures forall s | s in h.sessions :: Heard(h0.sessions[s], listed, h.sessions[s])
    ensures Good(h) && h.sessions.Keys <= h0.sessions.Keys && h.tokens == h0.tokens
    ensures (h0.roomsDirty ==> h.roomsDirty) && (!h.roomsDirty ==> h.rooms == h0.rooms) && h.rooms.Keys == h0.rooms.Keys
    ensures h.roomsDirty && !h0.roomsDirty ==> h.sessions.Keys < h0.sessions.Keys
    ensures forall s | s in h.sessions :: h.sessions[s] == h0.sessions[s].(sent := h.sessions[s].sent)
  {
    var list := BuildRoomList(h0.rooms);
    listed := RoomList(list);
    h := Broadcast(h0, RoomList(list), now);
    FannedAgrees(h0, RoomList(list), h, map[]);
  }

  /** The rooms as they are, described one more time: nothing a client did not know. */
  method BroadcastUpdate(h0: Hall, r: RoomID, now: int) returns (h: Hall)
    requires Good(h0) && r in h0.rooms
    ensures Thinned(h0, h, now)
    ensures Good(h) && h.sessions.Keys <= h0.sessions.Keys && h.tokens == h0.tokens
    ensures (h0.roomsDirty ==> h.roomsDirty) && (!h.roomsDirty ==> h.rooms == h0.rooms) && h.rooms.Keys == h0.rooms.Keys
    ensures forall s | s in h.sessions :: h.sessions[s] == h0.sessions[s].(sent := h.sessions[s].sent)
  {
    h := Broadcast(h0, RoomUpdated(Describe(r, h0.rooms[r])), now);
    if !h.roomsDirty {
      FannedAgrees(h0, RoomUpdated(Describe(r, h0.rooms[r])), h, Described(h0.rooms));
      assert Apply(Described(h0.rooms), RoomUpdated(Describe(r, h0.rooms[r]))) == Described(h0.rooms);
    }
  }

  /** The whole list to everyone, then the room that changed. */
  method Announce(h0: Hall, r: RoomID, now: int) returns (h: Hall)
    requires Seated(h0) && r in h0.rooms
    ensures Good(h) && Thinned(h0, h, now) && h.sessions.Keys <= h0.sessions.Keys && h.tokens == h0.tokens
    ensures (h0.roomsDirty ==> h.roomsDirty) && (!h.roomsDirty ==> h.rooms == h0.rooms) && h.rooms.Keys == h0.rooms.Keys
    ensures forall s | s in h.sessions :: h.sessions[s] == h0.sessions[s].(sent := h.sessions[s].sent)
  {
    hide *;
    ghost var listed;
    h, listed := BroadcastRoomList(h0, now);
    ghost var mid := h;
    h := BroadcastUpdate(h, r, now);
    ThinnedMore(h0, mid, h, now);
  }

  // ---- the repair ----

  /** Resync until nobody is thrown out by the resync itself: every further round costs a session. */
  method FlushRoomsDirty(h0: Hall, now: int) returns (h: Hall)
    requires Good(h0)
    ensures Good(h) && !h.roomsDirty && h.sessions.Keys <= h0.sessions.Keys && h.tokens == h0.tokens
    ensures forall s | s in h.sessions && h.sessions[s].nick != "" :: Fold(h.sessions[s].sent) == Described(h.rooms)
    ensures forall s | s in h.sessions && h.sessions[s].nick != "" :: Shows(Fold(h.sessions[s].sent), h.rooms)
    ensures !h0.roomsDirty ==> h == h0
  {
    h := Resync(h0, now);
    DescribedShows(h.rooms);
    hide *;
  }

  method Resync(h0: Hall, now: int) returns (h: Hall)
    requires Good(h0)
    ensures Good(h) && !h.roomsDirty && h.sessions.Keys <= h0.sessions.Keys && h.tokens == h0.tokens
    ensures forall s | s in h.sessions && h.sessions[s].nick != "" :: Fold(h.sessions[s].sent) == Described(h.rooms)
    ensures !h0.roomsDirty ==> h == h0
  {
    h := h0;
    hide Fold, Described;
    while h.roomsDirty
      invariant Good(h) && h.sessions.Keys <= h0.sessions.Keys && h.tokens == h0.tokens
      invariant !h0.roomsDirty ==> h == h0
      decreases h.sessions.Keys, h.roomsDirty
    {
      ghost var listed;
      h, listed := BroadcastRoomList(h.(roomsDirty := false), now);
    }
  }

  // ---- messages that say nothing about rooms ----

  predicate Neutral(m: Message) {
    !m.RoomList? && !m.RoomAdded? && !m.RoomUpdated? && !m.RoomRemoved?
  }

  lemma NeutralAgrees(h0: Hall, s: SessionID, m: Message, h: Hall, v: View)
    requires SentTo(h0, s, m, h) && Neutral(m) && Agree(h0, v)
    ensures Agree(h, v)
  {
    forall q | q in h.sessions && h.sessions[q].nick != ""
      ensures Fold(h.sessions[q].sent) == v
    {
      if q == s { FoldMore(h0.sessions[s].sent, m); }
    }
  }

  method SendNeutral(h0: Hall, s: SessionID, m: Message, now: int) returns (h: Hall)
    requires Good(h0) && s in h0.sessions && Neutral(m)
    ensures Good(h) && SentTo(h0, s, m, h) && Thinned(h0, h, now) && (h == Dropped(h0, s, now) || h == Queued(h0, s, m))
  {
    var full: bool := *;
    h := DeliverNeutral(h0, s, m, full, now);
  }

  method DeliverNeutral(h0: Hall, s: SessionID, m: Message, full: bool, now: int) returns (h: Hall)
    requires Good(h0) && s in h0.sessions && Neutral(m)
    ensures Good(h) && SentTo(h0, s, m, h) && Thinned(h0, h, now) && h == if full then Dropped(h0, s, now)
                                                                          else Queued(h0, s, m)
  {
    h := Deliver(h0, s, m, full, now);
    if !h.roomsDirty { NeutralAgrees(h0, s, m, h, Described(h0.rooms)); }
  }

  /** Throwing a session out keeps everyone else in step. */
  lemma DroppedGood(h: Hall, s: SessionID, now: int)
    requires Good(h) && s in h.sessions
    ensures Good(Dropped(h, s, now))
  {
    DroppedSeated(h, s, now);
  }

  lemma GoneGood(h: Hall, s: SessionID)
    requires Good(h)
    ensures Good(h.(sessions := h.sessions - {s}))
  {
  }

  /** Membership, then everyone is told, twice over. */
  method RemoveFromRoom(h0: Hall, s: SessionID, r: RoomID, now: int) returns (h: Hall)
    requires Seated(h0) && r in h0.rooms && (s in h0.sessions ==> h0.sessions[s].room == Some(r))
    ensures Good(h) && h.sessions.Keys <= h0.sessions.Keys && h.tokens == h0.tokens && h.rooms.Keys == h0.rooms.Keys
    ensures !h.roomsDirty ==> h.rooms == h0.rooms[r := Left(h0.rooms[r], s, now)]
    ensures forall q | q in h.sessions :: q in h0.sessions
              && h.sessions[q] == h0.sessions[q].(room := if q == s then None else h0.sessions[q].room,
                                                  sent := h.sessions[q].sent)
    ensures h0.roomsDirty ==> h.roomsDirty
    ensures Thinned(Unseated(h0, s, r, now), h, now)
  {
    var room := RemoveMember(h0.rooms[r], s, now);
    h := h0.(rooms := h0.rooms[r := room]);
    if s in h.sessions {
      h := h.(sessions := h.sessions[s := h.sessions[s].(room := None)]);
    }
    hide *;
    UnseatedSeated(h0, s, r, now);
    UnseatedIs(h0, s, r, now);
    h := Announce(h, r, now);
  }

  lemma UnseatedIs(h: Hall, s: SessionID, r: RoomID, now: int)
    requires r in h.rooms
    ensures Unseated(h, s, r, now) == h.(rooms := h.rooms[r := Left(h.rooms[r], s, now)],
              sessions := if s in h.sessions then h.sessions[s := h.sessions[s].(room := None)] else h.sessions)
  {
  }

  lemma MembersDistinct(h: Hall, r: RoomID)
    requires Seated(h) && r in h.rooms
    ensures NoRepeat(h.rooms[r].members)
  {
  }
}
