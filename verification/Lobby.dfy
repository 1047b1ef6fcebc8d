/** The lobby actor: rooms, who is in them, and every client kept up to date although sending can throw clients out. */
module Lobby {
  import opened Sequences
  import opened Options
  import opened RoomViews
  import C = ChatBucket
  import opened LobbyHall
  import opened LobbyRelay

  // ---- the actor ----

  lemma NewSessionGood(h: Hall, s: SessionID, now: int)
    requires Good(h) && s !in h.sessions && forall r | r in h.rooms :: s !in h.rooms[r].members
    ensures Good(h.(sessions := h.sessions[s := Session("", None, now, C.NEW, [])]))
  {
  }

  lemma SeenGood(h: Hall, s: SessionID, now: int)
    requires Good(h) && s in h.sessions
    ensures Good(h.(sessions := h.sessions[s := h.sessions[s].(lastSeen := now)]))
  {
    var h' := h.(sessions := h.sessions[s := h.sessions[s].(lastSeen := now)]);
    assert forall q | q in h'.sessions :: h'.sessions[q].sent == h.sessions[q].sent;
  }

  lemma JoinSeated(h: Hall, s: SessionID, r: RoomID)
    requires Seated(h) && s in h.sessions && h.sessions[s].room.None? && h.sessions[s].nick != ""
    requires r in h.rooms && |h.rooms[r].members| < h.rooms[r].max
    ensures Seated(h.(rooms := h.rooms[r := h.rooms[r].(members := h.rooms[r].members + [s])],
                      sessions := h.sessions[s := h.sessions[s].(room := Some(r))]))
  {
  }

  lemma CreateSeated(h: Hall, s: SessionID, r: RoomID, room: Room)
    requires Seated(h) && s in h.sessions && h.sessions[s].room.None? && h.sessions[s].nick != ""
    requires r !in h.rooms && room.members == [s] && room.max >= 1
    ensures Seated(h.(rooms := h.rooms[r := room], sessions := h.sessions[s := h.sessions[s].(room := Some(r))]))
  {
  }

  /** Every client holds one of two views that the message brings together. */
  lemma FannedMeets(h0: Hall, m: Message, h: Hall, a: View, b: View)
    requires Fanned(h0, m, h) && Apply(a, m) == b && Apply(b, m) == b
    requires forall s | s in h0.sessions && h0.sessions[s].nick != "" ::
               Fold(h0.sessions[s].sent) == a || Fold(h0.sessions[s].sent) == b
    ensures Agree(h, b)
  {
    forall s | s in h.sessions && h.sessions[s].nick != ""
      ensures Fold(h.sessions[s].sent) == b
    {
      assert Heard(h0.sessions[s], m, h.sessions[s]);
      FoldMore(h0.sessions[s].sent, m);
    }
  }

  function Founded(h: Hall, s: SessionID, r: RoomID, room: Room): Hall
    requires s in h.sessions
  {
    h.(rooms := h.rooms[r := room], sessions := h.sessions[s := h.sessions[s].(room := Some(r))])
  }

  /** After the list to the creator, every view is either the old one or the new one. */
  lemma CreatorFirst(h0: Hall, s: SessionID, r: RoomID, room: Room, list: seq<Descriptor>, h2: Hall)
    requires Synced(h0) && s in h0.sessions && !h0.roomsDirty
    requires AsMap(list) == Described(Founded(h0, s, r, room).rooms)
             && SentTo(Founded(h0, s, r, room), s, RoomList(list), h2)
    ensures forall q | q in h2.sessions && h2.sessions[q].nick != "" ::
              Fold(h2.sessions[q].sent) == Described(h0.rooms)
                || Fold(h2.sessions[q].sent) == Described(Founded(h0, s, r, room).rooms)
  {
    forall q | q in h2.sessions && h2.sessions[q].nick != ""
      ensures Fold(h2.sessions[q].sent) == Described(h0.rooms)
              || Fold(h2.sessions[q].sent) == Described(Founded(h0, s, r, room).rooms)
    {
      if q == s { FoldMore(h0.sessions[s].sent, RoomList(list)); }
    }
  }

  lemma AddedView(rooms: map<RoomID, Room>, r: RoomID, room: Room)
    requires r !in rooms
    ensures Apply(Described(rooms), RoomAdded(Describe(r, room))) == Described(rooms[r := room])
    ensures Apply(Described(rooms[r := room]), RoomAdded(Describe(r, room))) == Described(rooms[r := room])
  {
    assert Described(rooms[r := room]) == Described(rooms)[r := Describe(r, room)];
  }

  /** The creator is sent the whole list, everyone the new room. */
  method AddRoom(h0: Hall, s: SessionID, r: RoomID, room: Room, now: int) returns (h: Hall)
    requires Good(h0) && s in h0.sessions && h0.sessions[s].room.None? && h0.sessions[s].nick != ""
    requires r !in h0.rooms && room.members == [s] && room.max >= 1
    ensures Good(h) && h.tokens == h0.tokens && h.rooms.Keys == h0.rooms.Keys + {r}
            && h.sessions.Keys <= h0.sessions.Keys
    ensures !h.roomsDirty ==> h.rooms == h0.rooms[r := room]
    ensures s in h.sessions ==> h.sessions[s].room == Some(r)
    ensures h0.roomsDirty ==> h.roomsDirty
  {
    h := Founded(h0, s, r, room);
    CreateSeated(h0, s, r, room);
    hide *;
    var list := BuildRoomList(h.rooms);
    ghost var h1 := h;
    h := Send(h, s, RoomList(list), now);
    FoundedRoom(h0, s, r, room, RoomList(list), h);
    ghost var h2 := h;
    h := Broadcast(h, RoomAdded(Describe(r, h.rooms[r])), now);
    RoomIsAdded(h0, s, r, room, list, h2, h);
  }

  lemma FoundedRoom(h0: Hall, s: SessionID, r: RoomID, room: Room, m: Message, h2: Hall)
    requires s in h0.sessions && SentTo(Founded(h0, s, r, room), s, m, h2)
    ensures r in h2.rooms
  {
  }

  lemma RoomIsAdded(h0: Hall, s: SessionID, r: RoomID, room: Room, list: seq<Descriptor>, h2: Hall, h: Hall)
    requires Good(h0) && s in h0.sessions && r !in h0.rooms && AsMap(list) == Described(Founded(h0, s, r, room).rooms)
    requires SentTo(Founded(h0, s, r, room), s, RoomList(list), h2)
    requires r in h2.rooms && Fanned(h2, RoomAdded(Describe(r, h2.rooms[r])), h) && Seated(h)
    ensures Good(h) && h.tokens == h0.tokens && h.rooms.Keys == h0.rooms.Keys + {r}
            && h.sessions.Keys <= h0.sessions.Keys
    ensures !h.roomsDirty ==> h.rooms == h0.rooms[r := room]
    ensures s in h.sessions ==> h.sessions[s].room == Some(r)
    ensures h0.roomsDirty ==> h.roomsDirty
  {
    hide Seated, Described, Fold, AsMap, Apply;
    assert s in h.sessions ==> Heard(h2.sessions[s], RoomAdded(Describe(r, h2.rooms[r])), h.sessions[s]);
    if !h.roomsDirty {
      CreatorFirst(h0, s, r, room, list, h2);
      AddedView(h0.rooms, r, room);
      FannedMeets(h2, RoomAdded(Describe(r, room)), h, Described(h0.rooms), Described(Founded(h0, s, r, room).rooms));
    }
  }

  ghost function RoomsLeft(h: Hall, s: SessionID, now: int): map<RoomID, Room>
    requires s in h.sessions
  {
    var at := h.sessions[s].room;
    if at.Some? && at.value in h.rooms then h.rooms[at.value := Left(h.rooms[at.value], s, now)] else h.rooms
  }

  // ---- starting a match ----

  /** Nobody has been given these before, and no two are the same. */
  ghost predicate FreshTokens(tokens: map<Token, Pending>, minted: seq<Option<Token>>) {
    && (forall i | 0 <= i < |minted| && minted[i].Some? :: minted[i].value !in tokens)
    && (forall i, j | 0 <= i < j < |minted| && minted[i].Some? && minted[j].Some? :: minted[i].value != minted[j].value)
  }

  function TokenSet(minted: seq<Option<Token>>, k: nat): set<Token>
    requires k <= |minted|
  {
    set i | 0 <= i < k && minted[i].Some? :: minted[i].value
  }

  /** A token for each member in turn, until minting fails. */
  method IssueTokens(tokens0: map<Token, Pending>, members: seq<SessionID>, matchID: string, minted: seq<Option<Token>>,
                     now: int)
    returns (tokens: map<Token, Pending>, issued: set<Token>, ok: bool)
    requires |minted| == |members| && FreshTokens(tokens0, minted)
    ensures ok <==> forall i | 0 <= i < |minted| :: minted[i].Some?
    ensures ok ==> issued == TokenSet(minted, |minted|) && tokens.Keys == tokens0.Keys + issued
    ensures ok ==> forall i | 0 <= i < |minted| ::
                     minted[i].value in tokens && tokens[minted[i].value] == Pending(matchID, members[i], now)
    ensures tokens - issued == tokens0
  {
    tokens, issued, ok := tokens0, {}, true;
    for i := 0 to |minted|
      invariant ok && (forall j | 0 <= j < i :: minted[j].Some?) && issued == TokenSet(minted, i)
      invariant tokens.Keys == tokens0.Keys + issued && forall t | t in tokens0 :: tokens[t] == tokens0[t]
      invariant forall j | 0 <= j < i ::
                  minted[j].value in tokens && tokens[minted[j].value] == Pending(matchID, members[j], now)
    {
      match minted[i]
      case None =>
        assert tokens - issued == tokens0;
        return tokens, issued, false;
      case Some(t) =>
        tokens, issued := tokens[t := Pending(matchID, members[i], now)], issued + {t};
    }
    assert tokens - issued == tokens0;
  }

  /** The first k members still connected have been sent their own tokens, and nothing else has changed. */
  ghost predicate SentTokens(h0: Hall, ms: seq<SessionID>, minted: seq<Option<Token>>, matchID: string, k: nat,
                             h: Hall) {
    && |minted| == |ms| && (forall i | 0 <= i < |minted| :: minted[i].Some?) && k <= |ms|
    && h == h0.(sessions := h.sessions) && h.sessions.Keys <= h0.sessions.Keys
    && (forall j | 0 <= j < k && ms[j] in h.sessions ::
          h.sessions[ms[j]].sent == h0.sessions[ms[j]].sent + [MatchStarted(matchID, minted[j].value)])
    && (forall j | k <= j < |ms| && ms[j] in h.sessions :: h.sessions[ms[j]] == h0.sessions[ms[j]])
    && (forall q | q in h.sessions && q !in ms :: h.sessions[q] == h0.sessions[q])
  }

  lemma SentNext(h0: Hall, ms: seq<SessionID>, minted: seq<Option<Token>>, matchID: string, k: nat, h: Hall, h': Hall)
    requires SentTokens(h0, ms, minted, matchID, k, h) && k < |ms| && NoRepeat(ms)
             && h'.sessions.Keys <= h.sessions.Keys
    requires h' == h.(sessions := h'.sessions)
    requires ms[k] in h'.sessions ==>
               h'.sessions[ms[k]].sent == h.sessions[ms[k]].sent + [MatchStarted(matchID, minted[k].value)]
    requires forall q | q in h'.sessions && q != ms[k] :: h'.sessions[q] == h.sessions[q]
    ensures SentTokens(h0, ms, minted, matchID, k + 1, h')
  {
  }

  lemma SentSoFar(h0: Hall, ms: seq<SessionID>, minted: seq<Option<Token>>, matchID: string, k: nat, h: Hall)
    requires SentTokens(h0, ms, minted, matchID, k, h)
    ensures h == h0.(sessions := h.sessions) && h.sessions.Keys <= h0.sessions.Keys && |minted| == |ms|
    ensures forall i | 0 <= i < |minted| :: minted[i].Some?
  {
  }

  lemma NoneSent(h: Hall, ms: seq<SessionID>, minted: seq<Option<Token>>, matchID: string)
    requires |minted| == |ms| && forall i | 0 <= i < |minted| :: minted[i].Some?
    ensures SentTokens(h, ms, minted, matchID, 0, h)
  {
  }

  /**
   The members still connected are each sent their own token; the room has left the open state, so its members stay.
   */
  method SendStarts(h0: Hall, r: RoomID, minted: seq<Option<Token>>, matchID: string, now: int) returns (h: Hall)
    requires Seated(h0) && r in h0.rooms && h0.rooms[r].state == Starting && |minted| == |h0.rooms[r].members|
    requires forall i | 0 <= i < |minted| :: minted[i].Some?
    ensures Seated(h) && Thinned(h0, h, now) && SentTokens(h0, h0.rooms[r].members, minted, matchID, |minted|, h)
  {
    hide *;
    h := h0;
    var ms := h0.rooms[r].members;
    MembersDistinct(h0, r);
    NobodyGone(h0, h, now);
    NoneSent(h, ms, minted, matchID);
    for i := 0 to |ms|
      invariant Seated(h) && Thinned(h0, h, now) && SentTokens(h0, ms, minted, matchID, i, h)
    {
      ghost var was := h;
      SentSoFar(h0, ms, minted, matchID, i, h);
      if ms[i] in h.sessions {
        h := Send(h, ms[i], MatchStarted(matchID, minted[i].value), now);
        StartingKeeps(was, ms[i], r, MatchStarted(matchID, minted[i].value), h, now);
        ThinnedMore(h0, was, h, now);
      }
      SentNext(h0, ms, minted, matchID, i, was, h);
    }
  }

  /** A member thrown out of a room that has started keeps its seat, so nothing about rooms changes. */
  lemma StartingKeeps(h: Hall, s: SessionID, r: RoomID, m: Message, h': Hall, now: int)
    requires Seated(h) && s in h.sessions && r in h.rooms && s in h.rooms[r].members && h.rooms[r].state == Starting
    requires SentTo(h, s, m, h') && (h' == Dropped(h, s, now) || h' == Queued(h, s, m))
    ensures h'.rooms == h.rooms && h'.roomsDirty == h.roomsDirty && h'.tokens == h.tokens
            && h'.sessions.Keys <= h.sessions.Keys
    ensures s in h'.sessions ==> h'.sessions[s].sent == h.sessions[s].sent + [m]
    ensures forall q | q in h'.sessions && q != s :: h'.sessions[q] == h.sessions[q]
  {
  }

  // ---- closing rooms ----

  function Emptied(sessions: map<SessionID, Session>, r: RoomID): map<SessionID, Session> {
    map s | s in sessions :: if sessions[s].room == Some(r) then sessions[s].(room := None) else sessions[s]
  }

  lemma ClosedSeated(h: Hall, r: RoomID)
    requires Seated(h) && r in h.rooms
    ensures Seated(h.(rooms := h.rooms - {r}, sessions := Emptied(h.sessions, r)))
  {
  }

  /** The members' own records of the room are cleared. */
  method ClearSeats(h: Hall, r: RoomID) returns (sessions: map<SessionID, Session>)
    requires Seated(h) && r in h.rooms
    ensures sessions == Emptied(h.sessions, r)
  {
    var ms := h.rooms[r].members;
    sessions := h.sessions;
    for i := 0 to |ms|
      invariant sessions.Keys == h.sessions.Keys
      invariant forall s | s in sessions ::
                  sessions[s] == if s in ms[..i] then h.sessions[s].(room := None) else h.sessions[s]
    {
      assert ms[..i + 1] == ms[..i] + [ms[i]];
      if ms[i] in sessions {
        sessions := sessions[ms[i] := sessions[ms[i]].(room := None)];
      }
    }
    assert ms[..|ms|] == ms;
  }

  lemma StampGood(h: Hall, r: RoomID, since: Option<int>)
    requires Good(h) && r in h.rooms
    ensures Good(h.(rooms := h.rooms[r := h.rooms[r].(emptySince := since)]))
  {
    assert Described(h.rooms[r := h.rooms[r].(emptySince := since)]) == Described(h.rooms);
  }

  lemma VacantSeated(h: Hall, r: RoomID)
    requires Seated(h) && r in h.rooms && h.rooms[r].members == []
    ensures Seated(h.(rooms := h.rooms - {r}))
  {
  }

  /** A room nobody is in goes, and everyone is told. */
  method SweepRoom(h0: Hall, r: RoomID, now: int) returns (h: Hall)
    requires Good(h0) && r in h0.rooms && h0.rooms[r].members == []
    ensures Good(h) && h.rooms.Keys == h0.rooms.Keys - {r} && h.sessions.Keys <= h0.sessions.Keys
            && h.tokens == h0.tokens
    ensures h0.roomsDirty ==> h.roomsDirty
    ensures !h.roomsDirty ==> h.rooms == h0.rooms - {r}
    ensures Thinned(h0.(rooms := h0.rooms - {r}), h, now)
  {
    VacantSeated(h0, r);
    h := Broadcast(h0.(rooms := h0.rooms - {r}), RoomRemoved(r), now);
    if !h.roomsDirty {
      FannedAgrees(h0.(rooms := h0.rooms - {r}), RoomRemoved(r), h, Described(h0.rooms));
      assert Described(h0.rooms) - {r} == Described(h0.rooms - {r});
    }
  }

  class Lobby {
    var hall: Hall

    ghost predicate Valid()
      reads this
    {
      Good(hall)
    }

    constructor ()
      ensures Valid() && hall == Hall(map[], map[], map[], false)
    {
      hall := Hall(map[], map[], map[], false);
    }

    /** A fresh session under an ID nobody has or had a seat under. */
    method HandleConnect(s: SessionID, now: int)
      requires Valid() && s !in hall.sessions && forall r | r in hall.rooms :: s !in hall.rooms[r].members
      modifies this
      ensures Valid() && hall == old(hall).(sessions := old(hall).sessions[s := Session("", None, now, C.NEW, [])])
    {
      NewSessionGood(hall, s, now);
      hall := hall.(sessions := hall.sessions[s := Session("", None, now, C.NEW, [])]);
    }

    method Touch(s: SessionID, now: int)
      requires Valid()
      modifies this
      ensures Valid() && hall.rooms == old(hall).rooms && hall.roomsDirty == old(hall).roomsDirty
    {
      if s in hall.sessions {
        SeenGood(hall, s, now);
        hall := hall.(sessions := hall.sessions[s := hall.sessions[s].(lastSeen := now)]);
      }
    }

    method SendError(s: SessionID, code: string, now: int)
      requires Valid() && s in hall.sessions
      modifies this
      ensures Valid() && SentTo(old(hall), s, Error(code), hall) && Thinned(old(hall), hall, now)
    {
      var h := SendNeutral(hall, s, Error(code), now);
      hall := h;
    }

    /** A fatal error: the session is told if it can be, and thrown out either way. */
    method SendErrorAndClose(s: SessionID, now: int)
      requires Valid() && s in hall.sessions
      modifies this
      ensures Valid() && hall == Dropped(old(hall), s, now)
    {
      DroppedGood(hall, s, now);
      var h := DropSession(hall, s, now);
      hall := h;
    }

    /** Welcome and the whole list; the welcome itself always fits. */
    method HandleHello(s: SessionID, nick: string, now: int)
      requires Valid() && s in hall.sessions
      modifies this
      ensures Valid() && hall.sessions.Keys <= old(hall).sessions.Keys
      ensures nick != "" && s in hall.sessions ==>
                hall.sessions[s].nick == nick && Fold(hall.sessions[s].sent) == Described(old(hall).rooms)
                  && Shows(Fold(hall.sessions[s].sent), old(hall).rooms)
      ensures nick == "" ==> SentTo(old(hall), s, Error("BAD_REQUEST"), hall)
      ensures !hall.roomsDirty ==> hall.rooms == old(hall).rooms
    {
      if nick == "" {
        SendError(s, "BAD_REQUEST", now);
        return;
      }
      Greet(s, nick, now);
      DescribedShows(old(hall).rooms);
      hide *;
    }

    method Greet(s: SessionID, nick: string, now: int)
      requires Valid() && s in hall.sessions && nick != ""
      modifies this
      ensures Valid() && hall.sessions.Keys <= old(hall).sessions.Keys
      ensures s in hall.sessions ==>
                hall.sessions[s].nick == nick && Fold(hall.sessions[s].sent) == Described(old(hall).rooms)
      ensures !hall.roomsDirty ==> hall.rooms == old(hall).rooms
    {
      var list := BuildRoomList(hall.rooms);
      var h := hall.(sessions := hall.sessions[s := hall.sessions[s].(nick := nick,
                                                                      sent := hall.sessions[s].sent +
                                                                        [Welcome(nick)])]);
      ghost var h1 := h;
      assert Seated(h1);
      h := Send(h, s, RoomList(list), now);
      if s in h.sessions { FoldMore(h1.sessions[s].sent, RoomList(list)); }
      hall := h;
    }

    /** A new room for its creator alone, under an ID no room has. */
    method HandleCreateRoom(s: SessionID, r: RoomID, name: string, max: nat, level: Option<Level>, now: int)
      requires Valid() && s in hall.sessions && r !in hall.rooms
      modifies this
      ensures Valid() && hall.tokens == old(hall).tokens
      ensures var me := old(hall).sessions[s];
              if me.nick == "" then SentTo(old(hall), s, Error("BAD_REQUEST"), hall)
              else if me.room.Some? then SentTo(old(hall), s, Error("ALREADY_IN_ROOM"), hall)
              else if max < 2 || max > 8 then SentTo(old(hall), s, Error("BAD_REQUEST"), hall)
              else if level.None? then SentTo(old(hall), s, Error("BAD_LEVEL"), hall)
              else hall.rooms.Keys == old(hall).rooms.Keys + {r}
                   && (!hall.roomsDirty ==>
                       hall.rooms == old(hall).rooms[r := Room(name, s, max, level.value, Open, [s], "", None)])
    {
      var me := hall.sessions[s];
      if me.nick == "" {
        SendError(s, "BAD_REQUEST", now);
        return;
      }
      if me.room.Some? {
        SendError(s, "ALREADY_IN_ROOM", now);
        return;
      }
      if max < 2 || max > 8 {
        SendError(s, "BAD_REQUEST", now);
        return;
      }
      if level.None? {
        SendError(s, "BAD_LEVEL", now);
        return;
      }
      var h := AddRoom(hall, s, r, Room(name, s, max, level.value, Open, [s], "", None), now);
      hall := h;
    }

    /** One more member of an open room with a place left; every refusal changes no room. */
    method HandleJoinRoom(s: SessionID, r: RoomID, now: int)
      requires Valid() && s in hall.sessions
      modifies this
      ensures Valid() && hall.tokens == old(hall).tokens && hall.rooms.Keys == old(hall).rooms.Keys
      ensures var me, rooms := old(hall).sessions[s], old(hall).rooms;
              if me.nick == "" then SentTo(old(hall), s, Error("BAD_REQUEST"), hall)
              else if me.room.Some? then SentTo(old(hall), s, Error("ALREADY_IN_ROOM"), hall)
              else if r !in rooms || rooms[r].state != Open then SentTo(old(hall), s, Error("ROOM_GONE"), hall)
              else if |rooms[r].members| >= rooms[r].max then SentTo(old(hall), s, Error("ROOM_FULL"), hall)
              else
                && (!hall.roomsDirty ==>
                    hall.rooms == rooms[r := rooms[r].(members := rooms[r].members + [s])])
                && (s in hall.sessions ==> hall.sessions[s].room == Some(r))
    {
      hide Synced, Seated;
      var me := hall.sessions[s];
      if me.nick == "" {
        SendError(s, "BAD_REQUEST", now);
        return;
      }
      if me.room.Some? {
        SendError(s, "ALREADY_IN_ROOM", now);
        return;
      }
      if r !in hall.rooms || hall.rooms[r].state != Open {
        SendError(s, "ROOM_GONE", now);
        return;
      }
      if |hall.rooms[r].members| >= hall.rooms[r].max {
        SendError(s, "ROOM_FULL", now);
        return;
      }
      JoinSeated(hall, s, r);
      var h := hall.(rooms := hall.rooms[r := hall.rooms[r].(members := hall.rooms[r].members + [s])],
                     sessions := hall.sessions[s := me.(room := Some(r))]);
      h := Announce(h, r, now);
      hall := h;
    }

    method HandleLeaveRoom(s: SessionID, now: int)
      requires Valid() && s in hall.sessions
      modifies this
      ensures Valid() && hall.tokens == old(hall).tokens && hall.rooms.Keys == old(hall).rooms.Keys
      ensures s in hall.sessions ==> hall.sessions[s].room == None
      ensures !hall.roomsDirty ==> hall.rooms == RoomsLeft(old(hall), s, now)
      ensures old(hall).sessions[s].room.None? ==> SentTo(old(hall), s, Error("NO_ROOM"), hall)
    {
      hide Synced, Left;
      var at := hall.sessions[s].room;
      if at.None? {
        SendError(s, "NO_ROOM", now);
        return;
      }
      var h := RemoveFromRoom(hall, s, at.value, now);
      hall := h;
    }

    /** A closed connection gives up its place in a room that has not started; the session is gone. */
    method HandleDisconnect(s: SessionID, now: int)
      requires Valid()
      modifies this
      ensures Valid() && s !in hall.sessions && hall.tokens == old(hall).tokens
              && (old(hall).roomsDirty ==> hall.roomsDirty)
      ensures Thinned(old(hall), hall, now) && SameSessions(old(hall), hall)
      ensures s !in old(hall).sessions ==> hall == old(hall)
    {
      var h := Disconnect(hall, s, now);
      hall := h;
    }

    /** The host of an open room with company starts its match; a failure leaves every room and token as it was. */
    method HandleStartMatch(s: SessionID, matchID: string, minted: seq<Option<Token>>, created: bool, now: int)
      requires Valid() && s in hall.sessions && FreshTokens(hall.tokens, minted)
      requires Startable(hall, s) ==> |minted| == |hall.rooms[hall.sessions[s].room.value].members|
      modifies this
      ensures Valid() && hall.rooms.Keys == old(hall).rooms.Keys && hall.sessions.Keys <= old(hall).sessions.Keys
      ensures Startable(old(hall), s) && created && (forall i | 0 <= i < |minted| :: minted[i].Some?) ==>
                var r := old(hall).sessions[s].room.value;
                && (!hall.roomsDirty ==>
                    hall.rooms == old(hall).rooms[r := old(hall).rooms[r].(state := Starting, matchID := matchID)])
                && (forall i | 0 <= i < |minted| :: minted[i].value in hall.tokens
                      && hall.tokens[minted[i].value] == Pending(matchID, old(hall).rooms[r].members[i], now))
                && (exists listed :: StartedBy(old(hall), r, matchID, minted, listed, now, hall))
      ensures !(Startable(old(hall), s) && created && forall i | 0 <= i < |minted| :: minted[i].Some?) ==>
                hall.tokens == old(hall).tokens && (!hall.roomsDirty ==> hall.rooms == old(hall).rooms)
      ensures var at, rooms := old(hall).sessions[s].room, old(hall).rooms;
              if at.None? || at.value !in rooms then SentTo(old(hall), s, Error("NO_ROOM"), hall)
              else if rooms[at.value].host != s then SentTo(old(hall), s, Error("NOT_HOST"), hall)
              else if |rooms[at.value].members| < 2 || rooms[at.value].state != Open then
                SentTo(old(hall), s, Error("BAD_REQUEST"), hall)
              else Startable(old(hall), s)
    {
      hide Synced, Seated;
      var at := hall.sessions[s].room;
      if at.None? || at.value !in hall.rooms {
        SendError(s, "NO_ROOM", now);
        return;
      }
      var r := at.value;
      if hall.rooms[r].host != s {
        SendError(s, "NOT_HOST", now);
        return;
      }
      if |hall.rooms[r].members| < 2 || hall.rooms[r].state != Open {
        SendError(s, "BAD_REQUEST", now);
        return;
      }
      ghost var listed;
      var h, ok;
      h, ok, listed := TryStart(hall, s, r, matchID, minted, created, now);
      hall := h;
    }

    /** The match is over: its room goes, its members are free, and everyone gets the list. */
    method HandleMatchEnded(matchID: string, now: int)
      requires Valid()
      modifies this
      ensures Valid() && hall.tokens == old(hall).tokens && hall.rooms.Keys <= old(hall).rooms.Keys
      ensures |old(hall).rooms.Keys - hall.rooms.Keys| <= 1
      ensures forall r | r in old(hall).rooms && r !in hall.rooms :: old(hall).rooms[r].matchID == matchID
      ensures (exists r | r in old(hall).rooms :: old(hall).rooms[r].matchID == matchID) ==>
                hall.rooms.Keys != old(hall).rooms.Keys
    {
      hide Synced, Seated;
      var h := hall;
      if r :| r in h.rooms && h.rooms[r].matchID == matchID {
        ClosedSeated(h, r);
        var sessions := ClearSeats(h, r);
        h := h.(rooms := h.rooms - {r}, sessions := sessions);
        assert old(hall).rooms.Keys - h.rooms.Keys == {r};
      } else {
        assert hall.rooms.Keys - h.rooms.Keys == {};
      }
      ghost var listed;
      h, listed := BroadcastRoomList(h, now);
      hall := h;
    }

    /** The host throws a member out of the room; the tokens minted for it go too. */
    method HandleKick(s: SessionID, r: RoomID, target: SessionID, now: int)
      requires Valid() && s in hall.sessions
      modifies this
      ensures Valid() && hall.rooms.Keys == old(hall).rooms.Keys
      ensures var sessions, rooms := old(hall).sessions, old(hall).rooms;
              if sessions[s].nick == "" then SentTo(old(hall), s, Error("BAD_REQUEST"), hall)
              else if r !in rooms then SentTo(old(hall), s, Error("ROOM_GONE"), hall)
              else if rooms[r].host != s then SentTo(old(hall), s, Error("NOT_HOST"), hall)
              else if target == s then SentTo(old(hall), s, Error("BAD_REQUEST"), hall)
              else if target !in sessions || sessions[target].room != Some(r) then
                SentTo(old(hall), s, Error("NOT_IN_ROOM"), hall)
              else
                && (forall t :: t in hall.tokens <==> t in old(hall).tokens && old(hall).tokens[t].session != target)
                && (forall t | t in hall.tokens :: hall.tokens[t] == old(hall).tokens[t])
                && (target in hall.sessions ==> hall.sessions[target].room == None)
                && (!hall.roomsDirty ==> hall.rooms == rooms[r := Left(rooms[r], target, now)])
    {
      hide Synced, Left;
      if hall.sessions[s].nick == "" {
        SendError(s, "BAD_REQUEST", now);
        return;
      }
      if r !in hall.rooms {
        SendError(s, "ROOM_GONE", now);
        return;
      }
      if hall.rooms[r].host != s {
        SendError(s, "NOT_HOST", now);
        return;
      }
      if target == s {
        SendError(s, "BAD_REQUEST", now);
        return;
      }
      if target !in hall.sessions || hall.sessions[target].room != Some(r) {
        SendError(s, "NOT_IN_ROOM", now);
        return;
      }
      var h := Evict(hall, target, r, now);
      hall := h;
    }

    /**
     A chat line from a member within its rate goes to the room, the sender included; every other outcome is one
     error. `space` says how many of the copies each client's queue takes while the relay lasts.
     */
    method HandleChat(s: SessionID, r: RoomID, text: string, space: SessionID -> nat, now: int)
      requires Valid() && s in hall.sessions
      modifies this
      ensures Valid() && hall.tokens == old(hall).tokens && Thinned(old(hall), hall, now)
      ensures var me := old(hall).sessions[s];
              if me.nick == "" || text == "" then SentTo(old(hall), s, Error("BAD_REQUEST"), hall)
              else if |text| > 1024 then SentTo(old(hall), s, Error("TEXT_TOO_LONG"), hall)
              else if me.room != Some(r) || r !in old(hall).rooms then SentTo(old(hall), s, Error("NOT_IN_ROOM"), hall)
              else
                var asked := old(hall).(sessions := old(hall).sessions[s := me.(chat := C.Step(me.chat, now))]);
                if !C.Permits(me.chat, now) then SentTo(asked, s, Error("RATE_LIMITED"), hall)
                else Relayed(asked, asked.rooms[r].members, TriesFor(asked, r, space), space, ChatRelay(me.nick, text),
                             hall)
    {
      hide Relayed, SentTo, TriesFor, C.Permits, C.Step;
      var h := Chat(hall, s, r, text, space, now);
      hall := h;
    }

    /**
     Exactly the rooms empty since the threshold go; a room found empty for the first time is stamped, and the stamp
     of one with members again is taken off.
     */
    method SweepEmptyRooms(now: int)
      requires Valid()
      modifies this
      ensures Valid() && hall.tokens == old(hall).tokens && Sweeping(old(hall), {}, now, hall)
    {
      var h := Sweep(hall, now);
      hall := h;
    }

    /** Every session idle too long is disconnected; nobody else goes but those whose queue is full on the way. */
    method ExpireIdleSessions(now: int)
      requires Valid()
      modifies this
      ensures Valid() && hall.tokens == old(hall).tokens && Thinned(old(hall), hall, now)
              && SameSessions(old(hall), hall)
      ensures forall s | s in hall.sessions :: now - hall.sessions[s].lastSeen <= 60_000_000_000
      ensures (forall s | s in old(hall).sessions :: now - old(hall).sessions[s].lastSeen <= 60_000_000_000) ==>
                hall == old(hall)
    {
      var h := Expire(hall, now);
      hall := h;
    }

    method ExpireTokens(now: int)
      requires Valid()
      modifies this
      ensures Valid() && hall == old(hall).(tokens := hall.tokens)
      ensures forall t ::
                t in hall.tokens <==> t in old(hall).tokens && now - old(hall).tokens[t].issuedAt <= 60_000_000_000
    {
      hall := hall.(tokens := map t | t in hall.tokens && now - hall.tokens[t].issuedAt <= TOKEN_TTL :: hall.tokens[t]);
    }

    /**
     The end of an actor step with nothing left in the inbox: every client that has said hello holds exactly the
     rooms.
     */
    method Flush(now: int)
      requires Valid()
      modifies this
      ensures Valid() && !hall.roomsDirty && hall.tokens == old(hall).tokens
      ensures forall s | s in hall.sessions && hall.sessions[s].nick != "" ::
                Fold(hall.sessions[s].sent) == Described(hall.rooms)
      ensures forall s | s in hall.sessions && hall.sessions[s].nick != "" ::
                Shows(Fold(hall.sessions[s].sent), hall.rooms)
    {
      var h := FlushRoomsDirty(hall, now);
      hall := h;
    }
  }

  /** The sessions still there are as they were but for what they have been sent. */
  ghost predicate SameSessions(h0: Hall, h: Hall) {
    forall q | q in h.sessions :: q in h0.sessions && h.sessions[q] == h0.sessions[q].(sent := h.sessions[q].sent)
  }

  lemma SessionsAre(h0: Hall, h: Hall)
    ensures SameSessions(h0, h) <==>
              forall q | q in h.sessions ::
                q in h0.sessions && h.sessions[q] == h0.sessions[q].(sent := h.sessions[q].sent)
  {
  }

  lemma GoodIsSeated(h: Hall)
    requires Good(h)
    ensures Seated(h)
  {
  }

  /** A place in a room that has not started, freed. */
  function Freed(h: Hall, s: SessionID, now: int): Hall
    requires s in h.sessions
  {
    var at := h.sessions[s].room;
    if at.Some? && at.value in h.rooms && h.rooms[at.value].state == Open then Unseated(h, s, at.value, now) else h
  }

  lemma FreedIs(h: Hall, s: SessionID, now: int)
    requires s in h.sessions
    ensures var at := h.sessions[s].room;
            Freed(h, s, now) == if at.Some? && at.value in h.rooms && h.rooms[at.value].state == Open then
                                  Unseated(h, s, at.value, now) else h
  {
  }

  lemma FreedThins(h: Hall, s: SessionID, now: int)
    requires Seated(h) && s in h.sessions
    ensures Freed(h, s, now).rooms.Keys == h.rooms.Keys && Freed(h, s, now).sessions.Keys == h.sessions.Keys
    ensures forall x | x in h.rooms :: ThinnedRoom(h.rooms[x], {s}, now, Freed(h, s, now).rooms[x])
  {
    hide ThinnedRoom, Left;
    forall x | x in h.rooms
      ensures ThinnedRoom(h.rooms[x], {s}, now, Freed(h, s, now).rooms[x])
    {
      if h.sessions[s].room == Some(x) && h.rooms[x].state == Open {
        LeftThins(h.rooms[x], s, now);
      } else {
        OtherThins(h.rooms[x], s, now);
      }
    }
  }

  /** With its place freed and then without the session, the hall has lost exactly what it would by throwing it out. */
  lemma DisconnectThins(h0: Hall, s: SessionID, h: Hall, now: int)
    requires Seated(h0) && s in h0.sessions && Thinned(Freed(h0, s, now), h, now)
    ensures Thinned(h0, h.(sessions := h.sessions - {s}), now)
  {
    FreedThins(h0, s, now);
    var mid := Freed(h0, s, now);
    var g := mid.sessions.Keys - h.sessions.Keys;
    assert h0.sessions.Keys - (h.sessions - {s}).Keys == {s} + g;
    hide ThinnedRoom, Freed, Seated;
    forall x | x in h0.rooms
      ensures ThinnedRoom(h0.rooms[x], {s} + g, now, h.rooms[x])
    {
      ThinnedRoomMore(h0.rooms[x], {s}, mid.rooms[x], g, h.rooms[x], now);
    }
  }

  function TokensWithout(tokens: map<Token, Pending>, target: SessionID): map<Token, Pending> {
    map t | t in tokens && tokens[t].session != target :: tokens[t]
  }

  /**
   A line let through is relayed; otherwise the sender is told, at the cost of a call to its bucket if it came that
   far.
   */
  ghost predicate Chatted(h0: Hall, s: SessionID, r: RoomID, text: string, space: SessionID -> nat, now: int, h: Hall)
    requires s in h0.sessions
  {
    var asked, me := Charged(h0, s, now), h0.sessions[s];
    if me.nick == "" || text == "" then SentTo(h0, s, Error("BAD_REQUEST"), h)
    else if |text| > CHAT_MAX then SentTo(h0, s, Error("TEXT_TOO_LONG"), h)
    else if me.room != Some(r) || r !in h0.rooms then SentTo(h0, s, Error("NOT_IN_ROOM"), h)
    else if !C.Permits(me.chat, now) then SentTo(asked, s, Error("RATE_LIMITED"), h)
    else Relayed(asked, asked.rooms[r].members, TriesFor(asked, r, space), space, ChatRelay(h0.sessions[s].nick, text),
                 h)
  }

  method Refuse(h0: Hall, s: SessionID, code: string, now: int) returns (h: Hall)
    requires Good(h0) && s in h0.sessions
    ensures Good(h) && h.tokens == h0.tokens && Thinned(h0, h, now) && SentTo(h0, s, Error(code), h)
  {
    h := SendNeutral(h0, s, Error(code), now);
  }

  method Chat(h0: Hall, s: SessionID, r: RoomID, text: string, space: SessionID -> nat, now: int) returns (h: Hall)
    requires Good(h0) && s in h0.sessions
    ensures Good(h) && h.tokens == h0.tokens && Thinned(h0, h, now) && Chatted(h0, s, r, text, space, now, h)
  {
    ChargedGood(h0, s, now);
    assert Neutral(ChatRelay(h0.sessions[s].nick, text));
    hide Good, SentTo, Relayed, TriesFor, Thinned;
    var me := h0.sessions[s];
    if me.nick == "" || text == "" {
      h := Refuse(h0, s, "BAD_REQUEST", now);
    } else if |text| > CHAT_MAX {
      h := Refuse(h0, s, "TEXT_TOO_LONG", now);
    } else if me.room != Some(r) || r !in h0.rooms {
      h := Refuse(h0, s, "NOT_IN_ROOM", now);
    } else {
      var asked := h0.(sessions := h0.sessions[s := me.(chat := C.Step(me.chat, now))]);
      if !C.Permits(me.chat, now) {
        h := Refuse(asked, s, "RATE_LIMITED", now);
      } else {
        h := RelayAll(asked, r, ChatRelay(me.nick, text), space, now);
      }
      ThinnedMore(h0, asked, h, now);
    }
  }

  // ---- idle sessions and empty rooms ----

  method Disconnect(h0: Hall, s: SessionID, now: int) returns (h: Hall)
    requires Good(h0)
    ensures Good(h) && s !in h.sessions && h.tokens == h0.tokens && (h0.roomsDirty ==> h.roomsDirty)
    ensures Thinned(h0, h, now) && SameSessions(h0, h)
    ensures s !in h0.sessions ==> h == h0
  {
    hide *;
    h := h0;
    SessionsAre(h0, h0);
    NobodyGone(h0, h0, now);
    if s !in h0.sessions {
      return;
    }
    GoodIsSeated(h0);
    var at := h0.sessions[s].room;
    if at.Some? && at.value in h0.rooms && h0.rooms[at.value].state == Open {
      h := RemoveFromRoom(h0, s, at.value, now);
    }
    FreedIs(h0, s, now);
    DisconnectThins(h0, s, h, now);
    GoneGood(h, s);
    h := h.(sessions := h.sessions - {s});
    SessionsAre(h0, h);
  }

  predicate Idle(ss: Session, now: int) { now - ss.lastSeen > IDLE_TIMEOUT }

  method Expire(h0: Hall, now: int) returns (h: Hall)
    requires Good(h0)
    ensures Good(h) && h.tokens == h0.tokens && Thinned(h0, h, now) && SameSessions(h0, h)
    ensures forall s | s in h.sessions :: !Idle(h.sessions[s], now)
    ensures (forall s | s in h0.sessions :: !Idle(h0.sessions[s], now)) ==> h == h0
  {
    hide *;
    h := h0;
    var todo := h0.sessions.Keys;
    SessionsAre(h0, h0);
    NobodyGone(h0, h0, now);
    while todo != {}
      invariant Good(h) && h.tokens == h0.tokens && Thinned(h0, h, now) && SameSessions(h0, h)
      invariant forall s | s in h.sessions && s !in todo :: !Idle(h.sessions[s], now)
      invariant (forall s | s in h0.sessions :: !Idle(h0.sessions[s], now)) ==> h == h0
      decreases todo
    {
      var s :| s in todo;
      todo := todo - {s};
      if s in h.sessions && Idle(h.sessions[s], now) {
        ghost var was := h;
        SameIdle(h0, was, now);
        h := Disconnect(h, s, now);
        ThinnedMore(h0, was, h, now);
        SameIdle(was, h, now);
        SessionsAre(h0, was);
        SessionsAre(was, h);
        SessionsAre(h0, h);
      }
    }
  }

  lemma SameIdle(h0: Hall, h: Hall, now: int)
    requires SameSessions(h0, h)
    ensures forall q | q in h.sessions :: q in h0.sessions && (Idle(h.sessions[q], now) <==> Idle(h0.sessions[q], now))
  {
  }

  method Sweep(h0: Hall, now: int) returns (h: Hall)
    requires Good(h0)
    ensures Good(h) && h.tokens == h0.tokens && Sweeping(h0, {}, now, h)
  {
    hide *;
    h := h0;
    var todo := h.rooms.Keys;
    NothingSwept(h, now);
    while todo != {}
      invariant Good(h) && h.tokens == h0.tokens && Sweeping(h0, todo, now, h)
      decreases todo
    {
      var r :| r in todo;
      SweepingAt(h0, todo, now, h, r);
      assert todo - {r} + {r} == todo;
      todo := todo - {r};
      h := SweepOne(h0, todo, h, r, now);
    }
  }

  method SweepOne(ghost h0: Hall, ghost todo: set<RoomID>, h: Hall, r: RoomID, now: int) returns (h': Hall)
    requires Good(h) && r in h.rooms && r in h0.rooms && r !in todo && Sweeping(h0, todo + {r}, now, h)
    ensures Good(h') && h'.tokens == h.tokens && Sweeping(h0, todo, now, h')
  {
    hide Good, Sweeping, Thinned;
    h' := h;
    var room := h.rooms[r];
    if room.members == [] {
      if room.emptySince.None? {
        StampGood(h, r, Some(now));
        h' := h.(rooms := h.rooms[r := room.(emptySince := Some(now))]);
      } else if now - room.emptySince.value >= GC_THRESHOLD {
        h' := SweepRoom(h, r, now);
        SweptAway(h0, todo, now, h, r, h');
        return;
      }
    } else if room.emptySince.Some? {
      StampGood(h, r, None);
      h' := h.(rooms := h.rooms[r := room.(emptySince := None)]);
    }
    assert h'.rooms == h.rooms[r := Restamp(room, now)];
    Stamped(h0, todo, now, h, r, h');
  }

  /** The stamp of a room looked at. */
  function Restamp(room: Room, now: int): Room {
    room.(emptySince := if room.members != [] then None
                        else if room.emptySince.None? then Some(now) else room.emptySince)
  }

  /** Empty long enough. */
  predicate Stale(r: Room, now: int) {
    r.members == [] && r.emptySince.Some? && now - r.emptySince.value >= GC_THRESHOLD
  }

  function FreshStamp(r0: Room, now: int, r: Room): Option<int> {
    if r.members != [] then None else if r0.members == [] && r0.emptySince.Some? then r0.emptySince else Some(now)
  }

  /** A room that stays, its stamp brought up to date. */
  ghost predicate Restamped(r0: Room, gone: set<SessionID>, now: int, r: Room) {
    && ThinnedRoom(r0, gone, now,
                   r.(emptySince := if r.members == [] && r0.members != [] then Some(now) else r0.emptySince))
    && r.emptySince == FreshStamp(r0, now, r)
  }

  /** The rooms still to be looked at have only lost sessions; of the others exactly the stale ones are gone. */
  ghost predicate Sweeping(h0: Hall, todo: set<RoomID>, now: int, h: Hall) {
    && todo <= h0.rooms.Keys && h.rooms.Keys <= h0.rooms.Keys && h.sessions.Keys <= h0.sessions.Keys
    && forall r | r in h0.rooms ::
         if r in todo then r in h.rooms && ThinnedRoom(h0.rooms[r], h0.sessions.Keys - h.sessions.Keys, now, h.rooms[r])
         else if Stale(h0.rooms[r], now) then r !in h.rooms
         else r in h.rooms && Restamped(h0.rooms[r], h0.sessions.Keys - h.sessions.Keys, now, h.rooms[r])
  }

  lemma NothingSwept(h: Hall, now: int)
    ensures Sweeping(h, h.rooms.Keys, now, h)
  {
    NobodyGone(h, h, now);
    hide ThinnedRoom;
  }

  lemma SweepingAt(h0: Hall, todo: set<RoomID>, now: int, h: Hall, r: RoomID)
    requires Sweeping(h0, todo, now, h) && r in todo
    ensures r in h.rooms && r in h0.rooms
  {
  }

  lemma Stamped(h0: Hall, todo: set<RoomID>, now: int, h: Hall, r: RoomID, h': Hall)
    requires Sweeping(h0, todo + {r}, now, h) && r !in todo && r in h.rooms && r in h0.rooms
    requires h' == h.(rooms := h.rooms[r := Restamp(h.rooms[r], now)]) && !Stale(h.rooms[r], now)
    ensures Sweeping(h0, todo, now, h')
  {
    hide ThinnedRoom, Restamped, Stale, Restamp;
    var g := h0.sessions.Keys - h.sessions.Keys;
    assert h'.sessions == h.sessions;
    RestampIs(h0.rooms[r], g, h.rooms[r], now);
    forall x | x in h0.rooms && x != r
      ensures x in todo <==> x in todo + {r}
      ensures (x in h'.rooms <==> x in h.rooms) && (x in h.rooms ==> h'.rooms[x] == h.rooms[x])
    {
    }
  }

  lemma RestampIs(a: Room, g: set<SessionID>, b: Room, now: int)
    requires ThinnedRoom(a, g, now, b) && !Stale(b, now)
    ensures !Stale(a, now) && Restamped(a, g, now, Restamp(b, now))
  {
    SiftIs(a.members, g);
  }

  lemma RestampedMore(a: Room, g: set<SessionID>, b: Room, g': set<SessionID>, c: Room, now: int)
    requires Restamped(a, g, now, b) && ThinnedRoom(b, g', now, c)
    ensures Restamped(a, g + g', now, c)
  {
    var b', c' := b.(emptySince := if b.members == [] && a.members != [] then Some(now) else a.emptySince),
                  c.(emptySince := if c.members == [] && a.members != [] then Some(now) else a.emptySince);
    SiftIs(b.members, g');
    SiftIs(a.members, g);
    assert ThinnedRoom(b', g', now, c');
    ThinnedRoomMore(a, g, b', g', c', now);
  }

  lemma SweptAway(h0: Hall, todo: set<RoomID>, now: int, h: Hall, r: RoomID, h': Hall)
    requires Sweeping(h0, todo + {r}, now, h) && r !in todo && r in h.rooms && r in h0.rooms
    requires Stale(h.rooms[r], now) && Thinned(h.(rooms := h.rooms - {r}), h', now)
    ensures Sweeping(h0, todo, now, h')
  {
    var g, g' := h0.sessions.Keys - h.sessions.Keys, h.sessions.Keys - h'.sessions.Keys;
    assert h0.sessions.Keys - h'.sessions.Keys == g + g';
    assert ThinnedRoom(h0.rooms[r], g, now, h.rooms[r]);
    assert Stale(h0.rooms[r], now);
    hide ThinnedRoom, Restamped, Stale;
    forall x | x in h0.rooms && x != r
      ensures x in todo ==> x in h'.rooms && ThinnedRoom(h0.rooms[x], g + g', now, h'.rooms[x])
      ensures x !in todo && Stale(h0.rooms[x], now) ==> x !in h'.rooms
      ensures x !in todo && !Stale(h0.rooms[x], now) ==>
                x in h'.rooms && Restamped(h0.rooms[x], g + g', now, h'.rooms[x])
    {
      if x in todo {
        ThinnedRoomMore(h0.rooms[x], g, h.rooms[x], g', h'.rooms[x], now);
      } else if !Stale(h0.rooms[x], now) {
        RestampedMore(h0.rooms[x], g, h.rooms[x], g', h'.rooms[x], now);
      }
    }
  }

  /** The hall once the session's bucket has been asked. */
  function Charged(h: Hall, s: SessionID, now: int): Hall
    requires s in h.sessions
  {
    h.(sessions := h.sessions[s := h.sessions[s].(chat := C.Step(h.sessions[s].chat, now))])
  }

  lemma ChargedGood(h: Hall, s: SessionID, now: int)
    requires Good(h) && s in h.sessions
    ensures Good(Charged(h, s, now)) && Thinned(h, Charged(h, s, now), now)
  {
    var h' := Charged(h, s, now);
    assert forall q | q in h'.sessions :: h'.sessions[q].sent == h.sessions[q].sent;
    NobodyGone(h, h', now);
  }

  predicate Startable(h: Hall, s: SessionID)
    requires s in h.sessions
  {
    var at := h.sessions[s].room;
    at.Some? && at.value in h.rooms && h.rooms[at.value].host == s && |h.rooms[at.value].members| >= 2
      && h.rooms[at.value].state == Open
  }

  lemma EvictedSeat(h0: Hall, target: SessionID, r: RoomID, h: Hall, now: int)
    requires Seated(h0) && r in h0.rooms && target in h0.sessions && h0.sessions[target].room == Some(r)
    requires h == Dropped(h0, target, now) || h == Queued(h0, target, Kicked(r))
    ensures target in h.sessions ==> h.sessions[target].room == Some(r)
    ensures !h.roomsDirty ==> h.rooms == h0.rooms
    ensures h.rooms.Keys == h0.rooms.Keys && h.tokens == h0.tokens
  {
  }

  lemma TokensGood(h: Hall, tokens: map<Token, Pending>)
    requires Good(h)
    ensures Good(h.(tokens := tokens))
  {
  }

  /** The member is told and out, and its tokens void. */
  method Evict(h0: Hall, target: SessionID, r: RoomID, now: int) returns (h: Hall)
    requires Good(h0) && r in h0.rooms && target in h0.sessions && h0.sessions[target].room == Some(r)
    ensures Good(h) && h.rooms.Keys == h0.rooms.Keys && h.tokens == TokensWithout(h0.tokens, target)
    ensures target in h.sessions ==> h.sessions[target].room == None
    ensures !h.roomsDirty ==> h.rooms == h0.rooms[r := Left(h0.rooms[r], target, now)]
  {
    hide Synced, Seated, Left, Dropped, TokensWithout;
    h := SendNeutral(h0, target, Kicked(r), now);
    EvictedSeat(h0, target, r, h, now);
    h := RemoveFromRoom(h, target, r, now);
    TokensGood(h, TokensWithout(h.tokens, target));
    h := h.(tokens := TokensWithout(h.tokens, target));
  }

  /** Everything after the checks. */
  method TryStart(h0: Hall, s: SessionID, r: RoomID, matchID: string, minted: seq<Option<Token>>, created: bool,
                  now: int)
    returns (h: Hall, ok: bool, ghost listed: Message)
    requires Good(h0) && s in h0.sessions && FreshTokens(h0.tokens, minted)
    requires r in h0.rooms && h0.rooms[r].state == Open && |minted| == |h0.rooms[r].members|
             && h0.sessions[s].room == Some(r)
    ensures Good(h) && h.rooms.Keys == h0.rooms.Keys && h.sessions.Keys <= h0.sessions.Keys
    ensures ok <==> created && forall i | 0 <= i < |minted| :: minted[i].Some?
    ensures ok ==> (!h.roomsDirty ==> h.rooms == h0.rooms[r := h0.rooms[r].(state := Starting, matchID := matchID)])
    ensures ok ==> forall i | 0 <= i < |minted| ::
                     minted[i].value in h.tokens
                       && h.tokens[minted[i].value] == Pending(matchID, h0.rooms[r].members[i], now)
    ensures !ok ==> h.tokens == h0.tokens && h.rooms == h0.rooms
    ensures ok ==> StartedBy(h0, r, matchID, minted, listed, now, h)
  {
    listed := RoomList([]);
    var starting := h0.(rooms := h0.rooms[r := h0.rooms[r].(state := Starting)]);
    var tokens, issued, all := IssueTokens(h0.tokens, h0.rooms[r].members, matchID, minted, now);
    ok := all && created;
    if !ok {
      h := Send(starting, s, Error("START_FAILED"), now);
      RolledBack(h0, s, r, starting, Error("START_FAILED"), h, now);
      h := h.(rooms := h.rooms[r := h.rooms[r].(state := Open)], tokens := tokens - issued);
      return;
    }
    h := starting.(rooms := h0.rooms[r := h0.rooms[r].(state := Starting, matchID := matchID)], tokens := tokens);
    assert Seated(h);
    hide *;
    h, listed := Begin(h0, h, r, matchID, minted, now);
  }

  method Begin(ghost h0: Hall, begun: Hall, r: RoomID, matchID: string, minted: seq<Option<Token>>, now: int)
    returns (h: Hall, ghost listed: Message)
    requires Seated(begun) && r in h0.rooms && |minted| == |h0.rooms[r].members|
             && forall i | 0 <= i < |minted| :: minted[i].Some?
    requires begun == h0.(rooms := h0.rooms[r := h0.rooms[r].(state := Starting, matchID := matchID)],
                          tokens := begun.tokens)
    ensures Good(h) && h.rooms.Keys == h0.rooms.Keys && h.sessions.Keys <= h0.sessions.Keys && h.tokens == begun.tokens
    ensures !h.roomsDirty ==> h.rooms == begun.rooms
    ensures StartedBy(h0, r, matchID, minted, listed, now, h)
  {
    hide *;
    ghost var sent;
    h := SendStarts(begun, r, minted, matchID, now);
    sent := h;
    SentSoFar(begun, begun.rooms[r].members, minted, matchID, |minted|, sent);
    h, listed := BroadcastRoomList(h, now);
    ThinnedMore(begun, sent, h, now);
    StartsHeard(begun, r, matchID, minted, sent, listed, h);
    BegunIs(h0, begun, r, matchID, minted, listed, now, h);
  }

  lemma BegunIs(h0: Hall, begun: Hall, r: RoomID, matchID: string, minted: seq<Option<Token>>, listed: Message,
                now: int, h: Hall)
    requires r in h0.rooms && r in begun.rooms
    requires begun == h0.(rooms := h0.rooms[r := h0.rooms[r].(state := Starting, matchID := matchID)],
                          tokens := begun.tokens)
    requires Thinned(begun, h, now) && listed.RoomList? && AsMap(listed.rooms) == Described(begun.rooms)
    requires SentStarts(begun, begun.rooms[r].members, matchID, minted, listed, h)
    ensures StartedBy(h0, r, matchID, minted, listed, now, h)
  {
    hide ThinnedRoom;
  }

  /** Every member still connected was sent its own token, then everyone the rooms with the started one among them. */
  ghost predicate StartedBy(h0: Hall, r: RoomID, matchID: string, minted: seq<Option<Token>>, listed: Message, now: int,
                            h: Hall)
    requires r in h0.rooms
  {
    var rooms := h0.rooms[r := h0.rooms[r].(state := Starting, matchID := matchID)];
    && Thinned(h0.(rooms := rooms), h, now) && listed.RoomList? && AsMap(listed.rooms) == Described(rooms)
    && SentStarts(h0, h0.rooms[r].members, matchID, minted, listed, h)
  }

  ghost predicate SentStarts(h0: Hall, ms: seq<SessionID>, matchID: string, minted: seq<Option<Token>>, listed: Message,
                             h: Hall) {
    && |minted| == |ms| && h.sessions.Keys <= h0.sessions.Keys && (forall i | 0 <= i < |minted| :: minted[i].Some?)
    && (forall i | 0 <= i < |ms| && ms[i] in h.sessions ::
          h.sessions[ms[i]].sent == h0.sessions[ms[i]].sent + [MatchStarted(matchID, minted[i].value), listed])
    && (forall q | q in h.sessions && q !in ms ::
          h.sessions[q] == h0.sessions[q].(sent := h0.sessions[q].sent + [listed]))
  }

  lemma StartsHeard(h0: Hall, r: RoomID, matchID: string, minted: seq<Option<Token>>, mid: Hall, listed: Message,
                    h: Hall)
    requires r in h0.rooms && |minted| == |h0.rooms[r].members| && (forall i | 0 <= i < |minted| :: minted[i].Some?)
    requires SentTokens(h0, h0.rooms[r].members, minted, matchID, |minted|, mid) && h.sessions.Keys <= mid.sessions.Keys
    requires forall q | q in h.sessions :: Heard(mid.sessions[q], listed, h.sessions[q])
    ensures SentStarts(h0, h0.rooms[r].members, matchID, minted, listed, h)
  {
    forall i | 0 <= i < |minted| && h0.rooms[r].members[i] in h.sessions
      ensures var q := h0.rooms[r].members[i];
              h.sessions[q].sent == h0.sessions[q].sent + [MatchStarted(matchID, minted[i].value), listed]
    {
      assert Heard(mid.sessions[h0.rooms[r].members[i]], listed, h.sessions[h0.rooms[r].members[i]]);
    }
  }

  /**
   The error goes out while the room counts as starting; with the room open again nothing has changed for anyone else.
   */
  lemma RolledBack(h0: Hall, s: SessionID, r: RoomID, starting: Hall, m: Message, h: Hall, now: int)
    requires Good(h0) && s in h0.sessions && h0.sessions[s].room == Some(r) && r in h0.rooms
             && h0.rooms[r].state == Open && Neutral(m)
    requires starting == h0.(rooms := h0.rooms[r := h0.rooms[r].(state := Starting)])
    requires SentTo(starting, s, m, h) && Seated(h) && (h == Dropped(starting, s, now) || h == Queued(starting, s, m))
    ensures h.rooms == starting.rooms && h.tokens == h0.tokens
    ensures h.rooms[r := h.rooms[r].(state := Open)] == h0.rooms
    ensures Good(h.(rooms := h0.rooms, tokens := h0.tokens))
  {
    var h' := h.(rooms := h0.rooms, tokens := h0.tokens);
    if !h'.roomsDirty {
      assert Agree(h0, Described(h0.rooms));
      NeutralAgrees(starting, s, m, h, Described(h0.rooms));
    }
  }
}
