/** The chat relay: a loop over a room's members that throwing one of them out changes under it. */
module LobbyRelay {
  import opened Sequences
  import opened Options
  import opened RoomViews
  import C = ChatBucket
  import opened RelayOrder
  import opened LobbyHall

  // ---- chat ----

  function Copies(m: Message, n: nat): seq<Message> { seq(n, _ => m) }

  /**
   Which members, in order, are thrown out of the list by the first message sent to them: those of an open room with
   no place left.
   */
  function Fulls(h: Hall, r: RoomID, space: SessionID -> nat): (full: seq<bool>)
    requires r in h.rooms
    ensures |full| == |h.rooms[r].members|
  {
    var ms := h.rooms[r].members;
    seq(|ms|, o requires 0 <= o < |ms| => h.rooms[r].state == Open && ms[o] in h.sessions && space(ms[o]) == 0)
  }

  /** A session that was sent this many is gone if its queue did not take them all, and has them otherwise. */
  predicate Served(h0: Hall, q: SessionID, tries: nat, space: SessionID -> nat, m: Message, h: Hall)
    requires q in h0.sessions
  {
    && (q in h.sessions <==> tries <= space(q))
    && (q in h.sessions ==> h.sessions[q] == h0.sessions[q].(sent := h0.sessions[q].sent + Copies(m, tries)))
  }

  /** Every member was sent the message this often, nobody else at all. */
  ghost predicate Relayed(h0: Hall, ms: seq<SessionID>, tries: seq<nat>, space: SessionID -> nat, m: Message, h: Hall) {
    && |tries| == |ms| && h.sessions.Keys <= h0.sessions.Keys
    && (forall q | q in h0.sessions && q !in ms :: q in h.sessions && h.sessions[q] == h0.sessions[q])
    && (forall o | 0 <= o < |ms| && ms[o] in h0.sessions :: Served(h0, ms[o], tries[o], space, m, h))
  }

  lemma NothingRelayed(h: Hall, ms: seq<SessionID>, space: SessionID -> nat, m: Message)
    ensures Relayed(h, ms, seq(|ms|, _ => 0), space, m, h)
  {
    assert Copies(m, 0) == [];
    assert forall s: Session :: s.sent + [] == s.sent;
  }

  /** One more send to the o-th member; one already gone, or never there, is passed over. */
  lemma RelayedMore(h0: Hall, ms: seq<SessionID>, tries: seq<nat>, space: SessionID -> nat, m: Message, h: Hall, o: nat,
                    h': Hall, now: int)
    requires Relayed(h0, ms, tries, space, m, h) && NoRepeat(ms) && o < |ms|
    requires h' == if ms[o] !in h.sessions then h
                   else if tries[o] == space(ms[o]) then Dropped(h, ms[o], now) else Queued(h, ms[o], m)
    ensures Relayed(h0, ms, tries[o := tries[o] + 1], space, m, h')
  {
    var tries' := tries[o := tries[o] + 1];
    OthersStay(h, ms[o], m, h', now);
    forall p | 0 <= p < |ms| && ms[p] in h0.sessions
      ensures Served(h0, ms[p], tries'[p], space, m, h')
    {
      assert Served(h0, ms[p], tries[p], space, m, h);
      if p == o {
        ServedMore(h0, ms[o], tries[o], space, m, h, h', now);
      } else {
        assert ms[p] != ms[o];
      }
    }
    hide Dropped, Queued, Served;
  }

  lemma OthersStay(h: Hall, s: SessionID, m: Message, h': Hall, now: int)
    requires h' == h || (s in h.sessions && (h' == Dropped(h, s, now) || h' == Queued(h, s, m)))
    ensures h'.sessions.Keys <= h.sessions.Keys
    ensures forall q | q != s :: q in h'.sessions <==> q in h.sessions
    ensures forall q | q in h'.sessions && q != s :: h'.sessions[q] == h.sessions[q]
  {
  }

  lemma ServedMore(h0: Hall, s: SessionID, tries: nat, space: SessionID -> nat, m: Message, h: Hall, h': Hall, now: int)
    requires s in h0.sessions && Served(h0, s, tries, space, m, h)
    requires h' == if s !in h.sessions then h else if tries == space(s) then Dropped(h, s, now) else Queued(h, s, m)
    ensures Served(h0, s, tries + 1, space, m, h')
  {
    assert Copies(m, tries) + [m] == Copies(m, tries + 1);
    assert forall sent: seq<Message> :: sent + Copies(m, tries) + [m] == sent + Copies(m, tries + 1);
  }

  /** The list as the loop still sees it: members that moved up, and behind them what their old places keep. */
  ghost predicate Stored(ms: seq<SessionID>, i: nat, d: nat, lastGone: bool, storage: seq<SessionID>,
                         members: seq<SessionID>) {
    var n := |ms|;
    && |storage| == n && i <= n && (n == 0 ==> d == 0) && (n > 0 ==> d < n)
    && |members| == n - d - (if lastGone && n > 0 then 1 else 0) && members == storage[..|members|]
    && (!lastGone && n > 0 ==> members[|members| - 1] == ms[n - 1])
    && (forall q | i <= q < n :: storage[q] == ms[Next(n, q, d)])
  }

  lemma ShiftedMembers(ms: seq<SessionID>, i: nat, d: nat, storage: seq<SessionID>, members: seq<SessionID>)
    requires Stored(ms, i, d, false, storage, members) && NoRepeat(members) && i + d < |ms| - 1
    ensures |Without(members, storage[i])| < |storage|
    ensures var left := Without(members, storage[i]); Stored(ms, i + 1, d + 1, false, left + storage[|left|..], left)
  {
    assert members[i] == storage[i];
    WithoutAt(members, storage[i], i);
  }

  lemma LastOut(ms: seq<SessionID>, i: nat, d: nat, storage: seq<SessionID>, members: seq<SessionID>)
    requires Stored(ms, i, d, false, storage, members) && NoRepeat(members) && i < |ms| && i + d >= |ms| - 1
    ensures ms[|ms| - 1] in members && |Without(members, ms[|ms| - 1])| < |storage|
    ensures var left := Without(members, ms[|ms| - 1]); Stored(ms, i + 1, d, true, left + storage[|left|..], left)
  {
    WithoutAt(members, ms[|ms| - 1], |members| - 1);
    var left := Without(members, ms[|ms| - 1]);
    assert left + storage[|left|..] == storage;
  }

  lemma KeptMembers(ms: seq<SessionID>, i: nat, d: nat, lastGone: bool, storage: seq<SessionID>,
                    members: seq<SessionID>)
    requires Stored(ms, i, d, lastGone, storage, members) && i < |ms|
    ensures storage[i] == ms[Next(|ms|, i, d)] && members + storage[|members|..] == storage
    ensures Stored(ms, i + 1, d, lastGone, storage, members)
  {
  }

  lemma DroppedMembers(h: Hall, s: SessionID, now: int, r: RoomID)
    requires Seated(h) && s in h.sessions && r in h.rooms
    ensures r in Dropped(h, s, now).rooms && Dropped(h, s, now).rooms[r].state == h.rooms[r].state
    ensures Dropped(h, s, now).rooms[r].members == if h.sessions[s].room == Some(r) && h.rooms[r].state == Open
                                                   then Without(h.rooms[r].members, s) else h.rooms[r].members
  {
  }

  /** How often each member of the room is sent to. */
  function TriesFor(h: Hall, r: RoomID, space: SessionID -> nat): seq<nat>
    requires r in h.rooms
  {
    var full := Fulls(h, r, space);
    seq(|full|, o requires 0 <= o < |full| => Attempts(full, o))
  }

  /** The relay at index i, with d members before the last thrown out so far. */
  ghost predicate AtIndex(h0: Hall, r: RoomID, space: SessionID -> nat, m: Message, i: nat, d: nat, lastGone: bool,
                          tries: seq<nat>, storage: seq<SessionID>, h: Hall) {
    && r in h0.rooms
    && var ms := h0.rooms[r].members;
    && r in h.rooms && h.rooms[r].state == h0.rooms[r].state
    && Underway(Fulls(h0, r, space), i, d, tries) && Relayed(h0, ms, tries, space, m, h)
    && Stored(ms, i, d, lastGone, storage, h.rooms[r].members)
    && LastSettled(ms, lastGone, tries, h)
  }

  /** If the last member has been taken off the list, it has been sent to and is gone. */
  predicate LastSettled(ms: seq<SessionID>, lastGone: bool, tries: seq<nat>, h: Hall) {
    lastGone && ms != [] ==> |tries| == |ms| && tries[|ms| - 1] > 0 && ms[|ms| - 1] !in h.sessions
  }

  lemma RelayBegins(h: Hall, r: RoomID, space: SessionID -> nat, m: Message)
    requires r in h.rooms
    ensures AtIndex(h, r, space, m, 0, 0, false, seq(|h.rooms[r].members|, _ => 0), h.rooms[r].members, h)
  {
    NothingRelayed(h, h.rooms[r].members, space, m);
    Begun(Fulls(h, r, space));
    hide Relayed;
  }

  /** What a send to this member means for the room: nothing, unless it is thrown out of an open one. */
  lemma RoomAfter(h0: Hall, r: RoomID, space: SessionID -> nat, m: Message, i: nat, d: nat, lastGone: bool,
                  tries: seq<nat>, storage: seq<SessionID>, h: Hall, o: nat, h': Hall, now: int)
    requires r in h0.rooms && AtIndex(h0, r, space, m, i, d, lastGone, tries, storage, h) && Seated(h0) && Seated(h)
    requires o < |h0.rooms[r].members| && h0.rooms[r].members[o] in h.sessions
    requires h' == Dropped(h, h0.rooms[r].members[o], now) || h' == Queued(h, h0.rooms[r].members[o], m)
    ensures r in h'.rooms && h'.rooms[r].state == h0.rooms[r].state
    ensures h'.rooms[r].members == if h0.rooms[r].state == Open && h' == Dropped(h, h0.rooms[r].members[o], now)
                                   then Without(h.rooms[r].members, h0.rooms[r].members[o]) else h.rooms[r].members
  {
    var s := h0.rooms[r].members[o];
    assert h0.sessions[s].room == Some(r);
    assert Served(h0, s, tries[o], space, m, h);
    DroppedMembers(h, s, now, r);
    hide Seated, Stored, Underway, Relayed, Left, Without;
  }

  lemma AtParts(h0: Hall, r: RoomID, space: SessionID -> nat, m: Message, i: nat, d: nat, lastGone: bool,
                tries: seq<nat>, storage: seq<SessionID>, h: Hall)
    requires r in h0.rooms && AtIndex(h0, r, space, m, i, d, lastGone, tries, storage, h)
    ensures r in h.rooms && h.rooms[r].state == h0.rooms[r].state && |tries| == |storage| == |h0.rooms[r].members|
    ensures Underway(Fulls(h0, r, space), i, d, tries) && Relayed(h0, h0.rooms[r].members, tries, space, m, h)
    ensures Stored(h0.rooms[r].members, i, d, lastGone, storage, h.rooms[r].members)
    ensures LastSettled(h0.rooms[r].members, lastGone, tries, h)
  {
    hide Relayed, Fulls;
  }

  lemma AtFits(h0: Hall, r: RoomID, space: SessionID -> nat, m: Message, i: nat, d: nat, lastGone: bool,
               tries: seq<nat>, storage: seq<SessionID>, h: Hall)
    requires r in h0.rooms && r in h.rooms && h.rooms[r].state == h0.rooms[r].state
    requires Underway(Fulls(h0, r, space), i, d, tries) && Relayed(h0, h0.rooms[r].members, tries, space, m, h)
    requires Stored(h0.rooms[r].members, i, d, lastGone, storage, h.rooms[r].members)
    requires LastSettled(h0.rooms[r].members, lastGone, tries, h)
    ensures AtIndex(h0, r, space, m, i, d, lastGone, tries, storage, h)
  {
    assert |tries| == |h0.rooms[r].members|;
    hide Relayed, Underway, Fulls;
  }

  /** A member about to be sent to is before the last's turn, or is the last and still there. */
  lemma LastThere(h0: Hall, r: RoomID, space: SessionID -> nat, m: Message, i: nat, d: nat, lastGone: bool,
                  tries: seq<nat>, storage: seq<SessionID>, h: Hall)
    requires r in h0.rooms && AtIndex(h0, r, space, m, i, d, lastGone, tries, storage, h) && i < |h0.rooms[r].members|
    requires h0.rooms[r].members[Next(|h0.rooms[r].members|, i, d)] in h.sessions
    ensures !lastGone
  {
    hide Relayed, Fulls, Stored, Drops;
  }

  lemma FullIs(h0: Hall, r: RoomID, space: SessionID -> nat, o: nat, tries: nat, m: Message, h: Hall)
    requires r in h0.rooms && o < |h0.rooms[r].members|
    requires h0.rooms[r].members[o] in h0.sessions ==> Served(h0, h0.rooms[r].members[o], tries, space, m, h)
    requires h.sessions.Keys <= h0.sessions.Keys && tries == 0
    ensures Fulls(h0, r, space)[o] <==>
              h0.rooms[r].state == Open && h0.rooms[r].members[o] in h.sessions
                && tries == space(h0.rooms[r].members[o])
  {
  }

  lemma RelayedOne(h0: Hall, ms: seq<SessionID>, tries: seq<nat>, space: SessionID -> nat, m: Message, h: Hall, o: nat)
    requires Relayed(h0, ms, tries, space, m, h) && o < |ms|
    ensures h.sessions.Keys <= h0.sessions.Keys && |tries| == |ms|
    ensures ms[o] in h0.sessions ==> Served(h0, ms[o], tries[o], space, m, h)
  {
  }

  /** The members and their storage after a turn. */
  lemma StoredTurn(ms: seq<SessionID>, i: nat, d: nat, lastGone: bool, storage: seq<SessionID>, members: seq<SessionID>,
                   members': seq<SessionID>, out: bool)
    returns (d': nat, lastGone': bool)
    requires Stored(ms, i, d, lastGone, storage, members) && NoRepeat(members) && i < |ms| && (out ==> !lastGone)
    requires members' == if out then Without(members, ms[Next(|ms|, i, d)]) else members
    ensures |members'| <= |storage| && Stored(ms, i + 1, d', lastGone', members' + storage[|members'|..], members')
    ensures d' == if out && i + d < |ms| - 1 then d + 1 else d
    ensures lastGone' <==> lastGone || (out && i + d >= |ms| - 1)
  {
    KeptMembers(ms, i, d, lastGone, storage, members);
    d', lastGone' := d, lastGone;
    if out {
      if i + d < |ms| - 1 {
        ShiftedMembers(ms, i, d, storage, members);
        d' := d + 1;
      } else {
        LastOut(ms, i, d, storage, members);
        lastGone' := true;
      }
    }
  }

  /** What one read of the storage comes to for session s, sent to `tries` times before. */
  ghost predicate Turn(h: Hall, s: SessionID, tries: nat, space: SessionID -> nat, m: Message, h': Hall, now: int) {
    h' == if s !in h.sessions then h else if tries == space(s) then Dropped(h, s, now) else Queued(h, s, m)
  }

  /** The storage with the room's members as they now are written over its front. */
  function Restored(h: Hall, r: RoomID, storage: seq<SessionID>): seq<SessionID> {
    if r in h.rooms && |h.rooms[r].members| <= |storage| then
      h.rooms[r].members + storage[|h.rooms[r].members|..] else storage
  }

  function Tried(tries: seq<nat>, o: nat): seq<nat> {
    if o < |tries| then tries[o := tries[o] + 1] else tries
  }

  /** The turn of the member at this place of the storage, its o-th at the start. */
  ghost predicate TurnAt(h0: Hall, r: RoomID, space: SessionID -> nat, m: Message, i: nat, d: nat, tries: seq<nat>,
                         h: Hall, o: nat, s: SessionID, h': Hall, now: int) {
    && r in h0.rooms && i < |h0.rooms[r].members| == |tries| && o == Next(|h0.rooms[r].members|, i, d)
      && s == h0.rooms[r].members[o]
    && Turn(h, s, tries[o], space, m, h', now)
  }

  lemma TurnAtIs(h0: Hall, r: RoomID, space: SessionID -> nat, m: Message, i: nat, d: nat, tries: seq<nat>, h: Hall,
                 o: nat, s: SessionID, h': Hall, now: int)
    requires TurnAt(h0, r, space, m, i, d, tries, h, o, s, h', now)
    ensures r in h0.rooms && i < |h0.rooms[r].members| == |tries| && o == Next(|h0.rooms[r].members|, i, d)
            && s == h0.rooms[r].members[o]
    ensures o < |tries| && Turn(h, s, tries[o], space, m, h', now)
  {
    hide Turn;
  }

  /** What a turn does to the room, the storage and the counts. */
  lemma TurnStored(h0: Hall, r: RoomID, space: SessionID -> nat, m: Message, i: nat, d: nat, lastGone: bool,
                   tries: seq<nat>, storage: seq<SessionID>, h: Hall, o: nat, s: SessionID, h': Hall, now: int)
    returns (d': nat, lastGone': bool)
    requires TurnAt(h0, r, space, m, i, d, tries, h, o, s, h', now) && Seated(h0) && Seated(h)
    requires AtIndex(h0, r, space, m, i, d, lastGone, tries, storage, h)
    ensures r in h0.rooms && r in h'.rooms && h'.rooms[r].state == h0.rooms[r].state
            && o < |h0.rooms[r].members| == |tries|
    ensures Stored(h0.rooms[r].members, i + 1, d', lastGone', Restored(h', r, storage), h'.rooms[r].members)
    ensures d' == if o < |tries| - 1 && Fulls(h0, r, space)[o] then d + 1 else d
    ensures lastGone' ==> lastGone || (o == |tries| - 1 && s !in h'.sessions)
  {
    hide *;
    TurnAtIs(h0, r, space, m, i, d, tries, h, o, s, h', now);
    var ms, full := h0.rooms[r].members, Fulls(h0, r, space);
    NextIs(|ms|, i, d);
    AtParts(h0, r, space, m, i, d, lastGone, tries, storage, h);
    MembersDistinct(h, r);
    Onward(full, i, d, tries);
    RelayedOne(h0, ms, tries, space, m, h, o);
    var out := h0.rooms[r].state == Open && s in h.sessions && tries[o] == space(s);
    assert |full| == |ms| && (o < |ms| - 1 ==> tries[o] == 0);
    if o < |ms| - 1 { FullIs(h0, r, space, o, tries[o], m, h); }
    TurnIs(h, s, tries[o], space, m, h', now);
    if s in h.sessions {
      LastThere(h0, r, space, m, i, d, lastGone, tries, storage, h);
      RoomAfter(h0, r, space, m, i, d, lastGone, tries, storage, h, o, h', now);
    }
    d', lastGone' := StoredTurn(ms, i, d, lastGone, storage, h.rooms[r].members, h'.rooms[r].members, out);
    WrittenOver(h', r, storage);
  }

  /** One more index, whoever it is and whatever comes of it. */
  lemma RelayTurn(h0: Hall, r: RoomID, space: SessionID -> nat, m: Message, i: nat, d: nat, lastGone: bool,
                  tries: seq<nat>, storage: seq<SessionID>, h: Hall, o: nat, s: SessionID, h': Hall, now: int)
    returns (d': nat, lastGone': bool)
    requires TurnAt(h0, r, space, m, i, d, tries, h, o, s, h', now) && Seated(h0) && Seated(h)
    requires AtIndex(h0, r, space, m, i, d, lastGone, tries, storage, h)
    ensures AtIndex(h0, r, space, m, i + 1, d', lastGone', Tried(tries, o), Restored(h', r, storage), h')
  {
    hide *;
    TurnAtIs(h0, r, space, m, i, d, tries, h, o, s, h', now);
    var ms, full := h0.rooms[r].members, Fulls(h0, r, space);
    AtParts(h0, r, space, m, i, d, lastGone, tries, storage, h);
    MembersDistinct(h0, r);
    Onward(full, i, d, tries);
    TurnIs(h, s, tries[o], space, m, h', now);
    RelayedMore(h0, ms, tries, space, m, h, o, h', now);
    TriedIs(tries, o);
    d', lastGone' := TurnStored(h0, r, space, m, i, d, lastGone, tries, storage, h, o, s, h', now);
    LastSettles(ms, space, m, lastGone, tries, h, o, h', now, lastGone');
    AtFits(h0, r, space, m, i + 1, d', lastGone', Tried(tries, o), Restored(h', r, storage), h');
  }

  lemma TriedIs(tries: seq<nat>, o: nat)
    requires o < |tries|
    ensures Tried(tries, o) == tries[o := tries[o] + 1]
  {
  }

  lemma TurnFits(h: Hall, s: SessionID, tries: nat, space: SessionID -> nat, m: Message, h': Hall, now: int)
    requires h' == if s !in h.sessions then h else if tries == space(s) then Dropped(h, s, now) else Queued(h, s, m)
    ensures Turn(h, s, tries, space, m, h', now)
    ensures h'.sessions.Keys <= h.sessions.Keys && (s in h'.sessions <==> s in h.sessions && tries != space(s))
  {
  }

  lemma TurnIsAt(h0: Hall, r: RoomID, space: SessionID -> nat, m: Message, i: nat, d: nat, tries: seq<nat>, h: Hall,
                 o: nat, s: SessionID, h': Hall, now: int)
    requires r in h0.rooms && i < |h0.rooms[r].members| == |tries| && o == Next(|h0.rooms[r].members|, i, d)
             && s == h0.rooms[r].members[o]
    requires Turn(h, s, tries[o], space, m, h', now)
    ensures TurnAt(h0, r, space, m, i, d, tries, h, o, s, h', now)
  {
    hide Turn;
  }

  lemma TurnIs(h: Hall, s: SessionID, tries: nat, space: SessionID -> nat, m: Message, h': Hall, now: int)
    requires Turn(h, s, tries, space, m, h', now)
    ensures s !in h.sessions ==> h' == h
    ensures s in h.sessions && tries == space(s) ==> h' == Dropped(h, s, now) && s !in h'.sessions
    ensures s in h.sessions && tries != space(s) ==> h' == Queued(h, s, m) && h' != Dropped(h, s, now)
  {
  }

  lemma WrittenOver(h: Hall, r: RoomID, storage: seq<SessionID>)
    requires r in h.rooms && |h.rooms[r].members| <= |storage|
    ensures Restored(h, r, storage) == h.rooms[r].members + storage[|h.rooms[r].members|..]
  {
  }

  lemma NextIs(n: nat, i: nat, d: nat)
    requires i < n
    ensures Next(n, i, d) == if i + d < n then i + d else n - 1
  {
  }

  lemma LastSettles(ms: seq<SessionID>, space: SessionID -> nat, m: Message, lastGone: bool, tries: seq<nat>, h: Hall,
                    o: nat, h': Hall, now: int, lastGone': bool)
    requires o < |ms| == |tries| && Turn(h, ms[o], tries[o], space, m, h', now) && LastSettled(ms, lastGone, tries, h)
    requires lastGone' ==> lastGone || (o == |tries| - 1 && ms[o] !in h'.sessions)
    ensures LastSettled(ms, lastGone', Tried(tries, o), h')
  {
    OthersStay(h, ms[o], m, h', now);
    hide Dropped, Queued;
  }

  /** All there is to say between two turns. */
  ghost predicate Relaying(h0: Hall, r: RoomID, space: SessionID -> nat, m: Message, now: int, i: nat, d: nat,
                           lastGone: bool, tries: seq<nat>, storage: seq<SessionID>, left: map<SessionID, nat>,
                             h: Hall) {
    && r in h0.rooms && Good(h0) && Good(h) && Thinned(h0, h, now) && h.tokens == h0.tokens
    && PlacesLeft(h0.rooms[r].members, space, tries, h, left)
    && AtIndex(h0, r, space, m, i, d, lastGone, tries, storage, h)
  }

  lemma RelayingParts(h0: Hall, r: RoomID, space: SessionID -> nat, m: Message, now: int, i: nat, d: nat,
                      lastGone: bool, tries: seq<nat>, storage: seq<SessionID>, left: map<SessionID, nat>, h: Hall)
    requires Relaying(h0, r, space, m, now, i, d, lastGone, tries, storage, left, h)
    ensures r in h0.rooms && Good(h0) && Good(h) && Seated(h0) && Seated(h) && Thinned(h0, h, now)
            && h.tokens == h0.tokens && NoRepeat(h0.rooms[r].members)
    ensures PlacesLeft(h0.rooms[r].members, space, tries, h, left)
    ensures AtIndex(h0, r, space, m, i, d, lastGone, tries, storage, h)
  {
    hide AtIndex, PlacesLeft, Thinned, Synced;
  }

  lemma RelayingFits(h0: Hall, r: RoomID, space: SessionID -> nat, m: Message, now: int, i: nat, d: nat, lastGone: bool,
                     tries: seq<nat>, storage: seq<SessionID>, left: map<SessionID, nat>, h: Hall)
    requires r in h0.rooms && Good(h0) && Good(h) && Thinned(h0, h, now) && h.tokens == h0.tokens
    requires PlacesLeft(h0.rooms[r].members, space, tries, h, left)
    requires AtIndex(h0, r, space, m, i, d, lastGone, tries, storage, h)
    ensures Relaying(h0, r, space, m, now, i, d, lastGone, tries, storage, left, h)
  {
  }

  /** A send to whoever is still connected, with one place less in its queue. */
  method SendOrDrop(ghost h0: Hall, h: Hall, s: SessionID, m: Message, left: map<SessionID, nat>, now: int)
    returns (h': Hall, left': map<SessionID, nat>)
    requires Good(h) && Neutral(m) && Thinned(h0, h, now) && (s in h.sessions ==> s in left)
    ensures Good(h') && Thinned(h0, h', now) && h'.tokens == h.tokens
    ensures h' == if s !in h.sessions then h else if left[s] == 0 then Dropped(h, s, now) else Queued(h, s, m)
    ensures if s in h'.sessions then s in left && left[s] > 0 && left' == left[s := left[s] - 1] else left' == left
  {
    hide *;
    h', left' := h, left;
    if s in h.sessions {
      var full := left[s] == 0;
      h' := DeliverNeutral(h, s, m, full, now);
      ThinnedMore(h0, h, h', now);
      SentKeeps(h, s, m, h');
      DroppedOrQueued(h, s, m, now);
      if !full {
        left' := left[s := left[s] - 1];
      }
    }
  }

  lemma DroppedOrQueued(h: Hall, s: SessionID, m: Message, now: int)
    requires s in h.sessions
    ensures s !in Dropped(h, s, now).sessions && s in Queued(h, s, m).sessions
  {
  }

  /** One index of the relay: whoever the storage holds there, if still connected. */
  method RelayStep(ghost h0: Hall, r: RoomID, m: Message, ghost space: SessionID -> nat, now: int, i: nat, h: Hall,
                   storage: seq<SessionID>, left: map<SessionID, nat>, ghost d: nat, ghost lastGone: bool,
                     ghost tries: seq<nat>)
    returns (h': Hall, storage': seq<SessionID>, left': map<SessionID, nat>, ghost d': nat, ghost lastGone': bool,
             ghost tries': seq<nat>)
    requires Neutral(m) && r in h0.rooms && i < |h0.rooms[r].members|
    requires Relaying(h0, r, space, m, now, i, d, lastGone, tries, storage, left, h)
    ensures Relaying(h0, r, space, m, now, i + 1, d', lastGone', tries', storage', left', h')
  {
    hide *;
    RelayingParts(h0, r, space, m, now, i, d, lastGone, tries, storage, left, h);
    h', storage', left' := h, storage, left;
    ghost var ms := h0.rooms[r].members;
    ghost var o := Next(|ms|, i, d);
    AtParts(h0, r, space, m, i, d, lastGone, tries, storage, h);
    KeptMembers(ms, i, d, lastGone, storage, h.rooms[r].members);
    NextIs(|ms|, i, d);
    var s := storage[i];
    tries' := Tried(tries, o);
    if s in h.sessions { PlaceFor(ms, space, tries, h, left, o); }
    h', left' := SendOrDrop(h0, h, s, m, left, now);
    storage' := Restored(h', r, storage);
    TurnFits(h, s, tries[o], space, m, h', now);
    TurnIsAt(h0, r, space, m, i, d, tries, h, o, s, h', now);
    PlaceTaken(ms, space, tries, h, left, o, h', left');
    d', lastGone' := RelayOn(h0, r, m, space, now, i, d, lastGone, tries, storage, left, h, o, s, left', h');
  }

  lemma RelayOn(h0: Hall, r: RoomID, m: Message, space: SessionID -> nat, now: int, i: nat, d: nat, lastGone: bool,
                tries: seq<nat>, storage: seq<SessionID>, left: map<SessionID, nat>, h: Hall, o: nat, s: SessionID,
                  left': map<SessionID, nat>, h': Hall)
    returns (d': nat, lastGone': bool)
    requires TurnAt(h0, r, space, m, i, d, tries, h, o, s, h', now)
             && Relaying(h0, r, space, m, now, i, d, lastGone, tries, storage, left, h)
    requires Good(h') && Thinned(h0, h', now) && h'.tokens == h0.tokens
    requires r in h0.rooms && PlacesLeft(h0.rooms[r].members, space, Tried(tries, o), h', left')
    ensures Relaying(h0, r, space, m, now, i + 1, d', lastGone', Tried(tries, o), Restored(h', r, storage), left', h')
  {
    hide *;
    RelayingParts(h0, r, space, m, now, i, d, lastGone, tries, storage, left, h);
    d', lastGone' := RelayTurn(h0, r, space, m, i, d, lastGone, tries, storage, h, o, s, h', now);
    RelayingFits(h0, r, space, m, now, i + 1, d', lastGone', Tried(tries, o), Restored(h', r, storage), left', h');
  }

  /**
   One message to every member of the room, read off storage that shifts under the loop when a member is thrown out.
   `space` says how many of these messages each client's queue takes while the relay lasts.
   */
  method RelayAll(h0: Hall, r: RoomID, m: Message, space: SessionID -> nat, now: int) returns (h: Hall)
    requires r in h0.rooms && Neutral(m) && Good(h0)
    ensures Good(h) && h.rooms.Keys == h0.rooms.Keys && h.tokens == h0.tokens && Thinned(h0, h, now)
    ensures Relayed(h0, h0.rooms[r].members, TriesFor(h0, r, space), space, m, h)
  {
    hide *;
    h := h0;
    var n := |h0.rooms[r].members|;
    var storage, left := h0.rooms[r].members, map s | s in h.sessions :: space(s);
    ghost var d: nat, lastGone, tries: seq<nat> := 0, false, seq(n, _ => 0);
    RelayBegins(h0, r, space, m);
    NobodyGone(h0, h, now);
    AllPlaces(storage, space, h, left);
    RelayingFits(h0, r, space, m, now, 0, d, lastGone, tries, storage, left, h);
    for i := 0 to n
      invariant Relaying(h0, r, space, m, now, i, d, lastGone, tries, storage, left, h)
    {
      h, storage, left, d, lastGone, tries := RelayStep(h0, r, m, space, now, i, h, storage, left, d, lastGone, tries);
    }
    RelayingParts(h0, r, space, m, now, n, d, lastGone, tries, storage, left, h);
    AtParts(h0, r, space, m, n, d, lastGone, tries, storage, h);
    Finished(Fulls(h0, r, space), d, tries);
    TriesAre(h0, r, space, tries);
    ThinnedRooms(h0, h, now);
  }

  lemma SentKeeps(h0: Hall, s: SessionID, m: Message, h: Hall)
    requires SentTo(h0, s, m, h)
    ensures h.tokens == h0.tokens
  {
  }

  lemma ThinnedRooms(h0: Hall, h: Hall, now: int)
    requires Thinned(h0, h, now)
    ensures h.rooms.Keys == h0.rooms.Keys
  {
  }

  /** How many more each member's queue takes. */
  ghost predicate PlacesLeft(ms: seq<SessionID>, space: SessionID -> nat, tries: seq<nat>, h: Hall,
                             left: map<SessionID, nat>) {
    |tries| == |ms|
      && forall o | 0 <= o < |ms| && ms[o] in h.sessions :: ms[o] in left && left[ms[o]] == space(ms[o]) - tries[o]
  }

  lemma AllPlaces(ms: seq<SessionID>, space: SessionID -> nat, h: Hall, left: map<SessionID, nat>)
    requires left == map s | s in h.sessions :: space(s)
    ensures PlacesLeft(ms, space, seq(|ms|, _ => 0), h, left)
  {
  }

  lemma PlaceFor(ms: seq<SessionID>, space: SessionID -> nat, tries: seq<nat>, h: Hall, left: map<SessionID, nat>,
                 o: nat)
    requires PlacesLeft(ms, space, tries, h, left) && o < |ms| && ms[o] in h.sessions
    ensures ms[o] in left && left[ms[o]] == space(ms[o]) - tries[o]
  {
  }

  lemma PlaceTaken(ms: seq<SessionID>, space: SessionID -> nat, tries: seq<nat>, h: Hall, left: map<SessionID, nat>,
                   o: nat, h': Hall, left': map<SessionID, nat>)
    requires PlacesLeft(ms, space, tries, h, left) && NoRepeat(ms) && o < |ms| && h'.sessions.Keys <= h.sessions.Keys
    requires ms[o] in h'.sessions ==> ms[o] in left && left[ms[o]] > 0 && left' == left[ms[o] := left[ms[o]] - 1]
    requires ms[o] !in h'.sessions ==> left' == left
    ensures PlacesLeft(ms, space, Tried(tries, o), h', left')
  {
  }

  lemma TriesAre(h0: Hall, r: RoomID, space: SessionID -> nat, tries: seq<nat>)
    requires r in h0.rooms && |tries| == |h0.rooms[r].members|
    requires forall o | 0 <= o < |Fulls(h0, r, space)| :: tries[o] == Attempts(Fulls(h0, r, space), o)
    ensures tries == TriesFor(h0, r, space)
  {
    hide Attempts;
  }

  // ---- who gets the relay ----

  predicate GotOne(h0: Hall, q: SessionID, m: Message, h: Hall)
    requires q in h0.sessions && q in h.sessions
  {
    h.sessions[q].sent == h0.sessions[q].sent + [m]
  }

  lemma ServedOne(h0: Hall, q: SessionID, tries: nat, space: SessionID -> nat, m: Message, h: Hall)
    requires q in h0.sessions && q in h.sessions && Served(h0, q, tries, space, m, h)
    ensures GotOne(h0, q, m, h) <==> tries == 1
  {
    var before := h0.sessions[q].sent;
    assert h.sessions[q].sent == before + Copies(m, tries);
    assert |h.sessions[q].sent| == |before| + tries;
    assert tries == 1 ==> Copies(m, tries) == [m];
  }

  /** What the sends come to for a member still connected. */
  lemma ServedExactly(h0: Hall, r: RoomID, space: SessionID -> nat, m: Message, h: Hall, o: nat)
    requires r in h0.rooms && o < |h0.rooms[r].members| && h0.rooms[r].members[o] in h.sessions
    requires h0.rooms[r].members[o] in h0.sessions
    requires Relayed(h0, h0.rooms[r].members, TriesFor(h0, r, space), space, m, h)
    ensures var q, n := h0.rooms[r].members[o], Attempts(Fulls(h0, r, space), o);
            && (GotOne(h0, q, m, h) <==> n == 1) && |h.sessions[q].sent| == |h0.sessions[q].sent| + n
            && (n == 0 ==> h.sessions[q] == h0.sessions[q])
  {
    var q, tries := h0.rooms[r].members[o], TriesFor(h0, r, space);
    TriesAt(h0, r, space);
    RelayedOne(h0, h0.rooms[r].members, tries, space, m, h, o);
    hide Relayed, TriesFor, Fulls, Attempts;
    ServedOne(h0, q, tries[o], space, m, h);
    assert h0.sessions[q].sent + [] == h0.sessions[q].sent && (tries[o] == 0 ==> Copies(m, tries[o]) == []);
  }

  /**
   Of the members still connected afterwards, one before the last gets the message exactly once unless the member
   before it was thrown out, and then not at all; the last gets it at least once, and exactly once if and only if no
   queue but those of the last two was full. In a room that has started nothing is passed over.
   */
  lemma RelayedExactly(h0: Hall, r: RoomID, space: SessionID -> nat, m: Message, h: Hall, o: nat)
    requires r in h0.rooms && o < |h0.rooms[r].members| && h0.rooms[r].members[o] in h.sessions
    requires h0.rooms[r].members[o] in h0.sessions
    requires Relayed(h0, h0.rooms[r].members, TriesFor(h0, r, space), space, m, h)
    ensures var ms, full, q := h0.rooms[r].members, Fulls(h0, r, space), h0.rooms[r].members[o];
            if o < |ms| - 1 then
              if o > 0 && ThrownOut(full, o - 1) then h.sessions[q] == h0.sessions[q] else GotOne(h0, q, m, h)
            else
              && (GotOne(h0, q, m, h) <==> forall p | 0 <= p < |ms| - 2 :: !full[p])
              && |h.sessions[q].sent| > |h0.sessions[q].sent|
    ensures h0.rooms[r].state != Open ==> GotOne(h0, h0.rooms[r].members[o], m, h)
  {
    hide *;
    var full := Fulls(h0, r, space);
    ServedExactly(h0, r, space, m, h, o);
    TriesAt(h0, r, space);
    SendsTo(full, o);
  }

  lemma TriesAt(h: Hall, r: RoomID, space: SessionID -> nat)
    requires r in h.rooms
    ensures |TriesFor(h, r, space)| == |Fulls(h, r, space)| == |h.rooms[r].members|
    ensures forall o | 0 <= o < |h.rooms[r].members| :: TriesFor(h, r, space)[o] == Attempts(Fulls(h, r, space), o)
    ensures forall o | 0 <= o < |h.rooms[r].members| :: Fulls(h, r, space)[o] ==
              (h.rooms[r].state == Open && h.rooms[r].members[o] in h.sessions && space(h.rooms[r].members[o]) == 0)
  {
  }

  /**
   With every member connected: all who still are get it exactly once if and only if the room has started or only the
   last two may be full.
   */
  lemma EveryoneOnce(h0: Hall, r: RoomID, space: SessionID -> nat, m: Message, h: Hall)
    requires r in h0.rooms && (forall q | q in h0.rooms[r].members :: q in h0.sessions)
    requires Relayed(h0, h0.rooms[r].members, TriesFor(h0, r, space), space, m, h)
    ensures (forall q | q in h0.rooms[r].members && q in h.sessions :: q in h0.sessions && GotOne(h0, q, m, h)) <==>
            (h0.rooms[r].state != Open || forall o | 0 <= o < |h0.rooms[r].members| - 2 ::
                                            space(h0.rooms[r].members[o]) > 0)
  {
    hide *;
    var ms, full := h0.rooms[r].members, Fulls(h0, r, space);
    TriesAt(h0, r, space);
    OnceEach(full);
    if h0.rooms[r].state != Open || forall o | 0 <= o < |ms| - 2 :: space(ms[o]) > 0 {
      forall q | q in ms && q in h.sessions
        ensures q in h0.sessions && GotOne(h0, q, m, h)
      {
        var o :| 0 <= o < |ms| && ms[o] == q;
        ServedExactly(h0, r, space, m, h, o);
      }
    } else {
      var o :| 0 <= o < |ms| - 2 && space(ms[o]) == 0;
      assert ms[o] in ms;
      var p := Passed(full, o);
      StillServed(h0, r, space, m, h, p + 1);
      ServedExactly(h0, r, space, m, h, p + 1);
      assert ms[p + 1] in ms && ms[p + 1] in h.sessions && !GotOne(h0, ms[p + 1], m, h);
    }
  }

  /** Whoever is sent nothing is not thrown out. */
  lemma StillServed(h0: Hall, r: RoomID, space: SessionID -> nat, m: Message, h: Hall, o: nat)
    requires r in h0.rooms && o < |h0.rooms[r].members| && h0.rooms[r].members[o] in h0.sessions
    requires Attempts(Fulls(h0, r, space), o) == 0
    requires Relayed(h0, h0.rooms[r].members, TriesFor(h0, r, space), space, m, h)
    ensures h0.rooms[r].members[o] in h.sessions
  {
    TriesAt(h0, r, space);
    RelayedOne(h0, h0.rooms[r].members, TriesFor(h0, r, space), space, m, h, o);
    hide Relayed, TriesFor, Fulls, Attempts, Copies;
  }

  const THREE := Hall(
    map["a" := Member("Ann"), "b" := Member("Bob"), "c" := Member("Cy")],
    map["room" := Room("game", "a", 8, Level('A', 1), Open, ["a", "b", "c"], "", None)], map[], false)

  function Member(nick: string): Session {
    Session(nick, Some("room"), 0, C.NEW, [RoomList([Descriptor("room", "game", 3, 8, Level('A', 1), Open)])])
  }

  function OnlyFull(who: SessionID): SessionID -> nat {
    (q: SessionID) => if q == who then 0 else 8
  }

  /** Three friends, the first one's queue full: the second never hears what the third hears twice. */
  method SecondOfThree() returns (h: Hall)
    ensures Good(THREE) && "a" !in h.sessions && "b" in h.sessions && h.sessions["b"] == THREE.sessions["b"]
    ensures "c" in h.sessions
            && h.sessions["c"].sent == THREE.sessions["c"].sent + [ChatRelay("Cy", "hi"), ChatRelay("Cy", "hi")]
  {
    assert "room" in THREE.rooms;
    hide *;
    ThreeGood();
    ThreeNeutral();
    h := RelayAll(THREE, "room", ChatRelay("Cy", "hi"), OnlyFull("a"), 0);
    ThreeHeard(h);
  }

  lemma ThreeNeutral()
    ensures Neutral(ChatRelay("Cy", "hi"))
  {
  }

  lemma ThreeHeard(h: Hall)
    requires "room" in THREE.rooms
    requires Relayed(THREE, THREE.rooms["room"].members, TriesFor(THREE, "room", OnlyFull("a")), OnlyFull("a"),
                     ChatRelay("Cy", "hi"), h)
    ensures "a" !in h.sessions && "b" in h.sessions && h.sessions["b"] == THREE.sessions["b"]
    ensures "c" in h.sessions
            && h.sessions["c"].sent == THREE.sessions["c"].sent + [ChatRelay("Cy", "hi"), ChatRelay("Cy", "hi")]
  {
    var hi := ChatRelay("Cy", "hi");
    var ms, tries, space := THREE.rooms["room"].members, TriesFor(THREE, "room", OnlyFull("a")), OnlyFull("a");
    ThreeTries(space);
    assert ms == ["a", "b", "c"];
    assert Copies(hi, 0) == [] && Copies(hi, 2) == [hi, hi];
    assert THREE.sessions["b"].sent + [] == THREE.sessions["b"].sent;
    RelayedOne(THREE, ms, tries, space, hi, h, 0);
    RelayedOne(THREE, ms, tries, space, hi, h, 1);
    RelayedOne(THREE, ms, tries, space, hi, h, 2);
    hide TriesFor, Relayed;
  }

  lemma ThreeGood()
    ensures Good(THREE)
  {
    ThreeSynced();
    ThreeSeated();
    hide *;
    GoodIs(THREE);
  }

  lemma GoodIs(h: Hall)
    ensures Good(h) <==> Synced(h) && Seated(h)
  {
  }

  lemma ThreeSynced()
    ensures Synced(THREE)
  {
    var d := Descriptor("room", "game", 3, 8, Level('A', 1), Open);
    assert AsMap([d]) == map["room" := d];
    FoldMore([], RoomList([d]));
    assert [] + [RoomList([d])] == [RoomList([d])];
    assert Described(THREE.rooms) == map["room" := d];
  }

  lemma ThreeSeated()
    ensures Seated(THREE)
  {
  }

  lemma ThreeTries(space: SessionID -> nat)
    requires space("a") == 0 && space("b") > 0 && space("c") > 0
    ensures TriesFor(THREE, "room", space) == [1, 0, 2]
  {
    var full := Fulls(THREE, "room", space);
    assert full == [true, false, false];
    assert ThrownOut(full, 0) && !ThrownOut(full, 1) && Drops(full, 1) == 1 && Drops(full, 2) == 1;
  }
}
