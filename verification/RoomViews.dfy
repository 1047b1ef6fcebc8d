/** The room list as messages between server and client, and the client's view of it. */
module RoomViews {
  type RoomID = string

  datatype Level = Level(letter: char, number: nat)

  datatype RoomState = Open | Starting | InMatch | Closed

  /** What a client is told about one room. */
  datatype Descriptor = Descriptor(id: RoomID, name: string, players: nat, max: nat, level: Level, state: RoomState)

  datatype Message =
    | Welcome(nick: string)
    | RoomList(rooms: seq<Descriptor>)
    | RoomAdded(room: Descriptor)
    | RoomUpdated(room: Descriptor)
    | RoomRemoved(id: RoomID)
    | Kicked(id: RoomID)
    | MatchStarted(matchID: string, token: string)
    | ChatRelay(from: string, text: string)
    | Error(code: string)

  type View = map<RoomID, Descriptor>

  /** The map a list of descriptors builds, later entries winning. */
  function AsMap(rooms: seq<Descriptor>): View {
    if rooms == [] then map[] else AsMap(rooms[..|rooms| - 1])[rooms[|rooms| - 1].id := rooms[|rooms| - 1]]
  }

  function Apply(v: View, m: Message): View {
    match m
    case RoomList(rooms) => AsMap(rooms)
    case RoomAdded(r) => v[r.id := r]
    case RoomUpdated(r) => v[r.id := r]
    case RoomRemoved(id) => v - {id}
    case _ => v
  }

  /** What a client holds after these messages. */
  function Fold(ms: seq<Message>): View {
    if ms == [] then map[] else Apply(Fold(ms[..|ms| - 1]), ms[|ms| - 1])
  }

  lemma FoldMore(ms: seq<Message>, m: Message)
    ensures Fold(ms + [m]) == Apply(Fold(ms), m)
  {
    assert (ms + [m])[..|ms|] == ms;
  }

  /** A full list wipes out whatever came before it. */
  lemma {:induction false} ListResets(before: seq<Message>, rooms: seq<Descriptor>, after: seq<Message>)
    ensures Fold(before + [RoomList(rooms)] + after) == Fold([RoomList(rooms)] + after)
  {
    var a, b := before + [RoomList(rooms)] + after, [RoomList(rooms)] + after;
    if after == [] {
      assert a[..|a| - 1] == before && b[..|b| - 1] == [];
    } else {
      ListResets(before, rooms, after[..|after| - 1]);
      assert a[..|a| - 1] == before + [RoomList(rooms)] + after[..|after| - 1];
      assert b[..|b| - 1] == [RoomList(rooms)] + after[..|after| - 1];
    }
  }

  method BuildMap(rooms: seq<Descriptor>) returns (v: View)
    ensures v == AsMap(rooms)
  {
    v := map[];
    for i := 0 to |rooms|
      invariant v == AsMap(rooms[..i])
    {
      assert rooms[..i + 1][..i] == rooms[..i];
      v := v[rooms[i].id := rooms[i]];
    }
    assert rooms[..|rooms|] == rooms;
  }

  /** The client end. */
  class LobbyClient {
    var roomList: View
    ghost var received: seq<Message>

    ghost predicate Valid()
      reads this
    {
      roomList == Fold(received)
    }

    constructor ()
      ensures Valid() && received == []
    {
      roomList, received := map[], [];
    }

    method Handle(m: Message)
      requires Valid()
      modifies this
      ensures Valid() && received == old(received) + [m]
    {
      FoldMore(received, m);
      match m {
        case RoomList(rooms) =>
          var built := BuildMap(rooms);
          roomList := built;
        case RoomAdded(r) => roomList := roomList[r.id := r];
        case RoomUpdated(r) => roomList := roomList[r.id := r];
        case RoomRemoved(id) => roomList := roomList - {id};
        case _ =>
      }
      received := received + [m];
    }
  }
}
