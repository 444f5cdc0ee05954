/**
 The signaling hub: which connection speaks for a device, and the two-party pairing
 rooms. A connection is named by a number; `inbox` is all that was ever sent to it.
 */
module SignalingHub {
  import opened Prelude

  datatype Peer = Peer(user: int, conn: nat)
  datatype Member = Member(id: nat, conn: nat)
  datatype RelayError = Offline | CrossAccount
  datatype Relayed = Delivered | Failed(error: RelayError)

  type Inbox = map<nat, seq<string>>
  type Rooms = map<string, seq<Member>>

  const JOINED: string := "{\"peer\":\"joined\"}"
  const LEFT: string := "{\"peer\":\"left\"}"

  function Mail(inbox: Inbox, conn: nat): seq<string> {
    if conn in inbox then inbox[conn] else []
  }

  function Post(inbox: Inbox, conn: nat, text: string): Inbox {
    inbox[conn := Mail(inbox, conn) + [text]]
  }

  function PostAll(inbox: Inbox, members: seq<Member>, text: string): Inbox {
    if members == [] then inbox
    else Post(PostAll(inbox, members[..|members| - 1], text), members[|members| - 1].conn, text)
  }

  function Without(members: seq<Member>, id: nat): seq<Member> {
    if members == [] then []
    else
      var m := members[|members| - 1];
      Without(members[..|members| - 1], id) + if m.id != id then [m] else []
  }

  function Room(rooms: Rooms, code: string): seq<Member> {
    if code in rooms then rooms[code] else []
  }

  // ---------------------------------------------------------------- rooms as a state machine

  datatype RoomState = RoomState(rooms: Rooms, nextMember: nat, inbox: Inbox)
  const INITIAL: RoomState := RoomState(map[], 0, map[])

  datatype RoomEvent = Join(code: string, conn: nat) | Relay(code: string, id: nat, text: string) | Leave(code: string, id: nat)

  predicate Full(s: RoomState, code: string) {
    |Room(s.rooms, code)| >= 2
  }

  /** A third party is refused; whoever is there and the newcomer learn of each other. */
  function OnJoin(s: RoomState, code: string, conn: nat): RoomState {
    var members := Room(s.rooms, code);
    if Full(s, code) then s
    else
      var told := PostAll(s.inbox, members, JOINED);
      RoomState(s.rooms[code := members + [Member(s.nextMember, conn)]], s.nextMember + 1,
                if members != [] then Post(told, conn, JOINED) else told)
  }

  function OnRelay(s: RoomState, code: string, id: nat, text: string): RoomState {
    s.(inbox := PostAll(s.inbox, Without(Room(s.rooms, code), id), text))
  }

  function OnLeave(s: RoomState, code: string, id: nat): RoomState {
    if code !in s.rooms then s
    else
      var kept := Without(s.rooms[code], id);
      s.(rooms := if kept == [] then s.rooms - {code} else s.rooms[code := kept], inbox := PostAll(s.inbox, kept, LEFT))
  }

  function Next(s: RoomState, e: RoomEvent): RoomState {
    match e
    case Join(code, conn) => OnJoin(s, code, conn)
    case Relay(code, id, text) => OnRelay(s, code, id, text)
    case Leave(code, id) => OnLeave(s, code, id)
  }

  lemma PostAllSnoc(inbox: Inbox, members: seq<Member>, m: Member, text: string)
    ensures PostAll(inbox, members + [m], text) == Post(PostAll(inbox, members, text), m.conn, text)
  {
    assert (members + [m])[..|members|] == members;
  }

  lemma WithoutSnoc(members: seq<Member>, m: Member, id: nat)
    ensures Without(members + [m], id) == if m.id != id then Without(members, id) + [m] else Without(members, id)
  {
    assert (members + [m])[..|members|] == members;
  }

  lemma NobodyToTell(inbox: Inbox, id: nat, text: string)
    ensures Without([], id) == [] && PostAll(inbox, [], text) == inbox
  {
  }

  lemma PostOne(inbox: Inbox, members: seq<Member>, text: string)
    requires |members| == 1
    ensures PostAll(inbox, members, text) == Post(inbox, members[0].conn, text)
  {
    assert members == [] + [members[0]];
    PostAllSnoc(inbox, [], members[0], text);
  }

  // ---------------------------------------------------------------- the hub

  /** `inbox` is all that was ever sent to each connection, `closed` the connections whose
      receiving end is gone. */
  class Hub {
    var peers: map<string, Peer>
    var rooms: Rooms
    var nextMember: nat
    var inbox: Inbox
    var closed: set<nat>

    constructor ()
      ensures peers == map[] && RoomsNow() == INITIAL && closed == {}
    {
      peers, rooms, nextMember, inbox, closed := map[], map[], 0, map[], {};
    }

    ghost function RoomsNow(): RoomState
      reads this
    {
      RoomState(rooms, nextMember, inbox)
    }

    method Tell(members: seq<Member>, text: string)
      modifies this`inbox
      ensures inbox == PostAll(old(inbox), members, text)
    {
      hide Post;
      for i := 0 to |members|
        invariant inbox == PostAll(old(inbox), members[..i], text)
      {
        assert members[..i + 1] == members[..i] + [members[i]];
        PostAllSnoc(old(inbox), members[..i], members[i], text);
        inbox := Post(inbox, members[i].conn, text);
      }
      assert members[..|members|] == members;
    }

    method JoinRoom(code: string, conn: nat) returns (r: Option<nat>)
      modifies this`rooms, this`nextMember, this`inbox
      ensures RoomsNow() == OnJoin(old(RoomsNow()), code, conn)
      ensures r == if Full(old(RoomsNow()), code) then None else Some(old(nextMember))
    {
      var members := Room(rooms, code);
      if |members| >= 2 {
        return None;
      }
      var id := nextMember;
      nextMember := nextMember + 1;
      Tell(members, JOINED);
      if members != [] {
        inbox := Post(inbox, conn, JOINED);
      }
      rooms := rooms[code := members + [Member(id, conn)]];
      r := Some(id);
    }

    method RelayRoom(code: string, fromId: nat, text: string)
      modifies this`inbox
      ensures RoomsNow() == OnRelay(old(RoomsNow()), code, fromId, text)
    {
      if code in rooms {
        hide Post, PostAll, Without;
        var members := rooms[code];
        NobodyToTell(inbox, fromId, text);
        for i := 0 to |members|
          invariant inbox == PostAll(old(inbox), Without(members[..i], fromId), text)
        {
          var m := members[i];
          assert members[..i + 1] == members[..i] + [m];
          WithoutSnoc(members[..i], m, fromId);
          PostAllSnoc(old(inbox), Without(members[..i], fromId), m, text);
          if m.id != fromId {
            inbox := Post(inbox, m.conn, text);
          }
        }
        assert members[..|members|] == members;
      } else {
        NobodyToTell(inbox, fromId, text);
      }
    }

    method LeaveRoom(code: string, id: nat)
      modifies this`rooms, this`inbox
      ensures RoomsNow() == OnLeave(old(RoomsNow()), code, id)
    {
      if code in rooms {
        var members := Without(rooms[code], id);
        Tell(members, LEFT);
        rooms := if members == [] then rooms - {code} else rooms[code := members];
      }
    }

    method Register(device: string, user: int, conn: nat)
      modifies this`peers
      ensures peers == Registry(old(peers), Registered(device, Peer(user, conn)))
    {
      peers := peers[device := Peer(user, conn)];
    }

    /** Only if the connection has not been replaced. */
    method Unregister(device: string, conn: nat)
      modifies this`peers
      ensures peers == Registry(old(peers), Unregistered(device, conn))
    {
      if device in peers && peers[device].conn == conn {
        peers := peers - {device};
      }
    }

    /** Delivered to the target's connection, within the account, or to nobody. */
    method RelayTo(fromUser: int, target: string, text: string) returns (r: Relayed)
      modifies this`inbox
      ensures r == Delivered <==> target in peers && peers[target].user == fromUser && peers[target].conn !in closed
      ensures r == Failed(CrossAccount) <==> target in peers && peers[target].user != fromUser
      ensures inbox == if r == Delivered then Post(old(inbox), peers[target].conn, text) else old(inbox)
    {
      if target !in peers {
        r := Failed(Offline);
      } else if peers[target].user != fromUser {
        r := Failed(CrossAccount);
      } else if peers[target].conn in closed {
        r := Failed(Offline);
      } else {
        inbox := Post(inbox, peers[target].conn, text);
        r := Delivered;
      }
    }
  }

  // ---------------------------------------------------------------- who speaks for a device

  datatype PeerEvent = Registered(device: string, peer: Peer) | Unregistered(device: string, conn: nat)

  function Registry(peers: map<string, Peer>, e: PeerEvent): map<string, Peer> {
    match e
    case Registered(device, peer) => peers[device := peer]
    case Unregistered(device, conn) => if device in peers && peers[device].conn == conn then peers - {device} else peers
  }

  function RegistryAfter(events: seq<PeerEvent>): map<string, Peer> {
    if events == [] then map[] else Registry(RegistryAfter(events[..|events| - 1]), events[|events| - 1])
  }

  /** Event `i` registered the peer, no later event registered the device again, and no
      later event unregistered that connection. */
  ghost predicate LatestAlive(events: seq<PeerEvent>, device: string, peer: Peer, i: int) {
    && 0 <= i < |events| && events[i] == Registered(device, peer)
    && forall j | i < j < |events| ::
         !(events[j].Registered? && events[j].device == device) && events[j] != Unregistered(device, peer.conn)
  }

  ghost predicate Speaks(events: seq<PeerEvent>, device: string, peer: Peer) {
    exists i :: LatestAlive(events, device, peer, i)
  }

  lemma SpeaksStep(events: seq<PeerEvent>, device: string, peer: Peer)
    requires events != []
    ensures var before, e := events[..|events| - 1], events[|events| - 1];
      Speaks(events, device, peer) <==>
        e == Registered(device, peer) ||
        (Speaks(before, device, peer) && !(e.Registered? && e.device == device) && e != Unregistered(device, peer.conn))
  {
    var n := |events| - 1;
    var before, e := events[..n], events[n];
    if Speaks(events, device, peer) {
      var i :| LatestAlive(events, device, peer, i);
      if i < n {
        assert LatestAlive(before, device, peer, i);
      }
    }
    if e == Registered(device, peer) {
      assert LatestAlive(events, device, peer, n);
    } else if Speaks(before, device, peer) && !(e.Registered? && e.device == device) && e != Unregistered(device, peer.conn) {
      var i :| LatestAlive(before, device, peer, i);
      assert LatestAlive(events, device, peer, i);
    }
  }

  /** After any interleaving of connects and disconnects, a device is reached through its
      most recent connection if that has not gone, and otherwise not at all. */
  lemma {:induction false} RegistryIsLatest(events: seq<PeerEvent>, device: string, peer: Peer)
    ensures device in RegistryAfter(events) && RegistryAfter(events)[device] == peer <==> Speaks(events, device, peer)
  {
    if events != [] {
      RegistryIsLatest(events[..|events| - 1], device, peer);
      SpeaksStep(events, device, peer);
      hide Speaks;
    }
  }

  /** A disconnect that comes late does not evict the connection that replaced it. */
  lemma LateDisconnect(events: seq<PeerEvent>, device: string, stale: nat, newer: Peer)
    requires newer.conn != stale
    ensures var after := RegistryAfter(events + [Registered(device, newer)] + [Unregistered(device, stale)]);
      device in after && after[device] == newer
  {
    var all := events + [Registered(device, newer)] + [Unregistered(device, stale)];
    assert LatestAlive(all, device, newer, |events|);
    RegistryIsLatest(all, device, newer);
  }

  // ---------------------------------------------------------------- rooms

  ghost predicate GoodRoom(members: seq<Member>, next: nat) {
    && 1 <= |members| <= 2
    && (forall m | m in members :: m.id < next)
    && (|members| == 2 ==> members[0].id != members[1].id)
  }

  /** Every connection is in at most one room, once. */
  ghost predicate OwnConnections(rooms: Rooms) {
    forall c, d, i, j | c in rooms && d in rooms && 0 <= i < |rooms[c]| && 0 <= j < |rooms[d]| ::
      rooms[c][i].conn == rooms[d][j].conn ==> c == d && i == j
  }

  ghost predicate Inv(s: RoomState) {
    && (forall c | c in s.rooms :: GoodRoom(s.rooms[c], s.nextMember))
    && OwnConnections(s.rooms)
  }

  /** A socket joins with a channel of its own, and speaks and leaves as the member it was
      made by that. */
  predicate Enabled(s: RoomState, e: RoomEvent) {
    match e
    case Join(_, conn) => forall c | c in s.rooms :: forall m | m in s.rooms[c] :: m.conn != conn
    case Relay(code, id, _) => exists m | m in Room(s.rooms, code) :: m.id == id
    case Leave(code, id) => exists m | m in Room(s.rooms, code) :: m.id == id
  }

  lemma WithoutPair(members: seq<Member>, id: nat)
    requires |members| <= 2
    ensures Without(members, id) ==
      (if |members| > 0 && members[0].id != id then [members[0]] else []) +
      (if |members| > 1 && members[1].id != id then [members[1]] else [])
  {
    if |members| == 2 {
      assert members[..1] == [members[0]] && members[..1][..0] == [];
    }
  }

  lemma JoinKeepsInv(s: RoomState, code: string, conn: nat)
    requires Inv(s) && Enabled(s, Join(code, conn))
    ensures Inv(OnJoin(s, code, conn))
  {
    hide PostAll, Post;
    var t := OnJoin(s, code, conn);
    if !Full(s, code) {
      forall c, d, i, j | c in t.rooms && d in t.rooms && 0 <= i < |t.rooms[c]| && 0 <= j < |t.rooms[d]|
        && t.rooms[c][i].conn == t.rooms[d][j].conn
        ensures c == d && i == j
      {
        assert i < |Room(s.rooms, c)| ==> c in s.rooms && s.rooms[c][i] in s.rooms[c];
        assert j < |Room(s.rooms, d)| ==> d in s.rooms && s.rooms[d][j] in s.rooms[d];
      }
    }
  }

  /** Shrinking a room to one of its members. */
  lemma OwnAfterShrink(rooms: Rooms, code: string, m: Member)
    requires OwnConnections(rooms) && code in rooms && m in rooms[code]
    ensures OwnConnections(rooms[code := [m]])
  {
    var k :| 0 <= k < |rooms[code]| && rooms[code][k] == m;
    var t: Rooms := rooms[code := [m]];
    forall c, d, i, j | c in t && d in t && 0 <= i < |t[c]| && 0 <= j < |t[d]| && t[c][i].conn == t[d][j].conn
      ensures c == d && i == j
    {
      var i', j' := if c == code then k else i, if d == code then k else j;
      assert rooms[c][i'].conn == rooms[d][j'].conn;
    }
  }

  lemma LeaveKeepsInv(s: RoomState, code: string, id: nat)
    requires Inv(s) && Enabled(s, Leave(code, id))
    ensures Inv(OnLeave(s, code, id))
  {
    hide PostAll, Post, OwnConnections;
    var room, kept := s.rooms[code], Without(s.rooms[code], id);
    WithoutPair(room, id);
    hide Without;
    assert |kept| == |room| - 1;
    if kept != [] {
      assert kept == [kept[0]] && kept[0] in room;
      OwnAfterShrink(s.rooms, code, kept[0]);
    } else {
      OwnAfterRemoval(s.rooms, code);
    }
  }

  lemma OwnAfterRemoval(rooms: Rooms, code: string)
    requires OwnConnections(rooms)
    ensures OwnConnections(rooms - {code})
  {
  }

  lemma StepKeepsInv(s: RoomState, e: RoomEvent)
    requires Inv(s) && Enabled(s, e)
    ensures Inv(Next(s, e))
  {
    match e {
      case Join(code, conn) => JoinKeepsInv(s, code, conn);
      case Relay(code, id, text) =>
      case Leave(code, id) => LeaveKeepsInv(s, code, id);
    }
  }

  function After(s: RoomState, events: seq<RoomEvent>): RoomState {
    if events == [] then s else Next(After(s, events[..|events| - 1]), events[|events| - 1])
  }

  ghost predicate IsRun(s: RoomState, events: seq<RoomEvent>) {
    events == [] ||
    (IsRun(s, events[..|events| - 1]) && Enabled(After(s, events[..|events| - 1]), events[|events| - 1]))
  }

  /** Every room of every run holds one or two members with different ids. */
  lemma {:induction false} RunKeepsInv(s: RoomState, events: seq<RoomEvent>)
    requires Inv(s) && IsRun(s, events)
    ensures Inv(After(s, events))
  {
    if events != [] {
      hide Inv, Next, Enabled;
      RunKeepsInv(s, events[..|events| - 1]);
      StepKeepsInv(After(s, events[..|events| - 1]), events[|events| - 1]);
    }
  }

  // ---------------------------------------------------------------- two parties

  /** The texts that member `id` of a room sends. */
  function Texts(events: seq<RoomEvent>, code: string, id: nat): seq<string> {
    if events == [] then []
    else
      var e := events[|events| - 1];
      Texts(events[..|events| - 1], code, id) + if e.Relay? && e.code == code && e.id == id then [e.text] else []
  }

  ghost predicate NobodyLeaves(events: seq<RoomEvent>, code: string) {
    forall i | 0 <= i < |events| :: !(events[i].Leave? && events[i].code == code)
  }

  /** Posting to others leaves a connection's mail alone. */
  lemma {:induction false} MailOfOthers(inbox: Inbox, members: seq<Member>, text: string, conn: nat)
    requires forall m | m in members :: m.conn != conn
    ensures Mail(PostAll(inbox, members, text), conn) == Mail(inbox, conn)
  {
    if members != [] {
      MailOfOthers(inbox, members[..|members| - 1], text, conn);
    }
  }

  lemma {:induction false} WithoutIsPart(members: seq<Member>, id: nat)
    ensures forall m | m in Without(members, id) :: m in members
  {
    if members != [] {
      WithoutIsPart(members[..|members| - 1], id);
    }
  }

  /** In a pair, a text goes to the member that did not send it. */
  lemma RelayToOther(inbox: Inbox, room: seq<Member>, text: string, a: Member, b: Member)
    requires (room == [a, b] || room == [b, a]) && a.id != b.id && a.conn != b.conn
    ensures PostAll(inbox, Without(room, b.id), text) == Post(inbox, a.conn, text)
  {
    WithoutPair(room, b.id);
    assert Without(room, b.id) == [a];
    PostOne(inbox, Without(room, b.id), text);
  }

  /** One event, seen by member `me` of a full room: only the other's texts arrive. */
  lemma PairStep(s: RoomState, e: RoomEvent, code: string, me: nat, other: nat)
    requires Inv(s) && Enabled(s, e) && Full(s, code) && !(e.Leave? && e.code == code)
    requires me < 2 && other == 1 - me
    ensures var room := Room(s.rooms, code);
      && |room| == 2
      && Room(Next(s, e).rooms, code) == room
      && Mail(Next(s, e).inbox, room[me].conn) == Mail(s.inbox, room[me].conn) +
           if e.Relay? && e.code == code && e.id == room[other].id then [e.text] else []
  {
    var room := s.rooms[code];
    assert room[me] in room;
    if e.Relay? && e.code == code {
      OwnPair(s, code);
      hide Inv;
      var from, to := if e.id == room[other].id then other else me, if e.id == room[other].id then me else other;
      RelayToOther(s.inbox, room, e.text, room[to], room[from]);
      hide PostAll, Without;
    } else {
      OtherRoomStep(s, e, code, me);
    }
  }

  lemma OwnPair(s: RoomState, code: string)
    requires Inv(s) && Full(s, code)
    ensures |s.rooms[code]| == 2 && s.rooms[code][0].conn != s.rooms[code][1].conn
    ensures s.rooms[code][0].id != s.rooms[code][1].id
  {
    assert OwnConnections(s.rooms);
    assert s.rooms[code][0].conn != s.rooms[code][1].conn;
  }

  /** What happens in another room does not reach this one. */
  lemma OtherRoomStep(s: RoomState, e: RoomEvent, code: string, me: nat)
    requires e.code != code || e.Join?
    requires Inv(s) && Enabled(s, e) && Full(s, code) && me < 2 && |Room(s.rooms, code)| == 2
    ensures Room(Next(s, e).rooms, code) == Room(s.rooms, code)
    ensures Mail(Next(s, e).inbox, Room(s.rooms, code)[me].conn) == Mail(s.inbox, Room(s.rooms, code)[me].conn)
  {
    var conn := s.rooms[code][me].conn;
    assert s.rooms[code][me] in s.rooms[code];
    if e.code != code {
      var there := Room(s.rooms, e.code);
      assert forall m | m in there :: m.conn != conn;
      match e {
        case Join(_, _) =>
          MailOfOthers(s.inbox, there, JOINED, conn);
        case Relay(_, id, text) =>
          WithoutIsPart(there, id);
          MailOfOthers(s.inbox, Without(there, id), text, conn);
        case Leave(_, id) =>
          WithoutIsPart(there, id);
          MailOfOthers(s.inbox, Without(there, id), LEFT, conn);
      }
    }
  }

  /** While both stay, each member of a full room is sent exactly the other's texts, in
      order, whatever goes on in other rooms and whoever else tries to join. */
  lemma {:induction false} RoomIsAPipe(s: RoomState, events: seq<RoomEvent>, code: string, me: nat, other: nat)
    requires Inv(s) && IsRun(s, events) && Full(s, code) && NobodyLeaves(events, code)
    requires me < 2 && other == 1 - me
    ensures var room, t := Room(s.rooms, code), After(s, events);
      && |room| == 2 && Room(t.rooms, code) == room
      && Mail(t.inbox, room[me].conn) == Mail(s.inbox, room[me].conn) + Texts(events, code, room[other].id)
  {
    if events != [] {
      var shorter, e := events[..|events| - 1], events[|events| - 1];
      RoomIsAPipe(s, shorter, code, me, other);
      RunKeepsInv(s, shorter);
      var t := After(s, shorter);
      assert After(s, events) == Next(t, e) && Full(t, code);
      assert Enabled(t, e) && !(e.Leave? && e.code == code);
      hide Inv, Next, Enabled, Mail, Room, After, IsRun, NobodyLeaves;
      PairStep(t, e, code, me, other);
      var room := Room(s.rooms, code);
      OneMoreText(events, code, room[other].id);
      hide Texts;
      Regroup(Mail(s.inbox, room[me].conn), Texts(shorter, code, room[other].id),
              if e.Relay? && e.code == code && e.id == room[other].id then [e.text] else []);
    } else {
      assert |Room(s.rooms, code)| == 2;
    }
  }

  lemma OneMoreText(events: seq<RoomEvent>, code: string, id: nat)
    requires events != []
    ensures var e := events[|events| - 1];
      Texts(events, code, id) ==
      Texts(events[..|events| - 1], code, id) + if e.Relay? && e.code == code && e.id == id then [e.text] else []
  {
  }

  lemma Regroup<T>(a: seq<T>, b: seq<T>, c: seq<T>)
    ensures a + b + c == a + (b + c)
  {
  }

  /** The first to join a code has the room to itself, under a number of its own; nobody is
      told anything and no other room changes. */
  lemma FirstJoins(s: RoomState, code: string, conn: nat)
    requires Inv(s) && Enabled(s, Join(code, conn)) && Room(s.rooms, code) == []
    ensures var t := Next(s, Join(code, conn));
      && Room(t.rooms, code) == [Member(s.nextMember, conn)] && t.nextMember == s.nextMember + 1
      && t.inbox == s.inbox && t.rooms - {code} == s.rooms - {code}
  {
    NobodyToTell(s.inbox, 0, JOINED);
  }

  /** A third party is turned away, and nobody notices. */
  lemma ThirdIsRefused(s: RoomState, code: string, conn: nat)
    requires Inv(s) && |Room(s.rooms, code)| == 2
    ensures Next(s, Join(code, conn)) == s
  {
  }

  /** One connection waits in a room. */
  function Waiting(code: string, a: nat): RoomState {
    RoomState(map[code := [Member(0, a)]], 1, map[])
  }

  /** Two connections are in a room and have been told of each other. */
  function Paired(code: string, a: nat, b: nat): RoomState {
    RoomState(map[code := [Member(0, a), Member(1, b)]], 2, map[a := [JOINED], b := [JOINED]])
  }

  lemma Meeting(code: string, a: nat, b: nat)
    requires a != b
    ensures Enabled(INITIAL, Join(code, a)) && Next(INITIAL, Join(code, a)) == Waiting(code, a)
    ensures Enabled(Waiting(code, a), Join(code, b)) && Next(Waiting(code, a), Join(code, b)) == Paired(code, a, b)
  {
    NobodyToTell(map[], 0, JOINED);
    assert Room(INITIAL.rooms, code) + [Member(0, a)] == [Member(0, a)];
    assert OnJoin(INITIAL, code, a).rooms == Waiting(code, a).rooms;
    var s := Waiting(code, a);
    var members := Room(s.rooms, code);
    assert members == [Member(0, a)];
    PostOne(s.inbox, members, JOINED);
    BothTold(a, b);
    hide PostAll, Post;
    assert members + [Member(1, b)] == [Member(0, a), Member(1, b)];
    var t := OnJoin(s, code, b);
    assert t.rooms == Paired(code, a, b).rooms;
    assert t.inbox == Post(Post(s.inbox, a, JOINED), b, JOINED);
  }

  lemma BothTold(a: nat, b: nat)
    requires a != b
    ensures Post(Post(map[], a, JOINED), b, JOINED) == map[a := [JOINED], b := [JOINED]]
  {
    assert [] + [JOINED] == [JOINED];
  }

  /** On a fresh hub two connections that join one code are a pair: both are told, and
      nothing else has happened. */
  lemma TwoMeet(code: string, a: nat, b: nat)
    requires a != b
    ensures var events := [Join(code, a), Join(code, b)];
      IsRun(INITIAL, events) && After(INITIAL, events) == Paired(code, a, b) && Inv(Paired(code, a, b))
  {
    Meeting(code, a, b);
    var one, two := [Join(code, a)], [Join(code, a), Join(code, b)];
    assert two[..1] == one && one[..0] == [];
    assert After(INITIAL, []) == INITIAL && IsRun(INITIAL, []) && Inv(INITIAL);
    hide After, IsRun, Next, Enabled, Inv;
    LastEvent(one);
    LastEvent(two);
    RunKeepsInv(INITIAL, two);
  }

  lemma LastEvent(events: seq<RoomEvent>)
    requires events != []
    ensures var before, e := events[..|events| - 1], events[|events| - 1];
      && After(INITIAL, events) == Next(After(INITIAL, before), e)
      && (IsRun(INITIAL, events) <==> IsRun(INITIAL, before) && Enabled(After(INITIAL, before), e))
  {
    hide Next, Enabled;
  }

  /** What either of the two says from then on, the other hears, whatever else goes on. */
  lemma PairTalks(code: string, a: nat, b: nat, events: seq<RoomEvent>)
    requires a != b && IsRun(Paired(code, a, b), events) && NobodyLeaves(events, code)
    ensures var t := After(Paired(code, a, b), events);
      && Mail(t.inbox, a) == [JOINED] + Texts(events, code, 1)
      && Mail(t.inbox, b) == [JOINED] + Texts(events, code, 0)
  {
    TwoMeet(code, a, b);
    RoomIsAPipe(Paired(code, a, b), events, code, 0, 1);
    RoomIsAPipe(Paired(code, a, b), events, code, 1, 0);
    hide After, IsRun, Texts;
  }

  /** Alone in a room, one talks to nobody. */
  lemma AloneHearsNothing(s: RoomState, code: string, id: nat, text: string)
    requires Enabled(s, Relay(code, id, text)) && |Room(s.rooms, code)| == 1
    ensures Next(s, Relay(code, id, text)) == s
  {
    WithoutPair(Room(s.rooms, code), id);
    NobodyToTell(s.inbox, id, text);
    hide Without, PostAll;
  }

  /** When the second joins, both are told, and no other room changes. */
  lemma SecondJoins(s: RoomState, code: string, conn: nat)
    requires Inv(s) && Enabled(s, Join(code, conn)) && |Room(s.rooms, code)| == 1
    ensures var first, t := Room(s.rooms, code)[0], OnJoin(s, code, conn);
      && Room(t.rooms, code) == [first, Member(s.nextMember, conn)] && Full(t, code)
      && Mail(t.inbox, first.conn) == Mail(s.inbox, first.conn) + [JOINED]
      && Mail(t.inbox, conn) == Mail(s.inbox, conn) + [JOINED]
      && t.nextMember == s.nextMember + 1 && t.rooms - {code} == s.rooms - {code}
  {
    var room := s.rooms[code];
    assert room[0] in room && room == [room[0]];
    PostOne(s.inbox, room, JOINED);
  }

  /** When one of two leaves, the other is told and the place is free again; when the last
      leaves, the room is gone. */
  lemma OneLeaves(s: RoomState, code: string, id: nat)
    requires Inv(s) && Enabled(s, Leave(code, id))
    ensures var room, t := Room(s.rooms, code), OnLeave(s, code, id);
      && t.nextMember == s.nextMember && t.rooms - {code} == s.rooms - {code}
      && (|room| == 1 ==> code !in t.rooms && t.inbox == s.inbox)
      && forall me | 0 <= me < |room| && |room| == 2 && room[me].id != id ::
           Room(t.rooms, code) == [room[me]] &&
           Mail(t.inbox, room[me].conn) == Mail(s.inbox, room[me].conn) + [LEFT]
  {
    var room := s.rooms[code];
    WithoutPair(room, id);
    var kept := Without(room, id);
    NobodyToTell(s.inbox, id, LEFT);
    hide Without, PostAll;
    assert |kept| == |room| - 1;
    if |room| == 2 {
      PostOne(s.inbox, kept, LEFT);
    }
  }
}
