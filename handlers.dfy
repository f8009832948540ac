/**
 * The socket handlers' registry: the rooms by id, the engine of every room
 * whose game was started, and every socket's current room. A handler's reply
 * to its own socket is modelled as a returned refusal code; the room-wide
 * `room-updated` notifications are not part of this model.
 */
module Handlers {
  import opened Options
  import opened OrderedMaps
  import opened Text
  import opened Players
  import opened Bots
  import opened GameRooms
  import opened Engine

  /** An id `generateRoomId` can draw: `String(n)` for some n in 1000..9999. */
  ghost predicate IsRoomId(id: string) {
    exists n: nat :: 1000 <= n < 10000 && id == Decimal(n)
  }

  /** Some id `generateRoomId` can draw is not taken. */
  ghost predicate SomeIdFree(taken: set<string>) {
    exists n: nat :: 1000 <= n < 10000 && Decimal(n) !in taken
  }

  /** The `error-message` replies, one per distinct guard. */
  datatype Refusal =
    | RoomNotFound          // join-room: no such room
    | AlreadyStarted        // join-room: the room has left the lobby
    | RoomFull              // join-room: no free seat
    | NotInRoom             // add-bots, add-bot, start-game: the socket is in no room
    | NotHost               // add-bots, add-bot, start-game: the socket is not the host
    | NotInLobby            // add-bots, add-bot: the game is already on
    | TableFull             // add-bots, add-bot: no free seat
    | NotEnoughPlayers(count: nat)   // start-game: `canStart()` fails

  /** One entry of the `rooms-list` reply. */
  datatype LobbyInfo = LobbyInfo(roomId: string, playerCount: nat, maxPlayers: int)

  /** A room list-rooms shows: public and still in the lobby. */
  predicate Listed(r: GameRoom)
    reads r
  {
    !r.isPrivate && r.phase == Lobby
  }

  /** A room quick-play may join: listed and with a free seat. */
  predicate Open(r: GameRoom)
    reads r
  {
    Listed(r) && r.PlayerCount() < r.maxPlayers
  }

  /** `socketId` sits in listed room `r`, in a seat below its capacity. */
  ghost predicate TookFreeSeat(r: GameRoom, socketId: string, user: UserData)
    reads r
  {
    && Listed(r) && socketId in r.players.vals
    && var seat := r.players.vals[socketId].seat;
    && seat < r.maxPlayers && r.players.vals[socketId] == NewPlayer(socketId, user, seat)
  }

  function Info(r: GameRoom): LobbyInfo
    reads r
  {
    LobbyInfo(r.id, r.PlayerCount(), r.maxPlayers)
  }

  /** The join-room guards once the room is found: a game past the lobby first, then a full table. */
  function SeatRefusal(phase: Phase, count: nat, maxPlayers: int): (refusal: Option<Refusal>)
    ensures refusal == Some(AlreadyStarted) <==> phase != Lobby
    ensures refusal == Some(RoomFull) <==> phase == Lobby && count >= maxPlayers
    ensures refusal.None? <==> phase == Lobby && count < maxPlayers
  {
    if phase != Lobby then Some(AlreadyStarted) else if count >= maxPlayers then Some(RoomFull) else None
  }

  /** `value || fallback` for an optional string field of the payload; the empty string is falsy. */
  function OrElse(value: string, fallback: string): (r: string)
    ensures r == (if value == "" then fallback else value)
  {
    if value == "" then fallback else value
  }

  /** `socket.id.slice(0, 4)` */
  function Prefix4(s: string): (p: string)
    ensures |p| == if |s| < 4 then |s| else 4
    ensures p <= s
  {
    if |s| < 4 then s else s[..4]
  }

  /** Every player other than `socketId` is a bot: once that socket leaves, no human remains. */
  ghost predicate OnlyBotsBesides(players: Roster, socketId: string) {
    forall k :: k in players.vals && k != socketId ==> players.vals[k].isBot
  }

  lemma OnlyBotsAfterDelete(players: Roster, socketId: string)
    ensures OnlyBotsBesides(players, socketId) <==>
      forall k :: k in players.Delete(socketId).vals ==> players.Delete(socketId).vals[k].isBot
  {
    var d := players.Delete(socketId);
    if forall k :: k in d.vals ==> d.vals[k].isBot {
      forall k | k in players.vals && k != socketId ensures players.vals[k].isBot {
        assert k in d.vals;
      }
    }
  }

  /** `[...room.players.values()].filter(p => !p.isBot).length === 0` */
  lemma NoHumansIff(players: Roster)
    requires players.Valid()
    ensures Filter(players.Values(), (p: Player) => !p.isBot) == [] <==> forall k :: k in players.vals ==> players.vals[k].isBot
  {
    var humans := Filter(players.Values(), (p: Player) => !p.isBot);
    if humans == [] {
      forall k | k in players.vals ensures players.vals[k].isBot {
        var i :| 0 <= i < |players.keys| && players.keys[i] == k;
        assert players.Values()[i] == players.vals[k];
        assert players.vals[k] !in humans;
      }
    } else {
      assert humans[0] in humans;
      var i :| 0 <= i < |players.keys| && players.Values()[i] == humans[0];
    }
  }

  /** The numbers `lo` up to, and not including, `hi`. */
  function Range(lo: nat, hi: nat): (r: set<nat>)
    ensures forall m :: m in r <==> lo <= m < hi
    decreases hi - lo
  {
    if lo >= hi then {} else {lo} + Range(lo + 1, hi)
  }

  /** `[...room.players.values()].filter(p => !p.isBot)`: empty exactly when every player is a bot. */
  function HumanPlayers(players: Roster): (humans: seq<Player>)
    requires players.Valid()
    ensures humans == [] <==> forall k :: k in players.vals ==> players.vals[k].isBot
  {
    NoHumansIff(players);
    Filter(players.Values(), (p: Player) => !p.isBot)
  }

  /**
   * `generateRoomId`: draw `String(1000 + floor(random * 9000))` until the id
   * is not taken. A draw never repeats an id already found taken, so the loop
   * ends; it needs one free id, without which the source spins for ever.
   */
  method GenerateRoomId(taken: set<string>) returns (id: string)
    requires SomeIdFree(taken)
    ensures IsRoomId(id) && id !in taken
  {
    ghost var f: nat :| 1000 <= f < 10000 && Decimal(f) !in taken;
    var untried := Range(1000, 10000);
    var n: nat :| 1000 <= n < 10000;
    id := Decimal(n);
    while id in taken
      invariant n in untried && 1000 <= n < 10000 && id == Decimal(n)
      invariant f in untried
      invariant forall m: nat :: 1000 <= m < 10000 && m !in untried ==> Decimal(m) in taken
      decreases untried
    {
      assert f != n;
      untried := untried - {n};
      assert f in untried && 1000 <= f < 10000;
      n :| n in untried && 1000 <= n < 10000;
      id := Decimal(n);
    }
  }

  /** `rooms.values().find(open)`, as an index into the rooms in creation order. */
  function FirstOpen(rs: seq<GameRoom>): (r: Option<nat>)
    reads set x | x in rs
    ensures r.Some? ==> r.value < |rs| && Open(rs[r.value]) && forall j :: 0 <= j < r.value ==> !Open(rs[j])
    ensures r.None? ==> forall j :: 0 <= j < |rs| ==> !Open(rs[j])
  {
    if rs == [] then None
    else if Open(rs[0]) then Some(0)
    else
      var rest := FirstOpen(rs[1..]);
      if rest.None? then None else Some(rest.value + 1)
  }

  /** The list-rooms filter and map over the rooms in creation order. */
  function PublicLobbies(rs: seq<GameRoom>): (infos: seq<LobbyInfo>)
    reads set x | x in rs
    ensures forall info :: info in infos <==> exists r :: r in rs && Listed(r) && info == Info(r)
    ensures |infos| <= |rs|
  {
    if rs == [] then []
    else
      var rest := PublicLobbies(rs[1..]);
      if Listed(rs[0]) then [Info(rs[0])] + rest else rest
  }

  /**
   * The listing keeps creation order: listing two runs of rooms one after the
   * other is listing them together. With the one-room case this fixes the
   * listing entry by entry.
   */
  lemma {:induction false} PublicLobbiesAppend(a: seq<GameRoom>, b: seq<GameRoom>)
    ensures PublicLobbies(a + b) == PublicLobbies(a) + PublicLobbies(b)
    ensures |a| == 1 ==> PublicLobbies(a) == if Listed(a[0]) then [Info(a[0])] else []
  {
    if a != [] {
      assert (a + b)[1..] == a[1..] + b;
      PublicLobbiesAppend(a[1..], b);
      assert PublicLobbies(a[1..]) == [] <== |a| == 1;
    } else {
      assert a + b == b;
    }
  }

  /** Every human on the roster has `k` as their socket's room. */
  ghost predicate Seated(players: Roster, k: string, roomOf: map<string, string>) {
    forall p :: p in players.vals && !players.vals[p].isBot ==> p in roomOf && roomOf[p] == k
  }

  /** The registry's demands on the room stored under `k`. */
  ghost predicate RoomOk(r: GameRoom, k: string, counter: nat, roomOf: map<string, string>)
    reads r
  {
    r.id == k && r.Valid() && BotIdsAtMost(r.players, counter) && Seated(r.players, k, roomOf)
  }

  /** The registry's demands on the engine of room `r`. */
  ghost predicate EngineOk(e: GameEngine, r: GameRoom, k: string, book: PhraseBook)
    reads e, r
  {
    e.room == r && r.id == k && e.book == book && e.Valid()
  }

  /** A socket that is not (or no longer) in room `k` keeps the room's humans seated when it forgets its room. */
  lemma SeatedWithout(players: Roster, k: string, roomOf: map<string, string>, socketId: string)
    requires Seated(players, k, roomOf)
    requires socketId in players.vals && !players.vals[socketId].isBot ==> socketId in roomOf && roomOf[socketId] != k
    ensures Seated(players, k, roomOf - {socketId})
  {
  }

  /** `avatar || null` */
  function AvatarOf(avatar: string): Option<string> {
    if avatar == "" then None else Some(avatar)
  }

  /** join-room's profile: `tgId: userId || socket.id`, `name: name || "Player_" + socket.id.slice(0, 4)`. */
  function JoinProfile(socketId: string, userId: string, name: string, avatar: string): UserData {
    UserData(OrElse(userId, socketId), OrElse(name, "Player_" + Prefix4(socketId)), AvatarOf(avatar), None, false)
  }

  /** create-room's and quick-play's profile: `tgId: userId`, `name: name || "Player_" + userId`, with `userId = data.userId || socket.id`. */
  function HostProfile(socketId: string, userId: string, name: string, avatar: string): UserData {
    var uid := OrElse(userId, socketId);
    UserData(uid, OrElse(name, "Player_" + uid), AvatarOf(avatar), None, false)
  }

  /** A free id stays free when ids go, and an id that went is free. */
  lemma StillFree(before: set<string>, after: set<string>, freed: string)
    requires after <= before
    requires SomeIdFree(before) || (IsRoomId(freed) && freed !in after)
    ensures SomeIdFree(after)
  {
    if !SomeIdFree(before) {
      var n: nat :| 1000 <= n < 10000 && freed == Decimal(n);
    }
  }

  /** Taking out a key that is not there changes nothing. */
  lemma NothingToDrop<V>(m: map<string, V>, k: string)
    requires k !in m
    ensures m - {k} == m
  {
  }

  /** Forgetting a socket's room and then setting it is the same as setting it. */
  lemma Reseat(m: map<string, string>, socketId: string, roomId: string)
    ensures (m - {socketId})[socketId := roomId] == m[socketId := roomId]
  {
  }

  /** The humans of a roster `fillWithBots` produced are the humans it started with, unchanged. */
  lemma FilledHumans(p0: Roster, p: Roster, bots: seq<BotIdentity>)
    requires RosterValid(p0) && RosterValid(p) && FilledBy(p0, p, bots)
    ensures forall k :: k in p.vals && !p.vals[k].isBot ==> k in p0.vals && p.vals[k] == p0.vals[k]
  {
    forall k | k in p.vals && !p.vals[k].isBot ensures k in p0.vals {
      assert k in p0.keys + BotIds(bots);
    }
  }

  /** A roster's bot ids stay below a counter that only grows. */
  lemma BotIdsAtMostGrows(players: Roster, counter: nat, counter': nat)
    requires BotIdsAtMost(players, counter) && counter <= counter'
    ensures BotIdsAtMost(players, counter')
  {
  }

  /** A roster that only evolves keeps its ids and who is a bot, hence its seating and its bot ids. */
  lemma EvolvedRoomOk(p0: Roster, p: Roster, k: string, counter: nat, roomOf: map<string, string>)
    requires RosterValid(p0) && RosterValid(p) && RosterEvolves(p0, p) && Seated(p0, k, roomOf) && BotIdsAtMost(p0, counter)
    ensures Seated(p, k, roomOf) && BotIdsAtMost(p, counter)
  {
    assert forall q :: q in p.vals ==> q in p0.vals by {
      forall q | q in p.vals ensures q in p0.vals {
        assert q in p.keys;
      }
    }
  }

  /** A room `fillWithBots` filled keeps its humans seated. */
  lemma FilledSeated(p0: Roster, p: Roster, bots: seq<BotIdentity>, k: string, roomOf: map<string, string>)
    requires RosterValid(p0) && RosterValid(p) && FilledBy(p0, p, bots) && Seated(p0, k, roomOf)
    ensures Seated(p, k, roomOf)
  {
    FilledHumans(p0, p, bots);
  }

  /** `new GameRoom(roomId, hostId, options)`: an empty lobby. */
  method NewRoom(id: string, hostId: string, isPrivate: bool, capacity: Option<int>) returns (r: GameRoom)
    ensures fresh(r) && r.Valid() && r.id == id && r.hostId == hostId && r.isPrivate == isPrivate
    ensures r.maxPlayers == if capacity.None? || capacity.value == 0 then MAX_PLAYERS else capacity.value
    ensures r.phase == Lobby && r.players == Empty()
  {
    r := new GameRoom(id, hostId, isPrivate, capacity);
  }

  /** `new GameEngine(io, room)` followed by `engine.startGame()`. */
  method StartedEngine(r: GameRoom, book: PhraseBook) returns (e: GameEngine)
    requires r.Valid() && book.Valid()
    ensures fresh(e) && e.room == r && e.book == book && e.Valid()
    ensures e.timers == [DealCards, BeginIntroduction] && e.outbox == e.StateDeliveries()
  {
    e := new GameEngine(r, book);
    e.StartGame();
  }

  /** `engine.playerFinishedSpeaking(playerId)`, seen from the registry: the decision and the speaker index. */
  method FinishTurn(e: GameEngine, playerId: string) returns (accepted: bool)
    requires e.Valid()
    modifies e`outbox, e`timers, e.room`currentSpeaker
    ensures e.Valid()
    ensures accepted <==> DoneSpeakingAccepted(old(e.room.AlivePlayers()), old(e.room.currentSpeaker), playerId)
    ensures accepted ==> e.room.currentSpeaker == old(e.room.currentSpeaker) + 1
    ensures !accepted ==> e.room.currentSpeaker == old(e.room.currentSpeaker) && e.timers == old(e.timers)
  {
    accepted := e.PlayerFinishedSpeaking(playerId);
  }

  class RoomDirectory {
    var rooms: OrderedMap<string, GameRoom>
    var engines: map<string, GameEngine>
    var roomOf: map<string, string>     // socket id → `socket.data.roomId`; no entry is null
    const factory: BotFactory           // the module-level bot counter
    const book: PhraseBook

    ghost function Rooms(): set<GameRoom>
      reads this`rooms
    {
      set k | k in rooms.vals :: rooms.vals[k]
    }

    ghost function Engines(): set<GameEngine>
      reads this`engines
    {
      set k | k in engines :: engines[k]
    }

    /**
     * Every room is stored under its own id, an id `generateRoomId` can draw;
     * an engine runs its own room; a human sits only in the room their socket
     * is in, and no roster holds a bot id the counter has not yet passed.
     */
    ghost predicate Valid()
      reads this, factory, Rooms(), Engines()
    {
      book.Valid() && RoomsOk() && EnginesOk()
    }

    ghost predicate RoomsOk()
      reads this`rooms, this`roomOf, factory`botCounter, Rooms()
    {
      && rooms.Valid()
      && (forall k :: k in rooms.vals ==> IsRoomId(k))
      && (forall k :: k in rooms.vals ==> RoomOk(rooms.vals[k], k, factory.botCounter, roomOf))
    }

    ghost predicate EnginesOk()
      reads this`rooms, this`engines, Rooms(), Engines()
    {
      forall k :: k in engines ==> k in rooms.vals && EngineOk(engines[k], rooms.vals[k], k, book)
    }

    constructor(book: PhraseBook)
      requires book.Valid()
      ensures Valid() && this.book == book && fresh(factory) && factory.botCounter == 0
      ensures rooms.keys == [] && engines == map[] && roomOf == map[]
    {
      rooms := Empty();
      engines := map[];
      roomOf := map[];
      factory := new BotFactory();
      this.book := book;
    }

    /** `getPlayerRoom(socket)`: the room the socket's room id names, if it still exists. */
    function SenderRoom(socketId: string): (r: Option<GameRoom>)
      reads this
      ensures r.Some? <==> socketId in roomOf && roomOf[socketId] in rooms.vals
      ensures r.Some? ==> r.value == rooms.vals[roomOf[socketId]]
    {
      if socketId in roomOf && roomOf[socketId] in rooms.vals then Some(rooms.vals[roomOf[socketId]]) else None
    }

    ghost function SenderRooms(socketId: string): set<GameRoom>
      reads this
    {
      if socketId in roomOf && roomOf[socketId] in rooms.vals then {rooms.vals[roomOf[socketId]]} else {}
    }

    ghost function SenderEngines(socketId: string): set<GameEngine>
      reads this
    {
      if socketId in roomOf && roomOf[socketId] in engines then {engines[roomOf[socketId]]} else {}
    }

    ghost function EngineOf(roomId: string): set<GameEngine>
      reads this
    {
      if roomId in engines then {engines[roomId]} else {}
    }

    ghost function RoomById(roomId: string): set<GameRoom>
      reads this
    {
      if roomId in rooms.vals then {rooms.vals[roomId]} else {}
    }

    /** The registry once the socket has left: its room goes if no other human sits in it. */
    ghost function RoomsAfterLeave(socketId: string): (after: OrderedMap<string, GameRoom>)
      reads this, Rooms()
      ensures rooms.Valid() ==> after.Valid()
    {
      if !Vacates(socketId) then rooms
      else if rooms.Valid() then DeleteValid(rooms, roomOf[socketId]); rooms.Delete(roomOf[socketId])
      else rooms.Delete(roomOf[socketId])
    }

    /** No room created before the one stored under `roomId` is open to quick-play. */
    ghost predicate OpenNoneBefore(roomId: string)
      reads this, Rooms()
    {
      forall i, h :: 0 <= h < i < |rooms.keys| && rooms.keys[i] == roomId && rooms.keys[h] in rooms.vals ==> !Open(rooms.vals[rooms.keys[h]])
    }

    /** No room but the one stored under `roomId` is open to quick-play. */
    ghost predicate OpenNoneBesides(roomId: string)
      reads this, Rooms()
    {
      forall k :: k in rooms.vals && k != roomId ==> !Open(rooms.vals[k])
    }

    ghost function EnginesAfterLeave(socketId: string): map<string, GameEngine>
      reads this, Rooms()
    {
      if Vacates(socketId) then engines - {roomOf[socketId]} else engines
    }

    /** The roster of `r` once the socket has left its room. */
    ghost function LeftPlayers(r: GameRoom, socketId: string): Roster
      reads this, r
    {
      if SenderRoom(socketId) == Some(r) then r.players.Delete(socketId) else r.players
    }

    /** Some id is still free for `generateRoomId` to find. */
    ghost predicate FreeRoomId()
      reads this
    {
      SomeIdFree(rooms.vals.Keys)
    }

    /** Some room quick-play could join. */
    ghost predicate HasOpenRoom()
      reads this, Rooms()
    {
      exists k :: k in rooms.vals && Open(rooms.vals[k])
    }

    /** Leaving tears the socket's room down: it exists and no other human sits in it. */
    ghost predicate Vacates(socketId: string)
      reads this, Rooms()
    {
      socketId in roomOf && roomOf[socketId] in rooms.vals && OnlyBotsBesides(rooms.vals[roomOf[socketId]].players, socketId)
    }
      /* ───────── Leaving ───────── */

    /**
     * `leaveCurrentRoom`: the socket forgets its room; if the room still
     * exists the player leaves it, and when no human remains the room's
     * engine is destroyed and both registry entries go.
     */
    method LeaveCurrentRoom(socketId: string)
      requires Valid()
      modifies this`rooms, this`engines, this`roomOf, SenderRooms(socketId)`players, SenderEngines(socketId)`timers
      ensures Valid()
      ensures roomOf == old(roomOf) - {socketId}
      ensures old(SenderRoom(socketId)).Some? ==>
        var r := old(SenderRoom(socketId)).value;
        r.players == old(r.players).Delete(socketId)
      ensures old(Vacates(socketId)) ==>
        && rooms == old(rooms).Delete(old(roomOf[socketId]))
        && engines == old(engines) - {old(roomOf[socketId])}
        && (old(roomOf[socketId]) in old(engines) ==> old(engines[roomOf[socketId]]).timers == [])
      ensures !old(Vacates(socketId)) ==> rooms == old(rooms) && engines == old(engines)
    {
      if socketId !in roomOf {
        return;
      }
      var roomId := roomOf[socketId];
      var room := rooms.Get(roomId);
      if room.None? {
        Forget(socketId);
        return;
      }
      LeaveRoom(room.value, roomId, socketId);
    }

    /** The socket leaves the room it is in; a room left with bots only is torn down. */
    method LeaveRoom(r: GameRoom, roomId: string, socketId: string)
      requires RoomsOk() && EnginesOk() && socketId in roomOf && roomOf[socketId] == roomId
      requires roomId in rooms.vals && rooms.vals[roomId] == r
      modifies this`rooms, this`engines, this`roomOf, r`players, EngineOf(roomId)`timers
      ensures RoomsOk() && EnginesOk()
      ensures roomOf == old(roomOf) - {socketId} && r.players == old(r.players).Delete(socketId)
      ensures old(OnlyBotsBesides(r.players, socketId)) ==>
        && rooms == old(rooms).Delete(roomId) && engines == old(engines) - {roomId}
        && (roomId in old(engines) ==> old(engines[roomId]).timers == [])
      ensures !old(OnlyBotsBesides(r.players, socketId)) ==> rooms == old(rooms) && engines == old(engines)
    {
      ghost var before := r.players;
      Unseat(r, roomId, socketId);
      Forget(socketId);
      var humans := HumanPlayers(r.players);
      OnlyBotsAfterDelete(before, socketId);
      if |humans| == 0 {
        TearDown(r, roomId);
      }
    }

    /* ───────── Joining ───────── */

    /**
     * join-room: leave the current room, then refuse a missing room, a room
     * past the lobby and a full room, in that order; otherwise take a seat.
     * The guards see the room as the leave left it.
     */
    method JoinRoom(socketId: string, roomId: string, userId: string, name: string, avatar: string)
      returns (refusal: Option<Refusal>)
      requires Valid() && BotCounterOf(socketId).None?
      modifies this`rooms, this`engines, this`roomOf, SenderRooms(socketId)`players, SenderEngines(socketId)`timers
      modifies RoomById(roomId)`players
      ensures Valid()
      ensures rooms == old(RoomsAfterLeave(socketId)) && engines == old(EnginesAfterLeave(socketId))
      ensures refusal == Some(RoomNotFound) <==> roomId !in rooms.vals
      ensures roomId in rooms.vals ==>
        var r := rooms.vals[roomId];
        var before := old(LeftPlayers(r, socketId));
        && refusal == SeatRefusal(r.phase, before.Size(), r.maxPlayers)
        && r.players == if refusal.None?
             then before.Put(socketId, NewPlayer(socketId, JoinProfile(socketId, userId, name, avatar), before.Size()))
             else before
      ensures roomOf == if refusal.None? then old(roomOf)[socketId := roomId] else old(roomOf) - {socketId}
      ensures old(SenderRoom(socketId)).Some? && old(roomOf[socketId]) != roomId ==>
        var r := old(SenderRoom(socketId)).value;
        r.players == old(r.players).Delete(socketId)
    {
      ghost var r0 := SenderRoom(socketId);
      ghost var away: GameRoom? := if r0.Some? && r0.value.id != roomId then r0.value else null;
      LeaveCurrentRoom(socketId);
      assert roomId in rooms.vals ==> rooms.vals[roomId].players == old(LeftPlayers(rooms.vals[roomId], socketId));
      refusal := Join(socketId, roomId, JoinProfile(socketId, userId, name, avatar), away);
      Reseat(old(roomOf), socketId, roomId);
    }

    /* ───────── Creating ───────── */

    /**
     * create-room: leave the current room, draw a free id and open a room
     * hosted by the socket (`isPrivate ?? true`, `maxPlayers || 10`, not
     * clamped), seat the host and point the socket at it. A room whose
     * capacity is not positive keeps no one, but the socket still names it.
     */
    method CreateRoom(socketId: string, userId: string, name: string, avatar: string, maxPlayers: int, isPrivate: Option<bool>)
      returns (roomId: string)
      requires Valid() && BotCounterOf(socketId).None? && (FreeRoomId() || Vacates(socketId))
      modifies this`rooms, this`engines, this`roomOf, SenderRooms(socketId)`players, SenderEngines(socketId)`timers
      ensures Valid()
      ensures IsRoomId(roomId) && roomId !in old(RoomsAfterLeave(socketId)).vals && roomId in rooms.vals
      ensures rooms == old(RoomsAfterLeave(socketId)).Put(roomId, rooms.vals[roomId])
      ensures engines == old(EnginesAfterLeave(socketId))
      ensures roomOf == old(roomOf)[socketId := roomId]
      ensures var r := rooms.vals[roomId];
        && fresh(r) && r.id == roomId && r.hostId == socketId && r.phase == Lobby
        && r.isPrivate == (isPrivate.None? || isPrivate.value)
        && r.maxPlayers == (if maxPlayers == 0 then MAX_PLAYERS else maxPlayers)
        && r.players == if 0 < r.maxPlayers then Empty().Put(socketId, NewPlayer(socketId, HostProfile(socketId, userId, name, avatar), 0)) else Empty()
      ensures old(SenderRoom(socketId)).Some? ==>
        var r := old(SenderRoom(socketId)).value;
        r.players == old(r.players).Delete(socketId)
    {
      ghost var keys := rooms.vals.Keys;
      ghost var home := if socketId in roomOf then roomOf[socketId] else "";
      ghost var r0 := SenderRoom(socketId);
      LeaveCurrentRoom(socketId);
      ghost var left := if r0.Some? then r0.value.players else Empty();
      StillFree(keys, rooms.vals.Keys, home);
      roomId := OpenRoom(socketId, HostProfile(socketId, userId, name, avatar), isPrivate.None? || isPrivate.value, Some(maxPlayers));
      assert r0.Some? ==> r0.value.players == left;
      Reseat(old(roomOf), socketId, roomId);
    }

    /** A new room under a free id, hosted by a socket in no room, which takes the first seat if there is one. */
    method OpenRoom(socketId: string, user: UserData, isPrivate: bool, capacity: Option<int>) returns (roomId: string)
      requires RoomsOk() && EnginesOk() && FreeRoomId()
      requires socketId !in roomOf && BotCounterOf(socketId).None? && !user.isBot
      modifies this`rooms, this`roomOf
      ensures RoomsOk() && EnginesOk() && engines == old(engines)
      ensures IsRoomId(roomId) && roomId !in old(rooms.vals) && roomId in rooms.vals
      ensures rooms == old(rooms).Put(roomId, rooms.vals[roomId])
      ensures roomOf == old(roomOf)[socketId := roomId]
      ensures var r := rooms.vals[roomId];
        && fresh(r) && r.id == roomId && r.hostId == socketId && r.phase == Lobby && r.isPrivate == isPrivate
        && r.maxPlayers == (if capacity.None? || capacity.value == 0 then MAX_PLAYERS else capacity.value)
        && r.players == if 0 < r.maxPlayers then Empty().Put(socketId, NewPlayer(socketId, user, 0)) else Empty()
    {
      roomId := GenerateRoomId(rooms.vals.Keys);
      var r := Build(roomId, socketId, isPrivate, capacity);
      Enter(r, socketId, user);
    }

    /** `new GameRoom(roomId, hostId, options)` and `rooms.set(roomId, room)` under a free id. */
    method Build(roomId: string, hostId: string, isPrivate: bool, capacity: Option<int>) returns (r: GameRoom)
      requires RoomsOk() && EnginesOk() && roomId !in rooms.vals && IsRoomId(roomId)
      modifies this`rooms
      ensures RoomsOk() && EnginesOk() && rooms == old(rooms).Put(roomId, r) && engines == old(engines) && roomOf == old(roomOf)
      ensures fresh(r) && r.id == roomId && r.hostId == hostId && r.isPrivate == isPrivate && r.phase == Lobby
      ensures r.maxPlayers == (if capacity.None? || capacity.value == 0 then MAX_PLAYERS else capacity.value)
      ensures r.players == Empty()
    {
      r := NewRoom(roomId, hostId, isPrivate, capacity);
      Register(r);
    }

    /** `rooms.set(roomId, room)` for a room just made. */
    method Register(r: GameRoom)
      requires RoomsOk() && EnginesOk() && r.id !in rooms.vals && IsRoomId(r.id)
      requires r.Valid() && r.players.vals == map[]
      modifies this`rooms
      ensures RoomsOk() && EnginesOk()
      ensures rooms == old(rooms).Put(r.id, r) && engines == old(engines) && roomOf == old(roomOf)
    {
      PutValid(rooms, r.id, r);
      rooms := rooms.Put(r.id, r);
      forall k | k in rooms.vals ensures RoomOk(rooms.vals[k], k, factory.botCounter, roomOf) {
        if k != r.id {
          assert old(RoomOk(rooms.vals[k], k, factory.botCounter, roomOf));
        }
      }
      forall k | k in engines ensures k in rooms.vals && EngineOk(engines[k], rooms.vals[k], k, book) {
        assert old(EngineOk(engines[k], rooms.vals[k], k, book));
      }
    }

    /* ───────── Quick play ───────── */

    /**
     * quick-play: leave the current room, then join the first public lobby
     * with a free seat in creation order, or open a new public room of ten.
     */
    method QuickPlay(socketId: string, userId: string, name: string, avatar: string) returns (roomId: string)
      requires Valid() && BotCounterOf(socketId).None? && (FreeRoomId() || Vacates(socketId))
      modifies this`rooms, this`engines, this`roomOf, Rooms()`players, SenderEngines(socketId)`timers
      ensures Valid()
      ensures engines == old(EnginesAfterLeave(socketId)) && roomOf == old(roomOf)[socketId := roomId]
      ensures roomId in rooms.vals && socketId in rooms.vals[roomId].players.vals
      ensures rooms.vals[roomId].players.vals[socketId].tgId == OrElse(userId, socketId)
      ensures var after := old(RoomsAfterLeave(socketId));
        var r := rooms.vals[roomId];
        var user := HostProfile(socketId, userId, name, avatar);
        || (&& roomId in after.vals && rooms == after
            && TookFreeSeat(r, socketId, user) && OpenNoneBefore(roomId))
        || (&& IsRoomId(roomId) && roomId !in after.vals && rooms == after.Put(roomId, r)
            && fresh(r) && r.hostId == socketId && !r.isPrivate && r.maxPlayers == MAX_PLAYERS
            && r.players == Empty().Put(socketId, NewPlayer(socketId, user, 0))
            && OpenNoneBesides(roomId))
    {
      ghost var keys := rooms.vals.Keys;
      ghost var home := if socketId in roomOf then roomOf[socketId] else "";
      LeaveCurrentRoom(socketId);
      StillFree(keys, rooms.vals.Keys, home);
      roomId := PlayQuick(socketId, HostProfile(socketId, userId, name, avatar));
      Reseat(old(roomOf), socketId, roomId);
    }

    /** The first open room in creation order, or a new public room, once the socket is in no room. */
    method PlayQuick(socketId: string, user: UserData) returns (roomId: string)
      requires RoomsOk() && EnginesOk() && (FreeRoomId() || HasOpenRoom())
      requires socketId !in roomOf && BotCounterOf(socketId).None? && !user.isBot
      modifies this`rooms, this`roomOf, Rooms()`players
      ensures RoomsOk() && EnginesOk() && engines == old(engines) && roomOf == old(roomOf)[socketId := roomId]
      ensures roomId in rooms.vals
      ensures var first := old(FirstOpen(rooms.Values()));
        var r := rooms.vals[roomId];
        && (first.Some? ==>
             && rooms == old(rooms) && roomId == old(rooms.keys[first.value])
             && r.players == old(r.players).Put(socketId, NewPlayer(socketId, user, old(r.PlayerCount()))))
        && (first.None? ==>
             && IsRoomId(roomId) && roomId !in old(rooms.vals) && rooms == old(rooms).Put(roomId, r)
             && fresh(r) && r.hostId == socketId && !r.isPrivate && r.maxPlayers == MAX_PLAYERS
             && r.players == Empty().Put(socketId, NewPlayer(socketId, user, 0)))
      ensures var r := rooms.vals[roomId];
        || (roomId in old(rooms.vals) && rooms == old(rooms) && TookFreeSeat(r, socketId, user) && OpenNoneBefore(roomId))
        || (roomId !in old(rooms.vals) && OpenNoneBesides(roomId))
    {
      var rs := rooms.Values();
      var first := FirstOpen(rs);
      if first.None? {
        forall k | k in rooms.vals ensures !Open(rooms.vals[k]) {
          var j :| 0 <= j < |rooms.keys| && rooms.keys[j] == k;
          assert rs[j] == rooms.vals[k];
        }
        roomId := OpenQuick(socketId, user);
        return;
      }
      roomId := JoinOpen(socketId, user, rs, first.value);
    }

    /** Quick-play's new public room of ten, when no room is open. */
    method OpenQuick(socketId: string, user: UserData) returns (roomId: string)
      requires RoomsOk() && EnginesOk() && FreeRoomId() && forall k :: k in rooms.vals ==> !Open(rooms.vals[k])
      requires socketId !in roomOf && BotCounterOf(socketId).None? && !user.isBot
      modifies this`rooms, this`roomOf
      ensures RoomsOk() && EnginesOk() && engines == old(engines) && roomOf == old(roomOf)[socketId := roomId]
      ensures IsRoomId(roomId) && roomId !in old(rooms.vals) && roomId in rooms.vals
      ensures var r := rooms.vals[roomId];
        && rooms == old(rooms).Put(roomId, r)
        && fresh(r) && r.hostId == socketId && !r.isPrivate && r.maxPlayers == MAX_PLAYERS
        && r.players == Empty().Put(socketId, NewPlayer(socketId, user, 0))
      ensures OpenNoneBesides(roomId)
    {
      roomId := OpenRoom(socketId, user, false, None);
      forall k | k in rooms.vals && k != roomId ensures !Open(rooms.vals[k]) {
        assert rooms.vals[k] == old(rooms.vals[k]);
      }
    }

    /** Quick-play's seating in `rs[i]`, the first open room. */
    method JoinOpen(socketId: string, user: UserData, rs: seq<GameRoom>, i: nat) returns (roomId: string)
      requires RoomsOk() && EnginesOk() && rs == rooms.Values()
      requires i < |rs| && Open(rs[i]) && forall h :: 0 <= h < i ==> !Open(rs[h])
      requires socketId !in roomOf && BotCounterOf(socketId).None? && !user.isBot
      modifies this`roomOf, {rs[i]}`players
      ensures RoomsOk() && EnginesOk() && rooms == old(rooms) && engines == old(engines) && roomOf == old(roomOf)[socketId := roomId]
      ensures roomId == rooms.keys[i] && rooms.vals[roomId] == rs[i]
      ensures rs[i].players == old(rs[i].players).Put(socketId, NewPlayer(socketId, user, old(rs[i].PlayerCount())))
      ensures TookFreeSeat(rs[i], socketId, user) && OpenNoneBefore(roomId)
    {
      var r := rs[i];
      roomId := rooms.keys[i];
      assert r == rooms.vals[roomId] && r.id == roomId;
      forall h | 0 <= h < i ensures rs[h] != r {
        assert rs[h].id == rooms.keys[h];
      }
      Enter(r, socketId, user);
      forall h, j | 0 <= h < j < |rooms.keys| && rooms.keys[j] == roomId && rooms.keys[h] in rooms.vals
        ensures !Open(rooms.vals[rooms.keys[h]])
      {
        assert j == i;
        assert rooms.vals[rooms.keys[h]] == rs[h];
        assert rs[h].players == old(rs[h].players);
      }
    }

    /** The guards and the seating of join-room, once the socket is in no room. */
    method Join(socketId: string, roomId: string, user: UserData, ghost away: GameRoom?) returns (refusal: Option<Refusal>)
      requires RoomsOk() && EnginesOk() && socketId !in roomOf && BotCounterOf(socketId).None? && !user.isBot
      modifies this`roomOf, RoomById(roomId)`players
      ensures RoomsOk() && EnginesOk() && rooms == old(rooms) && engines == old(engines)
      ensures refusal == Some(RoomNotFound) <==> roomId !in rooms.vals
      ensures roomId in rooms.vals ==>
        var r := rooms.vals[roomId];
        && refusal == SeatRefusal(r.phase, old(r.PlayerCount()), r.maxPlayers)
        && r.players == if refusal.None? then old(r.players).Put(socketId, NewPlayer(socketId, user, old(r.PlayerCount()))) else old(r.players)
      ensures roomOf == if refusal.None? then old(roomOf)[socketId := roomId] else old(roomOf)
      ensures away != null && away.id != roomId ==> away.players == old(away.players)
    {
      var room := rooms.Get(roomId);
      if room.None? {
        return Some(RoomNotFound);
      }
      var r := room.value;
      refusal := SeatRefusal(r.phase, r.PlayerCount(), r.maxPlayers);
      if refusal.None? {
        Enter(r, socketId, user);
      }
    }

    /** `room.addPlayer(socket.id, user)` and `socket.data.roomId = room.id` for a socket in no room. */
    method Enter(r: GameRoom, socketId: string, user: UserData)
      requires RoomsOk() && EnginesOk() && r.id in rooms.vals && rooms.vals[r.id] == r
      requires socketId !in roomOf && BotCounterOf(socketId).None? && !user.isBot
      modifies this`roomOf, r`players
      ensures RoomsOk() && EnginesOk() && rooms == old(rooms) && engines == old(engines) && roomOf == old(roomOf)[socketId := r.id]
      ensures r.players == if old(r.PlayerCount()) < r.maxPlayers && r.phase == Lobby
        then old(r.players).Put(socketId, NewPlayer(socketId, user, old(r.PlayerCount())))
        else old(r.players)
    {
      Place(socketId, r.id);
      var ok := Sit(r, socketId, user);
    }

    /** `socket.data.roomId = roomId` for a socket in no room. */
    method Place(socketId: string, roomId: string)
      requires RoomsOk() && EnginesOk() && socketId !in roomOf
      modifies this`roomOf
      ensures RoomsOk() && EnginesOk() && roomOf == old(roomOf)[socketId := roomId]
      ensures rooms == old(rooms) && engines == old(engines)
    {
      roomOf := roomOf[socketId := roomId];
      forall k | k in rooms.vals ensures RoomOk(rooms.vals[k], k, factory.botCounter, roomOf) {
        assert old(RoomOk(rooms.vals[k], k, factory.botCounter, roomOf));
      }
    }

    /** `room.addPlayer(socket.id, user)` for a human whose socket already names the room. */
    method Sit(r: GameRoom, socketId: string, user: UserData) returns (ok: bool)
      requires RoomsOk() && EnginesOk() && r.id in rooms.vals && rooms.vals[r.id] == r
      requires socketId in roomOf && roomOf[socketId] == r.id && BotCounterOf(socketId).None? && !user.isBot
      modifies r`players
      ensures RoomsOk() && EnginesOk()
      ensures ok <==> old(r.PlayerCount()) < r.maxPlayers && r.phase == Lobby
      ensures ok ==> r.players == old(r.players).Put(socketId, NewPlayer(socketId, user, old(r.PlayerCount())))
      ensures !ok ==> r.players == old(r.players)
    {
      assert forall k :: k in rooms.vals && k != r.id ==> rooms.vals[k] != r;
      ok := r.AddPlayer(socketId, user);
      forall k | k in rooms.vals ensures RoomOk(rooms.vals[k], k, factory.botCounter, roomOf) {
        assert old(RoomOk(rooms.vals[k], k, factory.botCounter, roomOf));
      }
      forall k | k in engines ensures k in rooms.vals && EngineOk(engines[k], rooms.vals[k], k, book) {
        assert old(EngineOk(engines[k], rooms.vals[k], k, book));
      }
    }

    /** `socket.data.roomId = null`, once no room seats the socket any more. */
    method Forget(socketId: string)
      requires RoomsOk() && EnginesOk() && socketId in roomOf
      requires roomOf[socketId] in rooms.vals ==> socketId !in rooms.vals[roomOf[socketId]].players.vals
      modifies this`roomOf
      ensures RoomsOk() && EnginesOk() && roomOf == old(roomOf) - {socketId}
      ensures rooms == old(rooms) && engines == old(engines)
    {
      roomOf := roomOf - {socketId};
      forall k | k in rooms.vals ensures RoomOk(rooms.vals[k], k, factory.botCounter, roomOf) {
        assert old(RoomOk(rooms.vals[k], k, factory.botCounter, roomOf));
        SeatedWithout(rooms.vals[k].players, k, old(roomOf), socketId);
      }
    }

    /** `room.removePlayer(socket.id)` */
    method Unseat(r: GameRoom, roomId: string, socketId: string)
      requires RoomsOk() && EnginesOk() && roomId in rooms.vals && rooms.vals[roomId] == r
      modifies r`players
      ensures RoomsOk() && EnginesOk() && r.players == old(r.players).Delete(socketId)
      ensures rooms == old(rooms) && engines == old(engines) && roomOf == old(roomOf)
    {
      assert forall k :: k in rooms.vals && k != roomId ==> rooms.vals[k] != r;
      r.RemovePlayer(socketId);
      forall k | k in rooms.vals ensures RoomOk(rooms.vals[k], k, factory.botCounter, roomOf) {
        assert old(RoomOk(rooms.vals[k], k, factory.botCounter, roomOf));
      }
      forall k | k in engines ensures k in rooms.vals && EngineOk(engines[k], rooms.vals[k], k, book) {
        assert old(EngineOk(engines[k], rooms.vals[k], k, book));
      }
    }

    /** No human is left in room `roomId`: its engine is destroyed and both registry entries go. */
    method TearDown(r: GameRoom, roomId: string)
      requires RoomsOk() && EnginesOk() && roomId in rooms.vals && rooms.vals[roomId] == r
      modifies this`rooms, this`engines, EngineOf(roomId)`timers
      ensures RoomsOk() && EnginesOk()
      ensures rooms == old(rooms).Delete(roomId) && engines == old(engines) - {roomId}
      ensures roomId in old(engines) ==> old(engines[roomId]).timers == []
      ensures roomOf == old(roomOf) && r.players == old(r.players)
    {
      if roomId in engines {
        DropEngine(roomId);
      } else {
        NothingToDrop(engines, roomId);
      }
      DropRoom(roomId);
    }

    /** `engine.destroy()` and `engines.delete(roomId)` */
    method DropEngine(roomId: string)
      requires RoomsOk() && EnginesOk() && roomId in engines
      modifies this`engines, EngineOf(roomId)`timers
      ensures RoomsOk() && EnginesOk()
      ensures engines == old(engines) - {roomId} && old(engines[roomId]).timers == []
      ensures rooms == old(rooms) && roomOf == old(roomOf)
    {
      var e := engines[roomId];
      e.Destroy();
      engines := engines - {roomId};
      forall k | k in rooms.vals ensures RoomOk(rooms.vals[k], k, factory.botCounter, roomOf) {
        assert old(RoomOk(rooms.vals[k], k, factory.botCounter, roomOf));
      }
      forall k | k in engines ensures k in rooms.vals && EngineOk(engines[k], rooms.vals[k], k, book) {
        assert old(EngineOk(engines[k], rooms.vals[k], k, book));
        assert engines[k] != e by {
          assert engines[k].room.id == k;
        }
      }
    }

    /** `rooms.delete(roomId)` once the room has no engine. */
    method DropRoom(roomId: string)
      requires RoomsOk() && EnginesOk() && roomId !in engines
      modifies this`rooms
      ensures RoomsOk() && EnginesOk() && rooms == old(rooms).Delete(roomId)
      ensures engines == old(engines) && roomOf == old(roomOf)
    {
      DeleteValid(rooms, roomId);
      rooms := rooms.Delete(roomId);
      forall k | k in rooms.vals ensures RoomOk(rooms.vals[k], k, factory.botCounter, roomOf) {
        assert old(RoomOk(rooms.vals[k], k, factory.botCounter, roomOf));
      }
      forall k | k in engines ensures k in rooms.vals && EngineOk(engines[k], rooms.vals[k], k, book) {
        assert old(EngineOk(engines[k], rooms.vals[k], k, book));
      }
    }

    /* ───────── Listing ───────── */

    /** list-rooms: one entry per room that is public and in the lobby, in creation order. */
    function ListRooms(): (infos: seq<LobbyInfo>)
      reads this, Rooms()
      requires rooms.Valid()
      ensures forall info :: info in infos <==>
        exists k :: k in rooms.vals && Listed(rooms.vals[k]) && info == Info(rooms.vals[k])
    {
      var rs := rooms.Values();
      ValuesExactly(rooms);
      assert forall x :: x in rs ==> x in Rooms();
      PublicLobbies(rs)
    }

    /* ───────── Bots ───────── */

    /**
     * add-bots: refused when the socket is in no room, is not the host, the
     * game has left the lobby or no seat is free, in that order; otherwise
     * `fillWithBots` seats fresh bots until the table is full.
     */
    method AddBots(socketId: string) returns (refusal: Option<Refusal>, bots: seq<BotIdentity>)
      requires Valid()
      modifies SenderRooms(socketId)`players, factory
      ensures Valid()
      ensures refusal == Some(NotInRoom) <==> SenderRoom(socketId).None?
      ensures SenderRoom(socketId).Some? ==>
        var r := SenderRoom(socketId).value;
        && (refusal == Some(NotHost) <==> r.hostId != socketId)
        && (refusal == Some(NotInLobby) <==> r.hostId == socketId && r.phase != Lobby)
        && (refusal == Some(TableFull) <==> r.hostId == socketId && r.phase == Lobby && old(r.PlayerCount()) >= r.maxPlayers)
        && (refusal.None? <==> r.hostId == socketId && r.phase == Lobby && old(r.PlayerCount()) < r.maxPlayers)
        && (refusal.None? ==>
             && FilledBy(old(r.players), r.players, bots) && r.PlayerCount() == r.maxPlayers
             && |bots| == r.maxPlayers - old(r.PlayerCount()) && factory.botCounter == old(factory.botCounter) + |bots|)
        && (refusal.Some? ==> r.players == old(r.players))
      ensures refusal.Some? ==> bots == [] && factory.botCounter == old(factory.botCounter)
    {
      var room := SenderRoom(socketId);
      bots := [];
      if room.None? {
        refusal := Some(NotInRoom);
      } else if room.value.hostId != socketId {
        refusal := Some(NotHost);
      } else if room.value.phase != Lobby {
        refusal := Some(NotInLobby);
      } else if room.value.maxPlayers - room.value.PlayerCount() <= 0 {
        refusal := Some(TableFull);
      } else {
        bots := FillRoom(room.value);
        refusal := None;
      }
    }

    /** `room.fillWithBots()` on a registered room in the lobby. */
    method FillRoom(r: GameRoom) returns (bots: seq<BotIdentity>)
      requires RoomsOk() && EnginesOk() && r.id in rooms.vals && rooms.vals[r.id] == r && r.phase == Lobby
      modifies r`players, factory
      ensures RoomsOk() && EnginesOk()
      ensures |bots| == if old(r.PlayerCount()) < r.maxPlayers then r.maxPlayers - old(r.PlayerCount()) else 0
      ensures r.PlayerCount() == if old(r.PlayerCount()) < r.maxPlayers then r.maxPlayers else old(r.PlayerCount())
      ensures factory.botCounter == old(factory.botCounter) + |bots|
      ensures FilledBy(old(r.players), r.players, bots)
    {
      assert forall k :: k in rooms.vals && k != r.id ==> rooms.vals[k] != r;
      assert RoomOk(r, r.id, factory.botCounter, roomOf);
      ghost var p0 := r.players;
      bots := r.FillWithBots(factory);
      FilledSeated(p0, r.players, bots, r.id, roomOf);
      forall k | k in rooms.vals ensures RoomOk(rooms.vals[k], k, factory.botCounter, roomOf) {
        assert old(RoomOk(rooms.vals[k], k, factory.botCounter, roomOf));
        if k != r.id {
          BotIdsAtMostGrows(rooms.vals[k].players, old(factory.botCounter), factory.botCounter);
        }
      }
      forall k | k in engines ensures k in rooms.vals && EngineOk(engines[k], rooms.vals[k], k, book) {
        assert old(EngineOk(engines[k], rooms.vals[k], k, book));
      }
    }

    /**
     * add-bot: the same three guards as add-bots; then `addSingleBot`, whose
     * null on a full table is refused.
     */
    method AddBot(socketId: string) returns (refusal: Option<Refusal>, bot: Option<BotIdentity>)
      requires Valid()
      modifies SenderRooms(socketId)`players, factory
      ensures Valid()
      ensures refusal == Some(NotInRoom) <==> SenderRoom(socketId).None?
      ensures bot.Some? <==> refusal.None?
      ensures SenderRoom(socketId).Some? ==>
        var r := SenderRoom(socketId).value;
        && (refusal == Some(NotHost) <==> r.hostId != socketId)
        && (refusal == Some(NotInLobby) <==> r.hostId == socketId && r.phase != Lobby)
        && (refusal == Some(TableFull) <==> r.hostId == socketId && r.phase == Lobby && old(r.PlayerCount()) >= r.maxPlayers)
        && (refusal.None? ==>
             && bot.value.isBot && bot.value.id !in old(r.players.vals)
             && r.players == old(r.players).Put(bot.value.id, NewPlayer(bot.value.id, BotUserData(bot.value), old(r.PlayerCount())))
             && factory.botCounter == old(factory.botCounter) + 1)
        && (refusal.Some? ==> r.players == old(r.players))
      ensures refusal.Some? ==> factory.botCounter == old(factory.botCounter)
    {
      var room := SenderRoom(socketId);
      bot := None;
      if room.None? {
        refusal := Some(NotInRoom);
      } else if room.value.hostId != socketId {
        refusal := Some(NotHost);
      } else if room.value.phase != Lobby {
        refusal := Some(NotInLobby);
      } else {
        bot := SeatBot(room.value);
        refusal := if bot.None? then Some(TableFull) else None;
      }
    }

    /** `room.addSingleBot()` on a registered room in the lobby. */
    method SeatBot(r: GameRoom) returns (bot: Option<BotIdentity>)
      requires RoomsOk() && EnginesOk() && r.id in rooms.vals && rooms.vals[r.id] == r && r.phase == Lobby
      modifies r`players, factory
      ensures RoomsOk() && EnginesOk()
      ensures bot.None? <==> old(r.PlayerCount()) >= r.maxPlayers
      ensures bot.None? ==> r.players == old(r.players) && factory.botCounter == old(factory.botCounter)
      ensures bot.Some? ==>
        && bot.value.isBot && bot.value.id !in old(r.players.vals) && factory.botCounter == old(factory.botCounter) + 1
        && r.players == old(r.players).Put(bot.value.id, NewPlayer(bot.value.id, BotUserData(bot.value), old(r.PlayerCount())))
    {
      assert forall k :: k in rooms.vals && k != r.id ==> rooms.vals[k] != r;
      assert RoomOk(r, r.id, factory.botCounter, roomOf);
      bot := r.AddSingleBot(factory);
      forall k | k in rooms.vals ensures RoomOk(rooms.vals[k], k, factory.botCounter, roomOf) {
        assert old(RoomOk(rooms.vals[k], k, factory.botCounter, roomOf));
        if k != r.id {
          BotIdsAtMostGrows(rooms.vals[k].players, old(factory.botCounter), factory.botCounter);
        }
      }
      forall k | k in engines ensures k in rooms.vals && EngineOk(engines[k], rooms.vals[k], k, book) {
        assert old(EngineOk(engines[k], rooms.vals[k], k, book));
      }
    }

    /* ───────── Game flow ───────── */

    /**
     * start-game: refused when the socket is in no room, is not the host or
     * `canStart()` fails (with the player count); otherwise a new engine for
     * the room is registered, replacing any earlier one, and its game starts.
     */
    method StartGame(socketId: string) returns (refusal: Option<Refusal>)
      requires Valid()
      modifies this`engines
      ensures Valid()
      ensures refusal == Some(NotInRoom) <==> SenderRoom(socketId).None?
      ensures SenderRoom(socketId).Some? ==>
        var r := SenderRoom(socketId).value;
        && (refusal == Some(NotHost) <==> r.hostId != socketId)
        && (refusal == Some(NotEnoughPlayers(r.PlayerCount())) <==> r.hostId == socketId && !r.CanStart())
        && (refusal.None? <==> r.hostId == socketId && r.CanStart())
        && (refusal.None? ==>
             && r.id in engines && fresh(engines[r.id]) && engines == old(engines)[r.id := engines[r.id]]
             && engines[r.id].room == r && engines[r.id].timers == [DealCards, BeginIntroduction])
      ensures refusal.Some? ==> engines == old(engines)
    {
      var room := SenderRoom(socketId);
      if room.None? {
        refusal := Some(NotInRoom);
      } else if room.value.hostId != socketId {
        refusal := Some(NotHost);
      } else if !room.value.CanStart() {
        refusal := Some(NotEnoughPlayers(room.value.PlayerCount()));
      } else {
        var e := Launch(room.value);
        refusal := None;
      }
    }

    /** `new GameEngine(io, room)`, `engines.set(room.id, engine)` and `engine.startGame()`. */
    method Launch(r: GameRoom) returns (e: GameEngine)
      requires book.Valid() && RoomsOk() && EnginesOk() && r.id in rooms.vals && rooms.vals[r.id] == r
      modifies this`engines
      ensures RoomsOk() && EnginesOk()
      ensures fresh(e) && e.room == r && engines == old(engines)[r.id := e]
      ensures e.timers == [DealCards, BeginIntroduction]
    {
      e := StartedEngine(r, book);
      Install(e, r);
    }

    /** `engines.set(room.id, engine)` for a started engine of a registered room. */
    method Install(e: GameEngine, r: GameRoom)
      requires RoomsOk() && EnginesOk() && r.id in rooms.vals && rooms.vals[r.id] == r && EngineOk(e, r, r.id, book)
      modifies this`engines
      ensures RoomsOk() && EnginesOk() && engines == old(engines)[r.id := e]
    {
      engines := engines[r.id := e];
      forall k | k in engines ensures k in rooms.vals && EngineOk(engines[k], rooms.vals[k], k, book) {
        if k != r.id {
          assert old(EngineOk(engines[k], rooms.vals[k], k, book));
        }
      }
    }

    /**
     * game:done-speaking: ignored unless the socket's room exists and has an
     * engine; then `playerFinishedSpeaking` decides.
     */
    method DoneSpeaking(socketId: string) returns (accepted: bool)
      requires Valid()
      modifies SenderEngines(socketId)`outbox, SenderEngines(socketId)`timers, SenderRooms(socketId)`currentSpeaker
      ensures Valid()
      ensures accepted ==> SenderRoom(socketId).Some? && roomOf[socketId] in engines
      ensures SenderRoom(socketId).Some? && roomOf[socketId] in engines ==>
        var r := SenderRoom(socketId).value;
        var e := engines[roomOf[socketId]];
        && (accepted <==> DoneSpeakingAccepted(old(r.AlivePlayers()), old(r.currentSpeaker), socketId))
        && (accepted ==> r.currentSpeaker == old(r.currentSpeaker) + 1)
        && (!accepted ==> r.currentSpeaker == old(r.currentSpeaker) && e.timers == old(e.timers))
    {
      var room := SenderRoom(socketId);
      accepted := false;
      if room.Some? && room.value.id in engines {
        accepted := Speak(engines[room.value.id], room.value, socketId);
      }
    }

    /** `engine.playerFinishedSpeaking(socket.id)` on a registered engine. */
    method Speak(e: GameEngine, r: GameRoom, socketId: string) returns (accepted: bool)
      requires RoomsOk() && EnginesOk() && r.id in engines && engines[r.id] == e
      requires r.id in rooms.vals && rooms.vals[r.id] == r && r.Valid()
      modifies e`outbox, e`timers, r`currentSpeaker
      ensures RoomsOk() && EnginesOk()
      ensures accepted <==> DoneSpeakingAccepted(old(r.AlivePlayers()), old(r.currentSpeaker), socketId)
      ensures accepted ==> r.currentSpeaker == old(r.currentSpeaker) + 1
      ensures !accepted ==> r.currentSpeaker == old(r.currentSpeaker) && e.timers == old(e.timers)
    {
      assert EngineOk(e, r, r.id, book);
      accepted := FinishTurn(e, socketId);
      forall k | k in rooms.vals ensures RoomOk(rooms.vals[k], k, factory.botCounter, roomOf) {
        assert old(RoomOk(rooms.vals[k], k, factory.botCounter, roomOf));
      }
      forall k | k in engines ensures k in rooms.vals && EngineOk(engines[k], rooms.vals[k], k, book) {
        assert old(EngineOk(engines[k], rooms.vals[k], k, book));
      }
    }

    /**
     * game:night-action: forwarded to `handleNightAction` only at night and
     * only when the room has an engine; the sender changes at most its own
     * mafia vote and the single doctor and sheriff targets.
     */
    method NightAction(socketId: string, targetId: string) returns (forwarded: bool)
      requires Valid()
      modifies SenderEngines(socketId)`outbox
      modifies SenderRooms(socketId)`mafiaVotes, SenderRooms(socketId)`doctorTarget, SenderRooms(socketId)`sheriffTarget
      ensures Valid()
      ensures forwarded <==> SenderRoom(socketId).Some? && SenderRoom(socketId).value.phase == Night && roomOf[socketId] in engines
      ensures SenderRoom(socketId).Some? ==>
        var r := SenderRoom(socketId).value;
        && (r.mafiaVotes == old(r.mafiaVotes) || (forwarded && r.mafiaVotes == old(r.mafiaVotes).Put(socketId, targetId)))
        && (r.doctorTarget == old(r.doctorTarget) || (forwarded && r.doctorTarget == Some(targetId)))
        && (r.sheriffTarget == old(r.sheriffTarget) || (forwarded && r.sheriffTarget == Some(targetId)))
    {
      var room := SenderRoom(socketId);
      forwarded := false;
      if room.Some? && room.value.phase == Night && room.value.id in engines {
        Act(engines[room.value.id], room.value, socketId, targetId);
        forwarded := true;
      }
    }

    /** `engine.handleNightAction(socket.id, action)` on a registered engine. */
    method Act(e: GameEngine, r: GameRoom, socketId: string, targetId: string)
      requires RoomsOk() && EnginesOk() && r.id in engines && engines[r.id] == e
      requires r.id in rooms.vals && rooms.vals[r.id] == r && r.Valid()
      modifies e`outbox, r`mafiaVotes, r`doctorTarget, r`sheriffTarget
      ensures RoomsOk() && EnginesOk()
      ensures r.mafiaVotes == old(r.mafiaVotes) || r.mafiaVotes == old(r.mafiaVotes).Put(socketId, targetId)
      ensures r.doctorTarget == old(r.doctorTarget) || r.doctorTarget == Some(targetId)
      ensures r.sheriffTarget == old(r.sheriffTarget) || r.sheriffTarget == Some(targetId)
    {
      assert EngineOk(e, r, r.id, book);
      e.HandleNightAction(socketId, targetId);
      forall k | k in rooms.vals ensures RoomOk(rooms.vals[k], k, factory.botCounter, roomOf) {
        assert old(RoomOk(rooms.vals[k], k, factory.botCounter, roomOf));
      }
      forall k | k in engines ensures k in rooms.vals && EngineOk(engines[k], rooms.vals[k], k, book) {
        assert old(EngineOk(engines[k], rooms.vals[k], k, book));
      }
    }

    /**
     * game:day-vote: forwarded to `handleDayVote` only during the day or the
     * vote and only when the room has an engine; the sender's vote replaces
     * its earlier one, whether or not the sender is alive.
     */
    method DayVote(socketId: string, targetId: string) returns (forwarded: bool)
      requires Valid()
      modifies SenderEngines(socketId)`outbox, SenderRooms(socketId)`dayVotes
      ensures Valid()
      ensures forwarded <==>
        SenderRoom(socketId).Some? && SenderRoom(socketId).value.phase in {Day, Voting} && roomOf[socketId] in engines
      ensures SenderRoom(socketId).Some? ==>
        var r := SenderRoom(socketId).value;
        r.dayVotes == if forwarded then old(r.dayVotes).Put(socketId, targetId) else old(r.dayVotes)
      ensures forwarded ==>
        var r := SenderRoom(socketId).value;
        var e := engines[roomOf[socketId]];
        var voter := r.GetPlayer(socketId);
        e.outbox == old(e.outbox) + Deliver(e.Humans(),
          VoteCast(socketId, if voter.Some? then Some(voter.value.name) else None, targetId, TargetLabel(r.GetPlayer(targetId))))
      ensures !forwarded ==> unchanged(SenderEngines(socketId))
    {
      var room := SenderRoom(socketId);
      forwarded := false;
      if room.Some? && (room.value.phase == Voting || room.value.phase == Day) && room.value.id in engines {
        Vote(engines[room.value.id], room.value, socketId, targetId);
        forwarded := true;
      }
    }

    /** `engine.handleDayVote(socket.id, targetId)` on a registered engine. */
    method Vote(e: GameEngine, r: GameRoom, socketId: string, targetId: string)
      requires RoomsOk() && EnginesOk() && r.id in engines && engines[r.id] == e
      requires r.id in rooms.vals && rooms.vals[r.id] == r && r.Valid()
      modifies e`outbox, r`dayVotes
      ensures RoomsOk() && EnginesOk()
      ensures r.dayVotes == old(r.dayVotes).Put(socketId, targetId)
      ensures var voter := r.GetPlayer(socketId);
        e.outbox == old(e.outbox) + Deliver(e.Humans(),
          VoteCast(socketId, if voter.Some? then Some(voter.value.name) else None, targetId, TargetLabel(r.GetPlayer(targetId))))
    {
      assert EngineOk(e, r, r.id, book);
      e.HandleDayVote(socketId, targetId);
      forall k | k in rooms.vals ensures RoomOk(rooms.vals[k], k, factory.botCounter, roomOf) {
        assert old(RoomOk(rooms.vals[k], k, factory.botCounter, roomOf));
      }
      forall k | k in engines ensures k in rooms.vals && EngineOk(engines[k], rooms.vals[k], k, book) {
        assert old(EngineOk(engines[k], rooms.vals[k], k, book));
      }
    }

    /** game:chat: a player of the socket's room appends a message under their name; anyone else is ignored. */
    method Chat(socketId: string, text: string) returns (posted: bool)
      requires Valid()
      modifies SenderRooms(socketId)`phaseMessages
      ensures Valid()
      ensures posted <==> SenderRoom(socketId).Some? && socketId in SenderRoom(socketId).value.players.vals
      ensures SenderRoom(socketId).Some? ==>
        var r := SenderRoom(socketId).value;
        r.phaseMessages == if posted then old(r.phaseMessages) + [ChatMessage(socketId, r.players.vals[socketId].name, text)]
          else old(r.phaseMessages)
    {
      var room := SenderRoom(socketId);
      posted := false;
      if room.Some? {
        var player := room.value.GetPlayer(socketId);
        if player.Some? {
          Post(room.value, ChatMessage(socketId, player.value.name, text));
          posted := true;
        }
      }
    }

    /** `room.phaseMessages.push(message)` on a registered room. */
    method Post(r: GameRoom, message: ChatMessage)
      requires RoomsOk() && EnginesOk() && r.id in rooms.vals && rooms.vals[r.id] == r
      modifies r`phaseMessages
      ensures RoomsOk() && EnginesOk() && r.phaseMessages == old(r.phaseMessages) + [message]
    {
      r.phaseMessages := r.phaseMessages + [message];
      forall k | k in rooms.vals ensures RoomOk(rooms.vals[k], k, factory.botCounter, roomOf) {
        assert old(RoomOk(rooms.vals[k], k, factory.botCounter, roomOf));
      }
      forall k | k in engines ensures k in rooms.vals && EngineOk(engines[k], rooms.vals[k], k, book) {
        assert old(EngineOk(engines[k], rooms.vals[k], k, book));
      }
    }

    /* ───────── Timers ───────── */

    /**
     * The k-th pending timer of a registered engine fires. Whatever it runs,
     * the registry stays well formed: the roster only evolves, so its humans
     * stay seated and its bot ids stay below the counter.
     */
    method FireTimer(roomId: string, k: nat, targetDraw: nat, phraseDraw: nat)
      requires Valid() && roomId in engines && k < |engines[roomId].timers|
      modifies EngineOf(roomId)`outbox, EngineOf(roomId)`timers
      modifies RoomById(roomId)`players, RoomById(roomId)`phase, RoomById(roomId)`round, RoomById(roomId)`currentSpeaker,
        RoomById(roomId)`mafiaVotes, RoomById(roomId)`doctorTarget, RoomById(roomId)`sheriffTarget,
        RoomById(roomId)`dayVotes, RoomById(roomId)`phaseMessages, RoomById(roomId)`lastNightResult,
        RoomById(roomId)`lastVoteResult
      ensures Valid()
      ensures var r := rooms.vals[roomId];
        && RosterEvolves(old(r.players), r.players)
        && r.round == old(r.round) + (if old(engines[roomId].timers[k]) == BeginNight then 1 else 0)
        && (old(engines[roomId].timers[k]).EndGameTask? ==> r.phase == GameOver && engines[roomId].timers == [])
    {
      var e := engines[roomId];
      var r := rooms.vals[roomId];
      assert EngineOk(e, r, roomId, book);
      ghost var p0 := r.players;
      e.Fire(k, targetDraw, phraseDraw);
      assert old(RoomOk(r, roomId, factory.botCounter, roomOf));
      EvolvedRoomOk(p0, r.players, roomId, factory.botCounter, roomOf);
      forall j | j in rooms.vals ensures RoomOk(rooms.vals[j], j, factory.botCounter, roomOf) {
        assert old(RoomOk(rooms.vals[j], j, factory.botCounter, roomOf));
      }
      forall j | j in engines ensures j in rooms.vals && EngineOk(engines[j], rooms.vals[j], j, book) {
        assert old(EngineOk(engines[j], rooms.vals[j], j, book));
      }
    }
  }
}
