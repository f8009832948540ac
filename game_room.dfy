/**
 * One room: the roster, the capacity checks, the phase field, the night and
 * day accumulators with their tallies, the win check and the two serialised
 * views (the one a player sees and the one safe to broadcast).
 */
module GameRooms {
  import opened Options
  import opened OrderedMaps
  import opened Roles
  import opened Players
  import opened Bots
  import opened Tally

  datatype Phase = Lobby | Dealing | Introduction | Night | Day | Voting | GameOver

  const MIN_PLAYERS: int := 5
  const MAX_PLAYERS: int := 10

  /** The day-vote sentinel for "vote for nobody". */
  const SKIP: string := "skip"

  /** What a caller hands `addPlayer` (`avatar || null` and `isBot || false` already applied). */
  datatype UserData = UserData(tgId: string, name: string, avatar: Option<string>, avatarColor: Option<string>, isBot: bool)

  datatype PlayerRef = PlayerRef(id: string, name: string)
  datatype NightResult = NightResult(killed: Option<PlayerRef>, saved: bool)
  datatype Ejected = Ejected(id: string, name: string, role: Option<Role>)
  datatype VoteResult = VoteResult(votes: map<string, string>, ejected: Option<Ejected>)
  /** An entry of `phaseMessages` (its `Date.now` timestamp is not modelled). */
  datatype ChatMessage = ChatMessage(playerId: string, playerName: string, text: string)

  /** The `players` Map: socket id → player record, in join order. */
  type Roster = OrderedMap<string, Player>

  ghost predicate RosterValid(players: Roster) {
    players.Valid() && forall k :: k in players.vals ==> players.vals[k].id == k
  }

  /** No id on the roster carries a bot counter above `counter`, so the next bot id is new. */
  ghost predicate BotIdsAtMost(players: Roster, counter: nat) {
    forall k :: k in players.vals && BotCounterOf(k).Some? ==> BotCounterOf(k).value <= counter
  }

  /** The record `addPlayer` stores: no role yet, alive, seated at the current size. */
  function NewPlayer(socketId: string, user: UserData, seat: nat): Player {
    Player(socketId, user.tgId, user.name, user.avatar, user.avatarColor, user.isBot, None, true, seat)
  }

  function BotUserData(bot: BotIdentity): UserData {
    UserData(bot.tgId, bot.name, bot.avatar, Some(bot.avatarColor), bot.isBot)
  }

  /** The alive players in roster order (`alivePlayers`). */
  function AliveOf(players: Roster): (alive: seq<Player>)
    requires players.Valid()
    ensures forall p :: p in alive <==> p in players.Values() && p.alive
  {
    Filter(players.Values(), (p: Player) => p.alive)
  }

  /* ───────── Win condition ───────── */

  /** How many of `ps` are on team `t` (players without a role are on no team). */
  function TeamAlive(ps: seq<Player>, t: Team): nat {
    if ps == [] then 0
    else (if PlayerTeam(ps[0]) == Some(t) then 1 else 0) + TeamAlive(ps[1..], t)
  }

  /** `checkWin` on the alive players: town when no mafia is left, mafia on parity, otherwise nobody yet. */
  function Winner(alive: seq<Player>): (w: Option<Team>)
    ensures w == Some(Town) <==> TeamAlive(alive, MafiaTeam) == 0
    ensures w == Some(MafiaTeam) <==> 0 < TeamAlive(alive, MafiaTeam) && TeamAlive(alive, MafiaTeam) >= TeamAlive(alive, Town)
    ensures w.None? <==> 0 < TeamAlive(alive, MafiaTeam) < TeamAlive(alive, Town)
  {
    var mafiaAlive := TeamAlive(alive, MafiaTeam);
    var townAlive := TeamAlive(alive, Town);
    if mafiaAlive == 0 then Some(Town)
    else if mafiaAlive >= townAlive then Some(MafiaTeam)
    else None
  }

  function RolesOf(ps: seq<Player>): (rs: seq<Option<Role>>)
    ensures |rs| == |ps| && forall i :: 0 <= i < |ps| ==> rs[i] == ps[i].role
  {
    if ps == [] then [] else [ps[0].role] + RolesOf(ps[1..])
  }

  /** Team counts are read off the multiset of roles. */
  lemma TeamAliveByRoles(ps: seq<Player>)
    ensures TeamAlive(ps, MafiaTeam) == multiset(RolesOf(ps))[Some(Mafia)] + multiset(RolesOf(ps))[Some(Don)]
    ensures TeamAlive(ps, Town) ==
      multiset(RolesOf(ps))[Some(Sheriff)] + multiset(RolesOf(ps))[Some(Doctor)] + multiset(RolesOf(ps))[Some(Civilian)]
  {
    MafiaAliveByRoles(ps);
    TownAliveByRoles(ps);
  }

  lemma {:induction false} MafiaAliveByRoles(ps: seq<Player>)
    ensures TeamAlive(ps, MafiaTeam) == multiset(RolesOf(ps))[Some(Mafia)] + multiset(RolesOf(ps))[Some(Don)]
  {
    if ps != [] {
      MafiaAliveByRoles(ps[1..]);
      assert RolesOf(ps) == [ps[0].role] + RolesOf(ps[1..]);
    }
  }

  lemma {:induction false} TownAliveByRoles(ps: seq<Player>)
    ensures TeamAlive(ps, Town) ==
      multiset(RolesOf(ps))[Some(Sheriff)] + multiset(RolesOf(ps))[Some(Doctor)] + multiset(RolesOf(ps))[Some(Civilian)]
  {
    if ps != [] {
      TownAliveByRoles(ps[1..]);
      assert RolesOf(ps) == [ps[0].role] + RolesOf(ps[1..]);
      assert multiset(RolesOf(ps)) == multiset{ps[0].role} + multiset(RolesOf(ps[1..]));
    }
  }

  /** The winner depends only on which roles are still alive, not on who holds them or on history. */
  lemma WinnerDependsOnlyOnRoles(a: seq<Player>, b: seq<Player>)
    requires multiset(RolesOf(a)) == multiset(RolesOf(b))
    ensures Winner(a) == Winner(b)
  {
    TeamAliveByRoles(a);
    TeamAliveByRoles(b);
  }

  /** Every vote cast is a skip (or none was cast). */
  ghost predicate OnlySkips(values: seq<string>) {
    forall p :: 0 <= p < |values| ==> values[p] == SKIP
  }

  /* ───────── Day-vote majority ───────── */

  /** `Math.floor(alive / 2) + 1` */
  function Majority(aliveCount: nat): nat {
    aliveCount / 2 + 1
  }

  /**
   * When no more votes were cast than there are alive players, a target that
   * reaches the majority is the plurality: the tally picks it, and nobody
   * else can reach the majority too.
   */
  lemma MajorityIsPlurality(values: seq<string>, ignore: set<string>, t: string, aliveCount: nat)
    requires |values| <= aliveCount
    requires t !in ignore && multiset(values)[t] >= Majority(aliveCount)
    ensures IsPlurality(values, ignore, t)
    ensures forall u :: u != t ==> multiset(values)[u] < Majority(aliveCount)
  {
    forall u | u != t ensures multiset(values)[u] < multiset(values)[t] && multiset(values)[u] < Majority(aliveCount) {
      TwoCountsBound(values, t, u);
    }
    assert t in values;
    forall p | 0 <= p < |values| && values[p] !in ignore && multiset(values)[values[p]] == multiset(values)[t]
      ensures FirstIndex(values, t) <= p
    {
      assert values[p] == t;
    }
  }

  /* ───────── Serialisation ───────── */

  datatype PlayerView = PlayerView(
    id: string, tgId: string, name: string, avatar: Option<string>, avatarColor: Option<string>,
    seat: nat, alive: bool, isBot: bool, isAdmin: bool, role: Option<Role>)

  /** The state a player receives (`toPlayerState`). */
  datatype PlayerState = PlayerState(
    roomId: string, phase: Phase, round: nat, players: seq<PlayerView>, myRole: Option<Role>,
    currentSpeaker: int, maxPlayers: int, phaseMessages: seq<ChatMessage>,
    lastNightResult: Option<NightResult>, lastVoteResult: Option<VoteResult>)

  /** The state safe to broadcast (`toBroadcastState`): no `myRole`. */
  datatype BroadcastState = BroadcastState(
    roomId: string, phase: Phase, round: nat, players: seq<PlayerView>,
    currentSpeaker: int, maxPlayers: int, phaseMessages: seq<ChatMessage>,
    lastNightResult: Option<NightResult>, lastVoteResult: Option<VoteResult>)

  /** One serialised player; the role is copied only when `shown` holds. */
  function View(p: Player, hostId: string, shown: bool): (v: PlayerView)
    ensures v.id == p.id && v.name == p.name && v.seat == p.seat && v.alive == p.alive && v.isBot == p.isBot
    ensures v.isAdmin <==> p.id == hostId
    ensures v.role == if shown then p.role else None
  {
    PlayerView(p.id, p.tgId, p.name, p.avatar, p.avatarColor, p.seat, p.alive, p.isBot, p.id == hostId,
      if shown then p.role else None)
  }

  /** The roster serialised for `viewer` (None for a broadcast): a role is shown to its owner, or to all at game over. */
  function Views(ps: seq<Player>, hostId: string, viewer: Option<string>, gameOver: bool): (vs: seq<PlayerView>)
    ensures |vs| == |ps|
    ensures forall i :: 0 <= i < |ps| ==> vs[i] == View(ps[i], hostId, viewer == Some(ps[i].id) || gameOver)
    ensures forall v :: v in vs && v.role.Some? ==> viewer == Some(v.id) || gameOver
  {
    if ps == [] then []
    else [View(ps[0], hostId, viewer == Some(ps[0].id) || gameOver)] + Views(ps[1..], hostId, viewer, gameOver)
  }

  /* ───────── The room ───────── */

  class GameRoom {
    const id: string
    const hostId: string
    const isPrivate: bool
    const maxPlayers: int

    var phase: Phase
    var round: nat
    var players: Roster
    var mafiaVotes: OrderedMap<string, string>   // mafia player id → target id
    var doctorTarget: Option<string>
    var sheriffTarget: Option<string>
    var dayVotes: OrderedMap<string, string>     // voter id → target id or "skip"
    var currentSpeaker: int
    var phaseMessages: seq<ChatMessage>
    var lastNightResult: Option<NightResult>
    var lastVoteResult: Option<VoteResult>

    ghost predicate Valid()
      reads this
    {
      RosterValid(players) && mafiaVotes.Valid() && dayVotes.Valid()
    }

    /** `maxPlayers` is `options.maxPlayers || 10`: a missing or zero capacity becomes ten, anything else is kept. */
    constructor(id: string, hostId: string, isPrivate: bool, capacity: Option<int>)
      ensures Valid()
      ensures this.id == id && this.hostId == hostId && this.isPrivate == isPrivate
      ensures maxPlayers == if capacity.None? || capacity.value == 0 then MAX_PLAYERS else capacity.value
      ensures phase == Lobby && round == 0 && players.keys == [] && currentSpeaker == -1
      ensures mafiaVotes.keys == [] && doctorTarget.None? && sheriffTarget.None? && dayVotes.keys == []
      ensures phaseMessages == [] && lastNightResult.None? && lastVoteResult.None?
    {
      this.id := id;
      this.hostId := hostId;
      this.isPrivate := isPrivate;
      this.maxPlayers := if capacity.None? || capacity.value == 0 then MAX_PLAYERS else capacity.value;
      phase := Lobby;
      round := 0;
      players := Empty();
      mafiaVotes := Empty();
      doctorTarget := None;
      sheriffTarget := None;
      dayVotes := Empty();
      currentSpeaker := -1;
      phaseMessages := [];
      lastNightResult := None;
      lastVoteResult := None;
    }

    /* ───────── Player management ───────── */

    function PlayerCount(): nat
      reads this
    {
      players.Size()
    }

    /** `getPlayer(id) || null` */
    function GetPlayer(playerId: string): (r: Option<Player>)
      reads this
      requires Valid()
      ensures r.Some? <==> playerId in players.vals
      ensures r.Some? ==> r.value == players.vals[playerId] && r.value.id == playerId
    {
      players.Get(playerId)
    }

    function AlivePlayers(): seq<Player>
      reads this
      requires Valid()
    {
      AliveOf(players)
    }

    /** `aliveBots`: the alive players that are bots, in roster order. */
    function AliveBots(): (bots: seq<Player>)
      reads this
      requires Valid()
      ensures forall p :: p in bots <==> p in players.Values() && p.alive && p.isBot
    {
      Filter(AliveOf(players), (p: Player) => p.isBot)
    }

    /**
     * `addPlayer`: refused (false, nothing changes) when the roster is full or
     * the game has left the lobby; otherwise the player is stored with no role,
     * alive, in the seat numbered by the roster size.
     */
    method AddPlayer(socketId: string, user: UserData) returns (ok: bool)
      requires Valid()
      modifies this`players
      ensures Valid()
      ensures ok <==> old(players.Size()) < maxPlayers && phase == Lobby
      ensures ok ==> players == old(players).Put(socketId, NewPlayer(socketId, user, old(players.Size())))
      ensures !ok ==> players == old(players)
    {
      if players.Size() >= maxPlayers || phase != Lobby {
        return false;
      }
      players := players.Put(socketId, NewPlayer(socketId, user, players.Size()));
      return true;
    }

    /** A new id joins at the end of the roster, one seat further. */
    lemma AddedAtEnd(old_players: Roster, socketId: string, user: UserData)
      requires RosterValid(old_players) && socketId !in old_players.vals
      ensures var ps := old_players.Put(socketId, NewPlayer(socketId, user, old_players.Size()));
        && ps.Size() == old_players.Size() + 1
        && ps.keys[|ps.keys| - 1] == socketId
        && ps.vals[socketId].seat == old_players.Size() && ps.vals[socketId].alive && ps.vals[socketId].role.None?
    {
    }

    /**
     * `fillWithBots`: add fresh bots until the roster is full and return them.
     * The loop only ends because every new bot id is new to the roster, which
     * is what the counter precondition guarantees; outside the lobby the loop
     * would never end, so the lobby is required.
     */
    method FillWithBots(factory: BotFactory) returns (bots: seq<BotIdentity>)
      requires Valid() && phase == Lobby
      requires BotIdsAtMost(players, factory.botCounter)
      modifies this`players, factory
      ensures Valid() && BotIdsAtMost(players, factory.botCounter)
      ensures |bots| == if old(players.Size()) < maxPlayers then maxPlayers - old(players.Size()) else 0
      ensures players.Size() == if old(players.Size()) < maxPlayers then maxPlayers else old(players.Size())
      ensures factory.botCounter == old(factory.botCounter) + |bots|
      ensures FilledBy(old(players), players, bots)
    {
      ghost var before := players;
      bots := [];
      while players.Size() < maxPlayers
        invariant Valid() && BotIdsAtMost(players, factory.botCounter)
        invariant players.Size() == before.Size() + |bots|
        invariant factory.botCounter == old(factory.botCounter) + |bots|
        invariant FilledBy(before, players, bots)
        invariant players.Size() <= maxPlayers || bots == []
        decreases maxPlayers - players.Size()
      {
        var bot := SeatNextBot(factory, before, bots);
        bots := bots + [bot];
      }
    }

    /** One turn of the `fillWithBots` loop: a new bot takes the next seat. */
    method SeatNextBot(factory: BotFactory, ghost before: Roster, ghost bots: seq<BotIdentity>) returns (bot: BotIdentity)
      requires Valid() && phase == Lobby && players.Size() < maxPlayers
      requires BotIdsAtMost(players, factory.botCounter) && FilledBy(before, players, bots)
      modifies this`players, factory
      ensures Valid() && BotIdsAtMost(players, factory.botCounter)
      ensures players.Size() == old(players.Size()) + 1 && factory.botCounter == old(factory.botCounter) + 1
      ensures FilledBy(before, players, bots + [bot])
    {
      ghost var current := players;
      bot := CreateAndSeatBot(factory);
      AddBotFilled(before, current, bots, bot);
      PutValid(current, bot.id, NewPlayer(bot.id, BotUserData(bot), current.Size()));
    }

    /** `createBotIdentity()` followed by `addPlayer(bot.id, bot)`: a fresh bot id, seated when the room is in the lobby and not full. */
    method CreateAndSeatBot(factory: BotFactory) returns (bot: BotIdentity)
      requires Valid() && BotIdsAtMost(players, factory.botCounter)
      modifies this`players, factory
      ensures Valid() && BotIdsAtMost(players, factory.botCounter)
      ensures factory.botCounter == old(factory.botCounter) + 1 && bot.id !in old(players.vals) && bot.isBot
      ensures old(players.Size()) < maxPlayers && phase == Lobby ==>
        players == old(players).Put(bot.id, NewPlayer(bot.id, BotUserData(bot), old(players.Size())))
      ensures old(players.Size()) >= maxPlayers || phase != Lobby ==> players == old(players)
    {
      var clock: string :| true;
      bot := factory.CreateBotIdentity(clock);
      BotCounterOfBotId(factory.botCounter, clock);
      var ok := AddPlayer(bot.id, BotUserData(bot));
    }

    /**
     * `addSingleBot`: null when the roster is full; otherwise a new bot, whose
     * `addPlayer` still fails outside the lobby (the bot is returned anyway).
     */
    method AddSingleBot(factory: BotFactory) returns (bot: Option<BotIdentity>)
      requires Valid() && BotIdsAtMost(players, factory.botCounter)
      modifies this`players, factory
      ensures Valid() && BotIdsAtMost(players, factory.botCounter)
      ensures bot.None? <==> old(players.Size()) >= maxPlayers
      ensures bot.None? ==> players == old(players) && factory.botCounter == old(factory.botCounter)
      ensures bot.Some? ==> factory.botCounter == old(factory.botCounter) + 1 && bot.value.id !in old(players.vals) && bot.value.isBot
      ensures bot.Some? && phase == Lobby ==>
        players == old(players).Put(bot.value.id, NewPlayer(bot.value.id, BotUserData(bot.value), old(players.Size())))
      ensures bot.Some? && phase != Lobby ==> players == old(players)
    {
      if players.Size() >= maxPlayers {
        return None;
      }
      var b := CreateAndSeatBot(factory);
      return Some(b);
    }

    /** `removePlayer`: the id leaves the roster; the others keep their order and their seats. */
    method RemovePlayer(socketId: string)
      requires Valid()
      modifies this`players
      ensures Valid()
      ensures players == old(players).Delete(socketId)
      ensures socketId !in players.vals
      ensures players.Size() == if socketId in old(players.vals) then old(players.Size()) - 1 else old(players.Size())
    {
      DeleteValid(players, socketId);
      players := players.Delete(socketId);
    }

    /* ───────── Game flow ───────── */

    /** `canStart`: a lobby with at least five players, so the role table has a role for everyone. */
    function CanStart(): (ok: bool)
      reads this
      ensures ok <==> phase == Lobby && 5 <= PlayerCount()
      ensures ok ==> |RoleDistribution(PlayerCount())| == PlayerCount()
    {
      DistributionSize(PlayerCount());
      PlayerCount() >= MIN_PLAYERS && phase == Lobby
    }

    /**
     * `dealRoles`: shuffle the table for the current size and give the i-th
     * player in join order the i-th shuffled role; the phase becomes dealing.
     * `dealt` is the shuffled list.
     */
    method DealRoles() returns (ghost dealt: seq<Role>)
      requires Valid()
      modifies this`players, this`phase
      ensures Valid() && phase == Dealing
      ensures multiset(dealt) == multiset(RoleDistribution(old(players.Size())))
      ensures old(players.Size()) >= 2 ==> |dealt| == players.Size()
      ensures DealtUpTo(old(players), players, dealt, players.Size())
      ensures RosterEvolves(old(players), players)
    {
      ghost var before := players;
      var distribution := GetRoleDistribution(players.Size());
      DistributionSize(players.Size());
      var roles := Shuffle(distribution);
      var i := 0;
      while i < |players.keys|
        invariant Valid() && 0 <= i
        invariant DealtUpTo(before, players, roles, i)
      {
        DealStep(before, players, roles, i);
        var key := players.keys[i];
        players := players.Put(key, players.vals[key].(role := Some(roles[i])));
        i := i + 1;
      }
      phase := Dealing;
      dealt := roles;
      DealtEvolves(before, players, dealt);
    }

    method StartIntroduction()
      modifies this`phase, this`currentSpeaker, this`phaseMessages
      ensures phase == Introduction && currentSpeaker == 0 && phaseMessages == []
    {
      phase := Introduction;
      currentSpeaker := 0;
      phaseMessages := [];
    }

    /** `startNight`: the round goes up by exactly one and the night accumulators start empty. */
    method StartNight()
      modifies this`phase, this`round, this`mafiaVotes, this`doctorTarget, this`sheriffTarget, this`phaseMessages
      ensures phase == Night && round == old(round) + 1
      ensures mafiaVotes == Empty() && doctorTarget.None? && sheriffTarget.None? && phaseMessages == []
    {
      phase := Night;
      round := round + 1;
      mafiaVotes := Empty();
      doctorTarget := None;
      sheriffTarget := None;
      phaseMessages := [];
    }

    /**
     * `resolveNight`: the mafia target is the plurality of the mafia votes
     * (tie: the target named first in voter order, a changed vote keeping its voter's place). It is saved when it is set and the
     * doctor chose it; otherwise, when it names a player on the roster, only
     * that player's alive flag drops. No vote means no kill and no save.
     * `mafiaTarget` is the tallied target.
     */
    method ResolveNight() returns (result: NightResult, ghost mafiaTarget: Option<string>)
      requires Valid()
      modifies this`players, this`lastNightResult
      ensures Valid()
      ensures mafiaTarget.None? <==> old(mafiaVotes.Size()) == 0
      ensures mafiaTarget.Some? ==> IsPlurality(old(mafiaVotes.Values()), {}, mafiaTarget.value)
      ensures result.saved <==> mafiaTarget.Some? && mafiaTarget.value != "" && doctorTarget == mafiaTarget
      ensures result.killed.Some? <==>
        mafiaTarget.Some? && mafiaTarget.value != "" && !result.saved && mafiaTarget.value in old(players.vals)
      ensures result.killed.Some? ==>
        var victim := old(players.vals[mafiaTarget.value]);
        && result.killed.value == PlayerRef(victim.id, victim.name)
        && players == old(players).Put(victim.id, victim.(alive := false))
      ensures result.killed.None? ==> players == old(players)
      ensures lastNightResult == Some(result)
    {
      var values := mafiaVotes.Values();
      var top, maxVotes := Plurality(values, {});
      mafiaTarget := top;
      assert top.None? <==> |values| == 0 by {
        if |values| > 0 {
          assert values[0] !in {};
        }
      }
      result := ApplyNight(top);
    }

    /** The second half of `resolveNight`: the doctor's save, else the kill of the tallied target, recorded as the last night's result. */
    method ApplyNight(top: Option<string>) returns (result: NightResult)
      requires Valid()
      modifies this`players, this`lastNightResult
      ensures Valid()
      ensures result.saved <==> top.Some? && top.value != "" && doctorTarget == top
      ensures result.killed.Some? <==> top.Some? && top.value != "" && !result.saved && top.value in old(players.vals)
      ensures result.killed.Some? ==>
        var victim := old(players.vals[top.value]);
        && result.killed.value == PlayerRef(victim.id, victim.name)
        && players == old(players).Put(victim.id, victim.(alive := false))
      ensures result.killed.None? ==> players == old(players)
      ensures lastNightResult == Some(result)
    {
      var saved := top.Some? && top.value != "" && doctorTarget == top;
      var killed: Option<PlayerRef> := None;
      if top.Some? && top.value != "" && !saved {
        var target := Eliminate(top.value);
        if target.Some? {
          killed := Some(PlayerRef(target.value.id, target.value.name));
        }
      }
      result := NightResult(killed, saved);
      lastNightResult := Some(result);
    }

    /** `const target = this.players.get(id); if (target) target.alive = false`: only that entry changes. */
    method Eliminate(playerId: string) returns (target: Option<Player>)
      requires Valid()
      modifies this`players
      ensures Valid()
      ensures target.Some? <==> playerId in old(players.vals)
      ensures target.Some? ==>
        && target.value == old(players.vals[playerId]) && target.value.id == playerId
        && players == old(players).Put(playerId, target.value.(alive := false))
      ensures target.None? ==> players == old(players)
    {
      target := players.Get(playerId);
      if target.Some? {
        EliminateValid(players, playerId);
        players := players.Put(playerId, target.value.(alive := false));
      }
    }

    /** `startDay`: the day votes start empty and the first speaker is index 0. */
    method StartDay()
      modifies this`phase, this`currentSpeaker, this`dayVotes, this`phaseMessages
      ensures phase == Day && currentSpeaker == 0 && dayVotes == Empty() && phaseMessages == []
    {
      phase := Day;
      currentSpeaker := 0;
      dayVotes := Empty();
      phaseMessages := [];
    }

    /** `addDayVote`: a later vote of the same voter replaces the earlier one in place. */
    method AddDayVote(voterId: string, targetId: string)
      requires Valid()
      modifies this`dayVotes
      ensures Valid()
      ensures dayVotes == old(dayVotes).Put(voterId, targetId)
      ensures dayVotes.Get(voterId) == Some(targetId)
      ensures forall v :: v != voterId ==> dayVotes.Get(v) == old(dayVotes).Get(v)
    {
      PutValid(dayVotes, voterId, targetId);
      dayVotes := dayVotes.Put(voterId, targetId);
    }

    /**
     * `resolveDayVote`: skips are not counted; the plurality target is ejected
     * only if its count reaches `floor(alive / 2) + 1`, alive counted before
     * the ejection, and it names a player on the roster. The returned snapshot
     * holds every vote, skips included. `ejectedId` is the tallied target.
     */
    method ResolveDayVote() returns (result: VoteResult, ghost ejectedId: Option<string>)
      requires Valid()
      modifies this`players, this`lastVoteResult
      ensures Valid()
      ensures result.votes == old(dayVotes.vals)
      ensures ejectedId.None? <==> OnlySkips(old(dayVotes.Values()))
      ensures ejectedId.Some? ==> IsPlurality(old(dayVotes.Values()), {SKIP}, ejectedId.value)
      ensures result.ejected.Some? <==>
        && ejectedId.Some? && ejectedId.value != ""
        && multiset(old(dayVotes.Values()))[ejectedId.value] >= Majority(|old(AlivePlayers())|)
        && ejectedId.value in old(players.vals)
      ensures result.ejected.Some? ==>
        var out := old(players.vals[ejectedId.value]);
        && result.ejected.value == Ejected(out.id, out.name, out.role)
        && players == old(players).Put(out.id, out.(alive := false))
      ensures result.ejected.None? ==> players == old(players)
      ensures lastVoteResult == Some(result)
    {
      var votes := dayVotes.vals;
      var values := dayVotes.Values();
      var top, maxVotes := Plurality(values, {SKIP});
      ejectedId := top;
      var majority := Majority(|AlivePlayers()|);
      var ejected := Eject(if top.Some? && top.value != "" && maxVotes >= majority then top else None);
      result := VoteResult(votes, ejected);
      lastVoteResult := Some(result);
    }

    /** The second half of `resolveDayVote`: the player voted out, if the vote carried and the player exists. */
    method Eject(top: Option<string>) returns (ejected: Option<Ejected>)
      requires Valid()
      modifies this`players
      ensures Valid()
      ensures ejected.Some? <==> top.Some? && top.value in old(players.vals)
      ensures ejected.Some? ==>
        var out := old(players.vals[top.value]);
        && ejected.value == Ejected(out.id, out.name, out.role)
        && players == old(players).Put(out.id, out.(alive := false))
      ensures ejected.None? ==> players == old(players)
    {
      ejected := None;
      if top.Some? {
        var target := Eliminate(top.value);
        if target.Some? {
          ejected := Some(Ejected(target.value.id, target.value.name, target.value.role));
        }
      }
    }

    /* ───────── Serialisation ───────── */

    /** `toPlayerState(socketId)`: a role shows only for its owner, or for everybody once the game is over. */
    function ToPlayerState(socketId: string): (s: PlayerState)
      reads this
      requires Valid()
      ensures |s.players| == players.Size()
      ensures forall v :: v in s.players && v.role.Some? ==> v.id == socketId || phase == GameOver
      ensures forall i :: 0 <= i < |s.players| ==> s.players[i].id == players.keys[i]
      ensures forall i :: 0 <= i < |s.players| && (players.keys[i] == socketId || phase == GameOver) ==>
        s.players[i].role == players.vals[players.keys[i]].role
      ensures s.myRole == if socketId in players.vals then players.vals[socketId].role else None
      ensures s.phase == phase && s.round == round && s.currentSpeaker == currentSpeaker
    {
      var me := players.Get(socketId);
      PlayerState(id, phase, round, Views(players.Values(), hostId, Some(socketId), phase == GameOver),
        if me.Some? then me.value.role else None,
        currentSpeaker, maxPlayers, phaseMessages, lastNightResult, lastVoteResult)
    }

    /** `toBroadcastState`: no role at all before game over, every role after. */
    function ToBroadcastState(): (s: BroadcastState)
      reads this
      requires Valid()
      ensures |s.players| == players.Size()
      ensures phase != GameOver ==> forall v :: v in s.players ==> v.role.None?
      ensures phase == GameOver ==> forall i :: 0 <= i < |s.players| ==>
        s.players[i].role == players.vals[players.keys[i]].role
      ensures forall i :: 0 <= i < |s.players| ==> s.players[i].id == players.keys[i]
    {
      BroadcastState(id, phase, round, Views(players.Values(), hostId, None, phase == GameOver),
        currentSpeaker, maxPlayers, phaseMessages, lastNightResult, lastVoteResult)
    }

    /** `checkWin` */
    function CheckWin(): (w: Option<Team>)
      reads this
      requires Valid()
      ensures w == Some(Town) <==> TeamAlive(AlivePlayers(), MafiaTeam) == 0
      ensures w == Some(MafiaTeam) <==>
        0 < TeamAlive(AlivePlayers(), MafiaTeam) && TeamAlive(AlivePlayers(), MafiaTeam) >= TeamAlive(AlivePlayers(), Town)
      ensures w.None? <==> 0 < TeamAlive(AlivePlayers(), MafiaTeam) < TeamAlive(AlivePlayers(), Town)
    {
      Winner(AlivePlayers())
    }
  }

  /** Marking one player dead keeps the roster well formed, its order and its size. */
  lemma EliminateValid(p: Roster, playerId: string)
    requires RosterValid(p) && playerId in p.vals
    ensures var q := p.Put(playerId, p.vals[playerId].(alive := false));
      RosterValid(q) && q.keys == p.keys && q.Size() == p.Size()
  {
    PutValid(p, playerId, p.vals[playerId].(alive := false));
  }

  /**
   * `p` is `p0` with `bots` appended in order, each seated after the players
   * already there, and every earlier player untouched.
   */
  ghost predicate FilledBy(p0: Roster, p: Roster, bots: seq<BotIdentity>) {
    && p.keys == p0.keys + BotIds(bots)
    && (forall i :: 0 <= i < |bots| ==>
         && bots[i].isBot && bots[i].id in p.vals
         && p.vals[bots[i].id] == NewPlayer(bots[i].id, BotUserData(bots[i]), |p0.keys| + i))
    && (forall k :: k in p0.vals ==> k in p.vals && p.vals[k] == p0.vals[k])
  }

  lemma AddBotFilled(p0: Roster, p: Roster, bots: seq<BotIdentity>, bot: BotIdentity)
    requires FilledBy(p0, p, bots) && bot.id !in p.vals && bot.isBot
    ensures FilledBy(p0, p.Put(bot.id, NewPlayer(bot.id, BotUserData(bot), p.Size())), bots + [bot])
  {
    var q := p.Put(bot.id, NewPlayer(bot.id, BotUserData(bot), p.Size()));
    var more := bots + [bot];
    assert BotIds(more) == BotIds(bots) + [bot.id];
    assert q.keys == p0.keys + BotIds(more);
    forall i | 0 <= i < |more|
      ensures more[i].id in q.vals && q.vals[more[i].id] == NewPlayer(more[i].id, BotUserData(more[i]), |p0.keys| + i)
    {
      if i < |bots| {
        assert more[i] == bots[i];
      }
    }
  }

  /**
   * `p` is `p0` with the first `i` players in roster order given `roles[0..i]`
   * and the rest untouched.
   */
  ghost predicate DealtUpTo(p0: Roster, p: Roster, roles: seq<Role>, i: nat) {
    && RosterValid(p0) && RosterValid(p)
    && p.keys == p0.keys && i <= |p.keys| <= |roles|
    && (forall j :: 0 <= j < i ==> p.vals[p.keys[j]] == p0.vals[p.keys[j]].(role := Some(roles[j])))
    && (forall j :: i <= j < |p.keys| ==> p.vals[p.keys[j]] == p0.vals[p.keys[j]])
  }

  lemma DealStep(p0: Roster, p: Roster, roles: seq<Role>, i: nat)
    requires DealtUpTo(p0, p, roles, i) && i < |p.keys|
    ensures DealtUpTo(p0, p.Put(p.keys[i], p.vals[p.keys[i]].(role := Some(roles[i]))), roles, i + 1)
  {
    var key := p.keys[i];
    PutValid(p, key, p.vals[key].(role := Some(roles[i])));
    forall j | 0 <= j < |p.keys| && j != i ensures p.keys[j] != key {
    }
  }

  /**
   * Once the game runs, the roster only evolves: nobody joins or leaves,
   * identities and seats stay, and a dead player never comes back.
   */
  ghost predicate RosterEvolves(before: Roster, after: Roster) {
    && after.keys == before.keys
    && forall k :: k in before.vals ==> k in after.vals && Evolves(before.vals[k], after.vals[k])
  }

  predicate Evolves(before: Player, after: Player) {
    && after.id == before.id && after.name == before.name && after.isBot == before.isBot
    && after.seat == before.seat && (after.alive ==> before.alive)
  }

  lemma RosterEvolvesTrans(a: Roster, b: Roster, c: Roster)
    requires RosterEvolves(a, b) && RosterEvolves(b, c)
    ensures RosterEvolves(a, c)
  {
  }

  lemma DealtEvolves(p0: Roster, p: Roster, roles: seq<Role>)
    requires DealtUpTo(p0, p, roles, |p.keys|)
    ensures RosterEvolves(p0, p)
  {
    forall k | k in p0.vals ensures k in p.vals && Evolves(p0.vals[k], p.vals[k]) {
      var j :| 0 <= j < |p0.keys| && p0.keys[j] == k;
      assert p.vals[p.keys[j]] == p0.vals[p.keys[j]].(role := Some(roles[j]));
    }
  }

  lemma EliminateEvolves(p: Roster, playerId: string)
    requires RosterValid(p) && playerId in p.vals
    ensures RosterEvolves(p, p.Put(playerId, p.vals[playerId].(alive := false)))
  {
  }

  function BotIds(bots: seq<BotIdentity>): (ids: seq<string>)
    ensures |ids| == |bots| && forall i :: 0 <= i < |bots| ==> ids[i] == bots[i].id
  {
    if bots == [] then [] else [bots[0].id] + BotIds(bots[1..])
  }
}
