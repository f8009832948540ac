/**
 * The phase engine of one room: the narrator's state machine
 * lobby → dealing → introduction → night → day → voting → night | game over,
 * the speaking turns by index, the bots' scheduled actions, and the
 * recipient choice of every broadcast.
 *
 * Timers are pending tasks: `Schedule` appends one, `ClearTimers` drops them
 * all, and `Fire(k, …)` runs the k-th pending task, in any order the
 * environment likes. What a task's closure captured when it was scheduled
 * (a speaker, a bot, the alive list of that moment) is stored in the task.
 * `Math.random` draws are the `targetDraw`/`phraseDraw` parameters. Every
 * `io.to(sid).emit` is a `Delivery` appended to `outbox`.
 */
module Engine {
  import opened Options
  import opened OrderedMaps
  import opened Roles
  import opened Players
  import opened Bots
  import opened GameRooms

  /** The target name a vote-cast event carries when the target is no player (a skip). */
  const SKIP_LABEL: string := "Пропуск"

  datatype FinalPlayer = FinalPlayer(id: string, name: string, role: Option<Role>, alive: bool, isBot: bool)

  datatype Event =
    | GameState(state: PlayerState)
    | Chat(playerId: string, playerName: string, text: string, isBot: bool)
    | MafiaChat(playerId: string, playerName: string, text: string, targetId: string)
    | SheriffResult(checkedId: string, checkedName: Option<string>, isMafia: bool)
    | NightResultEvent(night: NightResult)
    | VoteCast(voterId: string, voterName: Option<string>, targetId: string, targetName: string)
    | VoteResultEvent(vote: VoteResult)
    | GameOverEvent(winner: Team, players: seq<FinalPlayer>)

  /** One `io.to(to).emit(…)`. */
  datatype Delivery = Delivery(to: string, event: Event)

  /** The pending timer callbacks, one constructor per `schedule` site. */
  datatype Task =
    | DealCards
    | BeginIntroduction
    | IntroTurn
    | BotIntroSpeak(speaker: Player)
    | NextIntroSpeaker
    | BeginNight
    | WakeMafia
    | BotMafiaVote(bot: Player, alive: seq<Player>)
    | BotDoctorHeal(bot: Player, alive: seq<Player>)
    | BotSheriffCheck(bot: Player, alive: seq<Player>)
    | ResolveNightTask
    | AnnounceNight(result: NightResult)
    | EndGameTask(winner: Team)
    | BeginDay
    | DayTurn
    | BotDaySpeak(speaker: Player, alive: seq<Player>)
    | NextDaySpeaker
    | BeginVoting
    | BotVote(bot: Player, alive: seq<Player>)
    | ResolveVotingTask

  /** The tasks that read or advance `currentSpeaker`. */
  predicate SpeakerTask(t: Task) {
    t.IntroTurn? || t.BotIntroSpeak? || t.NextIntroSpeaker? || t.DayTurn? || t.BotDaySpeak? || t.NextDaySpeaker?
  }

  /** The callbacks `startGame` and the introduction schedule. */
  predicate IntroductionTask(t: Task) {
    t.DealCards? || t.BeginIntroduction? || t.IntroTurn? || t.BotIntroSpeak? || t.NextIntroSpeaker?
  }

  /** The callbacks of the night phase and its resolution. */
  predicate NightTask(t: Task) {
    t.BeginNight? || t.WakeMafia? || t.BotMafiaVote? || t.BotDoctorHeal? || t.BotSheriffCheck?
    || t.ResolveNightTask? || t.AnnounceNight?
  }

  /* ───────── Recipients ───────── */

  /** `broadcastState`/`broadcastEvent` reach every non-bot player; `broadcastToMafia` only those on the mafia team, dead or alive. */
  predicate Receives(p: Player, mafiaOnly: bool) {
    !p.isBot && (!mafiaOnly || PlayerTeam(p) == Some(MafiaTeam))
  }

  /** The ids a broadcast over `ps` reaches, in roster order. */
  function RecipientIds(ps: seq<Player>, mafiaOnly: bool): seq<string> {
    if ps == [] then []
    else
      var last := ps[|ps| - 1];
      RecipientIds(ps[..|ps| - 1], mafiaOnly) + (if Receives(last, mafiaOnly) then [last.id] else [])
  }

  /** A broadcast reaches exactly the players `Receives` selects: no bot, and for the mafia channel nobody off the mafia team. */
  lemma {:induction false} RecipientIdsExactly(ps: seq<Player>, mafiaOnly: bool)
    ensures forall id :: id in RecipientIds(ps, mafiaOnly) <==> exists p :: p in ps && Receives(p, mafiaOnly) && p.id == id
  {
    if ps != [] {
      var init := ps[..|ps| - 1];
      var last := ps[|ps| - 1];
      RecipientIdsExactly(init, mafiaOnly);
      assert ps == init + [last];
      forall id ensures id in RecipientIds(ps, mafiaOnly) <==> exists p :: p in ps && Receives(p, mafiaOnly) && p.id == id {
        if id in RecipientIds(ps, mafiaOnly) {
          if id in RecipientIds(init, mafiaOnly) {
            var p :| p in init && Receives(p, mafiaOnly) && p.id == id;
            assert p in ps;
          } else {
            assert last in ps && Receives(last, mafiaOnly) && last.id == id;
          }
        }
        if exists p :: p in ps && Receives(p, mafiaOnly) && p.id == id {
          var p :| p in ps && Receives(p, mafiaOnly) && p.id == id;
          if p != last {
            assert p in init;
          }
        }
      }
    }
  }

  /** A mafia broadcast never reaches anybody a general broadcast would not. */
  lemma MafiaRecipientsAreRecipients(ps: seq<Player>)
    ensures forall id :: id in RecipientIds(ps, true) ==> id in RecipientIds(ps, false)
  {
    RecipientIdsExactly(ps, true);
    RecipientIdsExactly(ps, false);
    forall id | id in RecipientIds(ps, true) ensures id in RecipientIds(ps, false) {
      var p :| p in ps && Receives(p, true) && p.id == id;
      assert Receives(p, false);
    }
  }

  /** One delivery of `e` per id, in order. */
  function Deliver(ids: seq<string>, e: Event): (ds: seq<Delivery>)
    ensures |ds| == |ids|
  {
    if ids == [] then [] else [Delivery(ids[0], e)] + Deliver(ids[1..], e)
  }

  /** The `i`-th delivery goes to the `i`-th id and carries the event. */
  lemma {:induction false} DeliverAt(ids: seq<string>, e: Event, i: nat)
    requires i < |ids|
    ensures Deliver(ids, e)[i] == Delivery(ids[i], e)
  {
    if i > 0 {
      DeliverAt(ids[1..], e, i - 1);
    }
  }

  lemma {:induction false} DeliverAppend(a: seq<string>, b: seq<string>, e: Event)
    ensures Deliver(a + b, e) == Deliver(a, e) + Deliver(b, e)
  {
    if a != [] {
      DeliverAppend(a[1..], b, e);
      assert (a + b)[1..] == a[1..] + b;
    } else {
      assert a + b == b;
    }
  }

  /** One more player on the roster prefix adds its id at the end of the recipients, when it receives. */
  lemma RecipientIdsSnoc(ps: seq<Player>, i: nat, mafiaOnly: bool)
    requires i < |ps|
    ensures RecipientIds(ps[..i + 1], mafiaOnly) ==
      RecipientIds(ps[..i], mafiaOnly) + (if Receives(ps[i], mafiaOnly) then [ps[i].id] else [])
  {
    assert ps[..i + 1][..i] == ps[..i];
  }

  function FinalPlayers(ps: seq<Player>): (fs: seq<FinalPlayer>)
    ensures |fs| == |ps|
    ensures forall i :: 0 <= i < |ps| ==> fs[i] == FinalPlayer(ps[i].id, ps[i].name, ps[i].role, ps[i].alive, ps[i].isBot)
  {
    if ps == [] then [] else [FinalPlayer(ps[0].id, ps[0].name, ps[0].role, ps[0].alive, ps[0].isBot)] + FinalPlayers(ps[1..])
  }

  /* ───────── Speaking turns ───────── */

  /**
   * What `runSpeakerTurn` schedules for index `idx`: the night once everybody
   * has spoken, else the bot's speech or the human's turn timeout. The
   * introduction loop never leads to voting.
   */
  function IntroTurnTask(alive: seq<Player>, idx: nat): (t: Task)
    ensures t == BeginNight <==> idx >= |alive|
    ensures t.BotIntroSpeak? ==> idx < |alive| && t.speaker == alive[idx] && t.speaker.isBot
    ensures t == NextIntroSpeaker <==> idx < |alive| && !alive[idx].isBot
    ensures !t.BeginVoting? && !t.DayTurn? && !t.NextDaySpeaker?
  {
    if idx >= |alive| then BeginNight
    else if alive[idx].isBot then BotIntroSpeak(alive[idx])
    else NextIntroSpeaker
  }

  /** What `runDaySpeakerTurn` schedules for index `idx`: voting once everybody has spoken. */
  function DayTurnTask(alive: seq<Player>, idx: nat): (t: Task)
    ensures t == BeginVoting <==> idx >= |alive|
    ensures t.BotDaySpeak? ==> idx < |alive| && t.speaker == alive[idx] && t.speaker.isBot && t.alive == alive
    ensures t == NextDaySpeaker <==> idx < |alive| && !alive[idx].isBot
    ensures !t.BeginNight?
  {
    if idx >= |alive| then BeginVoting
    else if alive[idx].isBot then BotDaySpeak(alive[idx], alive)
    else NextDaySpeaker
  }

  /** The outcome of `playerFinishedSpeaking`'s guard. */
  datatype GuardOutcome = Ignored | Accepted | TypeErrorThrown

  /**
   * The guard as written: for a negative index `alive[idx]` is `undefined`
   * and reading its `id` throws. The index is -1 from room creation until the
   * introduction starts, which includes the dealing window after start-game.
   */
  function DoneSpeakingGuardAsWritten(alive: seq<Player>, idx: int, playerId: string): (o: GuardOutcome)
    ensures o == TypeErrorThrown <==> idx < 0
    ensures o == Accepted <==> 0 <= idx < |alive| && alive[idx].id == playerId
  {
    if idx >= |alive| then Ignored
    else if idx < 0 then TypeErrorThrown
    else if alive[idx].id != playerId then Ignored
    else Accepted
  }

  /** Any player who reports "done speaking" before the introduction begins makes the as-written guard throw. */
  lemma DoneSpeakingBeforeIntroductionThrows(alive: seq<Player>, playerId: string)
    ensures DoneSpeakingGuardAsWritten(alive, -1, playerId) == TypeErrorThrown
  {
  }

  /**
   * The guard as intended: the caller must be the current speaker. It agrees
   * with the written guard wherever that one does not throw, and ignores the
   * report where it throws.
   */
  predicate DoneSpeakingAccepted(alive: seq<Player>, idx: int, playerId: string)
    ensures DoneSpeakingAccepted(alive, idx, playerId) <==> DoneSpeakingGuardAsWritten(alive, idx, playerId) == Accepted
    ensures DoneSpeakingGuardAsWritten(alive, idx, playerId) == TypeErrorThrown ==> !DoneSpeakingAccepted(alive, idx, playerId)
  {
    0 <= idx < |alive| && alive[idx].id == playerId
  }

  /* ───────── Bot schedules ───────── */

  /** The tasks `scheduleBotNightActions` creates for one bot, by its role. */
  function BotTasksFor(bot: Player, alive: seq<Player>): seq<Task> {
    (if PlayerTeam(bot) == Some(MafiaTeam) then [BotMafiaVote(bot, alive)] else [])
    + (if bot.role == Some(Doctor) then [BotDoctorHeal(bot, alive)] else [])
    + (if bot.role == Some(Sheriff) then [BotSheriffCheck(bot, alive)] else [])
  }

  /** `scheduleBotNightActions`' tasks for `bots`, in order. */
  function BotNightTasks(bots: seq<Player>, alive: seq<Player>): seq<Task> {
    if bots == [] then []
    else BotNightTasks(bots[..|bots| - 1], alive) + BotTasksFor(bots[|bots| - 1], alive)
  }

  /** A night task is a bot's action of its own role over the given alive list. */
  predicate NightTaskOf(t: Task, bots: seq<Player>, alive: seq<Player>) {
    && (t.BotMafiaVote? || t.BotDoctorHeal? || t.BotSheriffCheck?)
    && t.bot in bots && t.alive == alive
    && (t.BotMafiaVote? ==> PlayerTeam(t.bot) == Some(MafiaTeam))
    && (t.BotDoctorHeal? ==> t.bot.role == Some(Doctor))
    && (t.BotSheriffCheck? ==> t.bot.role == Some(Sheriff))
  }

  /**
   * Every bot of the night gets the action of its role, and nothing else is
   * scheduled: a mafia-team bot a kill vote, the doctor a heal, the sheriff a
   * check, all over the same alive list.
   */
  lemma {:induction false} BotNightTasksExactly(bots: seq<Player>, alive: seq<Player>)
    ensures forall t :: t in BotNightTasks(bots, alive) ==> NightTaskOf(t, bots, alive)
    ensures forall b :: b in bots && PlayerTeam(b) == Some(MafiaTeam) ==> BotMafiaVote(b, alive) in BotNightTasks(bots, alive)
    ensures forall b :: b in bots && b.role == Some(Doctor) ==> BotDoctorHeal(b, alive) in BotNightTasks(bots, alive)
    ensures forall b :: b in bots && b.role == Some(Sheriff) ==> BotSheriffCheck(b, alive) in BotNightTasks(bots, alive)
  {
    if bots != [] {
      var init := bots[..|bots| - 1];
      var last := bots[|bots| - 1];
      BotNightTasksExactly(init, alive);
      assert bots == init + [last];
      var ts := BotNightTasks(bots, alive);
      assert ts == BotNightTasks(init, alive) + BotTasksFor(last, alive);
      forall t | t in ts ensures NightTaskOf(t, bots, alive) {
        if t in BotNightTasks(init, alive) {
          assert NightTaskOf(t, init, alive);
        }
      }
      forall b | b in bots && b != last ensures b in init {
      }
    }
  }

  /** `startVoting` gives each alive bot one vote over the same alive list. */
  function BotVoteTasks(bots: seq<Player>, alive: seq<Player>): (ts: seq<Task>)
    ensures |ts| == |bots| && forall i :: 0 <= i < |bots| ==> ts[i] == BotVote(bots[i], alive)
  {
    seq(|bots|, i requires 0 <= i < |bots| => BotVote(bots[i], alive))
  }

  /** `isMafia` of the sheriff's answer: false for an unknown target. */
  function SheriffVerdict(target: Option<Player>): (isMafia: bool)
    ensures isMafia <==> target.Some? && target.value.role.Some? && target.value.role.value in {Mafia, Don}
  {
    target.Some? && PlayerTeam(target.value) == Some(MafiaTeam)
  }

  /** `target?.name || 'Пропуск'` */
  function TargetLabel(target: Option<Player>): (name: string)
    ensures target.Some? && target.value.name != "" ==> name == target.value.name
    ensures target.None? ==> name == SKIP_LABEL
    ensures target.Some? && target.value.name == "" ==> name == SKIP_LABEL
  {
    if target.Some? && target.value.name != "" then target.value.name else SKIP_LABEL
  }

  /** `game:state` to each id of `ids`, each with its own view of the room. */
  function StatesFor(room: GameRoom, ids: seq<string>): (ds: seq<Delivery>)
    reads room
    requires room.Valid()
    ensures |ds| == |ids|
  {
    if ids == [] then []
    else
      var last := ids[|ids| - 1];
      StatesFor(room, ids[..|ids| - 1]) + [Delivery(last, GameState(room.ToPlayerState(last)))]
  }

  /** The `i`-th state update goes to the `i`-th id, with that id's own view. */
  lemma {:induction false} StatesForAt(room: GameRoom, ids: seq<string>, i: nat)
    requires room.Valid() && i < |ids|
    ensures StatesFor(room, ids)[i] == Delivery(ids[i], GameState(room.ToPlayerState(ids[i])))
  {
    if i < |ids| - 1 {
      StatesForAt(room, ids[..|ids| - 1], i);
    }
  }

  /** One more id adds its own state update at the end. */
  lemma StatesForSnoc(room: GameRoom, ids: seq<string>, id: string)
    requires room.Valid()
    ensures StatesFor(room, ids + [id]) == StatesFor(room, ids) + [Delivery(id, GameState(room.ToPlayerState(id)))]
  {
    assert (ids + [id])[..|ids|] == ids;
  }

  /** The loop of `broadcastEvent`/`broadcastToMafia`: one delivery per receiving player of `ps`, in roster order. */
  method EventDeliveries(ps: seq<Player>, e: Event, mafiaOnly: bool) returns (ds: seq<Delivery>)
    ensures ds == Deliver(RecipientIds(ps, mafiaOnly), e)
  {
    ds := [];
    var i := 0;
    while i < |ps|
      invariant 0 <= i <= |ps|
      invariant ds == Deliver(RecipientIds(ps[..i], mafiaOnly), e)
    {
      RecipientIdsSnoc(ps, i, mafiaOnly);
      DeliverAppend(RecipientIds(ps[..i], mafiaOnly), if Receives(ps[i], mafiaOnly) then [ps[i].id] else [], e);
      if Receives(ps[i], mafiaOnly) {
        ds := ds + [Delivery(ps[i].id, e)];
      }
      i := i + 1;
    }
    assert ps[..|ps|] == ps;
  }

  /** The loop of `broadcastState`: each non-bot player of `ps` gets its own view of `room`. */
  method StateUpdates(room: GameRoom, ps: seq<Player>) returns (ds: seq<Delivery>)
    requires room.Valid()
    ensures ds == StatesFor(room, RecipientIds(ps, false))
  {
    ds := [];
    var i := 0;
    while i < |ps|
      invariant 0 <= i <= |ps|
      invariant ds == StatesFor(room, RecipientIds(ps[..i], false))
    {
      ghost var sent := RecipientIds(ps[..i], false);
      RecipientIdsSnoc(ps, i, false);
      if !ps[i].isBot {
        assert RecipientIds(ps[..i + 1], false) == sent + [ps[i].id];
        StatesForSnoc(room, sent, ps[i].id);
        ds := ds + [Delivery(ps[i].id, GameState(room.ToPlayerState(ps[i].id)))];
      } else {
        assert RecipientIds(ps[..i + 1], false) == sent;
      }
      i := i + 1;
    }
    assert ps[..|ps|] == ps;
  }

  /** The loop of `scheduleBotNightActions` over the alive bots, in order. */
  method NightSchedule(bots: seq<Player>, alive: seq<Player>) returns (ts: seq<Task>)
    ensures ts == BotNightTasks(bots, alive)
  {
    ts := [];
    var i := 0;
    while i < |bots|
      invariant 0 <= i <= |bots|
      invariant ts == BotNightTasks(bots[..i], alive)
    {
      var bot := bots[i];
      assert bots[..i + 1][..i] == bots[..i];
      if PlayerTeam(bot) == Some(MafiaTeam) {
        ts := ts + [BotMafiaVote(bot, alive)];
      }
      if bot.role == Some(Doctor) {
        ts := ts + [BotDoctorHeal(bot, alive)];
      }
      if bot.role == Some(Sheriff) {
        ts := ts + [BotSheriffCheck(bot, alive)];
      }
      i := i + 1;
    }
    assert bots[..|bots|] == bots;
  }

  /** The loop of `startVoting` over the alive bots: one vote each. */
  method VoteSchedule(bots: seq<Player>, alive: seq<Player>) returns (ts: seq<Task>)
    ensures ts == BotVoteTasks(bots, alive)
  {
    ts := [];
    var i := 0;
    while i < |bots|
      invariant 0 <= i <= |bots|
      invariant ts == BotVoteTasks(bots[..i], alive)
    {
      ts := ts + [BotVote(bots[i], alive)];
      i := i + 1;
    }
    assert bots[..|bots|] == bots;
  }

  class GameEngine {
    const room: GameRoom
    const book: PhraseBook
    var timers: seq<Task>
    var outbox: seq<Delivery>

    /** A speaking task is pending only once the speaker index has started counting. */
    ghost predicate Valid()
      reads this, room
    {
      && room.Valid() && book.Valid()
      && ((exists t :: t in timers && SpeakerTask(t)) ==> room.currentSpeaker >= 0)
    }

    constructor(room: GameRoom, book: PhraseBook)
      requires room.Valid() && book.Valid()
      ensures Valid() && this.room == room && this.book == book
      ensures timers == [] && outbox == []
    {
      this.room := room;
      this.book := book;
      timers := [];
      outbox := [];
    }

    /* ───────── Utilities ───────── */

    method ClearTimers()
      modifies this`timers
      ensures timers == []
    {
      timers := [];
    }

    method Schedule(t: Task)
      modifies this`timers
      ensures timers == old(timers) + [t]
    {
      timers := timers + [t];
    }

    /** The ids every state update and general event reaches. */
    function Humans(): seq<string>
      reads room
      requires room.Valid()
    {
      RecipientIds(room.players.Values(), false)
    }

    /** The ids `broadcastToMafia` reaches. */
    function MafiaHumans(): seq<string>
      reads room
      requires room.Valid()
    {
      RecipientIds(room.players.Values(), true)
    }

    /**
     * What `broadcastState` sends: every human gets its own view, in which a
     * role shows only for the receiver itself until the game is over.
     */
    function StateDeliveries(): (ds: seq<Delivery>)
      reads room
      requires room.Valid()
      ensures |ds| == |Humans()|
    {
      StatesFor(room, Humans())
    }

    /** Only humans get a state update, and none of them sees another player's role before the game is over. */
    lemma StateDeliveriesHideRoles()
      requires room.Valid()
      ensures forall d :: d in StateDeliveries() ==> d.to in Humans() && d.event.GameState?
      ensures forall d, v :: d in StateDeliveries() && d.event.GameState? && v in d.event.state.players && v.role.Some? ==>
        v.id == d.to || room.phase == GameOver
    {
      var hs := Humans();
      var ds := StateDeliveries();
      forall d | d in ds ensures d == Delivery(d.to, GameState(room.ToPlayerState(d.to))) && d.to in hs {
        var i :| 0 <= i < |ds| && ds[i] == d;
        StatesForAt(room, hs, i);
      }
    }

    /** `broadcastEvent` (or `broadcastToMafia` when `mafiaOnly`): the event to every recipient. */
    method Broadcast(e: Event, mafiaOnly: bool)
      requires room.Valid()
      modifies this`outbox
      ensures outbox == old(outbox) + Deliver(RecipientIds(room.players.Values(), mafiaOnly), e)
    {
      var ds := EventDeliveries(room.players.Values(), e, mafiaOnly);
      outbox := outbox + ds;
    }

    /** `broadcastState`: every human its own view. */
    method BroadcastState()
      requires room.Valid()
      modifies this`outbox
      ensures outbox == old(outbox) + StateDeliveries()
    {
      var ds := StateUpdates(room, room.players.Values());
      outbox := outbox + ds;
    }

    /** `emitChat`: the message joins `phaseMessages` and goes to every human. */
    method EmitChat(speaker: Player, text: string)
      requires room.Valid()
      modifies this`outbox, room`phaseMessages
      ensures room.phaseMessages == old(room.phaseMessages) + [ChatMessage(speaker.id, speaker.name, text)]
      ensures outbox == old(outbox) + Deliver(Humans(), Chat(speaker.id, speaker.name, text, speaker.isBot))
    {
      room.phaseMessages := room.phaseMessages + [ChatMessage(speaker.id, speaker.name, text)];
      Broadcast(Chat(speaker.id, speaker.name, text, speaker.isBot), false);
    }

    /* ───────── Dealing and introduction ───────── */

    /** `startGame`: announce, then deal and later start the introduction. */
    method StartGame()
      requires Valid()
      modifies this`outbox, this`timers
      ensures Valid()
      ensures outbox == old(outbox) + StateDeliveries()
      ensures timers == old(timers) + [DealCards, BeginIntroduction]
    {
      BroadcastState();
      Schedule(DealCards);
      Schedule(BeginIntroduction);
    }

    /** The dealing callback: announce, deal, and send everybody the dealt view. */
    method DealCardsNow() returns (ghost dealt: seq<Role>)
      requires Valid()
      modifies this`outbox, room`players, room`phase
      ensures Valid() && room.phase == Dealing
      ensures outbox == old(outbox) + old(StateDeliveries()) + StateDeliveries()
      ensures multiset(dealt) == multiset(RoleDistribution(old(room.players.Size())))
      ensures DealtUpTo(old(room.players), room.players, dealt, room.players.Size())
      ensures RosterEvolves(old(room.players), room.players)
    {
      BroadcastState();
      dealt := DealRoom();
      ghost var players := room.players;
      BroadcastState();
      assert room.players == players;
    }

    /** `room.dealRoles()`: every player gets a role of the shuffled table, and the phase is dealing. */
    method DealRoom() returns (ghost dealt: seq<Role>)
      requires room.Valid()
      modifies room`players, room`phase
      ensures room.Valid() && room.phase == Dealing
      ensures multiset(dealt) == multiset(RoleDistribution(old(room.players.Size())))
      ensures DealtUpTo(old(room.players), room.players, dealt, room.players.Size())
      ensures RosterEvolves(old(room.players), room.players)
    {
      dealt := room.DealRoles();
    }

    /** `startIntroduction` */
    method StartIntroduction()
      requires Valid()
      modifies this`outbox, this`timers, room`phase, room`currentSpeaker, room`phaseMessages
      ensures Valid()
      ensures room.phase == Introduction && room.currentSpeaker == 0 && room.phaseMessages == []
      ensures outbox == old(outbox) + StateDeliveries()
      ensures timers == old(timers) + [IntroTurn]
    {
      room.StartIntroduction();
      BroadcastState();
      Schedule(IntroTurn);
    }

    /** `runSpeakerTurn`: announce the turn and schedule what follows it. */
    method RunSpeakerTurn()
      requires Valid() && room.currentSpeaker >= 0
      modifies this`outbox, this`timers
      ensures Valid()
      ensures outbox == old(outbox) + StateDeliveries()
      ensures timers == old(timers) + [IntroTurnTask(room.AlivePlayers(), room.currentSpeaker)]
    {
      var alive := room.AlivePlayers();
      BroadcastState();
      Schedule(IntroTurnTask(alive, room.currentSpeaker));
    }

    /** The introduction's turn timeout or the bot's follow-up: next speaker. */
    method NextIntroTurn()
      requires Valid() && room.currentSpeaker >= 0
      modifies this`outbox, this`timers, room`currentSpeaker
      ensures Valid() && room.currentSpeaker == old(room.currentSpeaker) + 1
      ensures outbox == old(outbox) + StateDeliveries()
      ensures timers == old(timers) + [IntroTurnTask(room.AlivePlayers(), room.currentSpeaker)]
    {
      room.currentSpeaker := room.currentSpeaker + 1;
      RunSpeakerTurn();
    }

    /** A bot's introduction: a phrase for its role, then the next speaker. */
    method BotIntroSpeech(speaker: Player, phraseDraw: nat)
      requires Valid() && room.currentSpeaker >= 0
      modifies this`outbox, this`timers, room`phaseMessages
      ensures Valid()
      ensures var text := GetBotIntroPhrase(book, speaker.role, phraseDraw);
        && room.phaseMessages == old(room.phaseMessages) + [ChatMessage(speaker.id, speaker.name, text)]
        && outbox == old(outbox) + Deliver(Humans(), Chat(speaker.id, speaker.name, text, speaker.isBot))
      ensures timers == old(timers) + [NextIntroSpeaker]
    {
      var phrase := GetBotIntroPhrase(book, speaker.role, phraseDraw);
      EmitChat(speaker, phrase);
      Schedule(NextIntroSpeaker);
    }

    /**
     * `playerFinishedSpeaking`, with the guard ignoring a negative index
     * instead of throwing. When the caller is the current speaker, every
     * pending timer is cancelled, the index moves on by one and the
     * introduction loop runs, whatever the phase: after a day turn it too
     * leads to the night, never to voting.
     */
    method PlayerFinishedSpeaking(playerId: string) returns (accepted: bool)
      requires Valid()
      modifies this`outbox, this`timers, room`currentSpeaker
      ensures Valid()
      ensures accepted <==> DoneSpeakingAccepted(old(room.AlivePlayers()), old(room.currentSpeaker), playerId)
      ensures accepted ==>
        && room.currentSpeaker == old(room.currentSpeaker) + 1
        && timers == [IntroTurnTask(room.AlivePlayers(), room.currentSpeaker)]
        && outbox == old(outbox) + StateDeliveries()
      ensures !accepted ==>
        room.currentSpeaker == old(room.currentSpeaker) && timers == old(timers) && outbox == old(outbox)
    {
      var alive := room.AlivePlayers();
      accepted := DoneSpeakingAccepted(alive, room.currentSpeaker, playerId);
      if !accepted {
        return;
      }
      ClearTimers();
      room.currentSpeaker := room.currentSpeaker + 1;
      RunSpeakerTurn();
    }

    /* ───────── Night ───────── */

    /** `startNight`: the room's night begins; mafia wakes later, and the night resolves later. */
    method StartNight()
      requires Valid()
      modifies this`outbox, this`timers, room`phase, room`round, room`mafiaVotes, room`doctorTarget,
        room`sheriffTarget, room`phaseMessages
      ensures Valid()
      ensures room.phase == Night && room.round == old(room.round) + 1
      ensures room.mafiaVotes == Empty() && room.doctorTarget.None? && room.sheriffTarget.None? && room.phaseMessages == []
      ensures outbox == old(outbox) + StateDeliveries()
      ensures timers == old(timers) + [WakeMafia, ResolveNightTask]
    {
      room.StartNight();
      BroadcastState();
      Schedule(WakeMafia);
      Schedule(ResolveNightTask);
    }

    /** The mafia-wakes callback: announce and schedule the bots' night actions. */
    method WakeMafiaNow()
      requires Valid()
      modifies this`outbox, this`timers
      ensures Valid()
      ensures outbox == old(outbox) + StateDeliveries()
      ensures timers == old(timers) + BotNightTasks(room.AliveBots(), room.AlivePlayers())
    {
      BroadcastState();
      ScheduleBotNightActions();
    }

    /** `scheduleBotNightActions`: one task per alive bot with a night role, all over today's alive list. */
    method ScheduleBotNightActions()
      requires Valid()
      modifies this`timers
      ensures Valid()
      ensures timers == old(timers) + BotNightTasks(room.AliveBots(), room.AlivePlayers())
    {
      var bots := room.AliveBots();
      var alive := room.AlivePlayers();
      var ts := NightSchedule(bots, alive);
      BotNightTasksExactly(bots, alive);
      timers := timers + ts;
    }

    /**
     * A mafia bot's vote: an enemy target when one is alive, written into the
     * bot's own slot only, and announced to the human mafia.
     */
    method BotMafiaVoteNow(bot: Player, alive: seq<Player>, targetDraw: nat, phraseDraw: nat)
      requires Valid()
      modifies this`outbox, room`mafiaVotes
      ensures Valid()
      ensures forall v :: v != bot.id ==> room.mafiaVotes.Get(v) == old(room.mafiaVotes.Get(v))
      ensures (exists p :: p in alive && p.id != bot.id && PlayerTeam(p) == Some(Town)) ==>
        exists t :: t in alive && PlayerTeam(t) == Some(Town) && room.mafiaVotes.Get(bot.id) == Some(t.id)
      ensures var target := BotPickTarget(alive, bot.id, Enemy, targetDraw);
        if target.Some? then
          && room.mafiaVotes == old(room.mafiaVotes).Put(bot.id, target.value.id)
          && outbox == old(outbox) + Deliver(MafiaHumans(),
               MafiaChat(bot.id, bot.name, GetBotNightPhrase(book, target.value.name, phraseDraw), target.value.id))
        else room.mafiaVotes == old(room.mafiaVotes) && outbox == old(outbox)
    {
      var target := BotPickTarget(alive, bot.id, Enemy, targetDraw);
      if target.Some? {
        PutValid(room.mafiaVotes, bot.id, target.value.id);
        room.mafiaVotes := room.mafiaVotes.Put(bot.id, target.value.id);
        var phrase := GetBotNightPhrase(book, target.value.name, phraseDraw);
        Broadcast(MafiaChat(bot.id, bot.name, phrase, target.value.id), true);
      }
    }

    /** The doctor bot's heal: anybody alive but itself. */
    method BotDoctorHealNow(bot: Player, alive: seq<Player>, targetDraw: nat)
      requires Valid()
      modifies room`doctorTarget
      ensures Valid()
      ensures var target := BotPickTarget(alive, bot.id, NoFilter, targetDraw);
        room.doctorTarget == if target.Some? then Some(target.value.id) else old(room.doctorTarget)
      ensures room.doctorTarget != old(room.doctorTarget) ==>
        exists t :: t in alive && t.id != bot.id && room.doctorTarget == Some(t.id)
    {
      var target := BotPickTarget(alive, bot.id, NoFilter, targetDraw);
      if target.Some? {
        room.doctorTarget := Some(target.value.id);
      }
    }

    /** The sheriff bot's check: anybody alive but itself (the bot is told nothing). */
    method BotSheriffCheckNow(bot: Player, alive: seq<Player>, targetDraw: nat)
      requires Valid()
      modifies room`sheriffTarget
      ensures Valid()
      ensures var target := BotPickTarget(alive, bot.id, NoFilter, targetDraw);
        room.sheriffTarget == if target.Some? then Some(target.value.id) else old(room.sheriffTarget)
      ensures room.sheriffTarget != old(room.sheriffTarget) ==>
        exists t :: t in alive && t.id != bot.id && room.sheriffTarget == Some(t.id)
    {
      var target := BotPickTarget(alive, bot.id, NoFilter, targetDraw);
      if target.Some? {
        room.sheriffTarget := Some(target.value.id);
      }
    }

    /**
     * `handleNightAction`: nothing for an unknown or dead actor or an empty
     * target. A mafia-team actor overwrites only its own vote, a doctor or a
     * sheriff its single target; only the sheriff is answered, in private.
     */
    method HandleNightAction(playerId: string, targetId: string)
      requires Valid()
      modifies this`outbox, room`mafiaVotes, room`doctorTarget, room`sheriffTarget
      ensures Valid()
      ensures var actor := room.GetPlayer(playerId);
        if actor.None? || !actor.value.alive || targetId == "" then
          && room.mafiaVotes == old(room.mafiaVotes) && room.doctorTarget == old(room.doctorTarget)
          && room.sheriffTarget == old(room.sheriffTarget) && outbox == old(outbox)
        else
          var p := actor.value;
          var target := room.GetPlayer(targetId);
          && room.mafiaVotes == (if PlayerTeam(p) == Some(MafiaTeam) then old(room.mafiaVotes).Put(playerId, targetId) else old(room.mafiaVotes))
          && room.doctorTarget == (if p.role == Some(Doctor) then Some(targetId) else old(room.doctorTarget))
          && room.sheriffTarget == (if p.role == Some(Sheriff) then Some(targetId) else old(room.sheriffTarget))
          && outbox == old(outbox) + (if p.role == Some(Sheriff) then
               [Delivery(playerId, SheriffResult(targetId, if target.Some? then Some(target.value.name) else None, SheriffVerdict(target)))]
             else [])
    {
      var actor := room.GetPlayer(playerId);
      if actor.None? || !actor.value.alive {
        return;
      }
      var p := actor.value;
      if PlayerTeam(p) == Some(MafiaTeam) && targetId != "" {
        PutValid(room.mafiaVotes, playerId, targetId);
        room.mafiaVotes := room.mafiaVotes.Put(playerId, targetId);
      }
      if p.role == Some(Doctor) && targetId != "" {
        room.doctorTarget := Some(targetId);
      }
      if p.role == Some(Sheriff) && targetId != "" {
        room.sheriffTarget := Some(targetId);
        var target := room.GetPlayer(targetId);
        var targetName := if target.Some? then Some(target.value.name) else None;
        outbox := outbox + [Delivery(playerId, SheriffResult(targetId, targetName, SheriffVerdict(target)))];
      }
    }

    /** The night's end: every pending timer is cancelled first, then the room resolves and the announcement is scheduled. */
    method ResolveNight() returns (result: NightResult)
      requires Valid()
      modifies this`outbox, this`timers, room`players, room`lastNightResult
      ensures Valid()
      ensures room.lastNightResult == Some(result)
      ensures RosterEvolves(old(room.players), room.players)
      ensures result.killed.None? ==> room.players == old(room.players)
      ensures result.killed.Some? ==>
        && result.killed.value.id in old(room.players.vals)
        && room.players == old(room.players).Put(result.killed.value.id, old(room.players.vals[result.killed.value.id]).(alive := false))
      ensures outbox == old(outbox) + StateDeliveries()
      ensures timers == [AnnounceNight(result)]
    {
      ClearTimers();
      ghost var target;
      result, target := room.ResolveNight();
      if result.killed.Some? {
        EliminateEvolves(old(room.players), result.killed.value.id);
      }
      BroadcastState();
      Schedule(AnnounceNight(result));
    }

    /** The morning announcement: the result goes to every human, then game over or day. */
    method AnnounceNightNow(result: NightResult)
      requires Valid()
      modifies this`outbox, this`timers
      ensures Valid()
      ensures outbox == old(outbox) + StateDeliveries() + Deliver(Humans(), NightResultEvent(result))
      ensures timers == old(timers) + [if room.CheckWin().Some? then EndGameTask(room.CheckWin().value) else BeginDay]
    {
      BroadcastState();
      Broadcast(NightResultEvent(result), false);
      var winner := room.CheckWin();
      if winner.Some? {
        Schedule(EndGameTask(winner.value));
      } else {
        Schedule(BeginDay);
      }
    }

    /* ───────── Day and voting ───────── */

    /** `startDay` */
    method StartDay()
      requires Valid()
      modifies this`outbox, this`timers, room`phase, room`currentSpeaker, room`dayVotes, room`phaseMessages
      ensures Valid()
      ensures room.phase == Day && room.currentSpeaker == 0 && room.dayVotes == Empty() && room.phaseMessages == []
      ensures outbox == old(outbox) + StateDeliveries()
      ensures timers == old(timers) + [DayTurn]
    {
      room.StartDay();
      BroadcastState();
      Schedule(DayTurn);
    }

    /** `runDaySpeakerTurn`: announce the turn and schedule what follows it. */
    method RunDaySpeakerTurn()
      requires Valid() && room.currentSpeaker >= 0
      modifies this`outbox, this`timers
      ensures Valid()
      ensures outbox == old(outbox) + StateDeliveries()
      ensures timers == old(timers) + [DayTurnTask(room.AlivePlayers(), room.currentSpeaker)]
    {
      var alive := room.AlivePlayers();
      BroadcastState();
      Schedule(DayTurnTask(alive, room.currentSpeaker));
    }

    method NextDayTurn()
      requires Valid() && room.currentSpeaker >= 0
      modifies this`outbox, this`timers, room`currentSpeaker
      ensures Valid() && room.currentSpeaker == old(room.currentSpeaker) + 1
      ensures outbox == old(outbox) + StateDeliveries()
      ensures timers == old(timers) + [DayTurnTask(room.AlivePlayers(), room.currentSpeaker)]
    {
      room.currentSpeaker := room.currentSpeaker + 1;
      RunDaySpeakerTurn();
    }

    /** A bot's day speech: an accusation of a player of another team when there is one, else a defence. */
    method BotDaySpeech(speaker: Player, alive: seq<Player>, targetDraw: nat, phraseDraw: nat)
      requires Valid() && room.currentSpeaker >= 0
      modifies this`outbox, this`timers, room`phaseMessages
      ensures Valid()
      ensures var target := BotPickTarget(alive, speaker.id, AllyExclude, targetDraw);
        var text := if target.Some? then GetBotDayPhrase(book, target.value.name, false, phraseDraw)
                    else GetBotDayPhrase(book, "", true, phraseDraw);
        && room.phaseMessages == old(room.phaseMessages) + [ChatMessage(speaker.id, speaker.name, text)]
        && outbox == old(outbox) + Deliver(Humans(), Chat(speaker.id, speaker.name, text, speaker.isBot))
      ensures timers == old(timers) + [NextDaySpeaker]
    {
      var target := BotPickTarget(alive, speaker.id, AllyExclude, targetDraw);
      var phrase := if target.Some? then GetBotDayPhrase(book, target.value.name, false, phraseDraw)
                    else GetBotDayPhrase(book, "", true, phraseDraw);
      EmitChat(speaker, phrase);
      Schedule(NextDaySpeaker);
    }

    /** `startVoting`: the phase becomes voting, each alive bot gets a vote, and the tally is scheduled. */
    method StartVoting()
      requires Valid()
      modifies this`outbox, this`timers, room`phase
      ensures Valid() && room.phase == Voting
      ensures outbox == old(outbox) + StateDeliveries()
      ensures timers == old(timers) + BotVoteTasks(room.AliveBots(), room.AlivePlayers()) + [ResolveVotingTask]
    {
      room.phase := Voting;
      BroadcastState();
      var ts := VoteSchedule(room.AliveBots(), room.AlivePlayers());
      timers := timers + ts;
      Schedule(ResolveVotingTask);
    }

    /** A bot's day vote: a player of another team when there is one, announced to every human. */
    method BotVoteNow(bot: Player, alive: seq<Player>, targetDraw: nat)
      requires Valid()
      modifies this`outbox, room`dayVotes
      ensures Valid()
      ensures forall v :: v != bot.id ==> room.dayVotes.Get(v) == old(room.dayVotes.Get(v))
      ensures var target := BotPickTarget(alive, bot.id, AllyExclude, targetDraw);
        if target.Some? then
          && room.dayVotes == old(room.dayVotes).Put(bot.id, target.value.id)
          && outbox == old(outbox) + Deliver(Humans(), VoteCast(bot.id, Some(bot.name), target.value.id, target.value.name))
        else room.dayVotes == old(room.dayVotes) && outbox == old(outbox)
    {
      var target := BotPickTarget(alive, bot.id, AllyExclude, targetDraw);
      if target.Some? {
        room.AddDayVote(bot.id, target.value.id);
        Broadcast(VoteCast(bot.id, Some(bot.name), target.value.id, target.value.name), false);
      }
    }

    /** `handleDayVote`: the vote is stored (replacing the voter's earlier one) and announced to every human. */
    method HandleDayVote(voterId: string, targetId: string)
      requires Valid()
      modifies this`outbox, room`dayVotes
      ensures Valid()
      ensures room.dayVotes == old(room.dayVotes).Put(voterId, targetId)
      ensures var voter := room.GetPlayer(voterId);
        outbox == old(outbox) + Deliver(Humans(),
          VoteCast(voterId, if voter.Some? then Some(voter.value.name) else None, targetId, TargetLabel(room.GetPlayer(targetId))))
    {
      room.AddDayVote(voterId, targetId);
      var voter := room.GetPlayer(voterId);
      var target := room.GetPlayer(targetId);
      Broadcast(VoteCast(voterId, if voter.Some? then Some(voter.value.name) else None, targetId, TargetLabel(target)), false);
    }

    /** `resolveVoting`: every pending timer is cancelled first; then the tally, the result to every human, and game over or night. */
    method ResolveVoting() returns (result: VoteResult)
      requires Valid()
      modifies this`outbox, this`timers, room`players, room`lastVoteResult
      ensures Valid()
      ensures room.lastVoteResult == Some(result) && result.votes == old(room.dayVotes.vals)
      ensures RosterEvolves(old(room.players), room.players)
      ensures result.ejected.None? ==> room.players == old(room.players)
      ensures result.ejected.Some? ==>
        && result.ejected.value.id in old(room.players.vals)
        && room.players == old(room.players).Put(result.ejected.value.id, old(room.players.vals[result.ejected.value.id]).(alive := false))
      ensures outbox == old(outbox) + StateDeliveries() + Deliver(Humans(), VoteResultEvent(result))
      ensures timers == [if room.CheckWin().Some? then EndGameTask(room.CheckWin().value) else BeginNight]
    {
      ClearTimers();
      result := TallyDayVotes();
      ScheduleAfterVote();
    }

    /** The tally of `resolveVoting`, its narration and the result to every human. */
    method TallyDayVotes() returns (result: VoteResult)
      requires room.Valid()
      modifies this`outbox, room`players, room`lastVoteResult
      ensures room.Valid()
      ensures room.lastVoteResult == Some(result) && result.votes == old(room.dayVotes.vals)
      ensures RosterEvolves(old(room.players), room.players)
      ensures result.ejected.None? ==> room.players == old(room.players)
      ensures result.ejected.Some? ==>
        && result.ejected.value.id in old(room.players.vals)
        && room.players == old(room.players).Put(result.ejected.value.id, old(room.players.vals[result.ejected.value.id]).(alive := false))
      ensures outbox == old(outbox) + StateDeliveries() + Deliver(Humans(), VoteResultEvent(result))
    {
      ghost var ejectedId;
      result, ejectedId := room.ResolveDayVote();
      if result.ejected.Some? {
        EliminateEvolves(old(room.players), result.ejected.value.id);
      }
      BroadcastState();
      Broadcast(VoteResultEvent(result), false);
    }

    /** The last step of `resolveVoting`: game over if somebody won, else the next night. */
    method ScheduleAfterVote()
      requires room.Valid() && book.Valid() && timers == []
      modifies this`timers
      ensures Valid()
      ensures timers == [if room.CheckWin().Some? then EndGameTask(room.CheckWin().value) else BeginNight]
    {
      var winner := room.CheckWin();
      if winner.Some? {
        Schedule(EndGameTask(winner.value));
      } else {
        Schedule(BeginNight);
      }
    }

    /* ───────── Game over ───────── */

    /** `endGame`: every timer is cancelled, the phase becomes game over, and everybody learns every role. */
    method EndGame(winner: Team)
      requires Valid()
      modifies this`outbox, this`timers, room`phase
      ensures Valid() && room.phase == GameOver && timers == []
      ensures outbox == old(outbox) + StateDeliveries()
        + Deliver(Humans(), GameOverEvent(winner, FinalPlayers(room.players.Values()))) + StateDeliveries()
    {
      ClearTimers();
      room.phase := GameOver;
      BroadcastState();
      Broadcast(GameOverEvent(winner, FinalPlayers(room.players.Values())), false);
      BroadcastState();
    }

    /** `destroy` */
    method Destroy()
      requires Valid()
      modifies this`timers
      ensures Valid() && timers == []
    {
      ClearTimers();
    }

    /* ───────── Timers firing ───────── */

    /**
     * The k-th pending timer fires: it leaves the pending list and its
     * callback runs. Whatever fires, the roster only evolves (dead players
     * stay dead), the round goes up only when a night begins, and the game
     * over leaves nothing pending.
     */
    method Fire(k: nat, targetDraw: nat, phraseDraw: nat)
      requires Valid() && k < |timers|
      modifies this`outbox, this`timers, room`players, room`phase, room`round, room`currentSpeaker,
        room`mafiaVotes, room`doctorTarget, room`sheriffTarget, room`dayVotes, room`phaseMessages,
        room`lastNightResult, room`lastVoteResult
      ensures Valid()
      ensures RosterEvolves(old(room.players), room.players)
      ensures room.round == old(room.round) + (if old(timers[k]) == BeginNight then 1 else 0)
      ensures old(timers[k]).EndGameTask? ==> room.phase == GameOver && timers == []
    {
      var task := timers[k];
      assert SpeakerTask(task) ==> room.currentSpeaker >= 0;
      timers := timers[..k] + timers[k + 1..];
      assert forall t :: t in timers ==> t in old(timers);
      if IntroductionTask(task) {
        FireIntroductionTask(task, phraseDraw);
      } else if NightTask(task) {
        FireNightTask(task, targetDraw, phraseDraw);
      } else {
        FireDayTask(task, targetDraw, phraseDraw);
      }
    }

    /** The callbacks of dealing and the introduction round. */
    method FireIntroductionTask(task: Task, phraseDraw: nat)
      requires Valid() && IntroductionTask(task) && (SpeakerTask(task) ==> room.currentSpeaker >= 0)
      modifies this`outbox, this`timers, room`players, room`phase, room`currentSpeaker, room`phaseMessages
      ensures Valid()
      ensures RosterEvolves(old(room.players), room.players)
    {
      if task == DealCards {
        ghost var dealt := DealCardsNow();
      } else if task == BeginIntroduction {
        StartIntroduction();
      } else if task == IntroTurn {
        RunSpeakerTurn();
      } else if task.BotIntroSpeak? {
        BotIntroSpeech(task.speaker, phraseDraw);
      } else {
        NextIntroTurn();
      }
    }

    /** The callbacks of the night, up to the morning announcement. */
    method FireNightTask(task: Task, targetDraw: nat, phraseDraw: nat)
      requires Valid() && NightTask(task)
      modifies this`outbox, this`timers, room`players, room`phase, room`round, room`mafiaVotes,
        room`doctorTarget, room`sheriffTarget, room`phaseMessages, room`lastNightResult
      ensures Valid()
      ensures RosterEvolves(old(room.players), room.players)
      ensures room.round == old(room.round) + (if task == BeginNight then 1 else 0)
    {
      if task == BeginNight {
        StartNight();
      } else if task == WakeMafia {
        WakeMafiaNow();
      } else if task.BotMafiaVote? {
        BotMafiaVoteNow(task.bot, task.alive, targetDraw, phraseDraw);
      } else if task.BotDoctorHeal? {
        BotDoctorHealNow(task.bot, task.alive, targetDraw);
      } else if task.BotSheriffCheck? {
        BotSheriffCheckNow(task.bot, task.alive, targetDraw);
      } else if task == ResolveNightTask {
        var result := ResolveNight();
      } else {
        AnnounceNightNow(task.result);
      }
    }

    /** The callbacks of the day, the vote and the game over. */
    method FireDayTask(task: Task, targetDraw: nat, phraseDraw: nat)
      requires Valid() && !IntroductionTask(task) && !NightTask(task) && (SpeakerTask(task) ==> room.currentSpeaker >= 0)
      modifies this`outbox, this`timers, room`players, room`phase, room`currentSpeaker, room`dayVotes,
        room`phaseMessages, room`lastVoteResult
      ensures Valid()
      ensures RosterEvolves(old(room.players), room.players)
      ensures task.EndGameTask? ==> room.phase == GameOver && timers == []
    {
      if task.EndGameTask? {
        EndGame(task.winner);
      } else if task == BeginDay {
        StartDay();
      } else if task == DayTurn {
        RunDaySpeakerTurn();
      } else if task.BotDaySpeak? {
        BotDaySpeech(task.speaker, task.alive, targetDraw, phraseDraw);
      } else if task == NextDaySpeaker {
        NextDayTurn();
      } else if task == BeginVoting {
        StartVoting();
      } else if task.BotVote? {
        BotVoteNow(task.bot, task.alive, targetDraw);
      } else {
        var result := ResolveVoting();
      }
    }
  }
}
