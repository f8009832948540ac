# Mafia game server core, in Dafny

This project models the server side of a party game of Mafia and proves
properties of that model. The server keeps a directory of rooms. Players join
a room's lobby, and the host may fill the free seats with bots and start the
game. From then on a narrator engine drives the room through its phases:

lobby → dealing → introduction → night → day → voting → night | game over

- **Roles** (`Roles`). The role table by player count, the fixed role → team
  map, and the Fisher–Yates shuffle applied before the roles are dealt.
- **Players** (`Players`). The player record a room keeps for every seat.
- **Rooms** (`GameRooms.GameRoom`). A class with the roster, the capacity and
  phase checks, the night and day accumulators, the win check and the two
  serialised views. The roster is a JavaScript `Map`, modelled as an
  insertion-ordered map (`OrderedMaps.OrderedMap`) that methods reassign.
- **Tallies** (`Tally`). The count-map loop and the running-maximum loop shared
  by the night kill and the day ejection. The votes are read in voter order,
  and a voter who changes their vote keeps their place (`Map.set` on an
  existing key). A tie goes to the target named first in that order, which
  need not be the target voted for first.
- **Bots** (`Bots`). The identity factory with its global counter
  (`Bots.BotFactory`), the target choice with its team filters, and the phrase
  pickers.
- **Phase engine** (`Engine.GameEngine`). Timers are a list of pending tasks.
  `Schedule` appends a task, `ClearTimers` drops them all, and `Fire(k, …)`
  removes the k-th pending task and runs its callback. The environment may
  fire pending tasks in any order. Every message sent to a socket is a
  `Delivery` appended to the engine's `outbox`.
- **Room directory** (`Handlers.RoomDirectory`). The `rooms` and `engines`
  registries and each socket's current room, with one method per socket
  handler. A handler's error reply is a returned `Refusal` code.

`Math.random()` is an arbitrary choice. Functions take it as a natural-number
`draw` (index `draw % n`); methods pick with `:|`. Every property holds for
every such choice.

Behaviours of the code worth knowing:

- `broadcastToMafia` also reaches dead mafia-team humans (`Engine.RecipientIdsExactly`).
- A second start-game while the room is still in the lobby replaces the engine.
- create-room does not clamp the capacity to 5–10.
- game:night-action and game:day-vote are dropped without any error reply when the room, the phase or the engine is wrong (`server/src/socket/handlers.js:249`, `server/src/socket/handlers.js:256-258`).
- A bot phrase's `{target}` is filled by `replace`, which expands `$$`, `$&`, `` $` `` and `$'` in the name, so a player named `Ma$$ter` is quoted as `Ma$ter` (`Text.DoubledDollarCollapses`).
- A human's early "done speaking" always re-enters the introduction loop, even during the day, so that day goes on to the night and skips the vote.
- The table is total: for 3 and 4 players the civilian loop still fills up to the count, and only 0, 1 and 2 players keep the two leading roles.
- The header comment of `roles.js` (lines 7-8) gives 7 and 8 players two mafia and no don, or three mafia-team roles. The code gives one mafia and one don in both cases, and for 8 players four civilians.

## Model

| member | source | states |
|---|---|---|
| Roles.TeamOf | server/src/game/roles.js:29-35 | mafia and don are on the mafia team, sheriff, doctor and civilian on the town, both directions |
| Roles.GetRoleDistribution | server/src/game/roles.js:40-63 | the pushes and the civilian fill loop build exactly the role table `RoleDistribution(n)` |
| Roles.DistributionSize | server/src/game/roles.js:40-63 | the table has exactly n roles for every n ≥ 3, hence for 5..10; only n ≤ 2 keeps the two leading roles |
| Roles.DistributionComposition | server/src/game/roles.js:43-60 | for 5 ≤ n ≤ 10, the count of each role: mafia 1 (2 from 9), don from 6, one sheriff, doctor from 7, civilians the rest |
| Roles.FivePlayers | server/src/game/roles.js:43-46 | five players get exactly {mafia, sheriff, civilian ×3} |
| Roles.SixPlayers | server/src/game/roles.js:47-50 | six players get exactly {don, mafia, sheriff, civilian ×3} |
| Roles.MafiaIsMinority | server/src/game/roles.js:40-63 | for 5 ≤ n ≤ 10 the mafia team is strictly smaller than the town, and the two teams make up all n roles |
| Roles.Shuffle | server/src/game/roles.js:68-75 | the result is a permutation of the input: same length, same multiset |
| Players.PlayerTeam | server/src/game/roles.js:29-35 | `TEAM[p.role]`: undefined exactly while the player has no role, else the role's team |
| Text.ParseDecimalOfDecimal | server/src/socket/handlers.js:14 | reading `String(n)` back yields n, so decimal rendering loses nothing |
| Text.Substitution | server/src/game/bots.js:119 | the replacement text of section 22.1.3.19.1 (GetSubstitution) of ECMA-262 for a string pattern; a text without `$` is inserted unchanged |
| Text.ReplaceFirst | server/src/game/bots.js:119 | `replace` with a string pattern: nothing changes when there is no occurrence; otherwise the text before the first one is kept, the expanded replacement takes its place and the text after it follows |
| Text.ReplaceFirstLiteral | server/src/game/bots.js:119 | a replacement without `$` is inserted literally in place of the first occurrence |
| Text.SubstitutionOfEscaped | server/src/game/bots.js:119 | expanding an escaped text gives the text back, whatever the match and its context |
| Text.ReplaceFirstEscaped | server/src/game/bots.js:119 | an escaped replacement is inserted literally, whatever it contains |
| Text.DoubledDollarCollapses | server/src/game/bots.js:119 | `"{t}!".replace("{t}", "$$")` is `"$!"` |
| Text.MatchPatternKeepsSlot | server/src/game/bots.js:119 | `"{t}!".replace("{t}", "$&")` is `"{t}!"`: the slot is put back |
| Bots.BotFactory.CreateBotIdentity | server/src/game/bots.js:24-38 | the counter goes up by exactly 1; id `bot_<counter>_<clock>` equals tgId; name `Bot_` + a first name; colour from the pool; no avatar; isBot |
| Bots.BotCounterOfBotId | server/src/game/bots.js:28 | the counter can be read back from every bot id |
| Bots.BotIdsDistinct | server/src/game/bots.js:25-28 | bot ids minted with different counter values differ, whatever the clock said |
| Bots.BotPickTarget | server/src/game/bots.js:133-155 | never self; an alive player; null iff nobody else is alive; `enemy` picks town when some other player is town; `ally-exclude` picks another team when one is alive besides self |
| Bots.AllyExcludeWithoutTeamFiltersNothing | server/src/game/bots.js:140-146 | with `ally-exclude`, a bot not found or without a role filters nobody out |
| Bots.IntroPool | server/src/game/bots.js:106 | the role's own pool when it has one, else the civilians' pool |
| Bots.GetBotIntroPhrase | server/src/game/bots.js:105-108 | the phrase comes from the role's pool, or from the civilians' pool when the role has none |
| Bots.GetBotDayPhrase | server/src/game/bots.js:113-120 | a defence from the defend pool when defending; otherwise an accusation template with its first `{target}` replaced by the name, `$` patterns in the name expanded |
| Bots.DefenceIgnoresTarget | server/src/game/bots.js:114-117 | a defence does not depend on the name passed in |
| Bots.GetBotNightPhrase | server/src/game/bots.js:125-128 | a mafia-chat template with its first `{target}` replaced by the name, `$` patterns in the name expanded |
| Bots.ReplaceFirstPlacesName | server/src/game/bots.js:119 | for a name without `$` and a template with a slot: the text before the first slot, then the name, then the text after that slot |
| Tally.CountVotes | server/src/game/GameRoom.js:174-177 | the count map's keys are exactly the counted values, each key's count is its number of votes, and keys come in the order they first occur among the votes |
| Tally.PickTop | server/src/game/GameRoom.js:180-187 | the top has the largest count and comes no later than any key with the same count; no top iff every count is zero |
| Tally.Plurality | server/src/game/GameRoom.js:173-187 | the result is the plurality of the votes (most votes; a tie goes to the target that occurs first in the votes, taken in voter order) and is null iff no vote counted |
| Tally.TopIsPlurality | server/src/game/GameRoom.js:180-187 | a top found by the running maximum over a count map is the plurality of the votes counted |
| Tally.PluralityUnique | server/src/game/GameRoom.js:172-187 | the plurality is unique, so resolving an unchanged accumulator twice picks the same target |
| GameRooms.GameRoom.constructor | server/src/game/GameRoom.js:21-58 | lobby, round 0, speaker index -1, empty roster and accumulators; `maxPlayers || 10` (missing or 0 gives 10) |
| GameRooms.GameRoom.GetPlayer | server/src/game/GameRoom.js:129-131 | the record under the id, or null iff the id is not on the roster |
| GameRooms.AliveOf | server/src/game/GameRoom.js:113-115 | exactly the roster's alive players |
| GameRooms.GameRoom.AliveBots | server/src/game/GameRoom.js:125-127 | exactly the roster's alive bots |
| GameRooms.GameRoom.AddPlayer | server/src/game/GameRoom.js:62-78 | false and no change iff the roster is full or the phase is not lobby; otherwise exactly one entry, seat = old size, alive, no role |
| GameRooms.GameRoom.AddedAtEnd | server/src/game/GameRoom.js:66-76 | a new id joins at the end of the roster, one larger, in the seat numbered by the old size |
| GameRooms.GameRoom.FillWithBots | server/src/game/GameRoom.js:84-93 | in the lobby: ends with size = maxPlayers, returns maxPlayers − old size fresh bots, appended in order and seated after the others; the counter grows by that many |
| GameRooms.GameRoom.AddSingleBot | server/src/game/GameRoom.js:98-103 | null with no change iff the roster is full; otherwise a fresh bot, seated when in the lobby, counter + 1 |
| GameRooms.GameRoom.RemovePlayer | server/src/game/GameRoom.js:105-107 | the id leaves the roster; the others keep order and seats; size drops by one iff the id was there |
| GameRooms.GameRoom.DealRoles | server/src/game/GameRoom.js:140-150 | the i-th player in join order gets the i-th shuffled role; the dealt multiset is the table's; the phase becomes dealing |
| GameRooms.GameRoom.StartIntroduction | server/src/game/GameRoom.js:153-157 | the phase is introduction, the speaker index 0, the messages empty |
| GameRooms.GameRoom.StartNight | server/src/game/GameRoom.js:160-169 | the round grows by exactly 1 and the night accumulators and messages start empty |
| GameRooms.GameRoom.ResolveNight | server/src/game/GameRoom.js:172-210 | target = plurality of the mafia votes, none iff no vote; saved iff the target is set and the doctor chose it; else only that player dies, if on the roster |
| GameRooms.GameRoom.ApplyNight | server/src/game/GameRoom.js:189-209 | given the tallied target: the doctor's save, else the kill of exactly that player, recorded as the last night's result |
| GameRooms.GameRoom.Eliminate | server/src/game/GameRoom.js:194-197 | only the named entry changes, and only its alive flag, when it is on the roster |
| GameRooms.EliminateValid | server/src/game/GameRoom.js:196 | marking one player dead keeps the roster well formed, its order and its size |
| GameRooms.GameRoom.StartDay | server/src/game/GameRoom.js:213-218 | the phase is day, the day votes empty, the speaker index 0 |
| GameRooms.GameRoom.AddDayVote | server/src/game/GameRoom.js:221-223 | the voter's vote replaces any earlier one; every other voter's vote is unchanged |
| GameRooms.GameRoom.ResolveDayVote | server/src/game/GameRoom.js:226-263 | skips are not counted; ejects the plurality target iff its count ≥ floor(alive/2)+1 (alive before ejection) and it is on the roster; the snapshot holds every vote, skips included |
| GameRooms.GameRoom.Eject | server/src/game/GameRoom.js:246-252 | the tallied player, if on the roster, is marked dead and reported with its role |
| GameRooms.MajorityIsPlurality | server/src/game/GameRoom.js:242-246 | with no more votes than alive players, a target reaching the majority is the plurality and nobody else reaches it |
| GameRooms.Views | server/src/game/GameRoom.js:284-296 | one view per player in order; a role shows only to its owner or at game over |
| GameRooms.GameRoom.ToPlayerState | server/src/game/GameRoom.js:280-312 | roles show only for the requester or at game over, and always for those; `myRole` is the requester's own role |
| GameRooms.GameRoom.ToBroadcastState | server/src/game/GameRoom.js:315-342 | no role before game over, every role at game over |
| GameRooms.GameRoom.CanStart | server/src/game/GameRoom.js:135-137 | true iff the room is in the lobby with at least five players; then the role table has one role per player |
| GameRooms.GameRoom.CheckWin | server/src/game/GameRoom.js:346-354 | town iff no mafia-team player is alive; mafia iff some is and they are at least as many as the alive town; none iff 0 < mafia < town |
| GameRooms.Winner | server/src/game/GameRoom.js:346-354 | town iff no mafia-team player is alive; mafia iff mafia-team alive > 0 and ≥ town alive; none otherwise |
| GameRooms.TeamAliveByRoles | server/src/game/GameRoom.js:348-349 | the alive counts per team are read off the multiset of alive roles |
| GameRooms.WinnerDependsOnlyOnRoles | server/src/game/GameRoom.js:346-354 | two alive sets with the same multiset of roles have the same winner |
| Engine.RecipientIdsExactly | server/src/game/engine.js:43-58 | a broadcast reaches exactly the non-bot players; the mafia channel reaches exactly the non-bot mafia-team ones, dead or alive |
| Engine.MafiaRecipientsAreRecipients | server/src/game/engine.js:195-201 | the mafia channel never reaches anybody a general broadcast would not |
| Engine.StateUpdates | server/src/game/engine.js:43-49 | the loop sends each non-bot player, in roster order, its own view |
| Engine.EventDeliveries | server/src/game/engine.js:52-58 | the loop sends the event once to each recipient, in roster order |
| Engine.GameEngine.StateDeliveriesHideRoles | server/src/game/engine.js:43-49 | only humans get a state update, and none sees another player's role before game over |
| Engine.GameEngine.BroadcastState | server/src/game/engine.js:43-49 | every human is sent its own view, in roster order, and nothing else |
| Engine.GameEngine.ClearTimers | server/src/game/engine.js:23-26 | nothing stays pending |
| Engine.GameEngine.Schedule | server/src/game/engine.js:28-32 | the task is appended to the pending ones |
| Engine.GameEngine.Broadcast | server/src/game/engine.js:52-58 | the event goes once to every recipient of the chosen channel |
| Engine.GameEngine.EmitChat | server/src/game/engine.js:383-391 | the message joins the phase messages and goes to every human |
| Engine.GameEngine.StartGame | server/src/game/engine.js:64-79 | every human gets the state; the dealing and the introduction are scheduled in that order |
| Engine.GameEngine.DealCardsNow | server/src/game/engine.js:69-73 | the humans get the state, then the i-th player in join order gets the i-th role of a shuffle of the table for the roster's size, the phase is dealing, and the humans get the dealt state |
| Engine.GameEngine.DealRoom | server/src/game/engine.js:71 | the i-th player in join order gets the i-th role of a list with the table's multiset of roles; nothing else changes and the phase is dealing |
| Engine.GameEngine.StartIntroduction | server/src/game/engine.js:85-90 | introduction from speaker 0; the first turn is scheduled |
| Engine.IntroTurnTask | server/src/game/engine.js:92-125 | the night once the index reaches the alive count; a bot's speech or a human's turn timeout otherwise; never voting |
| Engine.GameEngine.RunSpeakerTurn | server/src/game/engine.js:92-125 | the turn is announced and exactly the task `IntroTurnTask` chooses is scheduled |
| Engine.GameEngine.NextIntroTurn | server/src/game/engine.js:120-123 | the index grows by exactly 1 and the next introduction turn is scheduled |
| Engine.GameEngine.BotIntroSpeech | server/src/game/engine.js:110-118 | the bot says a phrase for its role, posted and sent to every human; then the next speaker is scheduled |
| Engine.DoneSpeakingGuardAsWritten | server/src/game/engine.js:128-131 | the guard as written throws iff the index is negative, and accepts iff the caller is `alive[idx]` |
| Engine.DoneSpeakingBeforeIntroductionThrows | server/src/game/engine.js:128-131 | with the index at -1, any caller makes the guard throw |
| Engine.DoneSpeakingAccepted | server/src/game/engine.js:127-131 | accepts exactly where the written guard accepts, and never where it throws |
| Engine.GameEngine.PlayerFinishedSpeaking | server/src/game/engine.js:127-136 | accepted iff the caller is the current speaker; then every timer is cancelled, the index grows by exactly 1 and only the next introduction turn is pending; otherwise nothing changes |
| Engine.GameEngine.StartNight | server/src/game/engine.js:142-152 | round + 1, empty night accumulators; the mafia wake-up and the resolution are scheduled |
| Engine.GameEngine.WakeMafiaNow | server/src/game/engine.js:146-149 | announces, then schedules the bots' night actions |
| Engine.BotNightTasksExactly | server/src/game/engine.js:158-192 | each alive bot gets the action of its role and nothing else: a mafia-team bot a kill vote, the doctor a heal, the sheriff a check |
| Engine.NightSchedule | server/src/game/engine.js:158-192 | the loop over the bots builds exactly `BotNightTasks` |
| Engine.GameEngine.ScheduleBotNightActions | server/src/game/engine.js:154-193 | the bots' night tasks over today's alive list are appended to the pending ones |
| Engine.GameEngine.BotMafiaVoteNow | server/src/game/engine.js:162-172 | only the bot's own vote changes; it names a town player when one is alive; the human mafia get the chat |
| Engine.GameEngine.BotDoctorHealNow | server/src/game/engine.js:175-181 | the heal names somebody alive other than the bot, or nothing changes |
| Engine.GameEngine.BotSheriffCheckNow | server/src/game/engine.js:184-190 | the check names somebody alive other than the bot, or nothing changes |
| Engine.SheriffVerdict | server/src/game/engine.js:214-215 | `isMafia` is true iff the target exists and is mafia or don |
| Engine.GameEngine.HandleNightAction | server/src/game/engine.js:203-220 | no effect for an unknown or dead actor or an empty target; a mafia-team actor sets only its own vote; doctor and sheriff overwrite their single target; only the sheriff is answered, privately |
| Engine.GameEngine.ResolveNight | server/src/game/engine.js:222-226 | timers cleared first; the room resolves (at most the victim dies); the announcement is the only pending task |
| Engine.GameEngine.AnnounceNightNow | server/src/game/engine.js:228-247 | the result goes to every human; game over is scheduled iff somebody won, otherwise the day |
| Engine.GameEngine.StartDay | server/src/game/engine.js:254-259 | day from speaker 0 with empty votes; the first day turn is scheduled |
| Engine.DayTurnTask | server/src/game/engine.js:261-295 | voting once the index reaches the alive count; a bot's speech or a human's turn timeout otherwise; never the night |
| Engine.GameEngine.RunDaySpeakerTurn | server/src/game/engine.js:261-295 | the turn is announced and exactly the task `DayTurnTask` chooses is scheduled |
| Engine.GameEngine.NextDayTurn | server/src/game/engine.js:290-293 | the index grows by exactly 1 and the next day turn is scheduled |
| Engine.GameEngine.BotDaySpeech | server/src/game/engine.js:279-288 | an accusation of a player of another team when one exists, else a defence, posted and sent to every human |
| Engine.BotVoteTasks | server/src/game/engine.js:308-319 | one vote task per alive bot, in order, over the same alive list |
| Engine.VoteSchedule | server/src/game/engine.js:308-319 | the loop over the bots builds exactly `BotVoteTasks` |
| Engine.GameEngine.StartVoting | server/src/game/engine.js:301-322 | the phase is voting; each alive bot's vote and then the tally are scheduled |
| Engine.GameEngine.BotVoteNow | server/src/game/engine.js:309-318 | only the bot's own vote changes, to another team's player when one exists, and every human is told |
| Engine.TargetLabel | server/src/game/engine.js:330 | the target's name when it is not empty, and the skip label when the target is no player or its name is empty |
| Engine.GameEngine.HandleDayVote | server/src/game/engine.js:324-332 | the vote replaces the voter's earlier one, dead or alive, and is announced to every human |
| Engine.GameEngine.TallyDayVotes | server/src/game/engine.js:336-347 | the result is recorded and holds every day vote; at most the ejected player, who was on the roster, dies; the humans get the state and then the result |
| Engine.GameEngine.ScheduleAfterVote | server/src/game/engine.js:349-355 | the only pending task is game over with the winner when somebody won, otherwise the next night |
| Engine.GameEngine.ResolveVoting | server/src/game/engine.js:334-356 | timers cleared first; at most the ejected player dies; the result goes to every human; then game over iff somebody won, otherwise the night |
| Engine.FinalPlayers | server/src/game/engine.js:374-376 | one entry per player with its id, name, role, alive flag and bot flag |
| Engine.GameEngine.EndGame | server/src/game/engine.js:362-379 | every timer cancelled; phase game over; every human gets the winner and all roles |
| Engine.GameEngine.Destroy | server/src/game/engine.js:393-395 | nothing stays pending |
| Engine.GameEngine.Fire | server/src/game/engine.js:64-379 | whichever pending task fires: the roster only evolves (nobody joins or leaves, the dead stay dead), the round grows only when a night begins, and game over leaves nothing pending |
| Handlers.GenerateRoomId | server/src/socket/handlers.js:11-17 | the id is `String(n)` for some n in 1000..9999 and is not a current room id |
| Handlers.RoomDirectory.constructor | server/src/socket/handlers.js:4-8 | both registries start empty, no socket has a room, and the bot counter is 0 |
| Handlers.RoomDirectory.SenderRoom | server/src/socket/handlers.js:334-337 | the room the socket's room id names, and null iff it has none or that room is gone |
| Handlers.NoHumansIff | server/src/socket/handlers.js:36-38 | the human filter is empty iff every remaining player is a bot |
| Handlers.HumanPlayers | server/src/socket/handlers.js:36 | empty iff every player on the roster is a bot |
| Handlers.RoomDirectory.LeaveCurrentRoom | server/src/socket/handlers.js:23-53 | the socket forgets its room and leaves that roster; the room and its engine go (engine destroyed) iff no other human remains; otherwise both registries are unchanged |
| Handlers.RoomDirectory.TearDown | server/src/socket/handlers.js:38-45 | the engine, if any, is destroyed and dropped, and the room is deleted; nothing else changes |
| Handlers.SeatRefusal | server/src/socket/handlers.js:104-105 | "already started" iff the phase is not lobby; "full" iff in the lobby with no free seat; no refusal iff in the lobby with a free seat |
| Handlers.RoomDirectory.JoinRoom | server/src/socket/handlers.js:95-121 | leaves first, so the room the socket left, when it is another room, loses exactly the socket; "not found" iff no such room, then "already started", then "full"; a refusal adds nobody; otherwise exactly one seat at the end and the socket names the room |
| Handlers.RoomDirectory.Join | server/src/socket/handlers.js:102-115 | the guards in order on the room as the leave left it, and the seating on success only; no other room's roster changes |
| Handlers.RoomDirectory.CreateRoom | server/src/socket/handlers.js:64-91 | leaves first, so the room the socket left loses exactly the socket; a fresh room under a new id, hosted and entered by the socket, `isPrivate ?? true`, `maxPlayers || 10` unclamped |
| Handlers.RoomDirectory.OpenRoom | server/src/socket/handlers.js:72-86 | a new room under a free id, hosted by the socket, which takes the first seat when the capacity is positive |
| Handlers.PublicLobbies | server/src/socket/handlers.js:134-140 | an entry for exactly the rooms that are public and in the lobby, at most one per room |
| Handlers.PublicLobbiesAppend | server/src/socket/handlers.js:134-140 | the list keeps creation order: the list of `a + b` is the list of `a`, then that of `b`, and one room gives its own entry iff it is listed |
| Handlers.RoomDirectory.ListRooms | server/src/socket/handlers.js:133-143 | the list has an entry for exactly the registered rooms that are public and in the lobby |
| Handlers.FirstOpen | server/src/socket/handlers.js:154-156 | the first room in creation order that is public, in the lobby and not full; none iff no room is |
| Handlers.RoomDirectory.PlayQuick | server/src/socket/handlers.js:154-173 | joins the first open room, every earlier room staying closed; or, if none is open, a new public room of ten that the socket hosts, every other room staying closed |
| Handlers.RoomDirectory.JoinOpen | server/src/socket/handlers.js:154-171 | the socket takes the next seat of the first open room, and the rooms ahead of it stay closed |
| Handlers.RoomDirectory.OpenQuick | server/src/socket/handlers.js:158-171 | with no room open: a new public room of ten that the socket hosts and sits in, and no other room open |
| Handlers.RoomDirectory.QuickPlay | server/src/socket/handlers.js:147-178 | leaves first; then either the socket takes a free seat in a public lobby kept by the leave, every room ahead of it in creation order being closed, or it hosts a new public room of ten and no other room is open; it sits under its tgId and names that room |
| Handlers.RoomDirectory.AddBots | server/src/socket/handlers.js:184-198 | refused in order: no room, not host, not lobby, no free seat, changing nothing; otherwise fresh bots fill the table exactly |
| Handlers.RoomDirectory.AddBot | server/src/socket/handlers.js:200-212 | the same guards, then one fresh bot in the next seat; a bot is returned iff nothing refused |
| Handlers.RoomDirectory.StartGame | server/src/socket/handlers.js:218-238 | refused when in no room, not host, or `canStart()` fails (with the count); otherwise a new engine replaces any earlier one, with dealing and introduction pending |
| Handlers.RoomDirectory.DoneSpeaking | server/src/socket/handlers.js:240-245 | accepted only with a room and an engine, then iff the socket is the current speaker; the index then grows by 1, else nothing pending changes |
| Handlers.RoomDirectory.NightAction | server/src/socket/handlers.js:247-252 | forwarded iff the room exists, it is night and an engine runs; only the sender's own vote and the single doctor and sheriff targets may change |
| Handlers.RoomDirectory.DayVote | server/src/socket/handlers.js:254-259 | forwarded iff the room exists, it is day or voting and an engine runs; then the sender's vote replaces its earlier one and every human is sent `game:vote-cast` with the voter's name and the target's label; otherwise the votes and the engine are unchanged |
| Handlers.RoomDirectory.Chat | server/src/socket/handlers.js:261-280 | posted iff the socket's room exists and seats it; the message is appended under the player's name |
| Handlers.RoomDirectory.FireTimer | server/src/socket/handlers.js:235-237 | a pending timer of a registered engine fires and the registry stays well formed: humans stay seated, bot ids stay below the counter, and the round and game-over rules of `Fire` hold |

## Left out

- The client, the Express and socket.io bootstrap, and the media and reaction relay (`server/src/socket/handlers.js:284-321`) are not part of this model.
- Delays and real-time timer order are left out. A pending timer may fire at any time, and `randomDelay` is dropped.
- Narration text, console logging, phrase-pool contents and `Date.now` timestamps are left out. The phrase pools are a parameter (`Bots.PhraseBook`), and the bot id's clock is a string parameter.
- The `room-created`, `room-joined`, `room-updated` and `room-left` notifications (`buildRoomData`, `serializePlayers`), the handlers' `game:chat` emit, and `socket.join`/`socket.leave` are left out, because they are pure I/O. An error reply is the returned `Refusal` code.
- The leave-room and disconnect handlers are exactly `leaveCurrentRoom` plus an emit, so `Handlers.RoomDirectory.LeaveCurrentRoom` stands for both.
- Payload fields that are missing or not strings are not modelled. An absent optional string is the empty string, the JavaScript falsy value, and `isPrivate` is an `Option<bool>`.
- `toLobbyInfo` is not used by the core and is left out.
- Handlers.GenerateRoomId: a draw never repeats an id already found taken. It requires one free id, without which the source loops for ever.
- Handlers.RoomDirectory.CreateRoom: requires a free room id or that leaving frees one, for the same reason.
- Handlers.RoomDirectory.QuickPlay: requires a free room id or that leaving frees one, even when an open room exists and no id would be drawn. It states that the rooms ahead of the joined one are closed in the state it leaves behind, not in the state right after the leave; these agree, because quick-play changes no roster but the joined room's, but that equality is not proved room by room.
- Handlers.RoomDirectory.JoinRoom: requires that the socket id does not have the bot-id form `bot_<digits>_…`, so that bot ids stay fresh. The same holds for CreateRoom and QuickPlay.
- Handlers.RoomDirectory.NightAction: states only which slots may change. The full effect is `Engine.GameEngine.HandleNightAction`.
- Handlers.RoomDirectory.DoneSpeaking: does not state the new pending list and the outbox. `Engine.GameEngine.PlayerFinishedSpeaking` states them.
- Handlers.RoomDirectory.StartGame: does not state the engine's outbox. `Engine.GameEngine.StartGame` states it.
- Handlers.RoomDirectory.FireTimer: covers the timers of registered engines only. The pending timers of an engine that start-game replaced are not modelled.
- Engine.GameEngine.Fire: states only the properties every callback keeps. Each callback's full effect is stated by its own method (`StartNight`, `ResolveVoting`, …).
- GameRooms.GameRoom.FillWithBots: requires the lobby, where the source's loop would never end otherwise. It also requires that no roster id carries a bot counter above the current one.
- GameRooms.NightResult: `saved` is a bool. In the source it is `mafiaTarget && …`, which is `null` (falsy) when nobody was targeted, and the state views send that `null` to clients.
- Roles.Shuffle: states a permutation. The uniformity of the distribution is not modelled.

## Findings

| source | as written | input that shows it | evidently intended | confidence | as-written member | corrected member |
|---|---|---|---|---|---|---|
| server/src/game/engine.js:127-131 | the guard reads `alive[idx].id` whenever `idx < alive.length`, including `idx == -1` | after start-game and before the introduction starts (`currentSpeaker` is still -1, GameRoom.js:43 and 153-157), any player of the room sends game:done-speaking; `alive[-1]` is `undefined` and reading `.id` throws a TypeError inside the socket handler | ignore the report unless `0 <= idx < alive.length` and the caller is `alive[idx]` | not executed | Engine.DoneSpeakingGuardAsWritten, Engine.DoneSpeakingBeforeIntroductionThrows | Engine.DoneSpeakingAccepted, Engine.GameEngine.PlayerFinishedSpeaking |
