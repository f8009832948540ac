/**
 * The heuristics that drive synthetic players: the identity factory with its
 * global counter, the target choice with its team filters, and the phrase
 * pickers. Every `Math.random()` draw is an arbitrary natural `draw`; the index
 * taken from a pool of length n is `draw % n`, so every index is reachable.
 */
module Bots {
  import opened Options
  import opened Roles
  import opened Text
  import opened Players

  /* ───────── Bot identities ───────── */

  const FIRST_NAMES: seq<string> := [
    "Иван", "Анна", "Дмитрий", "Мария", "Алексей",
    "Елена", "Сергей", "Ольга", "Николай", "Татьяна",
    "Артём", "Юлия", "Максим", "Светлана", "Павел",
    "Наталья", "Андрей", "Виктория", "Кирилл", "Дарья"]

  const AVATAR_COLORS: seq<string> := [
    "#6366f1", "#8b5cf6", "#a855f7", "#d946ef",
    "#ec4899", "#f43f5e", "#ef4444", "#f97316",
    "#eab308", "#84cc16", "#22c55e", "#14b8a6",
    "#06b6d4", "#3b82f6", "#2563eb", "#7c3aed"]

  const BOT_ID_PREFIX: string := "bot_"
  const BOT_NAME_PREFIX: string := "Bot_"

  datatype BotIdentity = BotIdentity(
    id: string,
    tgId: string,
    name: string,
    avatar: Option<string>,
    avatarColor: string,
    isBot: bool)

  /** `bot_${botCounter}_${clock}`, where `clock` is `Date.now()` written in base 36. */
  function BotId(counter: nat, clock: string): string {
    BOT_ID_PREFIX + Decimal(counter) + "_" + clock
  }

  /** The counter an id of the shape `bot_<digits>_...` carries, if it has that shape. */
  function BotCounterOf(id: string): Option<nat> {
    if !StartsWith(id, BOT_ID_PREFIX) then None
    else
      var d := LeadingDigits(id[4..]);
      if 0 < |d| < |id| - 4 && id[4 + |d|] == '_' then Some(ParseDecimal(d)) else None
  }

  /** The counter can be read back from every id the factory makes. */
  lemma BotCounterOfBotId(counter: nat, clock: string)
    ensures BotCounterOf(BotId(counter, clock)) == Some(counter)
  {
    var id := BotId(counter, clock);
    var d := Decimal(counter);
    assert id[..4] == BOT_ID_PREFIX;
    assert id[4..] == d + ("_" + clock);
    LeadingDigitsOfDigitsThen(d, "_" + clock);
    assert id[4 + |d|] == '_';
    ParseDecimalOfDecimal(counter);
  }

  /** Ids made with different counter values differ, whatever the clock said. */
  lemma BotIdsDistinct(c1: nat, k1: string, c2: nat, k2: string)
    requires c1 != c2
    ensures BotId(c1, k1) != BotId(c2, k2)
  {
    BotCounterOfBotId(c1, k1);
    BotCounterOfBotId(c2, k2);
  }

  /** The module-level `botCounter` and `createBotIdentity`. */
  class BotFactory {
    var botCounter: nat

    constructor()
      ensures botCounter == 0
    {
      botCounter := 0;
    }

    /**
     * Increment the counter and mint an identity from it; the name and the
     * colour are arbitrary picks from their pools, `clock` is the time stamp.
     */
    method CreateBotIdentity(clock: string) returns (bot: BotIdentity)
      modifies this
      ensures botCounter == old(botCounter) + 1
      ensures bot.id == BotId(botCounter, clock) && bot.tgId == bot.id
      ensures StartsWith(bot.id, BOT_ID_PREFIX + Decimal(botCounter) + "_")
      ensures StartsWith(bot.name, BOT_NAME_PREFIX) && bot.name[|BOT_NAME_PREFIX|..] in FIRST_NAMES
      ensures bot.avatarColor in AVATAR_COLORS
      ensures bot.avatar.None? && bot.isBot
    {
      botCounter := botCounter + 1;
      var nameIndex :| 0 <= nameIndex < |FIRST_NAMES|;
      var colorIndex :| 0 <= colorIndex < |AVATAR_COLORS|;
      var id := BotId(botCounter, clock);
      assert id == (BOT_ID_PREFIX + Decimal(botCounter) + "_") + clock;
      var name := BOT_NAME_PREFIX + FIRST_NAMES[nameIndex];
      assert name[|BOT_NAME_PREFIX|..] == FIRST_NAMES[nameIndex];
      bot := BotIdentity(id, id, name, None, AVATAR_COLORS[colorIndex], true);
    }
  }

  /* ───────── Target choice ───────── */

  datatype TeamFilter = NoFilter | Enemy | AllyExclude

  /** The candidates before the fallback: everybody alive but self, narrowed by the filter. */
  function FilteredCandidates(alivePlayers: seq<Player>, selfId: string, filter: TeamFilter): seq<Player> {
    var others := Filter(alivePlayers, (p: Player) => p.id != selfId);
    match filter
    case NoFilter => others
    case Enemy => Filter(others, (p: Player) => PlayerTeam(p) == Some(Town))
    case AllyExclude =>
      var selfTeam := match FindById(alivePlayers, selfId)
        case None => None
        case Some(me) => PlayerTeam(me);
      if selfTeam.None? then others
      else Filter(others, (p: Player) => PlayerTeam(p) != selfTeam)
  }

  /**
   * `botPickTarget`: an arbitrary candidate; when the filter leaves nobody,
   * anybody alive but self; `null` when there is nobody else alive.
   */
  function BotPickTarget(alivePlayers: seq<Player>, selfId: string, filter: TeamFilter, draw: nat): (r: Option<Player>)
    ensures r.Some? ==> r.value in alivePlayers && r.value.id != selfId
    ensures r.None? <==> forall p :: p in alivePlayers ==> p.id == selfId
    ensures filter == Enemy && (exists p :: p in alivePlayers && p.id != selfId && PlayerTeam(p) == Some(Town))
      ==> r.Some? && PlayerTeam(r.value) == Some(Town)
    ensures filter == AllyExclude ==> forall me, t ::
      FindById(alivePlayers, selfId) == Some(me) && PlayerTeam(me) == Some(t) &&
      (exists p :: p in alivePlayers && p.id != selfId && PlayerTeam(p) != Some(t))
      ==> r.Some? && PlayerTeam(r.value) != Some(t)
  {
    var others := Filter(alivePlayers, (p: Player) => p.id != selfId);
    var filtered := FilteredCandidates(alivePlayers, selfId, filter);
    var candidates := if |filtered| == 0 then others else filtered;
    if |candidates| == 0 then None else Some(candidates[draw % |candidates|])
  }

  /** With `'ally-exclude'`, a bot that is not found or has no team filters nobody out. */
  lemma AllyExcludeWithoutTeamFiltersNothing(alivePlayers: seq<Player>, selfId: string, draw: nat)
    requires FindById(alivePlayers, selfId).None? || FindById(alivePlayers, selfId).value.role.None?
    ensures BotPickTarget(alivePlayers, selfId, AllyExclude, draw) == BotPickTarget(alivePlayers, selfId, NoFilter, draw)
  {
  }

  /* ───────── Phrases ───────── */

  /** The marker a template carries where the target's name goes. */
  const TARGET_SLOT: string := "{target}"

  /**
   * The phrase pools. Their texts are not part of this model; what matters is
   * which pool a bot draws from, and every pool is non-empty.
   */
  datatype PhraseBook = PhraseBook(
    intro: map<Role, seq<string>>,
    accuse: seq<string>,
    defend: seq<string>,
    mafiaNight: seq<string>)
  {
    predicate Valid() {
      && Civilian in intro
      && (forall r :: r in intro ==> |intro[r]| > 0)
      && |accuse| > 0 && |defend| > 0 && |mafiaNight| > 0
    }
  }

  /** `INTRO_PHRASES[gameRole] || INTRO_PHRASES[CIVILIAN]` */
  function IntroPool(book: PhraseBook, role: Option<Role>): (pool: seq<string>)
    requires book.Valid()
    ensures |pool| > 0
    ensures role.Some? && role.value in book.intro ==> pool == book.intro[role.value]
    ensures role.None? || role.value !in book.intro ==> pool == book.intro[Civilian]
  {
    if role.Some? && role.value in book.intro then book.intro[role.value] else book.intro[Civilian]
  }

  /** `getBotIntroPhrase`: a phrase from the role's pool, or from the civilians' when the role has none. */
  function GetBotIntroPhrase(book: PhraseBook, role: Option<Role>, draw: nat): (phrase: string)
    requires book.Valid()
    ensures phrase in IntroPool(book, role)
    ensures role.None? || role.value !in book.intro ==> phrase in book.intro[Civilian]
  {
    var pool := IntroPool(book, role);
    pool[draw % |pool|]
  }

  /** `getBotDayPhrase`: a defence when defending (the name is ignored), else an accusation naming the target. */
  function GetBotDayPhrase(book: PhraseBook, targetName: string, isDefending: bool, draw: nat): (phrase: string)
    requires book.Valid()
    ensures isDefending ==> phrase in book.defend
    ensures !isDefending ==> exists t :: t in book.accuse && phrase == ReplaceFirst(t, TARGET_SLOT, targetName)
  {
    if isDefending then book.defend[draw % |book.defend|]
    else
      var t := book.accuse[draw % |book.accuse|];
      ReplaceFirst(t, TARGET_SLOT, targetName)
  }

  /** A defence does not depend on the name passed in. */
  lemma DefenceIgnoresTarget(book: PhraseBook, a: string, b: string, draw: nat)
    requires book.Valid()
    ensures GetBotDayPhrase(book, a, true, draw) == GetBotDayPhrase(book, b, true, draw)
  {
  }

  /** `getBotNightPhrase`: a mafia-chat template with the first `{target}` replaced by the name. */
  function GetBotNightPhrase(book: PhraseBook, targetName: string, draw: nat): (phrase: string)
    requires book.Valid()
    ensures exists t :: t in book.mafiaNight && phrase == ReplaceFirst(t, TARGET_SLOT, targetName)
  {
    var t := book.mafiaNight[draw % |book.mafiaNight|];
    ReplaceFirst(t, TARGET_SLOT, targetName)
  }

  /**
   * For a name without `$`, the phrase is the template up to its first slot,
   * the name, and the rest of the template after that slot, unchanged. A name
   * with `$` in it is expanded as `Text.Substitution` says.
   */
  lemma ReplaceFirstPlacesName(t: string, name: string)
    requires '$' !in name && IndexOf(t, TARGET_SLOT).Some?
    ensures var i := IndexOf(t, TARGET_SLOT).value;
      var r := ReplaceFirst(t, TARGET_SLOT, name);
      && r[..i] == t[..i]
      && OccursAt(r, name, i)
      && r[i + |name|..] == t[i + |TARGET_SLOT|..]
  {
  }
}
