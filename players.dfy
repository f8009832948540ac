/** The player record the room keeps for every seat, as `addPlayer` builds it. */
module Players {
  import opened Options
  import opened Roles

  datatype Player = Player(
    id: string,                  // the socket id (or bot id) the roster is keyed by
    tgId: string,
    name: string,
    avatar: Option<string>,
    avatarColor: Option<string>,
    isBot: bool,
    role: Option<Role>,          // null until the cards are dealt
    alive: bool,
    seat: nat)

  /** `TEAM[p.role]`: undefined (None) while the player has no role. */
  function PlayerTeam(p: Player): (t: Option<Team>)
    ensures t.Some? <==> p.role.Some?
    ensures t.Some? ==> t.value == TeamOf(p.role.value)
  {
    match p.role
    case None => None
    case Some(r) => Some(TeamOf(r))
  }

  /** `array.filter(f)`: the elements satisfying `f`, in their original order. */
  function Filter<T(!new)>(s: seq<T>, f: T -> bool): (r: seq<T>)
    ensures |r| <= |s|
    ensures forall x :: x in r <==> x in s && f(x)
  {
    if s == [] then []
    else if f(s[0]) then [s[0]] + Filter(s[1..], f)
    else Filter(s[1..], f)
  }

  /** `array.find(p => p.id === id)`: the first player with that id. */
  function FindById(ps: seq<Player>, id: string): (r: Option<Player>)
    ensures r.Some? ==> r.value in ps && r.value.id == id
    ensures r.None? <==> forall p :: p in ps ==> p.id != id
  {
    if ps == [] then None
    else if ps[0].id == id then Some(ps[0])
    else FindById(ps[1..], id)
  }
}
