/**
 * Roles, teams and the role table for a table of a given size, plus the
 * Fisher–Yates shuffle applied before the roles are dealt.
 */
module Roles {

  datatype Role = Mafia | Don | Sheriff | Doctor | Civilian

  datatype Team = MafiaTeam | Town

  /** The static role → team table: mafia and don play for the mafia, everybody else for the town. */
  function TeamOf(r: Role): (t: Team)
    ensures t == MafiaTeam <==> r in {Mafia, Don}
    ensures t == Town <==> r in {Sheriff, Doctor, Civilian}
  {
    match r
    case Mafia => MafiaTeam
    case Don => MafiaTeam
    case _ => Town
  }

  /** The roles pushed before the civilian fill loop starts, by branch of the table. */
  function Leading(playerCount: int): seq<Role> {
    if playerCount <= 5 then [Mafia, Sheriff]
    else if playerCount == 6 then [Don, Mafia, Sheriff]
    else if playerCount <= 8 then [Don, Mafia, Sheriff, Doctor]
    else [Don, Mafia, Mafia, Sheriff, Doctor]
  }

  /** `k` civilians (none when `k` is not positive). */
  function Civilians(k: int): seq<Role>
    decreases k
  {
    if k <= 0 then [] else Civilians(k - 1) + [Civilian]
  }

  /** The table the dealing uses: the leading roles, then civilians until there are `playerCount` roles. */
  function RoleDistribution(playerCount: int): seq<Role> {
    Leading(playerCount) + Civilians(playerCount - |Leading(playerCount)|)
  }

  /** How many roles of team `t` a role list holds. */
  function TeamSize(roles: seq<Role>, t: Team): nat {
    var m := multiset(roles);
    if t == MafiaTeam then m[Mafia] + m[Don] else m[Sheriff] + m[Doctor] + m[Civilian]
  }

  /**
   * `getRoleDistribution`: build the list by pushing the branch's leading roles
   * and then civilians while the list is shorter than the player count.
   */
  method GetRoleDistribution(playerCount: int) returns (roles: seq<Role>)
    ensures roles == RoleDistribution(playerCount)
  {
    roles := [];
    if playerCount <= 5 {
      roles := roles + [Mafia];
      roles := roles + [Sheriff];
    } else if playerCount == 6 {
      roles := roles + [Don, Mafia];
      roles := roles + [Sheriff];
    } else if playerCount <= 8 {
      roles := roles + [Don, Mafia];
      roles := roles + [Sheriff, Doctor];
    } else {
      roles := roles + [Don, Mafia, Mafia];
      roles := roles + [Sheriff, Doctor];
    }
    ghost var lead := roles;
    assert lead == Leading(playerCount);
    while |roles| < playerCount
      invariant |lead| <= |roles|
      invariant |roles| == |lead| || |roles| <= playerCount
      invariant roles == lead + Civilians(|roles| - |lead|)
      decreases playerCount - |roles|
    {
      roles := roles + [Civilian];
    }
  }

  lemma {:induction false} CiviliansLength(k: int)
    ensures |Civilians(k)| == if k <= 0 then 0 else k
    decreases k
  {
    if k > 0 {
      CiviliansLength(k - 1);
    }
  }

  /** `Civilians(k)` holds civilians only, `k` of them when `k` is positive. */
  lemma {:induction false} CivilianCounts(k: int)
    ensures var m := multiset(Civilians(k));
      && m[Civilian] == (if k <= 0 then 0 else k)
      && m[Mafia] == 0 && m[Don] == 0 && m[Sheriff] == 0 && m[Doctor] == 0
    decreases k
  {
    if k > 0 {
      CivilianCounts(k - 1);
      assert multiset(Civilians(k)) == multiset(Civilians(k - 1)) + multiset{Civilian};
    }
  }

  /**
   * The table always has at least the player count of roles; it has exactly
   * `playerCount` of them whenever at least two players are dealt (only the
   * degenerate counts 0 and 1 keep the two leading roles).
   */
  lemma DistributionSize(playerCount: int)
    ensures |RoleDistribution(playerCount)| == if playerCount <= 2 then 2 else playerCount
  {
    CiviliansLength(playerCount - |Leading(playerCount)|);
  }

  /** How many of each role `RoleDistribution(n)` holds, for every supported table size. */
  lemma DistributionComposition(n: int)
    requires 5 <= n <= 10
    ensures var m := multiset(RoleDistribution(n));
      && m[Mafia] == (if n >= 9 then 2 else 1)
      && m[Don] == (if n >= 6 then 1 else 0)
      && m[Sheriff] == 1
      && m[Doctor] == (if n >= 7 then 1 else 0)
      && m[Civilian] == n - (if n == 5 then 2 else if n == 6 then 3 else if n <= 8 then 4 else 5)
  {
    var lead := Leading(n);
    var k := n - |lead|;
    CivilianCounts(k);
    LeadingCounts(n);
    CountSplits(n, Mafia);
    CountSplits(n, Don);
    CountSplits(n, Sheriff);
    CountSplits(n, Doctor);
    CountSplits(n, Civilian);
  }

  /** Each role's count in the table is its count among the leading roles plus among the civilians. */
  lemma CountSplits(n: int, r: Role)
    ensures multiset(RoleDistribution(n))[r] == multiset(Leading(n))[r] + multiset(Civilians(n - |Leading(n)|))[r]
  {
  }

  /** The leading roles of each branch, counted. */
  lemma LeadingCounts(n: int)
    requires 5 <= n
    ensures var m := multiset(Leading(n));
      && m[Mafia] == (if n >= 9 then 2 else 1)
      && m[Don] == (if n >= 6 then 1 else 0)
      && m[Sheriff] == 1
      && m[Doctor] == (if n >= 7 then 1 else 0)
      && m[Civilian] == 0
      && |Leading(n)| == (if n == 5 then 2 else if n == 6 then 3 else if n <= 8 then 4 else 5)
  {
    if n == 5 {
      assert multiset(Leading(n)) == multiset{Mafia, Sheriff};
    } else if n == 6 {
      assert multiset(Leading(n)) == multiset{Don, Mafia, Sheriff};
    } else if n <= 8 {
      assert multiset(Leading(n)) == multiset{Don, Mafia, Sheriff, Doctor};
    } else {
      assert multiset(Leading(n)) == multiset{Don, Mafia, Mafia, Sheriff, Doctor};
    }
  }

  /** Five players get one mafia, one sheriff and three civilians. */
  lemma FivePlayers()
    ensures multiset(RoleDistribution(5)) == multiset{Mafia, Sheriff, Civilian, Civilian, Civilian}
  {
    DistributionComposition(5);
    MultisetByCounts(multiset(RoleDistribution(5)), multiset{Mafia, Sheriff, Civilian, Civilian, Civilian});
  }

  /** Six players get a don, a mafia, a sheriff and three civilians. */
  lemma SixPlayers()
    ensures multiset(RoleDistribution(6)) == multiset{Don, Mafia, Sheriff, Civilian, Civilian, Civilian}
  {
    DistributionComposition(6);
    MultisetByCounts(multiset(RoleDistribution(6)), multiset{Don, Mafia, Sheriff, Civilian, Civilian, Civilian});
  }

  lemma MultisetByCounts(a: multiset<Role>, b: multiset<Role>)
    requires a[Mafia] == b[Mafia] && a[Don] == b[Don] && a[Sheriff] == b[Sheriff]
    requires a[Doctor] == b[Doctor] && a[Civilian] == b[Civilian]
    ensures a == b
  {
    forall r: Role ensures a[r] == b[r] {
      match r
      case Mafia =>
      case Don =>
      case Sheriff =>
      case Doctor =>
      case Civilian =>
    }
  }

  /** For every supported table size (5 to 10) the mafia team is strictly smaller than the town. */
  lemma MafiaIsMinority(n: int)
    requires 5 <= n <= 10
    ensures TeamSize(RoleDistribution(n), MafiaTeam) < TeamSize(RoleDistribution(n), Town)
    ensures TeamSize(RoleDistribution(n), MafiaTeam) + TeamSize(RoleDistribution(n), Town) == n
  {
    DistributionComposition(n);
  }

  /**
   * `shuffle`: copy the input and, counting down from the last index, swap
   * each slot with an arbitrary slot at or below it (`Math.random` is an
   * arbitrary in-range choice). The result is a rearrangement of the input;
   * the input itself is a value and cannot change.
   */
  method Shuffle<T>(arr: seq<T>) returns (r: seq<T>)
    ensures |r| == |arr|
    ensures multiset(r) == multiset(arr)
  {
    var a := new T[|arr|](k requires 0 <= k < |arr| => arr[k]);
    assert a[..] == arr;
    var i := a.Length - 1;
    while i > 0
      invariant -1 <= i < a.Length || (a.Length == 0 && i == -1)
      invariant multiset(a[..]) == multiset(arr)
    {
      var j :| 0 <= j <= i;
      ghost var before := a[..];
      a[i], a[j] := a[j], a[i];
      SwapPreservesMultiset(before, i, j);
      assert a[..] == before[i := before[j]][j := before[i]];
      i := i - 1;
    }
    r := a[..];
  }

  lemma SwapPreservesMultiset<T>(s: seq<T>, i: nat, j: nat)
    requires i < |s| && j < |s|
    ensures multiset(s[i := s[j]][j := s[i]]) == multiset(s)
  {
    if i != j {
      var t := s[i := s[j]];
      assert multiset(t) == multiset(s) - multiset{s[i]} + multiset{s[j]};
      assert multiset(t[j := s[i]]) == multiset(t) - multiset{t[j]} + multiset{s[i]};
    }
  }
}
