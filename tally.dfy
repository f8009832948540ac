/**
 * The two loops that `resolveNight` and `resolveDayVote` share: build a count
 * map over the cast votes, taken in voter order (keys in the order they first
 * occur there, optionally skipping a sentinel), then walk it with a running
 * maximum that only moves on a strictly larger count, so that a tie goes to
 * the target named first in voter order. A voter who changes their vote keeps
 * their place in that order.
 */
module Tally {
  import opened Options
  import opened OrderedMaps

  /** `counts` is the count map of `values`, ignoring the values in `ignore`. */
  ghost predicate CountsOf<K(!new)>(values: seq<K>, ignore: set<K>, counts: OrderedMap<K, nat>) {
    && counts.Valid()
    && (forall t :: t in counts.vals <==> t in values && t !in ignore)
    && (forall t :: t in counts.vals ==> counts.vals[t] == multiset(values)[t])
    && (forall i, j, p :: 0 <= i < j < |counts.keys| && 0 <= p < |values| && values[p] == counts.keys[j]
          ==> counts.keys[i] in values[..p])
  }

  /**
   * The first loop: `voteCount.set(t, (voteCount.get(t) || 0) + 1)` for every
   * cast value not in `ignore` (the day vote's `continue` on "skip").
   */
  method CountVotes<K(==,!new)>(values: seq<K>, ignore: set<K>) returns (counts: OrderedMap<K, nat>)
    ensures CountsOf(values, ignore, counts)
  {
    counts := Empty();
    var n := 0;
    while n < |values|
      invariant 0 <= n <= |values|
      invariant CountsOf(values[..n], ignore, counts)
    {
      var t := values[n];
      assert values[..n + 1] == values[..n] + [t];
      if t !in ignore {
        CountStep(values[..n], ignore, counts, t);
        counts := counts.Put(t, counts.Get(t).GetOr(0) + 1);
      } else {
        IgnoreStep(values[..n], ignore, counts, t);
      }
      n := n + 1;
    }
    assert values[..n] == values;
  }

  lemma CountStep<K(!new)>(values: seq<K>, ignore: set<K>, counts: OrderedMap<K, nat>, t: K)
    requires CountsOf(values, ignore, counts)
    requires t !in ignore
    ensures CountsOf(values + [t], ignore, counts.Put(t, counts.Get(t).GetOr(0) + 1))
  {
    var vs := values + [t];
    var c := counts.Put(t, counts.Get(t).GetOr(0) + 1);
    assert multiset(vs) == multiset(values) + multiset{t};
    forall i, j, p | 0 <= i < j < |c.keys| && 0 <= p < |vs| && vs[p] == c.keys[j]
      ensures c.keys[i] in vs[..p]
    {
      if p < |values| {
        assert vs[..p] == values[..p];
        if t !in counts.vals {
          assert j < |counts.keys| by {
            assert values[p] in values;
          }
        }
      } else {
        assert c.keys[i] in counts.vals by {
          if t !in counts.vals {
            assert i < |counts.keys|;
            assert c.keys[i] == counts.keys[i];
          }
        }
        assert vs[..p] == values;
      }
    }
  }

  /** An ignored value leaves the count map as it is. */
  lemma IgnoreStep<K(!new)>(values: seq<K>, ignore: set<K>, counts: OrderedMap<K, nat>, t: K)
    requires CountsOf(values, ignore, counts)
    requires t in ignore
    ensures CountsOf(values + [t], ignore, counts)
  {
    var vs := values + [t];
    assert multiset(vs) == multiset(values) + multiset{t};
    forall i, j, p | 0 <= i < j < |counts.keys| && 0 <= p < |vs| && vs[p] == counts.keys[j]
      ensures counts.keys[i] in vs[..p]
    {
      assert counts.keys[j] in counts.vals;
      assert p < |values| && vs[..p] == values[..p];
    }
  }

  /** `top` precedes (or is) every one of the first `n` keys whose count is `maxVotes`. */
  ghost predicate TopComesFirstBelow<K(!new)>(counts: OrderedMap<K, nat>, top: K, maxVotes: nat, n: nat)
    requires counts.Valid() && n <= |counts.keys|
  {
    forall j :: 0 <= j < n && counts.vals[counts.keys[j]] == maxVotes ==> top in counts.keys[..j + 1]
  }

  ghost predicate TopComesFirst<K(!new)>(counts: OrderedMap<K, nat>, top: K, maxVotes: nat)
    requires counts.Valid()
  {
    TopComesFirstBelow(counts, top, maxVotes, |counts.keys|)
  }

  /**
   * The second loop: `if (count > maxVotes) { maxVotes = count; top = t }`.
   * The result has the largest count, and it comes no later than any other
   * key with that count; there is no top exactly when every count is zero.
   */
  method PickTop<K(==,!new)>(counts: OrderedMap<K, nat>) returns (top: Option<K>, maxVotes: nat)
    requires counts.Valid()
    ensures forall k :: k in counts.vals ==> counts.vals[k] <= maxVotes
    ensures top.None? <==> maxVotes == 0
    ensures top.Some? ==> top.value in counts.vals && counts.vals[top.value] == maxVotes
    ensures top.Some? ==> TopComesFirst(counts, top.value, maxVotes)
  {
    top, maxVotes := None, 0;
    var n := 0;
    while n < |counts.keys|
      invariant 0 <= n <= |counts.keys|
      invariant forall j :: 0 <= j < n ==> counts.vals[counts.keys[j]] <= maxVotes
      invariant top.None? <==> maxVotes == 0
      invariant top.Some? ==> top.value in counts.keys[..n] && counts.vals[top.value] == maxVotes
      invariant top.Some? ==> TopComesFirstBelow(counts, top.value, maxVotes, n)
    {
      var k := counts.keys[n];
      var c := counts.vals[k];
      if c > maxVotes {
        top, maxVotes := Some(k), c;
      }
      n := n + 1;
    }
    forall k | k in counts.vals ensures counts.vals[k] <= maxVotes {
      var j :| 0 <= j < |counts.keys| && counts.keys[j] == k;
    }
  }

  /**
   * `t` is the plurality of `values` (ignoring `ignore`): nobody has more votes,
   * and among those with as many, `t` received its first vote first.
   */
  ghost predicate IsPlurality<K(!new)>(values: seq<K>, ignore: set<K>, t: K) {
    && t in values && t !in ignore
    && (forall p :: 0 <= p < |values| && values[p] !in ignore ==> multiset(values)[values[p]] <= multiset(values)[t])
    && (forall p :: 0 <= p < |values| && values[p] !in ignore && multiset(values)[values[p]] == multiset(values)[t]
          ==> FirstIndex(values, t) <= p)
  }

  /** Counting and then picking yields the plurality, and nothing exactly when no vote counted. */
  method Plurality<K(==,!new)>(values: seq<K>, ignore: set<K>) returns (top: Option<K>, maxVotes: nat)
    ensures top.None? <==> forall p :: 0 <= p < |values| ==> values[p] in ignore
    ensures top.Some? ==> IsPlurality(values, ignore, top.value) && maxVotes == multiset(values)[top.value]
    ensures top.None? ==> maxVotes == 0
  {
    var counts := CountVotes(values, ignore);
    top, maxVotes := PickTop(counts);
    TopIsPlurality(values, ignore, counts, top, maxVotes);
  }

  lemma TopIsPlurality<K(!new)>(values: seq<K>, ignore: set<K>, counts: OrderedMap<K, nat>, top: Option<K>, maxVotes: nat)
    requires CountsOf(values, ignore, counts)
    requires forall k :: k in counts.vals ==> counts.vals[k] <= maxVotes
    requires top.None? <==> maxVotes == 0
    requires top.Some? ==> top.value in counts.vals && counts.vals[top.value] == maxVotes
    requires top.Some? ==> TopComesFirst(counts, top.value, maxVotes)
    ensures top.None? <==> forall p :: 0 <= p < |values| ==> values[p] in ignore
    ensures top.Some? ==> IsPlurality(values, ignore, top.value) && maxVotes == multiset(values)[top.value]
  {
    if top.Some? {
      var t := top.value;
      TopHasMostVotes(values, ignore, counts, t, maxVotes);
      TopVotedFirst(values, ignore, counts, t, maxVotes);
      var f := FirstIndex(values, t);
      assert values[f] !in ignore;
    } else {
      forall p | 0 <= p < |values| ensures values[p] in ignore {
        assert values[p] in multiset(values);
      }
    }
  }

  /** No counted value has more votes than the top. */
  lemma TopHasMostVotes<K(!new)>(values: seq<K>, ignore: set<K>, counts: OrderedMap<K, nat>, t: K, maxVotes: nat)
    requires CountsOf(values, ignore, counts)
    requires forall k :: k in counts.vals ==> counts.vals[k] <= maxVotes
    requires t in counts.vals && counts.vals[t] == maxVotes
    ensures t in values && t !in ignore && maxVotes == multiset(values)[t]
    ensures forall p :: 0 <= p < |values| && values[p] !in ignore ==> multiset(values)[values[p]] <= multiset(values)[t]
  {
    forall p | 0 <= p < |values| && values[p] !in ignore
      ensures multiset(values)[values[p]] <= multiset(values)[t]
    {
      assert values[p] in counts.vals;
    }
  }

  /** Among the values with as many votes as the top, the top was voted for first. */
  lemma TopVotedFirst<K(!new)>(values: seq<K>, ignore: set<K>, counts: OrderedMap<K, nat>, t: K, maxVotes: nat)
    requires CountsOf(values, ignore, counts)
    requires t in counts.vals && counts.vals[t] == maxVotes
    requires TopComesFirst(counts, t, maxVotes)
    ensures t in values
    ensures forall p :: 0 <= p < |values| && values[p] !in ignore && multiset(values)[values[p]] == multiset(values)[t] ==>
      FirstIndex(values, t) <= p
  {
    forall p | 0 <= p < |values| && values[p] !in ignore && multiset(values)[values[p]] == multiset(values)[t]
      ensures FirstIndex(values, t) <= p
    {
      var u := values[p];
      assert u in counts.vals;
      var j :| 0 <= j < |counts.keys| && counts.keys[j] == u;
      assert t in counts.keys[..j + 1];
      var i :| 0 <= i <= j && counts.keys[i] == t;
      if i < j {
        assert t in values[..p];
        FirstIndexBefore(values, t, p);
      } else {
        FirstIndexBefore(values, t, p + 1);
      }
    }
  }

  /** The first index at which `t` occurs. */
  ghost function FirstIndex<K>(values: seq<K>, t: K): (i: nat)
    requires t in values
    ensures i < |values| && values[i] == t && t !in values[..i]
  {
    if values[0] == t then 0
    else
      var i := 1 + FirstIndex(values[1..], t);
      assert values[1..][..i - 1] == values[1..i];
      i
  }

  /** The plurality is unique, so resolving the same accumulator twice gives the same target. */
  lemma PluralityUnique<K(!new)>(values: seq<K>, ignore: set<K>, a: K, b: K)
    requires IsPlurality(values, ignore, a) && IsPlurality(values, ignore, b)
    ensures a == b
  {
    var pa, pb := FirstIndex(values, a), FirstIndex(values, b);
    assert multiset(values)[b] <= multiset(values)[a] by { assert values[pb] == b; }
    assert multiset(values)[a] <= multiset(values)[b] by { assert values[pa] == a; }
    assert pa <= pb && pb <= pa;
  }

  /** An occurrence of `t` before position `p` puts its first occurrence before `p`. */
  lemma FirstIndexBefore<K>(values: seq<K>, t: K, p: nat)
    requires p <= |values| && t in values[..p]
    ensures FirstIndex(values, t) < p
  {
  }

  /** Two different targets together never hold more votes than were cast. */
  lemma {:induction false} TwoCountsBound<K>(values: seq<K>, a: K, b: K)
    requires a != b
    ensures multiset(values)[a] + multiset(values)[b] <= |values|
  {
    if values != [] {
      var last := values[|values| - 1];
      assert values == values[..|values| - 1] + [last];
      TwoCountsBound(values[..|values| - 1], a, b);
    }
  }
}
