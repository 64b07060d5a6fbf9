/**
 * The podium of `print_podium`: from a map of vote counts, take every key
 * tied at the highest remaining count as one place, remove them, and repeat,
 * for at most three places.
 */
module Podium {

  /** The number of places the podium announces (`for i in range(3)`). */
  const Places: nat := 3

  /** `m` is the largest count of the map. */
  ghost predicate IsMaxCount<K>(counts: map<K, int>, m: int) {
    m in counts.Values && forall k :: k in counts ==> counts[k] <= m
  }

  /** A non-empty map has a largest count. */
  lemma {:induction false} MaxCountExists<K>(counts: map<K, int>)
    requires |counts| > 0
    ensures exists m :: IsMaxCount(counts, m)
    decreases counts.Keys
  {
    var k :| k in counts;
    var rest := counts - {k};
    assert rest.Keys < counts.Keys;
    assert forall k' :: k' in counts ==> k' == k || k' in rest;
    assert counts[k] in counts.Values;
    if |rest| == 0 {
      assert IsMaxCount(counts, counts[k]);
    } else {
      MaxCountExists(rest);
      var m :| IsMaxCount(rest, m);
      var km :| km in rest && rest[km] == m;
      assert counts[km] == m;
      if counts[k] > m {
        assert IsMaxCount(counts, counts[k]);
      } else {
        assert IsMaxCount(counts, m);
      }
    }
  }

  /** `max(counts.values())`. */
  ghost function MaxCount<K>(counts: map<K, int>): (m: int)
    requires |counts| > 0
    ensures m in counts.Values
    ensures forall k :: k in counts ==> counts[k] <= m
  {
    MaxCountExists(counts);
    var m :| IsMaxCount(counts, m);
    m
  }

  /** A key whose count no other key exceeds holds the maximum. */
  lemma MaxCountAt<K>(counts: map<K, int>, k: K)
    requires k in counts
    requires forall k' :: k' in counts ==> counts[k'] <= counts[k]
    ensures MaxCount(counts) == counts[k]
  {
    var m := MaxCount(counts);
    var km :| km in counts && counts[km] == m;
  }

  /** The keys tied at count `top`. */
  ghost function Tied<K>(counts: map<K, int>, top: int): set<K> {
    set k | k in counts && counts[k] == top
  }

  /** The places, best first, of at most `rounds` rounds of extraction. */
  ghost function Ranking<K>(counts: map<K, int>, rounds: nat): seq<set<K>>
    decreases rounds
  {
    if rounds == 0 || |counts| == 0 then []
    else
      var tier := Tied(counts, MaxCount(counts));
      [tier] + Ranking(counts - tier, rounds - 1)
  }

  /** Key `k` has been given a place. */
  ghost predicate Placed<K>(groups: seq<set<K>>, k: K) {
    exists i :: 0 <= i < |groups| && k in groups[i]
  }

  /** One round: the tied maximum, then the ranking of the keys below it. */
  lemma RankingStep<K>(counts: map<K, int>, rounds: nat)
    requires rounds > 0 && |counts| > 0
    ensures var top := MaxCount(counts);
      var tier := Tied(counts, top);
      var rest := counts - tier;
      var groups := Ranking(counts, rounds);
      && groups == [tier] + Ranking(rest, rounds - 1)
      && tier != {} && tier <= counts.Keys
      && (forall k :: k in tier ==> counts[k] == top)
      && (forall k :: k in rest ==> rest[k] == counts[k] < top)
      && (forall k :: k in counts ==> k in tier || k in rest)
  {
    var top := MaxCount(counts);
    var k0 :| k0 in counts && counts[k0] == top;
    assert k0 in Tied(counts, top);
  }

  /**
   * At most `rounds` places, none of them empty, all made of keys of the
   * map; no places exactly when there are no counts (or no rounds).
   */
  lemma {:induction false} RankingShape<K>(counts: map<K, int>, rounds: nat)
    ensures var groups := Ranking(counts, rounds);
      && |groups| <= rounds
      && (|groups| == 0 <==> rounds == 0 || |counts| == 0)
      && (forall i :: 0 <= i < |groups| ==> groups[i] != {} && groups[i] <= counts.Keys)
    decreases rounds
  {
    if rounds != 0 && |counts| != 0 {
      RankingStep(counts, rounds);
      var rest := counts - Tied(counts, MaxCount(counts));
      RankingShape(rest, rounds - 1);
    }
  }

  /** Every placed key is a key of the map. */
  ghost predicate WithinKeys<K>(groups: seq<set<K>>, counts: map<K, int>) {
    forall i, k :: 0 <= i < |groups| && k in groups[i] ==> k in counts
  }

  /**
   * Everyone in a place has more votes than everyone in any later place,
   * and the same votes as everyone in the same place.
   */
  ghost predicate Descending<K>(groups: seq<set<K>>, counts: map<K, int>)
    requires WithinKeys(groups, counts)
  {
    && (forall i, j, k, k' :: 0 <= i < j < |groups| && k in groups[i] && k' in groups[j] ==> counts[k] > counts[k'])
    && (forall i, k, k' :: 0 <= i < |groups| && k in groups[i] && k' in groups[i] ==> counts[k] == counts[k'])
  }

  /** Everyone left off the podium has fewer votes than everyone on it. */
  ghost predicate OthersBelow<K>(groups: seq<set<K>>, counts: map<K, int>)
    requires WithinKeys(groups, counts)
  {
    forall k, i, k' :: k in counts && !Placed(groups, k) && 0 <= i < |groups| && k' in groups[i] ==> counts[k] < counts[k']
  }

  /** Putting the tied maximum in front of a descending ranking of the rest keeps it descending. */
  lemma DescendingCons<K>(counts: map<K, int>, top: int, tier: set<K>, rest: map<K, int>, later: seq<set<K>>)
    requires tier <= counts.Keys && (forall k :: k in tier ==> counts[k] == top)
    requires forall k :: k in rest ==> k in counts && rest[k] == counts[k] < top
    requires WithinKeys(later, rest) && Descending(later, rest)
    ensures WithinKeys([tier] + later, counts) && Descending([tier] + later, counts)
  {
    var groups := [tier] + later;
    assert forall i :: 0 < i < |groups| ==> groups[i] == later[i - 1];
  }

  /** Likewise, everyone the rest leaves off stays below everyone placed. */
  lemma OthersBelowCons<K>(counts: map<K, int>, top: int, tier: set<K>, rest: map<K, int>, later: seq<set<K>>)
    requires tier <= counts.Keys && (forall k :: k in tier ==> counts[k] == top)
    requires forall k :: k in rest ==> k in counts && rest[k] == counts[k] < top
    requires forall k :: k in counts ==> k in tier || k in rest
    requires WithinKeys(later, rest) && OthersBelow(later, rest)
    ensures WithinKeys([tier] + later, counts) && OthersBelow([tier] + later, counts)
  {
    var groups := [tier] + later;
    assert forall i :: 0 < i < |groups| ==> groups[i] == later[i - 1];
    forall k | k in rest && Placed(later, k)
      ensures Placed(groups, k)
    {
      var i :| 0 <= i < |later| && k in later[i];
      assert k in groups[i + 1];
    }
    forall k | k in counts && !Placed(groups, k)
      ensures k in rest && !Placed(later, k)
    {
      assert k !in groups[0];
    }
  }

  /** When the rest is ranked completely, so is the whole map. */
  lemma AllPlacedCons<K>(counts: map<K, int>, tier: set<K>, rest: map<K, int>, later: seq<set<K>>)
    requires forall k :: k in counts ==> k in tier || k in rest
    requires forall k :: k in rest ==> Placed(later, k)
    ensures forall k :: k in counts ==> Placed([tier] + later, k)
  {
    var groups := [tier] + later;
    forall k | k in counts
      ensures Placed(groups, k)
    {
      if k in tier {
        assert k in groups[0];
      } else {
        var i :| 0 <= i < |later| && k in later[i];
        assert k in groups[i + 1];
      }
    }
  }

  /** The places are in strictly decreasing order of votes, ties kept together. */
  lemma {:induction false} RankingOrdered<K>(counts: map<K, int>, rounds: nat)
    ensures WithinKeys(Ranking(counts, rounds), counts)
    ensures Descending(Ranking(counts, rounds), counts)
    decreases rounds
  {
    if rounds != 0 && |counts| != 0 {
      RankingStep(counts, rounds);
      var top := MaxCount(counts);
      var tier := Tied(counts, top);
      var rest := counts - tier;
      RankingOrdered(rest, rounds - 1);
      DescendingCons(counts, top, tier, rest, Ranking(rest, rounds - 1));
    }
  }

  /** Places are disjoint: no key is placed twice. */
  lemma RankingDisjoint<K>(counts: map<K, int>, rounds: nat)
    ensures var groups := Ranking(counts, rounds);
      forall i, j :: 0 <= i < j < |groups| ==> groups[i] !! groups[j]
  {
    RankingOrdered(counts, rounds);
  }

  /**
   * A key left off the podium has fewer votes than everyone on it, and when
   * fewer than `rounds` places are filled nobody is left off.
   */
  lemma {:induction false} RankingLeavesOnlyLower<K>(counts: map<K, int>, rounds: nat)
    ensures WithinKeys(Ranking(counts, rounds), counts)
    ensures OthersBelow(Ranking(counts, rounds), counts)
    ensures |Ranking(counts, rounds)| < rounds ==> forall k :: k in counts ==> Placed(Ranking(counts, rounds), k)
    decreases rounds
  {
    if rounds != 0 && |counts| != 0 {
      RankingStep(counts, rounds);
      var top := MaxCount(counts);
      var tier := Tied(counts, top);
      var rest := counts - tier;
      var later := Ranking(rest, rounds - 1);
      RankingLeavesOnlyLower(rest, rounds - 1);
      OthersBelowCons(counts, top, tier, rest, later);
      if |Ranking(counts, rounds)| < rounds {
        AllPlacedCons(counts, tier, rest, later);
      }
    }
  }

  /** The ranking of an empty tally has no places. */
  lemma EmptyTallyHasNoPlaces<K>(counts: map<K, int>)
    requires |counts| == 0
    ensures Ranking(counts, Places) == []
  {
  }

  /** `max(counts.values())`, computed by one pass over the keys. */
  method MaxOf<K>(counts: map<K, int>) returns (top: int)
    requires |counts| > 0
    ensures top == MaxCount(counts)
  {
    var keys := counts.Keys;
    var first :| first in keys;
    top := counts[first];
    keys := keys - {first};
    while keys != {}
      invariant keys <= counts.Keys
      invariant top in counts.Values
      invariant forall k :: k in counts && k !in keys ==> counts[k] <= top
      decreases |keys|
    {
      var k :| k in keys;
      if counts[k] > top {
        top := counts[k];
      }
      keys := keys - {k};
    }
  }

  /** `for key in results: del counts[key]`. */
  method DeleteKeys<K>(counts: map<K, int>, keys: set<K>) returns (remaining: map<K, int>)
    ensures remaining == counts - keys
  {
    remaining := counts;
    var toDelete := keys;
    while toDelete != {}
      invariant toDelete <= keys
      invariant remaining == counts - (keys - toDelete)
      decreases |toDelete|
    {
      var key :| key in toDelete;
      remaining := remaining - {key};
      toDelete := toDelete - {key};
    }
  }

  /** Appending one round to the places found so far. */
  lemma RankingAppend<K>(groups: seq<set<K>>, counts: map<K, int>, rounds: nat)
    requires rounds > 0 && |counts| > 0
    ensures var tier := Tied(counts, MaxCount(counts));
      groups + Ranking(counts, rounds) == (groups + [tier]) + Ranking(counts - tier, rounds - 1)
  {
    RankingStep(counts, rounds);
  }

  /**
   * One round of the loop: the keys tied at the remaining maximum
   * (`results`) and the map once they are deleted.
   */
  method TakeTop<K>(counts: map<K, int>) returns (results: set<K>, remaining: map<K, int>)
    requires |counts| > 0
    ensures results == Tied(counts, MaxCount(counts))
    ensures remaining == counts - results
  {
    var top := MaxOf(counts);
    results := set k | k in counts && counts[k] == top;
    remaining := DeleteKeys(counts, results);
  }

  /**
   * The ranking loop of `print_podium`: up to `places` rounds, stopping
   * early once every key has been placed.
   */
  method RankPodium<K>(counts: map<K, int>, places: nat) returns (groups: seq<set<K>>)
    ensures groups == Ranking(counts, places)
  {
    var remaining := counts;
    groups := [];
    var round := 0;
    ghost var target := Ranking(counts, places);
    while round < places
      invariant round <= places
      invariant groups + Ranking(remaining, places - round) == target
    {
      if |remaining| == 0 {
        break;
      }
      var results, rest := TakeTop(remaining);
      RankingAppend(groups, remaining, places - round);
      groups := groups + [results];
      remaining := rest;
      round := round + 1;
    }
    assert Ranking(remaining, places - round) == [];
    assert groups + [] == groups;
  }

  /**
   * A round whose maximum is held by `k`: the place is `tier`, the keys
   * tied with `k`, and the ranking goes on with the keys outside it.
   */
  lemma RankingRoundAt<K>(counts: map<K, int>, k: K, tier: set<K>, rest: map<K, int>, rounds: nat)
    requires rounds > 0 && k in counts
    requires forall k' :: k' in counts ==> counts[k'] <= counts[k]
    requires tier <= counts.Keys && forall k' :: k' in counts ==> (k' in tier <==> counts[k'] == counts[k])
    requires rest == counts - tier
    ensures Ranking(counts, rounds) == [tier] + Ranking(rest, rounds - 1)
  {
    MaxCountAt(counts, k);
    assert Tied(counts, counts[k]) == tier;
  }

  /** The last round of the example below: {4: 1} in one round gives {4}. */
  lemma RankingExampleLastRound(c2: map<int, int>)
    requires c2 == map[4 := 1]
    ensures Ranking(c2, 1) == [{4}]
  {
    RankingRoundAt(c2, 4, {4}, map[], 1);
  }

  /** The last two rounds of the example below. */
  lemma RankingExampleLastRounds(c1: map<int, int>)
    requires c1 == map[3 := 3, 4 := 1]
    ensures Ranking(c1, 2) == [{3}, {4}]
  {
    var c2 := map[4 := 1];
    RankingRoundAt(c1, 3, {3}, c2, 2);
    RankingExampleLastRound(c2);
  }

  /**
   * The example tally {1: 5, 2: 5, 3: 3, 4: 1} ranks {1, 2}, then {3},
   * then {4}.
   */
  lemma RankingExample(c0: map<int, int>)
    requires c0 == map[1 := 5, 2 := 5, 3 := 3, 4 := 1]
    ensures Ranking(c0, Places) == [{1, 2}, {3}, {4}]
  {
    var c1 := map[3 := 3, 4 := 1];
    RankingRoundAt(c0, 1, {1, 2}, c1, 3);
    RankingExampleLastRounds(c1);
  }
}
