/**
 * The lodash helpers the chart code relies on, as pure functions:
 * `_.groupBy` (groups in order of first occurrence, with their sizes) and
 * the stable `_.sortBy` on an integer key.
 */
module Grouping {
  import opened Calendar

  /** One group of `_.groupBy`: its key and the number of elements it holds. */
  datatype Group<K> = Group(key: K, count: nat)

  function Keys<K>(groups: seq<Group<K>>): seq<K> {
    seq(|groups|, i requires 0 <= i < |groups| => groups[i].key)
  }

  /** The size of the group with key `k`, or 0 when there is none (`obj[k] ? _.size(obj[k]) : 0`). */
  function Lookup<K(==)>(groups: seq<Group<K>>, k: K): nat {
    if |groups| == 0 then 0
    else if groups[0].key == k then groups[0].count
    else Lookup(groups[1..], k)
  }

  /** Adds one element with key `k`: enlarges its group, or opens a new group at the end. */
  function AddKey<K(==)>(groups: seq<Group<K>>, k: K): seq<Group<K>> {
    if |groups| == 0 then [Group(k, 1)]
    else if groups[0].key == k then [Group(k, groups[0].count + 1)] + groups[1..]
    else [groups[0]] + AddKey(groups[1..], k)
  }

  /** `_.groupBy` on the elements' keys, read left to right. */
  function GroupBy<K(==)>(keys: seq<K>): seq<Group<K>> {
    if |keys| == 0 then [] else AddKey(GroupBy(keys[..|keys| - 1]), keys[|keys| - 1])
  }

  /** How often `k` occurs in `keys`. */
  function Occurrences<K(==)>(keys: seq<K>, k: K): nat {
    if |keys| == 0 then 0
    else Occurrences(keys[..|keys| - 1], k) + (if keys[|keys| - 1] == k then 1 else 0)
  }

  function SumCounts<K>(groups: seq<Group<K>>): nat {
    if |groups| == 0 then 0 else groups[0].count + SumCounts(groups[1..])
  }

  predicate DistinctKeys<K(==)>(groups: seq<Group<K>>) {
    forall i, j :: 0 <= i < j < |groups| ==> groups[i].key != groups[j].key
  }

  predicate PositiveCounts<K>(groups: seq<Group<K>>) {
    forall i :: 0 <= i < |groups| ==> groups[i].count > 0
  }

  lemma {:induction false} AddKeyLookup<K>(groups: seq<Group<K>>, k: K, k': K)
    ensures Lookup(AddKey(groups, k), k') == Lookup(groups, k') + (if k' == k then 1 else 0)
  {
    if |groups| > 0 && groups[0].key != k {
      AddKeyLookup(groups[1..], k, k');
      assert AddKey(groups, k)[1..] == AddKey(groups[1..], k);
    } else if |groups| > 0 {
      assert AddKey(groups, k)[1..] == groups[1..];
    }
  }

  lemma {:induction false} AddKeyKeys<K>(groups: seq<Group<K>>, k: K)
    ensures |AddKey(groups, k)| == |groups| || |AddKey(groups, k)| == |groups| + 1
    ensures forall i :: 0 <= i < |groups| ==> AddKey(groups, k)[i].key == groups[i].key
    ensures |AddKey(groups, k)| == |groups| + 1 ==> AddKey(groups, k)[|groups|].key == k
    ensures |AddKey(groups, k)| == |groups| ==> k in Keys(groups)
    ensures |AddKey(groups, k)| == |groups| + 1 ==> k !in Keys(groups)
  {
    if |groups| > 0 && groups[0].key != k {
      AddKeyKeys(groups[1..], k);
      assert AddKey(groups, k) == [groups[0]] + AddKey(groups[1..], k);
      assert Keys(groups) == [groups[0].key] + Keys(groups[1..]);
    } else if |groups| > 0 {
      assert Keys(groups)[0] == k;
    }
  }

  lemma {:induction false} AddKeySum<K>(groups: seq<Group<K>>, k: K)
    ensures SumCounts(AddKey(groups, k)) == SumCounts(groups) + 1
    ensures PositiveCounts(groups) ==> PositiveCounts(AddKey(groups, k))
  {
    if |groups| > 0 && groups[0].key != k {
      AddKeySum(groups[1..], k);
      assert AddKey(groups, k)[1..] == AddKey(groups[1..], k);
    } else if |groups| > 0 {
      assert AddKey(groups, k)[1..] == groups[1..];
    }
  }

  lemma AddKeyDistinct<K>(groups: seq<Group<K>>, k: K)
    requires DistinctKeys(groups)
    ensures DistinctKeys(AddKey(groups, k))
  {
    AddKeyKeys(groups, k);
    var r := AddKey(groups, k);
    forall i, j | 0 <= i < j < |r| ensures r[i].key != r[j].key {
      if j == |groups| {
        assert r[i].key == Keys(groups)[i];
      } else {
        assert r[i].key == groups[i].key && r[j].key == groups[j].key;
      }
    }
  }

  /**
   * The groups of `_.groupBy`: one per distinct key, each with the number
   * of elements carrying that key, none empty, and their sizes add up.
   */
  lemma {:induction false} GroupByCounts<K>(keys: seq<K>)
    ensures forall k :: Lookup(GroupBy(keys), k) == Occurrences(keys, k)
    ensures forall k :: k in Keys(GroupBy(keys)) <==> k in keys
    ensures DistinctKeys(GroupBy(keys))
    ensures PositiveCounts(GroupBy(keys))
    ensures SumCounts(GroupBy(keys)) == |keys|
  {
    if |keys| > 0 {
      var front, last := keys[..|keys| - 1], keys[|keys| - 1];
      GroupByCounts(front);
      var g := GroupBy(front);
      forall k ensures Lookup(GroupBy(keys), k) == Occurrences(keys, k) {
        AddKeyLookup(g, last, k);
      }
      AddKeyKeys(g, last);
      AddKeySum(g, last);
      AddKeyDistinct(g, last);
      assert keys == front + [last];
      forall k ensures k in Keys(GroupBy(keys)) <==> k in keys {
        var r := GroupBy(keys);
        if k in Keys(r) {
          var i :| 0 <= i < |r| && Keys(r)[i] == k;
          if i < |g| { assert Keys(g)[i] == k; }
        }
        if k in front {
          var i :| 0 <= i < |g| && Keys(g)[i] == k;
          assert Keys(r)[i] == k;
        }
        if k == last && |r| == |g| {
          var i :| 0 <= i < |g| && Keys(g)[i] == k;
          assert Keys(r)[i] == k;
        }
        if k == last && |r| == |g| + 1 {
          assert Keys(r)[|g|] == k;
        }
      }
    }
  }

  /** Adding a key no smaller than every key so far touches only the end of the groups. */
  lemma {:induction false} AddKeyAtEnd(groups: seq<Group<int>>, k: int)
    requires Increasing(Keys(groups))
    requires |groups| > 0 ==> groups[|groups| - 1].key <= k
    ensures AddKey(groups, k) == if |groups| > 0 && groups[|groups| - 1].key == k
      then groups[..|groups| - 1] + [Group(k, groups[|groups| - 1].count + 1)]
      else groups + [Group(k, 1)]
  {
    if |groups| > 0 {
      var tail := groups[1..];
      if |groups| > 1 {
        assert Keys(groups)[0] < Keys(groups)[|groups| - 1];
        assert Increasing(Keys(tail)) by {
          assert forall i :: 0 <= i < |tail| ==> Keys(tail)[i] == Keys(groups)[i + 1];
        }
        AddKeyAtEnd(tail, k);
        assert groups[..|groups| - 1] == [groups[0]] + tail[..|tail| - 1];
      }
    }
  }

  /** Adding a key no smaller than every key so far keeps the keys increasing and ends them with it. */
  lemma AddKeyIncreasing(g: seq<Group<int>>, k: int)
    requires Increasing(Keys(g))
    requires |g| > 0 ==> g[|g| - 1].key <= k
    ensures Increasing(Keys(AddKey(g, k)))
    ensures AddKey(g, k)[|AddKey(g, k)| - 1].key == k
  {
    AddKeyAtEnd(g, k);
    var r := AddKey(g, k);
    if |g| > 0 && g[|g| - 1].key == k {
      assert forall i :: 0 <= i < |r| ==> Keys(r)[i] == Keys(g)[i];
    } else {
      assert forall i :: 0 <= i < |g| ==> Keys(r)[i] == Keys(g)[i];
      assert Keys(r)[|g|] == k;
      forall i, j | 0 <= i < j < |r| ensures Keys(r)[i] < Keys(r)[j] {
        if j == |g| {
          assert Keys(g)[i] <= Keys(g)[|g| - 1];
        }
      }
    }
  }

  /** Grouping keys read in non-decreasing order yields the groups in increasing key order. */
  lemma {:induction false} GroupByIncreasing(keys: seq<int>)
    requires forall i, j :: 0 <= i < j < |keys| ==> keys[i] <= keys[j]
    ensures Increasing(Keys(GroupBy(keys)))
    ensures |keys| > 0 ==> GroupBy(keys)[|GroupBy(keys)| - 1].key == keys[|keys| - 1]
  {
    if |keys| > 0 {
      var front := keys[..|keys| - 1];
      GroupByIncreasing(front);
      if |front| > 0 {
        assert front[|front| - 1] <= keys[|keys| - 1];
      }
      AddKeyIncreasing(GroupBy(front), keys[|keys| - 1]);
    }
  }

  /** `s` is in non-decreasing order of `key`. */
  ghost predicate SortedBy<T>(s: seq<T>, key: T -> int) {
    forall i, j :: 0 <= i < j < |s| ==> key(s[i]) <= key(s[j])
  }

  /** Inserts `x` into the sorted `s` after every element whose key is at most `key(x)`. */
  function InsertBy<T>(s: seq<T>, x: T, key: T -> int): (r: seq<T>)
    ensures |r| == |s| + 1
  {
    if |s| == 0 then [x]
    else if key(s[|s| - 1]) <= key(x) then s + [x]
    else InsertBy(s[..|s| - 1], x, key) + [s[|s| - 1]]
  }

  /** The stable `_.sortBy` on an integer key (insertion sort). */
  function SortBy<T>(s: seq<T>, key: T -> int): (r: seq<T>)
    ensures |r| == |s|
  {
    if |s| == 0 then [] else InsertBy(SortBy(s[..|s| - 1], key), s[|s| - 1], key)
  }

  lemma {:induction false} InsertByBound<T>(s: seq<T>, x: T, key: T -> int, b: int)
    requires forall i :: 0 <= i < |s| ==> key(s[i]) <= b
    requires key(x) <= b
    ensures forall i :: 0 <= i < |InsertBy(s, x, key)| ==> key(InsertBy(s, x, key)[i]) <= b
  {
    if |s| > 0 && key(s[|s| - 1]) > key(x) {
      InsertByBound(s[..|s| - 1], x, key, b);
    }
  }

  lemma {:induction false} InsertBySorted<T>(s: seq<T>, x: T, key: T -> int)
    requires SortedBy(s, key)
    ensures SortedBy(InsertBy(s, x, key), key)
  {
    if |s| > 0 && key(s[|s| - 1]) > key(x) {
      var front, last := s[..|s| - 1], s[|s| - 1];
      InsertBySorted(front, x, key);
      InsertByBound(front, x, key, key(last));
    }
  }

  lemma {:induction false} InsertByPermutes<T>(s: seq<T>, x: T, key: T -> int)
    ensures multiset(InsertBy(s, x, key)) == multiset(s) + multiset{x}
  {
    if |s| > 0 && key(s[|s| - 1]) > key(x) {
      var front, last := s[..|s| - 1], s[|s| - 1];
      assert s == front + [last];
      InsertByPermutes(front, x, key);
    }
  }

  /** `_.sortBy` returns a permutation of its input in non-decreasing key order. */
  lemma {:induction false} SortByCorrect<T>(s: seq<T>, key: T -> int)
    ensures SortedBy(SortBy(s, key), key)
    ensures multiset(SortBy(s, key)) == multiset(s)
    ensures |SortBy(s, key)| == |s|
  {
    if |s| > 0 {
      var front := s[..|s| - 1];
      SortByCorrect(front, key);
      InsertBySorted(SortBy(front, key), s[|s| - 1], key);
      InsertByPermutes(SortBy(front, key), s[|s| - 1], key);
      assert s == front + [s[|s| - 1]];
    }
  }

  /** How often a key occurs is its multiplicity in the multiset of keys. */
  lemma {:induction false} OccurrencesIsMultiplicity<K>(keys: seq<K>, k: K)
    ensures Occurrences(keys, k) == multiset(keys)[k]
  {
    if |keys| > 0 {
      var n := |keys|;
      OccurrencesIsMultiplicity(keys[..n - 1], k);
      assert keys == keys[..n - 1] + [keys[n - 1]];
    }
  }

  /** In groups with distinct keys, a group's count is what a lookup of its key returns. */
  lemma {:induction false} LookupOfGroup<K>(groups: seq<Group<K>>, i: nat)
    requires DistinctKeys(groups) && i < |groups|
    ensures Lookup(groups, groups[i].key) == groups[i].count
  {
    if i > 0 {
      assert DistinctKeys(groups[1..]);
      LookupOfGroup(groups[1..], i - 1);
    }
  }
}
