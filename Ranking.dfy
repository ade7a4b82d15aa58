/**
 * Top-K selection and row lookup (`similarities.argsort()[::-1][0:top_results]`, then
 * `df.iloc[...]` or `df.loc[...]`). Scores are given; how they are computed is not modelled.
 * numpy's default sort is not stable, so nothing here promises an order among equal scores.
 */
module Ranking {
  import opened Wrappers

  function Min(a: int, b: int): int
  {
    if a <= b then a else b
  }

  /** No index occurs twice. */
  predicate Distinct(s: seq<nat>)
  {
    forall i, j :: 0 <= i < j < |s| ==> s[i] != s[j]
  }

  /** Every index addresses one of `n` rows. */
  predicate InRange(s: seq<nat>, n: nat)
  {
    forall i :: 0 <= i < |s| ==> s[i] < n
  }

  /** The scores of the selected indices never increase along the selection. */
  predicate NonIncreasing(scores: seq<real>, s: seq<nat>)
    requires InRange(s, |scores|)
  {
    forall i, j :: 0 <= i < j < |s| ==> scores[s[i]] >= scores[s[j]]
  }

  /** The pandas `RangeIndex` labels `0 .. n-1`. */
  function RangeIndex(n: nat): (r: seq<nat>)
    ensures |r| == n && forall i :: 0 <= i < n ==> r[i] == i
  {
    seq(n, i => i)
  }

  /** Labels `b .. b+n-1`. */
  function RangeFrom(b: int, n: nat): (r: seq<int>)
    ensures |r| == n && forall i :: 0 <= i < n ==> r[i] == b + i
  {
    seq(n, i => b + i)
  }

  /** A position in `cand` holding a highest-scoring index. */
  function ArgMaxPos(scores: seq<real>, cand: seq<nat>): (p: nat)
    requires |cand| > 0 && InRange(cand, |scores|)
    ensures p < |cand| && forall i :: 0 <= i < |cand| ==> scores[cand[i]] <= scores[cand[p]]
  {
    if |cand| == 1 then 0
    else
      var p := ArgMaxPos(scores, cand[1..]);
      if scores[cand[0]] >= scores[cand[1..][p]] then 0 else p + 1
  }

  /** `cand` without its element at position `p`. */
  function Without(cand: seq<nat>, p: nat): (rest: seq<nat>)
    requires p < |cand| && Distinct(cand)
    ensures |rest| == |cand| - 1 && Distinct(rest)
    ensures forall i :: 0 <= i < |rest| ==> rest[i] in cand && rest[i] != cand[p]
    ensures forall c :: c in cand && c != cand[p] ==> c in rest
  {
    var rest := cand[..p] + cand[p + 1..];
    assert forall i :: 0 <= i < |rest| ==> rest[i] == cand[if i < p then i else i + 1];
    assert forall c :: c in cand && c != cand[p] ==> c in rest by {
      forall c | c in cand && c != cand[p] ensures c in rest {
        var i :| 0 <= i < |cand| && cand[i] == c;
        assert rest[if i < p then i else i - 1] == c;
      }
    }
    rest
  }

  /** Putting the best candidate in front of the best of the others keeps every property. */
  lemma ConsBest(scores: seq<real>, cand: seq<nat>, best: nat, rest: seq<nat>, tail: seq<nat>)
    requires InRange(cand, |scores|) && best in cand
    requires forall c :: c in cand ==> scores[c] <= scores[best]
    requires forall i :: 0 <= i < |rest| ==> rest[i] in cand && rest[i] != best
    requires forall c :: c in cand && c != best ==> c in rest
    requires forall i :: 0 <= i < |tail| ==> tail[i] in rest
    requires InRange(tail, |scores|) && Distinct(tail) && NonIncreasing(scores, tail)
    requires forall c :: c in rest && c !in tail ==> forall i :: 0 <= i < |tail| ==> scores[c] <= scores[tail[i]]
    ensures var r := [best] + tail;
            (forall i :: 0 <= i < |r| ==> r[i] in cand)
            && InRange(r, |scores|) && Distinct(r) && NonIncreasing(scores, r)
            && forall c :: c in cand && c !in r ==> forall i :: 0 <= i < |r| ==> scores[c] <= scores[r[i]]
  {
    var r := [best] + tail;
    assert forall i :: 0 <= i < |tail| ==> tail[i] in cand && tail[i] != best;
    assert forall i :: 1 <= i < |r| ==> r[i] == tail[i - 1];
  }

  /** The `k` best of the candidate indices, best first. */
  function SelectTop(scores: seq<real>, cand: seq<nat>, k: nat): (r: seq<nat>)
    requires InRange(cand, |scores|) && Distinct(cand)
    ensures |r| == Min(|cand|, k)
    ensures forall i :: 0 <= i < |r| ==> r[i] in cand
    ensures InRange(r, |scores|) && Distinct(r) && NonIncreasing(scores, r)
    ensures forall c :: c in cand && c !in r ==> forall i :: 0 <= i < |r| ==> scores[c] <= scores[r[i]]
    decreases k
  {
    if k == 0 || cand == [] then []
    else
      var p := ArgMaxPos(scores, cand);
      var rest := Without(cand, p);
      var tail := SelectTop(scores, rest, k - 1);
      ConsBest(scores, cand, cand[p], rest, tail);
      [cand[p]] + tail
  }

  /** `argsort()[::-1][0:k]`: the indices of the `k` highest scores (all of them when there
      are fewer than `k`), distinct, in range, best first, and no index left out scores more
      than any index taken. */
  function TopK(scores: seq<real>, k: nat): (r: seq<nat>)
    ensures |r| == Min(|scores|, k)
    ensures InRange(r, |scores|) && Distinct(r) && NonIncreasing(scores, r)
    ensures forall j :: 0 <= j < |scores| && j !in r ==> forall i :: 0 <= i < |r| ==> scores[j] <= scores[r[i]]
  {
    var all := RangeIndex(|scores|);
    assert forall j :: 0 <= j < |scores| ==> j in all by {
      forall j | 0 <= j < |scores| ensures j in all { assert all[j] == j; }
    }
    SelectTop(scores, all, k)
  }

  /** `df.iloc[keys]`: rows by position. */
  function ILoc<T>(rows: seq<T>, keys: seq<nat>): (r: seq<T>)
    requires InRange(keys, |rows|)
    ensures |r| == |keys| && forall i :: 0 <= i < |keys| ==> r[i] == rows[keys[i]]
  {
    seq(|keys|, i requires 0 <= i < |keys| => rows[keys[i]])
  }

  /** The rows labelled `key`, in frame order. */
  function Matching<T>(labels: seq<int>, rows: seq<T>, key: int): seq<T>
    requires |labels| == |rows|
  {
    if rows == [] then []
    else (if labels[0] == key then [rows[0]] else []) + Matching(labels[1..], rows[1..], key)
  }

  /** `df.loc[keys]`: for each key in turn the rows bearing that label; `None` is the
      `KeyError` pandas raises for a key that labels no row. */
  function Loc<T>(labels: seq<int>, rows: seq<T>, keys: seq<nat>): Option<seq<T>>
    requires |labels| == |rows|
  {
    if keys == [] then Some([])
    else
      var m := Matching(labels, rows, keys[0]);
      if m == [] then None
      else match Loc(labels, rows, keys[1..])
        case None => None
        case Some(more) => Some(m + more)
  }

  lemma {:induction false} MatchingRange<T>(b: int, rows: seq<T>, key: int)
    ensures Matching(RangeFrom(b, |rows|), rows, key) == if b <= key < b + |rows| then [rows[key - b]] else []
    decreases |rows|
  {
    if rows != [] {
      assert RangeFrom(b, |rows|)[1..] == RangeFrom(b + 1, |rows| - 1);
      MatchingRange(b + 1, rows[1..], key);
      if b + 1 <= key < b + |rows| { assert rows[1..][key - (b + 1)] == rows[key - b]; }
    }
  }

  /** On a frame whose index is `0 .. n-1` (what `DataFrame.from_records` builds), label
      lookup and positional lookup select the same rows. */
  lemma {:induction false} LocIsILocOnRangeIndex<T>(rows: seq<T>, keys: seq<nat>)
    requires InRange(keys, |rows|)
    ensures Loc(RangeIndex(|rows|), rows, keys) == Some(ILoc(rows, keys))
    decreases |keys|
  {
    if keys != [] {
      assert Matching(RangeIndex(|rows|), rows, keys[0]) == [rows[keys[0]]] by {
        assert RangeIndex(|rows|) == RangeFrom(0, |rows|);
        MatchingRange(0, rows, keys[0]);
      }
      LocIsILocOnRangeIndex(rows, keys[1..]);
      assert ILoc(rows, keys) == [rows[keys[0]]] + ILoc(rows, keys[1..]);
    }
  }
}
