/**
 * What the app shows about a set of results: the three score buckets of the
 * batch summary (and of the single-page alert), and the result table
 * ordered by ascending score with `sorted(..., key=score)`, which is stable.
 */
module Summary {
  import opened Scoring
  import opened Analysis

  /** The three alert levels: a sales target, worth considering, and out of scope. */
  datatype Bucket = Target | Maybe | Safe

  /** `score <= 40`, `40 < score <= 55` and `score > 55`. */
  function BucketOf(score: int): (b: Bucket)
    ensures b == Target <==> score <= 40
    ensures b == Maybe <==> 40 < score <= 55
    ensures b == Safe <==> 55 < score
  {
    if score <= 40 then Target else if score <= 55 then Maybe else Safe
  }

  /** The bucket follows the rank: S and A are targets, B is worth considering, C and D are out of scope. */
  lemma BucketByRank(score: int)
    ensures BucketOf(score) == Target <==> Judge(score).rank in {"S", "A"}
    ensures BucketOf(score) == Maybe <==> Judge(score).rank == "B"
    ensures BucketOf(score) == Safe <==> Judge(score).rank in {"C", "D"}
  {
  }

  /** `[r for r in br if <condition for b>]`, over the results' scores `key`. */
  function InBucket<T>(br: seq<T>, key: T -> int, b: Bucket): (out: seq<T>)
    ensures |out| <= |br|
    ensures forall r :: r in out ==> r in br && BucketOf(key(r)) == b
  {
    if br == [] then []
    else (if BucketOf(key(br[0])) == b then [br[0]] else []) + InBucket(br[1..], key, b)
  }

  /** Every result is counted in exactly one of the three summary cards. */
  lemma {:induction false} BucketsPartition<T>(br: seq<T>, key: T -> int)
    ensures multiset(InBucket(br, key, Target)) + multiset(InBucket(br, key, Maybe)) + multiset(InBucket(br, key, Safe))
      == multiset(br)
    ensures |InBucket(br, key, Target)| + |InBucket(br, key, Maybe)| + |InBucket(br, key, Safe)| == |br|
  {
    if br != [] {
      BucketsPartition(br[1..], key);
      assert br == [br[0]] + br[1..];
    }
  }

  /** Ascending by key. */
  predicate SortedBy<T>(s: seq<T>, key: T -> int) {
    forall i, j :: 0 <= i < j < |s| ==> key(s[i]) <= key(s[j])
  }

  /** The elements with key `v`, in their order. */
  function WithKey<T>(s: seq<T>, key: T -> int, v: int): seq<T> {
    if s == [] then [] else (if key(s[0]) == v then [s[0]] else []) + WithKey(s[1..], key, v)
  }

  /** Places `x` before the first element whose key is not below its own. */
  function Insert<T>(x: T, s: seq<T>, key: T -> int): (r: seq<T>)
    ensures |r| == |s| + 1
    ensures multiset(r) == multiset{x} + multiset(s)
  {
    if s == [] || key(x) <= key(s[0]) then [x] + s
    else
      assert s == [s[0]] + s[1..];
      [s[0]] + Insert(x, s[1..], key)
  }

  /** `sorted(s, key=key)` as an insertion sort. */
  function SortBy<T>(s: seq<T>, key: T -> int): (r: seq<T>)
    ensures |r| == |s|
    ensures multiset(r) == multiset(s)
  {
    if s == [] then []
    else
      assert s == [s[0]] + s[1..];
      Insert(s[0], SortBy(s[1..], key), key)
  }

  /** The result table: `sorted(br, key=lambda x: x["score"])`. */
  function SortByScore(br: seq<AnalysisResult>): seq<AnalysisResult> {
    SortBy(br, (r: AnalysisResult) => r.score as int)
  }

  lemma {:induction false} InsertSorted<T>(x: T, s: seq<T>, key: T -> int)
    requires SortedBy(s, key)
    ensures SortedBy(Insert(x, s, key), key)
  {
    if s != [] && key(x) > key(s[0]) {
      InsertSorted(x, s[1..], key);
      var t := Insert(x, s[1..], key);
      forall k | 0 <= k < |t| ensures key(s[0]) <= key(t[k]) {
        assert t[k] in multiset(t);
        if t[k] != x {
          assert t[k] in multiset(s[1..]);
          var m :| 0 <= m < |s[1..]| && s[1..][m] == t[k];
          assert s[m + 1] == t[k];
        }
      }
    }
  }

  /** The sort's output is ascending. */
  lemma {:induction false} SortSorted<T>(s: seq<T>, key: T -> int)
    ensures SortedBy(SortBy(s, key), key)
  {
    if s != [] {
      SortSorted(s[1..], key);
      InsertSorted(s[0], SortBy(s[1..], key), key);
    }
  }

  /** The selection of a sequence with one more element in front. */
  lemma WithKeyCons<T>(x: T, s: seq<T>, key: T -> int, v: int)
    ensures WithKey([x] + s, key, v) == (if key(x) == v then [x] else []) + WithKey(s, key, v)
  {
    assert ([x] + s)[1..] == s;
  }

  lemma {:induction false} WithKeyAppend<T>(a: seq<T>, b: seq<T>, key: T -> int, v: int)
    ensures WithKey(a + b, key, v) == WithKey(a, key, v) + WithKey(b, key, v)
  {
    if a != [] {
      var h := if key(a[0]) == v then [a[0]] else [];
      assert a + b == [a[0]] + (a[1..] + b);
      WithKeyCons(a[0], a[1..] + b, key, v);
      WithKeyAppend(a[1..], b, key, v);
      assert a == [a[0]] + a[1..];
      WithKeyCons(a[0], a[1..], key, v);
      assert h + (WithKey(a[1..], key, v) + WithKey(b, key, v)) == (h + WithKey(a[1..], key, v)) + WithKey(b, key, v);
    } else {
      assert a + b == b;
    }
  }

  /** Inserting keeps `x` ahead of the elements with its key, and leaves the others' order alone. */
  lemma {:induction false} InsertStable<T>(x: T, s: seq<T>, key: T -> int, v: int)
    ensures WithKey(Insert(x, s, key), key, v) == WithKey([x] + s, key, v)
  {
    if s != [] && key(x) > key(s[0]) {
      var t := Insert(x, s[1..], key);
      InsertStable(x, s[1..], key, v);
      assert Insert(x, s, key) == [s[0]] + t;
      assert s == [s[0]] + s[1..];
      PassOver(x, s[0], s[1..], t, key, v);
    }
  }

  /** Moving `x` past an element with a smaller key does not change any selection. */
  lemma PassOver<T>(x: T, y: T, rest: seq<T>, t: seq<T>, key: T -> int, v: int)
    requires key(y) < key(x)
    requires WithKey(t, key, v) == WithKey([x] + rest, key, v)
    ensures WithKey([y] + t, key, v) == WithKey([x] + ([y] + rest), key, v)
  {
    WithKeyCons(y, t, key, v);
    WithKeyCons(x, rest, key, v);
    WithKeyCons(x, [y] + rest, key, v);
    WithKeyCons(y, rest, key, v);
  }

  /** Elements with equal keys keep their order. */
  lemma {:induction false} SortStable<T>(s: seq<T>, key: T -> int, v: int)
    ensures WithKey(SortBy(s, key), key, v) == WithKey(s, key, v)
  {
    if s != [] {
      var rest := SortBy(s[1..], key);
      SortStable(s[1..], key, v);
      InsertStable(s[0], rest, key, v);
      WithKeyCons(s[0], rest, key, v);
      assert s == [s[0]] + s[1..];
      WithKeyCons(s[0], s[1..], key, v);
    }
  }

  /** The result table is a stable ascending sort of the batch results by score. */
  lemma ScoreTable(br: seq<AnalysisResult>, v: int)
    ensures var key := (r: AnalysisResult) => r.score as int;
      && SortedBy(SortByScore(br), key)
      && multiset(SortByScore(br)) == multiset(br)
      && WithKey(SortByScore(br), key, v) == WithKey(br, key, v)
  {
    var key := (r: AnalysisResult) => r.score as int;
    SortSorted(br, key);
    SortStable(br, key, v);
  }
}
