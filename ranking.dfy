/** Python's `sorted(..., key=k, reverse=True)` on integer keys, and `utils.sort`, which
    orders words by their base score. */
module Ranking {
  import opened Wrappers
  import opened Scoring

  /** `s` is ordered by non-increasing key. */
  predicate SortedDesc<T>(s: seq<T>, key: T -> int) {
    forall i, j | 0 <= i < j < |s| :: key(s[i]) >= key(s[j])
  }

  /** The elements of `s` whose key is `v`, in their order in `s`. */
  function WithKey<T>(s: seq<T>, key: T -> int, v: int): seq<T> {
    if s == [] then []
    else WithKey(s[..|s| - 1], key, v) + (if key(s[|s| - 1]) == v then [s[|s| - 1]] else [])
  }

  /** Places `x` after every element whose key is at least `x`'s. */
  function InsertDesc<T>(t: seq<T>, x: T, key: T -> int): (r: seq<T>)
    ensures |r| == |t| + 1
  {
    if t == [] || key(t[|t| - 1]) >= key(x) then t + [x]
    else InsertDesc(t[..|t| - 1], x, key) + [t[|t| - 1]]
  }

  /** `sorted(s, key=key, reverse=True)`: Python's sort is stable, and the reversed sort keeps
      equal keys in their original order too. */
  function SortDesc<T>(s: seq<T>, key: T -> int): (r: seq<T>)
    ensures |r| == |s|
  {
    if s == [] then [] else InsertDesc(SortDesc(s[..|s| - 1], key), s[|s| - 1], key)
  }

  lemma {:induction false} WithKeyAppend<T>(a: seq<T>, b: seq<T>, key: T -> int, v: int)
    ensures WithKey(a + b, key, v) == WithKey(a, key, v) + WithKey(b, key, v)
  {
    if b != [] {
      var n := |b| - 1;
      assert (a + b)[..|a + b| - 1] == a + b[..n];
      WithKeyAppend(a, b[..n], key, v);
    } else {
      assert a + b == a;
    }
  }

  lemma {:induction false} InsertDescSorted<T>(t: seq<T>, x: T, key: T -> int)
    requires SortedDesc(t, key)
    ensures SortedDesc(InsertDesc(t, x, key), key)
    ensures forall i | 0 <= i < |t| :: InsertDesc(t, x, key)[i] in t + [x]
  {
    if t != [] && key(t[|t| - 1]) < key(x) {
      var n := |t| - 1;
      assert SortedDesc(t[..n], key);
      InsertDescSorted(t[..n], x, key);
      var r := InsertDesc(t[..n], x, key);
      forall i | 0 <= i < |r|
        ensures key(r[i]) >= key(t[n])
      {
        assert r[i] in t[..n] + [x];
        if r[i] != x {
          var j :| 0 <= j < n && t[..n][j] == r[i];
          assert t[j] == r[i];
        }
      }
    }
  }

  lemma {:induction false} InsertDescMultiset<T>(t: seq<T>, x: T, key: T -> int)
    ensures multiset(InsertDesc(t, x, key)) == multiset(t) + multiset{x}
  {
    if t != [] && key(t[|t| - 1]) < key(x) {
      var n := |t| - 1;
      InsertDescMultiset(t[..n], x, key);
      assert t == t[..n] + [t[n]];
    }
  }

  lemma {:induction false} InsertDescWithKey<T>(t: seq<T>, x: T, key: T -> int, v: int)
    ensures WithKey(InsertDesc(t, x, key), key, v)
            == WithKey(t, key, v) + (if key(x) == v then [x] else [])
  {
    if t == [] || key(t[|t| - 1]) >= key(x) {
      WithKeyAppend(t, [x], key, v);
      assert [x][..0] == [];
    } else {
      var n := |t| - 1;
      InsertDescWithKey(t[..n], x, key, v);
      WithKeyAppend(InsertDesc(t[..n], x, key), [t[n]], key, v);
      assert [t[n]][..0] == [];
      assert [x][..0] == [];
    }
  }

  /** The result of `SortDesc` is ordered by non-increasing key. */
  lemma {:induction false} SortDescSorted<T>(s: seq<T>, key: T -> int)
    ensures SortedDesc(SortDesc(s, key), key)
  {
    if s != [] {
      SortDescSorted(s[..|s| - 1], key);
      InsertDescSorted(SortDesc(s[..|s| - 1], key), s[|s| - 1], key);
    }
  }

  /** `SortDesc` only reorders. */
  lemma {:induction false} SortDescPermutation<T>(s: seq<T>, key: T -> int)
    ensures multiset(SortDesc(s, key)) == multiset(s)
  {
    if s != [] {
      var n := |s| - 1;
      SortDescPermutation(s[..n], key);
      InsertDescMultiset(SortDesc(s[..n], key), s[n], key);
      assert s == s[..n] + [s[n]];
    }
  }

  /** `SortDesc` is stable: the elements sharing a key keep their relative order. */
  lemma {:induction false} SortDescStable<T>(s: seq<T>, key: T -> int, v: int)
    ensures WithKey(SortDesc(s, key), key, v) == WithKey(s, key, v)
  {
    if s != [] {
      var n := |s| - 1;
      SortDescStable(s[..n], key, v);
      InsertDescWithKey(SortDesc(s[..n], key), s[n], key, v);
    }
  }

  /** The key `utils.sort` orders by: a word's base score (0 stands in for a word that cannot
      be scored, which makes the sort fail before any comparison). */
  function BaseScoreKey(word: string): int {
    match BaseScore(word)
    case Ok(v) => v
    case Err(_) => 0
  }

  /** `utils.sort(lst)`: the words by non-increasing base score, ties in list order; the first
      word holding a letter without a value aborts it, as computing its key raises. */
  function SortByScore(lst: seq<string>): (r: Result<seq<string>, ScoreError>) {
    var k := FirstUnscorable(lst);
    if k == |lst| then Ok(SortDesc(lst, BaseScoreKey)) else Err(BaseScore(lst[k]).error)
  }

  /** `utils.sort` succeeds exactly when every word can be scored, and then returns the words
      reordered by non-increasing base score, equal scores in list order; otherwise it fails on
      the first unknown letter of the first word that cannot be scored. */
  lemma SortByScoreMeaning(lst: seq<string>)
    ensures SortByScore(lst).Ok? <==> forall k | 0 <= k < |lst| :: Scorable(lst[k])
    ensures SortByScore(lst).Ok? ==>
              var r := SortByScore(lst).value;
              multiset(r) == multiset(lst)
              && SortedDesc(r, BaseScoreKey)
              && (forall v :: WithKey(r, BaseScoreKey, v) == WithKey(lst, BaseScoreKey, v))
    ensures SortByScore(lst).Err? ==>
              var k := FirstUnscorable(lst);
              k < |lst| && SortByScore(lst).error == UnknownLetter(lst[k][FirstUnknown(lst[k])])
  {
    var r := SortDesc(lst, BaseScoreKey);
    SortDescSorted(lst, BaseScoreKey);
    SortDescPermutation(lst, BaseScoreKey);
    forall v
      ensures WithKey(r, BaseScoreKey, v) == WithKey(lst, BaseScoreKey, v)
    {
      SortDescStable(lst, BaseScoreKey, v);
    }
  }

  /** The index of the first word of `lst` that cannot be scored, or |lst|. */
  function FirstUnscorable(lst: seq<string>): (k: nat)
    ensures k <= |lst|
    ensures forall j | 0 <= j < k :: BaseScore(lst[j]).Ok?
    ensures k < |lst| ==> BaseScore(lst[k]).Err?
  {
    if lst == [] then 0
    else if BaseScore(lst[0]).Err? then 0
    else 1 + FirstUnscorable(lst[1..])
  }
}
