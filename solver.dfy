/** The `Solver` object: the shelf, the anchors and the dictionary it is built from, the words
    playable from the shelf alone, the words playable at each anchor, and their ranking. */
module SolverModel {
  import opened Wrappers
  import opened Strings
  import opened Config
  import opened AnchorModel
  import opened Playability
  import opened Scoring
  import opened Matching
  import opened Ranking
  import opened OrderedMap
  import Anchors

  /** A `(word, score, anchor_position)` triple of the ranking. */
  datatype Entry = Entry(word: string, score: int, position: Key)

  /** One result line: its 1-based rank, the word, its score and where it is played. */
  datatype RankedLine = RankedLine(rank: nat, word: string, score: int, position: Key)

  /** The anchors as the constructor stores them: every anchor's `letters` lower-cased, an
      absent `letters` becoming the empty string, every other field as given. */
  function LowerLetters(anchors: seq<Anchor>): (r: seq<Anchor>)
    ensures |r| == |anchors|
  {
    seq(|anchors|, i requires 0 <= i < |anchors| =>
      anchors[i].(letters := Some(Lower(anchors[i].letters.GetOr("")))))
  }

  /** The words of `words` playable from `shelf`, in dictionary order. */
  function PlayableWords(shelf: string, words: seq<string>): seq<string> {
    if words == [] then []
    else
      var n := |words| - 1;
      PlayableWords(shelf, words[..n]) + (if IsPlayable(words[n], Text(shelf)) == Ok(true) then [words[n]] else [])
  }

  /** `"".join([ra[0] for ra in relative_anchors])`. */
  function RelativeLetters(rels: seq<RelativeAnchor>): string {
    if rels == [] then "" else RelativeLetters(rels[..|rels| - 1]) + rels[|rels| - 1].text
  }

  /** The five tests a dictionary word must pass to be listed for an anchor, with the
      defaults the solver supplies for absent bounds. */
  ghost predicate Listed(shelf: string, anchor: Anchor, word: string)
    requires anchor.letters.Some?
  {
    var letters := anchor.letters.value;
    var rels := anchor.relativeAnchors.GetOr([]);
    var preReq, prePerm := anchor.prefixRequired.GetOr(0), anchor.prefixPermitted.GetOr(MAX_GRID);
    var postReq, postPerm := anchor.postfixRequired.GetOr(0), anchor.postfixPermitted.GetOr(MAX_GRID);
    word != letters
    && Contains(word, letters)
    && IsPlayable(word, Text(shelf + letters + RelativeLetters(rels))) == Ok(true)
    && |word| >= |letters| + preReq + postReq
    && Fits(word, letters, rels, preReq, prePerm, postReq, postPerm)
  }

  /** The words listed for one anchor, in dictionary order. */
  ghost function AnchorWords(shelf: string, anchor: Anchor, words: seq<string>): seq<string>
    requires anchor.letters.Some?
  {
    if words == [] then []
    else
      var n := |words| - 1;
      AnchorWords(shelf, anchor, words[..n]) + (if Listed(shelf, anchor, words[n]) then [words[n]] else [])
  }

  /** The key of anchor number `i`: its position, or a token no other anchor shares, standing
      for the fresh `uuid4()`. */
  function KeyOf(anchor: Anchor, i: nat): Key {
    if anchor.position.Some? then At(anchor.position.value) else Fresh(i)
  }

  predicate HasLetters(anchors: seq<Anchor>) {
    forall i | 0 <= i < |anchors| :: anchors[i].letters.Some?
  }

  /** The dictionary built from the first `n` (key, word list) pairs: each nonempty list is
      assigned to its key, in order. */
  function Grouped(keys: seq<Key>, lists: seq<seq<string>>, n: nat): Dict<Key, seq<string>>
    requires n <= |keys| && n <= |lists|
  {
    if n == 0 then []
    else
      var d := Grouped(keys, lists, n - 1);
      if lists[n - 1] != [] then Put(d, keys[n - 1], lists[n - 1]) else d
  }

  /** The key of every anchor, in order. */
  function AnchorKeys(anchors: seq<Anchor>): (keys: seq<Key>)
    ensures |keys| == |anchors|
  {
    seq(|anchors|, i requires 0 <= i < |anchors| => KeyOf(anchors[i], i))
  }

  /** The word list of every anchor, in order. */
  ghost function AnchorLists(shelf: string, anchors: seq<Anchor>, words: seq<string>): (lists: seq<seq<string>>)
    requires HasLetters(anchors)
    ensures |lists| == |anchors|
  {
    seq(|anchors|, i requires 0 <= i < |anchors| && anchors[i].letters.Some? => AnchorWords(shelf, anchors[i], words))
  }

  /** The dictionary `get_anchored_playable_words` builds from the first `n` anchors. */
  ghost function AnchoredWords(shelf: string, anchors: seq<Anchor>, words: seq<string>, n: nat)
    : Dict<Key, seq<string>>
    requires n <= |anchors| && HasLetters(anchors)
  {
    Grouped(AnchorKeys(anchors), AnchorLists(shelf, anchors, words), n)
  }

  /** The `(word, anchor_position)` pairs of one dictionary entry. */
  function Pairs(ws: seq<string>, key: Key): (r: seq<(string, Key)>)
    ensures |r| == |ws|
  {
    seq(|ws|, j requires 0 <= j < |ws| => (ws[j], key))
  }

  /** Every `(word, anchor_position)` pair, entry by entry in the dictionary's order. */
  function Entries(d: Dict<Key, seq<string>>): seq<(string, Key)> {
    if d == [] then [] else Entries(d[..|d| - 1]) + Pairs(d[|d| - 1].1, d[|d| - 1].0)
  }

  /** The pairs scored in order; the first failing score aborts. */
  function ScoreEntries(es: seq<(string, Key)>): Result<seq<Entry>, ScoreError> {
    if es == [] then Ok([])
    else
      var n := |es| - 1;
      match ScoreEntries(es[..n])
      case Err(e) => Err(e)
      case Ok(scored) =>
        match Score(es[n].0, Some(es[n].1))
        case Err(e) => Err(e)
        case Ok(v) => Ok(scored + [Entry(es[n].0, v, es[n].1)])
  }

  function EntryScore(e: Entry): int {
    e.score
  }

  /** The sorted entries numbered from 1. */
  function RankLines(sorted: seq<Entry>): (r: seq<RankedLine>)
    ensures |r| == |sorted|
  {
    seq(|sorted|, i requires 0 <= i < |sorted| =>
      RankedLine(i + 1, sorted[i].word, sorted[i].score, sorted[i].position))
  }

  /** What `get_ranked_results` yields for the dictionary `d`. */
  function RankedResults(d: Dict<Key, seq<string>>): Result<seq<RankedLine>, ScoreError> {
    match ScoreEntries(Entries(d))
    case Err(e) => Err(e)
    case Ok(scored) => Ok(RankLines(SortDesc(scored, EntryScore)))
  }

  class Solver {
    var shelf: string
    var anchors: seq<Anchor>
    var words: seq<string>
    var allPlayableWords: seq<string>
    var anchoredPlayableWords: Dict<Key, seq<string>>

    /** Every stored anchor has its `letters`, as the constructor guarantees. */
    predicate Valid()
      reads this
    {
      HasLetters(anchors)
    }

    /** `Solver(shelf, anchors, words)`: stores the lower-cased shelf and anchors and the
        dictionary, then computes both word lists. */
    constructor(shelf: string, anchors: seq<Anchor>, words: seq<string>)
      ensures this.shelf == Lower(shelf)
      ensures this.anchors == LowerLetters(anchors)
      ensures this.words == words
      ensures Valid()
      ensures allPlayableWords == PlayableWords(Lower(shelf), words)
      ensures anchoredPlayableWords == AnchoredWords(Lower(shelf), LowerLetters(anchors), words, |anchors|)
    {
      this.shelf := Lower(shelf);
      this.anchors := LowerLetters(anchors);
      this.words := words;
      new;
      allPlayableWords := GetAllPlayableWords();
      anchoredPlayableWords := GetAnchoredPlayableWords();
    }

    /** `get_all_playable_words`: the dictionary words whose letters the shelf holds. */
    function GetAllPlayableWords(): (r: seq<string>)
      reads this
      ensures r == PlayableWords(shelf, words)
      ensures forall w :: w in r <==> w in words && multiset(w) <= multiset(shelf)
    {
      PlayableWordsMeaning(shelf, words);
      PlayableWords(shelf, words)
    }

    /** `get_anchored_playable_words`: for each anchor in turn, the dictionary words passing the
        five tests, stored under the anchor's key when there is at least one. */
    method GetAnchoredPlayableWords() returns (res: Dict<Key, seq<string>>)
      requires Valid()
      ensures res == AnchoredWords(shelf, anchors, words, |anchors|)
    {
      res := [];
      for n := 0 to |anchors|
        invariant res == AnchoredWords(shelf, anchors, words, n)
      {
        var pWords := AnchorWordList(anchors[n]);
        if pWords != [] {
          var anchorPosition := if anchors[n].position.Some? then At(anchors[n].position.value) else Fresh(n);
          res := Put(res, anchorPosition, pWords);
        }
      }
    }

    /** The inner loop of `get_anchored_playable_words` for one anchor. */
    method AnchorWordList(anchor: Anchor) returns (pWords: seq<string>)
      requires anchor.letters.Some?
      ensures pWords == AnchorWords(shelf, anchor, words)
    {
      var letters := anchor.letters.value;
      var relativeAnchors := anchor.relativeAnchors.GetOr([]);
      var relativeLetters := RelativeLetters(relativeAnchors);
      var prefixPermitted := anchor.prefixPermitted.GetOr(MAX_GRID);
      var prefixRequired := anchor.prefixRequired.GetOr(0);
      var postfixPermitted := anchor.postfixPermitted.GetOr(MAX_GRID);
      var postfixRequired := anchor.postfixRequired.GetOr(0);
      pWords := [];
      for w := 0 to |words|
        invariant pWords == AnchorWords(shelf, anchor, words[..w])
      {
        var word := words[w];
        assert words[..w + 1][..w] == words[..w];
        if word == letters {
          continue;
        }
        if !Contains(word, letters) {
          continue;
        }
        if IsPlayable(word, Text(shelf + letters + relativeLetters)) != Ok(true) {
          continue;
        }
        var requiredLength := |letters| + prefixRequired + postfixRequired;
        if !(|word| >= requiredLength) {
          continue;
        }
        var fits := FitsAnchor(word, letters, relativeAnchors, prefixRequired, prefixPermitted,
                               postfixRequired, postfixPermitted);
        if !fits {
          continue;
        }
        pWords := pWords + [word];
      }
      assert words[..|words|] == words;
    }

    /** `get_ranked_results`: scores every (word, key) entry in the dictionary's order, stops at
        the first score that fails, then numbers the entries by non-increasing score. */
    method GetRankedResults() returns (r: Result<seq<RankedLine>, ScoreError>)
      ensures r == RankedResults(anchoredPlayableWords)
    {
      var rankedWords := ScoreAllEntries(anchoredPlayableWords);
      if rankedWords.Err? {
        return Err(rankedWords.error);
      }
      var sorted := SortDesc(rankedWords.value, EntryScore);
      var res: seq<RankedLine> := [];
      for i := 0 to |sorted|
        invariant res == RankLines(sorted)[..i]
      {
        res := res + [RankedLine(i + 1, sorted[i].word, sorted[i].score, sorted[i].position)];
      }
      assert res == RankLines(sorted);
      r := Ok(res);
    }
  }

  /** The first loop of `get_ranked_results`: the score of every entry of `d`, in order. */
  method ScoreAllEntries(d: Dict<Key, seq<string>>) returns (r: Result<seq<Entry>, ScoreError>)
    ensures r == ScoreEntries(Entries(d))
  {
    var rankedWords: seq<Entry> := [];
    for i := 0 to |d|
      invariant ScoreEntries(Entries(d[..i])) == Ok(rankedWords)
    {
      assert d[..i + 1] == d[..i] + [d[i]];
      EntriesAppend(d[..i], [d[i]]);
      assert Entries([d[i]]) == Pairs(d[i].1, d[i].0) by {
        assert [d[i]][..0] == [];
      }
      var scored := ScoreWords(Entries(d[..i]), rankedWords, d[i].1, d[i].0);
      if scored.Err? {
        assert d == d[..i + 1] + d[i + 1..];
        EntriesAppend(d[..i + 1], d[i + 1..]);
        ScoreEntriesErrSticks(Entries(d[..i + 1]), Entries(d[i + 1..]));
        return scored;
      }
      rankedWords := scored.value;
    }
    assert d[..|d|] == d;
    r := Ok(rankedWords);
  }

  /** The inner loop of `get_ranked_results`: scores the words of one entry after the pairs
      `prior`, whose scores are `scored`. */
  method ScoreWords(prior: seq<(string, Key)>, scored: seq<Entry>, pWords: seq<string>, anchorPosition: Key)
    returns (r: Result<seq<Entry>, ScoreError>)
    requires ScoreEntries(prior) == Ok(scored)
    ensures r == ScoreEntries(prior + Pairs(pWords, anchorPosition))
  {
    var rankedWords := scored;
    assert prior + Pairs(pWords[..0], anchorPosition) == prior;
    for j := 0 to |pWords|
      invariant ScoreEntries(prior + Pairs(pWords[..j], anchorPosition)) == Ok(rankedWords)
    {
      var score := ScoreValue(pWords[j], Some(anchorPosition));
      ScoreWordsStep(prior, pWords, anchorPosition, j);
      if score.Err? {
        return Err(score.error);
      }
      rankedWords := rankedWords + [Entry(pWords[j], score.value, anchorPosition)];
    }
    assert pWords[..|pWords|] == pWords;
    r := Ok(rankedWords);
  }

  lemma {:induction false} EntriesAppend(a: Dict<Key, seq<string>>, b: Dict<Key, seq<string>>)
    ensures Entries(a + b) == Entries(a) + Entries(b)
  {
    if b != [] {
      var n := |b| - 1;
      EntriesAppend(a, b[..n]);
      assert (a + b)[..|a + b| - 1] == a + b[..n];
    } else {
      assert a + b == a;
    }
  }

  lemma PairsSplit(ws: seq<string>, key: Key, j: nat)
    requires j < |ws|
    ensures Pairs(ws, key) == Pairs(ws[..j], key) + [(ws[j], key)] + Pairs(ws[j + 1..], key)
  {
  }

  /** Scoring the pairs of one entry up to word `j` + 1: one more entry, or the first failure,
      which then stands for the whole entry. */
  lemma ScoreWordsStep(prior: seq<(string, Key)>, pWords: seq<string>, key: Key, j: nat)
    requires j < |pWords| && ScoreEntries(prior + Pairs(pWords[..j], key)).Ok?
    ensures var before := ScoreEntries(prior + Pairs(pWords[..j], key)).value;
            var score := Score(pWords[j], Some(key));
            ScoreEntries(prior + Pairs(pWords[..j + 1], key))
              == (if score.Ok? then Ok(before + [Entry(pWords[j], score.value, key)]) else Err(score.error))
            && (score.Err? ==> ScoreEntries(prior + Pairs(pWords, key)) == Err(score.error))
  {
    var done := prior + Pairs(pWords[..j], key);
    var next := done + [(pWords[j], key)];
    assert next == prior + Pairs(pWords[..j + 1], key);
    assert next[..|done|] == done;
    if Score(pWords[j], Some(key)).Err? {
      PairsSplit(pWords, key, j);
      assert prior + Pairs(pWords, key) == next + Pairs(pWords[j + 1..], key);
      ScoreEntriesErrSticks(next, Pairs(pWords[j + 1..], key));
    }
  }

  /** Once a score has failed, scoring more entries keeps that failure. */
  lemma {:induction false} ScoreEntriesErrSticks(a: seq<(string, Key)>, b: seq<(string, Key)>)
    requires ScoreEntries(a).Err?
    ensures ScoreEntries(a + b) == ScoreEntries(a)
  {
    if b != [] {
      var n := |b| - 1;
      ScoreEntriesErrSticks(a, b[..n]);
      assert (a + b)[..|a + b| - 1] == a + b[..n];
    } else {
      assert a + b == a;
    }
  }

  /** The words playable from the shelf are exactly the dictionary words whose letters form a
      sub-multiset of the shelf's. */
  lemma {:induction false} PlayableWordsMeaning(shelf: string, words: seq<string>)
    ensures forall w :: w in PlayableWords(shelf, words) <==> w in words && multiset(w) <= multiset(shelf)
  {
    if words != [] {
      var n := |words| - 1;
      PlayableWordsMeaning(shelf, words[..n]);
      ShelfPlayableIffSubMultiset(words[n], shelf);
      assert words == words[..n] + [words[n]];
    }
  }

  /** The stored anchors differ from the given ones only in `letters`, which is present, of
      the same length as before (empty when absent) and free of upper-case letters. */
  lemma LowerLettersMeaning(anchors: seq<Anchor>)
    ensures HasLetters(LowerLetters(anchors))
    ensures forall i | 0 <= i < |anchors| ::
              var a, b := anchors[i], LowerLetters(anchors)[i];
              b.position == a.position && b.relativeAnchors == a.relativeAnchors
              && b.prefixRequired == a.prefixRequired && b.prefixPermitted == a.prefixPermitted
              && b.postfixRequired == a.postfixRequired && b.postfixPermitted == a.postfixPermitted
              && |b.letters.value| == |a.letters.GetOr("")|
              && (forall k | 0 <= k < |b.letters.value| :: !IsUpper(b.letters.value[k]))
              && (forall k | 0 <= k < |b.letters.value| ::
                    b.letters.value[k] == LowerChar(a.letters.GetOr("")[k]))
  {
  }

  /** A word is listed for an anchor exactly when it is in the dictionary and passes the five
      tests, the playability test meaning that the shelf, the anchor's letters and its
      relative-anchor letters together hold every letter of the word often enough. */
  lemma {:induction false} AnchorWordsMeaning(shelf: string, anchor: Anchor, words: seq<string>)
    requires anchor.letters.Some?
    ensures forall w :: w in AnchorWords(shelf, anchor, words) <==> w in words && Listed(shelf, anchor, w)
    ensures forall w | Listed(shelf, anchor, w) ::
              multiset(w) <= multiset(shelf + anchor.letters.value + RelativeLetters(anchor.relativeAnchors.GetOr([])))
  {
    if words != [] {
      var n := |words| - 1;
      AnchorWordsMeaning(shelf, anchor, words[..n]);
      assert words == words[..n] + [words[n]];
    }
    var pool := shelf + anchor.letters.value + RelativeLetters(anchor.relativeAnchors.GetOr([]));
    forall w | Listed(shelf, anchor, w)
      ensures multiset(w) <= multiset(pool)
    {
      ShelfPlayableIffSubMultiset(w, pool);
    }
  }

  /** Listing keeps dictionary order: the words listed from two stretches of the dictionary
      are those of the first stretch followed by those of the second. */
  lemma {:induction false} AnchorWordsAppend(shelf: string, anchor: Anchor, a: seq<string>, b: seq<string>)
    requires anchor.letters.Some?
    ensures AnchorWords(shelf, anchor, a + b) == AnchorWords(shelf, anchor, a) + AnchorWords(shelf, anchor, b)
  {
    if b != [] {
      var n := |b| - 1;
      AnchorWordsAppend(shelf, anchor, a, b[..n]);
      assert (a + b)[..|a + b| - 1] == a + b[..n];
    } else {
      assert a + b == a;
    }
  }

  /** The same order property for the words playable from the shelf alone. */
  lemma {:induction false} PlayableWordsAppend(shelf: string, a: seq<string>, b: seq<string>)
    ensures PlayableWords(shelf, a + b) == PlayableWords(shelf, a) + PlayableWords(shelf, b)
  {
    if b != [] {
      var n := |b| - 1;
      PlayableWordsAppend(shelf, a, b[..n]);
      assert (a + b)[..|a + b| - 1] == a + b[..n];
    } else {
      assert a + b == a;
    }
  }

  /** The dictionary has distinct keys and no empty word list. */
  lemma {:induction false} GroupedDistinct(keys: seq<Key>, lists: seq<seq<string>>, n: nat)
    requires n <= |keys| && n <= |lists|
    ensures DistinctKeys(Grouped(keys, lists, n))
    ensures forall e | e in Grouped(keys, lists, n) :: e.1 != []
  {
    if n > 0 {
      GroupedDistinct(keys, lists, n - 1);
      var d := Grouped(keys, lists, n - 1);
      if lists[n - 1] != [] {
        PutMeaning(d, keys[n - 1], lists[n - 1]);
        PutValues(d, keys[n - 1], lists[n - 1]);
      }
    }
  }

  /** Every value of `Put(d, k, v)` is `v` or a value of `d`. */
  lemma PutValues<V>(d: Dict<Key, V>, k: Key, v: V)
    ensures forall e | e in Put(d, k, v) :: e == (k, v) || e in d
  {
    var i := IndexOf(d, k);
    var r := Put(d, k, v);
    forall e | e in r
      ensures e == (k, v) || e in d
    {
      var j :| 0 <= j < |r| && r[j] == e;
      if j < |d| && j != i {
        assert r[j] == d[j];
      }
    }
  }

  /** The dictionary has a key exactly for each key that comes with a nonempty list. */
  lemma {:induction false} GroupedKeys(keys: seq<Key>, lists: seq<seq<string>>, n: nat)
    requires n <= |keys| && n <= |lists|
    ensures forall k :: k in Keys(Grouped(keys, lists, n)) <==>
              exists i | 0 <= i < n :: keys[i] == k && lists[i] != []
  {
    if n > 0 {
      GroupedKeys(keys, lists, n - 1);
      GroupedDistinct(keys, lists, n - 1);
      if lists[n - 1] != [] {
        PutMeaning(Grouped(keys, lists, n - 1), keys[n - 1], lists[n - 1]);
      }
    }
  }

  /** Keys only ever join the dictionary at its end: a key already present keeps its place
      when a later list replaces its value. */
  lemma {:induction false} GroupedKeysGrow(keys: seq<Key>, lists: seq<seq<string>>, m: nat, n: nat)
    requires m <= n <= |keys| && n <= |lists|
    ensures Keys(Grouped(keys, lists, m)) <= Keys(Grouped(keys, lists, n))
  {
    if m < n {
      GroupedKeysGrow(keys, lists, m, n - 1);
      GroupedDistinct(keys, lists, n - 1);
      if lists[n - 1] != [] {
        PutMeaning(Grouped(keys, lists, n - 1), keys[n - 1], lists[n - 1]);
      }
    }
  }

  /** The list stored under a key is the last nonempty list that came with that key. */
  lemma {:induction false} GroupedLastWins(keys: seq<Key>, lists: seq<seq<string>>, n: nat, i: nat)
    requires n <= |keys| && n <= |lists| && i < n && lists[i] != []
    requires forall j | i < j < n :: keys[j] != keys[i] || lists[j] == []
    ensures Lookup(Grouped(keys, lists, n), keys[i]) == Some(lists[i])
  {
    var d := Grouped(keys, lists, n - 1);
    if n - 1 == i {
      PutLookup(d, keys[i], lists[i]);
    } else {
      GroupedLastWins(keys, lists, n - 1, i);
      if lists[n - 1] != [] {
        PutLookup(d, keys[n - 1], lists[n - 1]);
      }
    }
  }

  /** Every `(word, anchor_position)` pair scores. */
  predicate AllScore(es: seq<(string, Key)>) {
    forall k | 0 <= k < |es| :: Score(es[k].0, Some(es[k].1)).Ok?
  }

  /** Scoring the pairs succeeds exactly when every pair scores, and then yields each pair
      with its score, in order; otherwise it fails with the error of the first pair that does
      not score. */
  lemma {:induction false} ScoreEntriesMeaning(es: seq<(string, Key)>)
    ensures ScoreEntries(es).Ok? <==> AllScore(es)
    ensures ScoreEntries(es).Ok? ==>
              |ScoreEntries(es).value| == |es|
              && forall k | 0 <= k < |es| ::
                   ScoreEntries(es).value[k] == Entry(es[k].0, Score(es[k].0, Some(es[k].1)).value, es[k].1)
    ensures ScoreEntries(es).Err? ==>
              exists k | 0 <= k < |es| ::
                (forall j | 0 <= j < k :: Score(es[j].0, Some(es[j].1)).Ok?)
                && Score(es[k].0, Some(es[k].1)).Err?
                && ScoreEntries(es).error == Score(es[k].0, Some(es[k].1)).error
  {
    if es != [] {
      var n := |es| - 1;
      ScoreEntriesMeaning(es[..n]);
      assert forall k | 0 <= k < n :: es[..n][k] == es[k];
      if ScoreEntries(es[..n]).Err? {
        var k :| 0 <= k < n
                 && (forall j | 0 <= j < k :: Score(es[..n][j].0, Some(es[..n][j].1)).Ok?)
                 && Score(es[..n][k].0, Some(es[..n][k].1)).Err?
                 && ScoreEntries(es[..n]).error == Score(es[..n][k].0, Some(es[..n][k].1)).error;
        assert es[..n][k] == es[k];
      }
    }
  }

  /** The ranking succeeds exactly when every (word, key) entry scores; otherwise it fails
      with the error of the first entry that does not. */
  lemma RankedResultsFails(d: Dict<Key, seq<string>>)
    ensures RankedResults(d).Ok? <==> AllScore(Entries(d))
    ensures RankedResults(d).Err? ==>
              var es := Entries(d);
              exists k | 0 <= k < |es| ::
                (forall j | 0 <= j < k :: Score(es[j].0, Some(es[j].1)).Ok?)
                && Score(es[k].0, Some(es[k].1)).Err?
                && RankedResults(d).error == Score(es[k].0, Some(es[k].1)).error
  {
    var es := Entries(d);
    ScoreEntriesMeaning(es);
    assert RankedResults(d).Ok? == ScoreEntries(es).Ok?;
    if ScoreEntries(es).Err? {
      assert RankedResults(d) == Err(ScoreEntries(es).error);
    }
  }

  /** Numbering the sorted entries: ranks 1..n, non-increasing scores, the entries only
      reordered, and entries with equal scores in their original order. */
  lemma RankLinesMeaning(scored: seq<Entry>)
    ensures var sorted := SortDesc(scored, EntryScore);
            var lines := RankLines(sorted);
            Unranked(lines) == sorted
            && (forall i | 0 <= i < |lines| :: lines[i].rank == i + 1)
            && (forall i, j | 0 <= i < j < |lines| :: lines[i].score >= lines[j].score)
            && multiset(Unranked(lines)) == multiset(scored)
            && (forall v :: WithKey(Unranked(lines), EntryScore, v) == WithKey(scored, EntryScore, v))
  {
    var sorted := SortDesc(scored, EntryScore);
    assert Unranked(RankLines(sorted)) == sorted;
    SortDescSorted(scored, EntryScore);
    SortDescPermutation(scored, EntryScore);
    forall v
      ensures WithKey(sorted, EntryScore, v) == WithKey(scored, EntryScore, v)
    {
      SortDescStable(scored, EntryScore, v);
    }
  }

  /** When it succeeds, the ranking has one line per (word, key) entry, ranked 1..n, by
      non-increasing score, each with its own score; the entries are only reordered, and
      entries with equal scores keep the dictionary's order. */
  lemma RankedResultsMeaning(d: Dict<Key, seq<string>>)
    requires RankedResults(d).Ok?
    ensures var es := Entries(d);
            var lines := RankedResults(d).value;
            var scored := ScoreEntries(es).value;
            ScoreEntries(es).Ok?
            && |lines| == |es|
            && (forall i | 0 <= i < |lines| :: lines[i].rank == i + 1)
            && (forall i, j | 0 <= i < j < |lines| :: lines[i].score >= lines[j].score)
            && (forall i | 0 <= i < |lines| :: Score(lines[i].word, Some(lines[i].position)) == Ok(lines[i].score))
            && multiset(Unranked(lines)) == multiset(scored)
            && (forall v :: WithKey(Unranked(lines), EntryScore, v) == WithKey(scored, EntryScore, v))
  {
    var es := Entries(d);
    ScoreEntriesMeaning(es);
    var scored := ScoreEntries(es).value;
    var sorted := SortDesc(scored, EntryScore);
    assert RankedResults(d) == Ok(RankLines(sorted));
    RankLinesMeaning(scored);
    ReorderedEntriesScore(scored, sorted, es);
  }

  /** Any reordering of the scored entries still pairs each word and key with its score. */
  lemma ReorderedEntriesScore(scored: seq<Entry>, sorted: seq<Entry>, es: seq<(string, Key)>)
    requires ScoreEntries(es) == Ok(scored) && multiset(sorted) == multiset(scored)
    ensures forall i | 0 <= i < |sorted| :: Score(sorted[i].word, Some(sorted[i].position)) == Ok(sorted[i].score)
  {
    ScoreEntriesMeaning(es);
    forall i | 0 <= i < |sorted|
      ensures Score(sorted[i].word, Some(sorted[i].position)) == Ok(sorted[i].score)
    {
      assert sorted[i] in multiset(scored);
      var k :| 0 <= k < |scored| && scored[k] == sorted[i];
    }
  }

  /** The ranking lines as `(word, score, anchor_position)` triples. */
  function Unranked(lines: seq<RankedLine>): (r: seq<Entry>)
    ensures |r| == |lines|
  {
    seq(|lines|, i requires 0 <= i < |lines| => Entry(lines[i].word, lines[i].score, lines[i].position))
  }

  /** Every pair comes from an entry of the dictionary: its key is one of the keys. */
  lemma {:induction false} EntriesKeys(d: Dict<Key, seq<string>>)
    ensures forall k | 0 <= k < |Entries(d)| :: Entries(d)[k].1 in Keys(d)
  {
    if d != [] {
      var n := |d| - 1;
      EntriesKeys(d[..n]);
      var pre, last := Entries(d[..n]), Pairs(d[n].1, d[n].0);
      forall k | 0 <= k < |Entries(d)|
        ensures Entries(d)[k].1 in Keys(d)
      {
        if k < |pre| {
          var j :| 0 <= j < n && Keys(d[..n])[j] == pre[k].1;
          assert Keys(d)[j] == pre[k].1;
        } else {
          assert Entries(d)[k] == last[k - |pre|];
          assert Keys(d)[n] == d[n].0;
        }
      }
    }
  }

  /** An anchor whose relative anchor reaches past the room it allows after its letters
      lists no word. */
  lemma OverreachingListsNothing(shelf: string, anchor: Anchor, words: seq<string>)
    requires Anchors.Overreaching(anchor)
    ensures AnchorWords(shelf, anchor, words) == []
  {
    var rels := anchor.relativeAnchors.value;
    var k :| 0 <= k < |rels| && rels[k].offset + |rels[k].text| > |anchor.letters.value| + anchor.postfixPermitted.value;
    AnchorWordsMeaning(shelf, anchor, words);
    forall w | w in AnchorWords(shelf, anchor, words)
      ensures false
    {
      ReachBeyondPostfixNeverFits(w, anchor.letters.value, rels,
                                  anchor.prefixRequired.GetOr(0), anchor.prefixPermitted.GetOr(MAX_GRID),
                                  anchor.postfixRequired.GetOr(0), anchor.postfixPermitted.value, k);
    }
  }

  /** An anchor as a board scan produces it: on a square of the board, tagged with a scan
      direction, or untagged and then overreaching. */
  predicate Placeable(a: Anchor) {
    Anchors.OnBoard(a)
    && (a.position.value.dir.None? ==> Anchors.Overreaching(a))
    && (a.position.value.dir.Some? ==>
          a.position.value.dir.value == HORIZONTAL_ANCHOR_DIR || a.position.value.dir.value == VERTICAL_ANCHOR_DIR)
  }

  /** A key naming a square of the board and a scan direction. */
  predicate PlacedKey(key: Key) {
    key.At? && 1 <= key.pos.row <= MAX_GRID && 1 <= key.pos.col <= MAX_GRID
    && (key.pos.dir == Some(HORIZONTAL_ANCHOR_DIR) || key.pos.dir == Some(VERTICAL_ANCHOR_DIR))
  }

  /** Lower-casing the letters keeps an anchor placeable. */
  lemma LowerLettersPlaceable(anchors: seq<Anchor>)
    requires forall a | a in anchors :: Placeable(a)
    ensures forall i | 0 <= i < |anchors| :: Placeable(LowerLetters(anchors)[i])
  {
    forall i | 0 <= i < |anchors|
      ensures Placeable(LowerLetters(anchors)[i])
    {
      var a, b := anchors[i], LowerLetters(anchors)[i];
      assert a in anchors;
      if a.position.value.dir.None? {
        var rels := a.relativeAnchors.value;
        var k :| 0 <= k < |rels| && rels[k].offset + |rels[k].text| > |a.letters.value| + a.postfixPermitted.value;
        assert |b.letters.value| == |a.letters.value|;
      }
    }
  }

  /** From placeable anchors, every key of the anchored dictionary is a placed square. */
  lemma PlaceableAnchorsPlacedKeys(shelf: string, anchors: seq<Anchor>, words: seq<string>)
    requires HasLetters(anchors)
    requires forall i | 0 <= i < |anchors| :: Placeable(anchors[i])
    ensures forall key | key in Keys(AnchoredWords(shelf, anchors, words, |anchors|)) :: PlacedKey(key)
  {
    var keys, lists := AnchorKeys(anchors), AnchorLists(shelf, anchors, words);
    GroupedKeys(keys, lists, |anchors|);
    forall key | key in Keys(AnchoredWords(shelf, anchors, words, |anchors|))
      ensures PlacedKey(key)
    {
      var i :| 0 <= i < |anchors| && keys[i] == key && lists[i] != [];
      if anchors[i].position.value.dir.None? {
        OverreachingListsNothing(shelf, anchors[i], words);
      }
    }
  }

  /** With every key a placed square, ranking can only fail on a letter without a value. */
  lemma PlacedKeysFailOnlyOnUnknownLetters(d: Dict<Key, seq<string>>)
    requires forall key | key in Keys(d) :: PlacedKey(key)
    ensures RankedResults(d).Err? ==> RankedResults(d).error.UnknownLetter?
  {
    RankedResultsFails(d);
    EntriesKeys(d);
    if RankedResults(d).Err? {
      var es := Entries(d);
      var k :| 0 <= k < |es| && Score(es[k].0, Some(es[k].1)).Err?
               && RankedResults(d).error == Score(es[k].0, Some(es[k].1)).error;
      assert PlacedKey(es[k].1);
    }
  }

  /** On a board, every key of the anchored dictionary the solver builds from the board's own
      anchors is a square of the board with a direction tag, as the inner anchors, which carry
      none, list no word; ranking those words can then only fail on a letter without a point
      value. */
  lemma BoardRankingFailsOnlyOnUnknownLetters(grid: seq<seq<string>>, shelf: string, words: seq<string>)
    requires Anchors.Board(grid)
    ensures var anchors := LowerLetters(Anchors.GridAnchors(grid));
            HasLetters(anchors)
            && (forall key | key in Keys(AnchoredWords(Lower(shelf), anchors, words, |anchors|)) :: PlacedKey(key))
            && (RankedResults(AnchoredWords(Lower(shelf), anchors, words, |anchors|)).Err? ==>
                  RankedResults(AnchoredWords(Lower(shelf), anchors, words, |anchors|)).error.UnknownLetter?)
  {
    var given := Anchors.GridAnchors(grid);
    var anchors := LowerLetters(given);
    Anchors.GridAnchorsOnBoard(grid);
    LowerLettersMeaning(given);
    LowerLettersPlaceable(given);
    PlaceableAnchorsPlacedKeys(Lower(shelf), anchors, words);
    PlacedKeysFailOnlyOnUnknownLetters(AnchoredWords(Lower(shelf), anchors, words, |anchors|));
  }
}
