/** `is_playable`: can a word be assembled from the letters on offer? */
module Playability {
  import opened Wrappers
  import opened Strings

  /** The second argument of `is_playable`: a shelf string, a letter-to-count dictionary, or a
      value of any other type. */
  datatype Letters = Text(s: string) | Counts(m: map<char, int>) | OtherValue

  /** The `ValueError` raised for an argument that is neither a string nor a dictionary. */
  datatype PlayError = InvalidLettersType

  /** `{k: s.count(k) for k in s}`. */
  function CountMap(s: string): (m: map<char, int>)
    ensures forall ch :: ch in m <==> ch in s
    ensures forall ch | ch in m :: m[ch] == Count(s, ch)
  {
    map k | k in s :: Count(s, k)
  }

  /** The loop over the word's letter breakdown, from position `i` on: each letter is on offer
      and `need` (the word's own counts) does not exceed what `have` offers. */
  function CoveredFrom(word: string, need: map<char, int>, have: map<char, int>, i: nat): bool
    requires forall ch | ch in word :: ch in need
    decreases |word| - i
  {
    i >= |word| || (word[i] in have && need[word[i]] <= have[word[i]] && CoveredFrom(word, need, have, i + 1))
  }

  lemma {:induction false} CoveredFromMeaning(word: string, need: map<char, int>, have: map<char, int>, i: nat)
    requires forall ch | ch in word :: ch in need
    ensures CoveredFrom(word, need, have, i) <==>
            forall k | i <= k < |word| :: word[k] in have && need[word[k]] <= have[word[k]]
    decreases |word| - i
  {
    if i < |word| {
      CoveredFromMeaning(word, need, have, i + 1);
    }
  }

  /** `is_playable(word, letters)`. */
  function IsPlayable(word: string, letters: Letters): (r: Result<bool, PlayError>)
    ensures r.Err? <==> letters.OtherValue?
    ensures letters.Counts? ==>
              r == Ok(forall ch | ch in word :: ch in letters.m && Count(word, ch) <= letters.m[ch])
  {
    match letters
    case OtherValue => Err(InvalidLettersType)
    case Text(s) => Ok(CoveredFrom(word, CountMap(word), CountMap(s), 0))
    case Counts(m) =>
      CoveredFromMeaning(word, CountMap(word), m, 0);
      Ok(CoveredFrom(word, CountMap(word), m, 0))
  }

  /** With a shelf string, a word is playable exactly when its letters form a sub-multiset of
      the shelf's: no letter is needed more often than the shelf holds it, and a letter absent
      from the shelf cannot be used at all. */
  lemma ShelfPlayableIffSubMultiset(word: string, shelf: string)
    ensures IsPlayable(word, Text(shelf)) == Ok(multiset(word) <= multiset(shelf))
  {
    var need, have := CountMap(word), CountMap(shelf);
    CoveredFromMeaning(word, need, have, 0);
    var covered := CoveredFrom(word, need, have, 0);
    if covered {
      forall ch
        ensures multiset(word)[ch] <= multiset(shelf)[ch]
      {
        CountIsMultiplicity(word, ch);
        CountIsMultiplicity(shelf, ch);
        if ch in word {
          var k :| 0 <= k < |word| && word[k] == ch;
          assert word[k] in have;
        }
      }
    } else {
      var k :| 0 <= k < |word| && !(word[k] in have && need[word[k]] <= have[word[k]]);
      var ch := word[k];
      CountIsMultiplicity(word, ch);
      CountIsMultiplicity(shelf, ch);
      assert multiset(word)[ch] > multiset(shelf)[ch];
    }
  }
}
