/** `get_indices_of_substr` and `fits_anchor`: where the anchor's letters occur in a
    candidate word, and whether one occurrence respects the anchor's constraints. */
module Matching {
  import opened Strings
  import opened AnchorModel

  /** `get_indices_of_substr(s, sub)`: every start index of `sub` in `s`, overlapping
      occurrences included, in strictly ascending order. */
  method IndicesOfSubstr(s: string, sub: string) returns (indices: seq<int>)
    ensures forall i :: i in indices <==> IsOccurrence(s, sub, i)
    ensures forall j, k | 0 <= j < k < |indices| :: indices[j] < indices[k]
  {
    indices := [];
    var start := 0;
    while true
      invariant start <= |s| + 1
      invariant forall i :: i in indices <==> IsOccurrence(s, sub, i) && i < start
      invariant forall j, k | 0 <= j < k < |indices| :: indices[j] < indices[k]
      invariant forall j | 0 <= j < |indices| :: indices[j] < start
      decreases |s| + 1 - start
    {
      var i := Find(s, sub, start);
      if i == -1 {
        break;
      }
      indices := indices + [i];
      start := i + 1;
    }
  }

  /** The relative anchor holds at occurrence `i`: its text lies inside the word at
      `i + offset`. */
  predicate RelativeAnchorHolds(word: string, i: int, ra: RelativeAnchor) {
    0 <= i + ra.offset && i + ra.offset + |ra.text| <= |word|
    && word[i + ra.offset..i + ra.offset + |ra.text|] == ra.text
  }

  /** Occurrence `i` of `sub` respects the four bounds on the text before and after it and
      every relative anchor. */
  predicate FitsAt(word: string, sub: string, rels: seq<RelativeAnchor>,
                   preReq: int, prePerm: int, postReq: int, postPerm: int, i: int)
  {
    preReq <= i <= prePerm
    && postReq <= |word| - |sub| - i <= postPerm
    && forall k | 0 <= k < |rels| :: RelativeAnchorHolds(word, i, rels[k])
  }

  /** Some occurrence of `sub` in `word` fits the anchor. */
  ghost predicate Fits(word: string, sub: string, rels: seq<RelativeAnchor>,
                       preReq: int, prePerm: int, postReq: int, postPerm: int)
  {
    exists i | IsOccurrence(word, sub, i) :: FitsAt(word, sub, rels, preReq, prePerm, postReq, postPerm, i)
  }

  /** `fits_anchor`: tries each occurrence in turn and answers as soon as one passes. */
  method FitsAnchor(word: string, sub: string, rels: seq<RelativeAnchor>,
                    preReq: int, prePerm: int, postReq: int, postPerm: int) returns (fits: bool)
    ensures fits <==> Fits(word, sub, rels, preReq, prePerm, postReq, postPerm)
  {
    var wordLen, subLen := |word|, |sub|;
    var occurrences := IndicesOfSubstr(word, sub);
    for n := 0 to |occurrences|
      invariant forall j | 0 <= j < n :: !FitsAt(word, sub, rels, preReq, prePerm, postReq, postPerm, occurrences[j])
    {
      var i := occurrences[n];
      var prefix, postfix := i, wordLen - subLen - i;
      if !(preReq <= prefix <= prePerm && postReq <= postfix <= postPerm) {
        continue;
      }
      var valid := true;
      for k := 0 to |rels|
        invariant valid
        invariant forall j | 0 <= j < k :: RelativeAnchorHolds(word, i, rels[j])
      {
        var start := i + rels[k].offset;
        var end := start + |rels[k].text|;
        if start < 0 || end > wordLen || word[start..end] != rels[k].text {
          valid := false;
          break;
        }
      }
      if valid {
        assert IsOccurrence(word, sub, i) && FitsAt(word, sub, rels, preReq, prePerm, postReq, postPerm, i);
        return true;
      }
    }
    return false;
  }

  /** "at" fits "chats" with up to two letters on either side: the occurrence at index 2
      leaves two letters before it and one after. */
  lemma ChatsFitsAt()
    ensures Fits("chats", "at", [], 0, 2, 0, 2)
  {
    assert IsOccurrence("chats", "at", 2) && FitsAt("chats", "at", [], 0, 2, 0, 2, 2);
  }

  /** A relative anchor that ends further right than the anchor's letters plus the whole
      permitted postfix can never be met: whatever the word and the occurrence, either the
      postfix bound or that relative anchor fails. */
  lemma ReachBeyondPostfixNeverFits(word: string, sub: string, rels: seq<RelativeAnchor>,
                                    preReq: int, prePerm: int, postReq: int, postPerm: int, k: int)
    requires 0 <= k < |rels| && rels[k].offset + |rels[k].text| > |sub| + postPerm
    ensures !Fits(word, sub, rels, preReq, prePerm, postReq, postPerm)
  {
    forall i | IsOccurrence(word, sub, i)
      ensures !FitsAt(word, sub, rels, preReq, prePerm, postReq, postPerm, i)
    {
      assert RelativeAnchorHolds(word, i, rels[k]) ==> |word| - |sub| - i > postPerm;
    }
  }
}
