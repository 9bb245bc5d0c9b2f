/**
 * The vectorizer (`convert_to_vector_representation`): every document
 * becomes a count vector with one slot per entry of `word2index`, tokens
 * missing from the map are counted in the marker's slot, and the label is
 * carried over unchanged.
 */
module Vectorizer {
  import opened Corpus
  import opened Indexer

  /** A bag-of-words vector paired with the document's label. */
  datatype Vectorized = Vectorized(vector: seq<nat>, goldLabel: int)

  /**
   * What the conversion needs of `word2index` so that no lookup fails: the
   * marker is a key, and every index addresses a slot of a vector of length
   * `len(word2index)`.
   */
  predicate IsIndexMap(word2index: map<string, nat>)
  {
    Unk in word2index && forall w :: w in word2index ==> word2index[w] < |word2index|
  }

  ghost predicate Injective(word2index: map<string, nat>)
  {
    forall a, b :: a in word2index && b in word2index && a != b ==> word2index[a] != word2index[b]
  }

  /** `word2index.get(word, word2index[unk])` */
  function Slot(word2index: map<string, nat>, word: string): nat
    requires Unk in word2index
  {
    if word in word2index then word2index[word] else word2index[Unk]
  }

  /** How many tokens of `document` are counted in slot `i`. */
  function CountIn(document: seq<string>, word2index: map<string, nat>, i: nat): nat
    requires Unk in word2index
  {
    if document == [] then 0
    else
      CountIn(document[..|document| - 1], word2index, i)
      + (if Slot(word2index, document[|document| - 1]) == i then 1 else 0)
  }

  /** The count vector of a document: slot `i` holds `CountIn(document, word2index, i)`. */
  function BagOfWords(document: seq<string>, word2index: map<string, nat>): seq<nat>
    requires Unk in word2index
  {
    seq(|word2index|, (i: int) requires 0 <= i => CountIn(document, word2index, i))
  }

  /** How many tokens of `document` lie outside `known`. */
  function Unknowns(document: seq<string>, known: set<string>): nat
  {
    if document == [] then 0
    else Unknowns(document[..|document| - 1], known) + (if document[|document| - 1] in known then 0 else 1)
  }

  function Sum(s: seq<nat>): nat
  {
    if s == [] then 0 else Sum(s[..|s| - 1]) + s[|s| - 1]
  }

  /**
   * `convert_to_vector_representation(data, word2index)`: one pair per
   * document, in order, holding the document's count vector and its label.
   */
  method ConvertToVectorRepresentation(data: seq<Example>, word2index: map<string, nat>)
    returns (vectorized: seq<Vectorized>)
    requires IsIndexMap(word2index)
    ensures |vectorized| == |data|
    ensures forall k :: 0 <= k < |data| ==>
      vectorized[k].goldLabel == data[k].goldLabel &&
      |vectorized[k].vector| == |word2index| &&
      vectorized[k].vector == BagOfWords(data[k].document, word2index)
  {
    vectorized := [];
    for i := 0 to |data|
      invariant |vectorized| == i
      invariant forall k :: 0 <= k < i ==>
        vectorized[k] == Vectorized(BagOfWords(data[k].document, word2index), data[k].goldLabel)
    {
      var document := data[i].document;
      var vector := new nat[|word2index|](_ => 0);
      for j := 0 to |document|
        invariant forall s :: 0 <= s < vector.Length ==> vector[s] == CountIn(document[..j], word2index, s)
      {
        var index := Slot(word2index, document[j]);
        assert document[..j + 1][..j] == document[..j];
        vector[index] := vector[index] + 1;
      }
      assert document[..|document|] == document;
      assert vector[..] == BagOfWords(document, word2index);
      vectorized := vectorized + [Vectorized(vector[..], data[i].goldLabel)];
    }
  }

  lemma {:induction false} SumOfZeros(s: seq<nat>)
    requires forall i :: 0 <= i < |s| ==> s[i] == 0
    ensures Sum(s) == 0
  {
    if s != [] {
      SumOfZeros(s[..|s| - 1]);
    }
  }

  lemma {:induction false} SumIncrement(s: seq<nat>, k: nat)
    requires k < |s|
    ensures Sum(s[k := s[k] + 1]) == Sum(s) + 1
  {
    var t := s[k := s[k] + 1];
    if k < |s| - 1 {
      assert t[..|t| - 1] == s[..|s| - 1][k := s[k] + 1];
      SumIncrement(s[..|s| - 1], k);
    } else {
      assert t[..|t| - 1] == s[..|s| - 1];
    }
  }

  /** Counting one more token raises exactly the token's slot by one. */
  lemma BagOfWordsStep(document: seq<string>, word2index: map<string, nat>)
    requires IsIndexMap(word2index)
    requires document != []
    ensures var before := BagOfWords(document[..|document| - 1], word2index);
      var k := Slot(word2index, document[|document| - 1]);
      k < |before| && BagOfWords(document, word2index) == before[k := before[k] + 1]
  {
  }

  /** Counts are conserved: the entries of a document's vector add up to its length. */
  lemma {:induction false} BagSumIsLength(document: seq<string>, word2index: map<string, nat>)
    requires IsIndexMap(word2index)
    ensures Sum(BagOfWords(document, word2index)) == |document|
  {
    if document == [] {
      SumOfZeros(BagOfWords(document, word2index));
    } else {
      var init := document[..|document| - 1];
      BagSumIsLength(init, word2index);
      BagOfWordsStep(document, word2index);
      SumIncrement(BagOfWords(init, word2index), Slot(word2index, document[|document| - 1]));
    }
  }

  /** With an injective map, the slot of a known token other than the marker counts that token's occurrences. */
  lemma {:induction false} BagCountsKnownWord(document: seq<string>, word2index: map<string, nat>, w: string)
    requires IsIndexMap(word2index) && Injective(word2index)
    requires w in word2index && w != Unk
    ensures BagOfWords(document, word2index)[word2index[w]] == multiset(document)[w]
  {
    if document != [] {
      var init, x := document[..|document| - 1], document[|document| - 1];
      BagCountsKnownWord(init, word2index, w);
      assert document == init + [x];
      assert (Slot(word2index, x) == word2index[w]) == (x == w);
    }
  }

  /**
   * With an injective map, the marker's slot counts every token that is not a
   * key other than the marker itself: unknown tokens and literal markers.
   */
  lemma {:induction false} BagCountsMarker(document: seq<string>, word2index: map<string, nat>)
    requires IsIndexMap(word2index) && Injective(word2index)
    ensures BagOfWords(document, word2index)[word2index[Unk]] == Unknowns(document, word2index.Keys - {Unk})
  {
    if document != [] {
      var init, x := document[..|document| - 1], document[|document| - 1];
      BagCountsMarker(init, word2index);
      assert (Slot(word2index, x) == word2index[Unk]) == (x !in word2index.Keys - {Unk});
    }
  }

  /** A document made only of unknown tokens has one non-zero entry, in the marker's slot, equal to its length. */
  lemma {:induction false} AllUnknownDocument(document: seq<string>, word2index: map<string, nat>)
    requires IsIndexMap(word2index)
    requires forall j :: 0 <= j < |document| ==> document[j] !in word2index
    ensures forall i :: 0 <= i < |word2index| ==>
      BagOfWords(document, word2index)[i] == if i == word2index[Unk] then |document| else 0
  {
    if document != [] {
      var init := document[..|document| - 1];
      AllUnknownDocument(init, word2index);
      BagOfWordsStep(document, word2index);
    }
  }

  /** The maps built by `MakeIndices` from a marker-free vocabulary meet what the conversion needs. */
  lemma LayoutIsIndexMap(vocab: set<string>)
    requires Unk !in vocab
    ensures IsIndexMap(Forward(Layout(vocab))) && Injective(Forward(Layout(vocab)))
  {
    IndexMapsInvert(vocab);
    var list := Layout(vocab);
    LayoutShape(vocab);
    ForwardIsLastPosition(list);
    ForwardOfDistinct(list);
  }

  /**
   * For the maps built by `MakeIndices`: slot `i` below the marker's counts the
   * occurrences of `index2word[i]`, and the marker's slot, the last one,
   * counts every token outside the vocabulary.
   */
  lemma LayoutSlotCounts(vocab: set<string>, document: seq<string>)
    requires Unk !in vocab
    ensures IsIndexMap(Forward(Layout(vocab)))
    ensures |BagOfWords(document, Forward(Layout(vocab)))| == |vocab| + 1
    ensures forall i :: 0 <= i < |vocab| ==>
      i in Inverse(Layout(vocab)) &&
      BagOfWords(document, Forward(Layout(vocab)))[i] == multiset(document)[Inverse(Layout(vocab))[i]]
    ensures BagOfWords(document, Forward(Layout(vocab)))[|vocab|] == Unknowns(document, vocab)
  {
    var word2index, index2word := Forward(Layout(vocab)), Inverse(Layout(vocab));
    LayoutIsIndexMap(vocab);
    IndexMapsInvert(vocab);
    MarkerIndexIsLast(vocab);
    forall i | 0 <= i < |vocab|
      ensures i in index2word && BagOfWords(document, word2index)[i] == multiset(document)[index2word[i]]
    {
      var w := index2word[i];
      assert w in word2index && word2index[w] == i;
      BagCountsKnownWord(document, word2index, w);
    }
    BagCountsMarker(document, word2index);
    assert word2index.Keys - {Unk} == vocab;
  }
}
