/**
 * The data preparation of the main program: the vocabulary is built from the
 * training documents only, indexed, and both data sets are vectorized with
 * the training vocabulary's map, so that validation-only tokens land in the
 * marker's slot.
 */
module Pipeline {
  import opened Corpus
  import opened Vocabulary
  import opened Indexer
  import opened Vectorizer

  /**
   * Lines 128-133. The loader lowercases every token, so no training token is
   * the upper-case marker; that is the one thing asked of the input.
   */
  method Prepare(train: seq<Example>, valid: seq<Example>)
    returns (vocab: WordSet, word2index: map<string, nat>, index2word: map<nat, string>,
             trainData: seq<Vectorized>, validData: seq<Vectorized>)
    requires forall i, j :: 0 <= i < |train| && 0 <= j < |train[i].document| ==> train[i].document[j] != Unk
    ensures fresh(vocab)
    ensures vocab.elems == Words(train) + {Unk}
    ensures word2index == Forward(Layout(Words(train))) && index2word == Inverse(Layout(Words(train)))
    ensures |vocab.elems| == |word2index| == |index2word|
    ensures |trainData| == |train| && |validData| == |valid|
    ensures forall k :: 0 <= k < |train| ==>
      trainData[k] == Vectorized(BagOfWords(train[k].document, word2index), train[k].goldLabel) &&
      |trainData[k].vector| == |vocab.elems|
    ensures forall k :: 0 <= k < |valid| ==>
      validData[k] == Vectorized(BagOfWords(valid[k].document, word2index), valid[k].goldLabel) &&
      |validData[k].vector| == |vocab.elems|
  {
    vocab := MakeVocab(train);
    assert Unk !in vocab.elems by {
      WordsAreOccurringTokens(train, Unk);
    }
    IndexMapsInvert(vocab.elems);
    LayoutIsIndexMap(vocab.elems);
    vocab, word2index, index2word := MakeIndices(vocab);
    trainData := ConvertToVectorRepresentation(train, word2index);
    validData := ConvertToVectorRepresentation(valid, word2index);
  }
}
