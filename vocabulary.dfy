/**
 * The vocabulary builder (`make_vocab`): the set of distinct tokens that
 * occur in a labelled corpus. The set is a mutable Python `set`, which
 * `make_indices` later extends in place, so it is modelled as an object.
 */
module Vocabulary {
  import opened Corpus

  /** A mutable set of tokens, shared by reference like a Python `set`. */
  class WordSet {
    var elems: set<string>

    /** `set()` */
    constructor ()
      ensures elems == {}
    {
      elems := {};
    }

    /** `s.add(w)` */
    method Add(w: string)
      modifies this
      ensures elems == old(elems) + {w}
    {
      elems := elems + {w};
    }
  }

  /** The tokens of a document, as a set. */
  function Tokens(document: seq<string>): set<string>
  {
    set w | w in document
  }

  /** The tokens of every document of `data`, gathered document by document. */
  function Words(data: seq<Example>): set<string>
  {
    if data == [] then {} else Words(data[..|data| - 1]) + Tokens(data[|data| - 1].document)
  }

  /** Builds a fresh set holding every token of every document; labels play no part. */
  method MakeVocab(data: seq<Example>) returns (vocab: WordSet)
    ensures fresh(vocab)
    ensures vocab.elems == Words(data)
  {
    vocab := new WordSet();
    for i := 0 to |data|
      invariant vocab.elems == Words(data[..i])
    {
      var document := data[i].document;
      for j := 0 to |document|
        invariant vocab.elems == Words(data[..i]) + Tokens(document[..j])
      {
        assert Tokens(document[..j + 1]) == Tokens(document[..j]) + {document[j]} by {
          assert document[..j + 1] == document[..j] + [document[j]];
        }
        vocab.Add(document[j]);
      }
      assert data[..i + 1][..i] == data[..i];
      assert document[..|document|] == document;
    }
    assert data[..|data|] == data;
  }

  /** A token is in the vocabulary exactly when it occurs at some position of some document. */
  lemma {:induction false} WordsAreOccurringTokens(data: seq<Example>, w: string)
    ensures w in Words(data) <==>
      exists i, j :: 0 <= i < |data| && 0 <= j < |data[i].document| && data[i].document[j] == w
  {
    if data != [] {
      var init := data[..|data| - 1];
      WordsAreOccurringTokens(init, w);
      if w in Words(data) {
        if w in Words(init) {
          var i, j :| 0 <= i < |init| && 0 <= j < |init[i].document| && init[i].document[j] == w;
          assert data[i] == init[i];
        } else {
          var j :| 0 <= j < |data[|data| - 1].document| && data[|data| - 1].document[j] == w;
        }
      } else {
        forall i, j | 0 <= i < |data| && 0 <= j < |data[i].document|
          ensures data[i].document[j] != w
        {
          if i < |init| {
            assert data[i] == init[i];
          } else {
            assert data[i].document[j] in Tokens(data[|data| - 1].document);
          }
        }
      }
    }
  }

  /** Labels are ignored: corpora with the same documents have the same vocabulary. */
  lemma {:induction false} WordsIgnoreLabels(data: seq<Example>, other: seq<Example>)
    requires |data| == |other|
    requires forall i :: 0 <= i < |data| ==> data[i].document == other[i].document
    ensures Words(data) == Words(other)
  {
    if data != [] {
      WordsIgnoreLabels(data[..|data| - 1], other[..|other| - 1]);
    }
  }
}
