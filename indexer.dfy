/**
 * The indexer (`make_indices`): the vocabulary is sorted in Python's string
 * order, the unknown-token marker is appended as the last element, and the
 * enumeration of that list fills the token-to-index and index-to-token
 * dictionaries. Finally the marker is added to the caller's set in place.
 */
module Indexer {
  import opened Corpus
  import opened Lex
  import opened Vocabulary

  /** `m` is the smallest element of `s`. */
  predicate IsLeast(m: string, s: set<string>)
  {
    m in s && forall x :: x in s && x != m ==> Less(m, x)
  }

  lemma {:induction false} LeastExists(s: set<string>)
    requires s != {}
    ensures exists m :: IsLeast(m, s)
    decreases |s|
  {
    var x :| x in s;
    if s == {x} {
      assert IsLeast(x, s);
    } else {
      var rest := s - {x};
      LeastExists(rest);
      var m :| IsLeast(m, rest);
      LessTotal(x, m);
      if Less(x, m) {
        forall y | y in s && y != x
          ensures Less(x, y)
        {
          if y != m { LessTransitive(x, m, y); }
        }
        assert IsLeast(x, s);
      } else {
        assert IsLeast(m, s);
      }
    }
  }

  lemma LeastUnique(s: set<string>)
    ensures forall a, b :: IsLeast(a, s) && IsLeast(b, s) ==> a == b
  {
    forall a, b | IsLeast(a, s) && IsLeast(b, s)
      ensures a == b
    {
      if a != b { LessAsymmetric(a, b); }
    }
  }

  ghost predicate StrictlySorted(list: seq<string>)
  {
    forall i, j :: 0 <= i < j < |list| ==> Less(list[i], list[j])
  }

  ghost predicate Distinct<T>(list: seq<T>)
  {
    forall i, j :: 0 <= i < |list| && 0 <= j < |list| && i != j ==> list[i] != list[j]
  }

  /**
   * `sorted(vocab)`: the elements of the set in ascending order, built by
   * taking the least element first.
   */
  function Sorted(s: set<string>): (r: seq<string>)
    ensures |r| == |s|
    ensures forall w :: w in r <==> w in s
    ensures StrictlySorted(r)
    decreases |s|
  {
    if s == {} then []
    else
      LeastExists(s);
      LeastUnique(s);
      var m :| IsLeast(m, s);
      var rest := Sorted(s - {m});
      assert forall j :: 0 <= j < |rest| ==> Less(m, rest[j]) by {
        forall j | 0 <= j < |rest| ensures Less(m, rest[j]) {
          assert rest[j] in s - {m};
        }
      }
      [m] + rest
  }

  lemma StrictlySortedIsDistinct(list: seq<string>)
    requires StrictlySorted(list)
    ensures Distinct(list)
  {
    forall i, j | 0 <= i < |list| && 0 <= j < |list| && i != j
      ensures list[i] != list[j]
    {
      if i < j {
        if list[i] == list[j] { LessIrreflexive(list[i]); }
      } else {
        if list[i] == list[j] { LessIrreflexive(list[j]); }
      }
    }
  }

  /**
   * The sorted layout does not depend on how it is computed: two ascending
   * lists with the same elements are equal.
   */
  lemma {:induction false} StrictlySortedUnique(a: seq<string>, b: seq<string>)
    requires StrictlySorted(a) && StrictlySorted(b)
    requires forall w :: w in a <==> w in b
    ensures a == b
    decreases |a|
  {
    if a == [] {
      assert forall k :: 0 <= k < |b| ==> b[k] in b;
    } else {
      assert a[0] in a;
      assert b != [];
      if a[0] != b[0] {
        assert b[0] in b;
        var i :| 0 <= i < |a| && a[i] == b[0];
        var j :| 0 <= j < |b| && b[j] == a[0];
        assert Less(a[0], a[i]);
        assert Less(b[0], b[j]);
        LessAsymmetric(a[0], b[0]);
        assert false;
      }
      StrictlySortedIsDistinct(a);
      StrictlySortedIsDistinct(b);
      forall w
        ensures w in a[1..] <==> w in b[1..]
      {
        if w in a[1..] {
          var i :| 1 <= i < |a| && a[i] == w;
          assert w in b && w != b[0];
        }
        if w in b[1..] {
          var j :| 1 <= j < |b| && b[j] == w;
          assert w in a && w != a[0];
        }
      }
      StrictlySortedUnique(a[1..], b[1..]);
      assert a == [a[0]] + a[1..] && b == [b[0]] + b[1..];
    }
  }

  /** Any ascending arrangement of the vocabulary is the one `Sorted` gives. */
  lemma SortedIsDeterministic(vocab: set<string>, list: seq<string>)
    requires StrictlySorted(list)
    requires forall w :: w in list <==> w in vocab
    ensures list == Sorted(vocab)
  {
    StrictlySortedUnique(list, Sorted(vocab));
  }

  /** `vocab_list`: the sorted vocabulary with the marker appended. */
  function Layout(vocab: set<string>): seq<string>
  {
    Sorted(vocab) + [Unk]
  }

  /** `word2index` after the enumeration loop has run over `list`; a later position overwrites an earlier one. */
  function Forward(list: seq<string>): map<string, nat>
  {
    if list == [] then map[]
    else Forward(list[..|list| - 1])[list[|list| - 1] := |list| - 1]
  }

  /** `index2word` after the enumeration loop has run over `list`. */
  function Inverse(list: seq<string>): map<nat, string>
  {
    if list == [] then map[]
    else Inverse(list[..|list| - 1])[|list| - 1 := list[|list| - 1]]
  }

  /** For any list, a token is mapped to its last position in the list. */
  lemma {:induction false} ForwardIsLastPosition(list: seq<string>)
    ensures forall w :: w in Forward(list) <==> w in list
    ensures forall w :: w in Forward(list) ==>
      Forward(list)[w] < |list| && list[Forward(list)[w]] == w &&
      forall j :: Forward(list)[w] < j < |list| ==> list[j] != w
  {
    if list != [] {
      var init := list[..|list| - 1];
      ForwardIsLastPosition(init);
      forall w
        ensures w in Forward(list) <==> w in list
      {
        if w in list && w != list[|list| - 1] {
          var k :| 0 <= k < |list| && list[k] == w;
          assert w == init[k];
        }
      }
    }
  }

  /** For any list, position `i` is mapped to the token at that position. */
  lemma {:induction false} InverseIsPosition(list: seq<string>)
    ensures forall i: nat :: i in Inverse(list) <==> i < |list|
    ensures forall i :: 0 <= i < |list| ==> Inverse(list)[i] == list[i]
    ensures |Inverse(list)| == |list|
  {
    if list != [] {
      InverseIsPosition(list[..|list| - 1]);
    }
  }

  /** On a list without repetitions, every token gets its own position and the map has one key per element. */
  lemma {:induction false} ForwardOfDistinct(list: seq<string>)
    requires Distinct(list)
    ensures forall i :: 0 <= i < |list| ==> list[i] in Forward(list) && Forward(list)[list[i]] == i
    ensures |Forward(list)| == |list|
  {
    ForwardIsLastPosition(list);
    if list != [] {
      var init := list[..|list| - 1];
      assert Distinct(init);
      ForwardOfDistinct(init);
      ForwardIsLastPosition(init);
      assert list[|list| - 1] !in Forward(init);
    }
  }

  lemma LayoutShape(vocab: set<string>)
    ensures |Layout(vocab)| == |vocab| + 1
    ensures Layout(vocab)[|vocab|] == Unk
    ensures forall w :: w in Layout(vocab) <==> w in vocab || w == Unk
    ensures Unk !in vocab ==> Distinct(Layout(vocab))
  {
    var sorted := Sorted(vocab);
    StrictlySortedIsDistinct(sorted);
    if Unk !in vocab {
      assert Unk !in sorted;
    }
  }

  /** On a list without repetitions the two maps invert each other. */
  lemma MapsInvertOnDistinct(list: seq<string>)
    requires Distinct(list)
    ensures forall i: nat :: i in Inverse(list) <==> i < |list|
    ensures forall w :: w in Forward(list) ==> Forward(list)[w] in Inverse(list) && Inverse(list)[Forward(list)[w]] == w
    ensures forall i :: i in Inverse(list) ==> Inverse(list)[i] in Forward(list) && Forward(list)[Inverse(list)[i]] == i
    ensures |Forward(list)| == |Inverse(list)| == |list|
  {
    ForwardIsLastPosition(list);
    InverseIsPosition(list);
    ForwardOfDistinct(list);
  }

  /**
   * Given a vocabulary without the marker, the two maps invert each other and
   * together form a bijection between the tokens plus the marker and `[0, V)`,
   * with `V = |vocab| + 1`.
   */
  lemma IndexMapsInvert(vocab: set<string>)
    requires Unk !in vocab
    ensures Forward(Layout(vocab)).Keys == vocab + {Unk}
    ensures forall i: nat :: i in Inverse(Layout(vocab)) <==> i < |vocab| + 1
    ensures forall w :: w in Forward(Layout(vocab)) ==>
      Forward(Layout(vocab))[w] in Inverse(Layout(vocab)) && Inverse(Layout(vocab))[Forward(Layout(vocab))[w]] == w
    ensures forall i :: i in Inverse(Layout(vocab)) ==>
      Inverse(Layout(vocab))[i] in Forward(Layout(vocab)) && Forward(Layout(vocab))[Inverse(Layout(vocab))[i]] == i
    ensures |Forward(Layout(vocab))| == |Inverse(Layout(vocab))| == |vocab + {Unk}| == |vocab| + 1
  {
    var layout := Layout(vocab);
    LayoutShape(vocab);
    assert Forward(layout).Keys == vocab + {Unk} by {
      ForwardIsLastPosition(layout);
    }
    MapsInvertOnDistinct(layout);
  }

  /** The marker takes the last index, `|vocab|`, and every other token of the vocabulary an index below it. */
  lemma MarkerIndexIsLast(vocab: set<string>)
    ensures Unk in Forward(Layout(vocab)) && Forward(Layout(vocab))[Unk] == |vocab|
    ensures forall w :: w in vocab && w != Unk ==> w in Forward(Layout(vocab)) && Forward(Layout(vocab))[w] < |vocab|
  {
    var list := Layout(vocab);
    LayoutShape(vocab);
    ForwardIsLastPosition(list);
  }

  /** Indices follow the sorted order, in both directions. */
  lemma IndicesFollowOrder(vocab: set<string>)
    requires Unk !in vocab
    ensures forall a, b :: a in vocab && b in vocab ==>
      a in Forward(Layout(vocab)) && b in Forward(Layout(vocab)) &&
      (Less(a, b) <==> Forward(Layout(vocab))[a] < Forward(Layout(vocab))[b])
  {
    var list := Layout(vocab);
    var sorted := Sorted(vocab);
    LayoutShape(vocab);
    ForwardOfDistinct(list);
    forall a, b | a in vocab && b in vocab
      ensures Less(a, b) <==> Forward(list)[a] < Forward(list)[b]
    {
      var i :| 0 <= i < |sorted| && sorted[i] == a;
      var j :| 0 <= j < |sorted| && sorted[j] == b;
      assert list[i] == a && list[j] == b;
      if i < j {
        LessAsymmetric(a, b);
      } else if i == j {
        LessIrreflexive(a);
      } else {
        assert Less(b, a);
        LessAsymmetric(b, a);
      }
    }
  }

  /**
   * Without the precondition of `IndexMapsInvert` the maps disagree: a marker
   * already in the vocabulary occupies two positions of the index-to-token map
   * but one key of the token-to-index map.
   */
  lemma MarkerAlreadyPresent(vocab: set<string>)
    requires Unk in vocab
    ensures |Forward(Layout(vocab))| == |vocab|
    ensures |Inverse(Layout(vocab))| == |vocab| + 1
  {
    var list := Layout(vocab);
    LayoutShape(vocab);
    ForwardIsLastPosition(list);
    InverseIsPosition(list);
    assert Forward(list).Keys == vocab;
  }

  /**
   * `make_indices(vocab)`: returns the same set object, now holding the marker,
   * and the two maps obtained by enumerating the layout.
   */
  method MakeIndices(vocab: WordSet) returns (result: WordSet, word2index: map<string, nat>, index2word: map<nat, string>)
    modifies vocab
    ensures result == vocab
    ensures vocab.elems == old(vocab.elems) + {Unk}
    ensures word2index == Forward(Layout(old(vocab.elems)))
    ensures index2word == Inverse(Layout(old(vocab.elems)))
  {
    var vocabList := Sorted(vocab.elems);
    vocabList := vocabList + [Unk];
    assert vocabList == Layout(vocab.elems);
    word2index, index2word := map[], map[];
    for index := 0 to |vocabList|
      invariant word2index == Forward(vocabList[..index])
      invariant index2word == Inverse(vocabList[..index])
    {
      var word := vocabList[index];
      assert vocabList[..index + 1][..index] == vocabList[..index];
      assert Forward(vocabList[..index + 1]) == word2index[word := index];
      assert Inverse(vocabList[..index + 1]) == index2word[index := word];
      word2index := word2index[word := index];
      index2word := index2word[index := word];
    }
    assert vocabList[..|vocabList|] == vocabList;
    vocab.Add(Unk);
    result := vocab;
  }
}
