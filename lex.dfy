/**
 * Python's ordering of `str` values, which `sorted` uses: code points are
 * compared one by one, and a proper prefix comes before any of its extensions.
 */
module Lex {

  /** `a < b` on Python strings. */
  predicate Less(a: string, b: string)
    decreases |a|
  {
    if |a| == 0 then |b| > 0
    else if |b| == 0 then false
    else if a[0] != b[0] then a[0] < b[0]
    else Less(a[1..], b[1..])
  }

  /** The textbook definition: `a` is a proper prefix of `b`, or the first difference favours `a`. */
  ghost predicate LexBefore(a: string, b: string)
  {
    (|a| < |b| && a == b[..|a|])
    || exists k :: 0 <= k < |a| && k < |b| && a[..k] == b[..k] && a[k] < b[k]
  }

  lemma {:induction false} LessIrreflexive(a: string)
    ensures !Less(a, a)
    decreases |a|
  {
    if |a| > 0 {
      LessIrreflexive(a[1..]);
    }
  }

  lemma {:induction false} LessTransitive(a: string, b: string, c: string)
    requires Less(a, b) && Less(b, c)
    ensures Less(a, c)
    decreases |a|
  {
    if |a| > 0 && a[0] == b[0] && b[0] == c[0] {
      LessTransitive(a[1..], b[1..], c[1..]);
    }
  }

  lemma {:induction false} LessAsymmetric(a: string, b: string)
    requires Less(a, b)
    ensures !Less(b, a)
    decreases |a|
  {
    if |a| > 0 && a[0] == b[0] {
      LessAsymmetric(a[1..], b[1..]);
    }
  }

  /** Any two distinct strings are ordered one way or the other. */
  lemma {:induction false} LessTotal(a: string, b: string)
    ensures a == b || Less(a, b) || Less(b, a)
    decreases |a|
  {
    if |a| > 0 && |b| > 0 && a[0] == b[0] {
      LessTotal(a[1..], b[1..]);
      if a[1..] == b[1..] {
        assert a == [a[0]] + a[1..] && b == [b[0]] + b[1..];
      }
    }
  }

  /** The recursive comparison agrees with the textbook lexicographic order, in both directions. */
  lemma {:induction false} LessIsLexicographic(a: string, b: string)
    ensures Less(a, b) <==> LexBefore(a, b)
    decreases |a|
  {
    if |a| == 0 {
      assert LexBefore(a, b) ==> |b| > 0;
    } else if |b| == 0 {
      assert !LexBefore(a, b);
    } else if a[0] != b[0] {
      if a[0] < b[0] {
        assert a[..0] == b[..0];
      } else {
        if |a| < |b| {
          assert b[..|a|][0] == b[0];
        }
        forall k | 0 <= k < |a| && k < |b|
          ensures !(a[..k] == b[..k] && a[k] < b[k])
        {
          if k > 0 { assert a[..k][0] == a[0] && b[..k][0] == b[0]; }
        }
      }
    } else {
      LessIsLexicographic(a[1..], b[1..]);
      var a', b' := a[1..], b[1..];
      if LexBefore(a', b') {
        if |a'| < |b'| && a' == b'[..|a'|] {
          assert a == b[..|a|];
        } else {
          var k :| 0 <= k < |a'| && k < |b'| && a'[..k] == b'[..k] && a'[k] < b'[k];
          assert a[..k + 1] == b[..k + 1] by {
            assert a[..k + 1] == [a[0]] + a'[..k] && b[..k + 1] == [b[0]] + b'[..k];
          }
        }
      }
      if LexBefore(a, b) {
        if |a| < |b| && a == b[..|a|] {
          assert a' == b'[..|a'|];
        } else {
          var k :| 0 <= k < |a| && k < |b| && a[..k] == b[..k] && a[k] < b[k];
          assert k != 0;
          assert a'[..k - 1] == b'[..k - 1] by {
            assert a'[..k - 1] == a[..k][1..] && b'[..k - 1] == b[..k][1..];
          }
          assert a'[k - 1] < b'[k - 1];
        }
      }
    }
  }
}
