/** `Vec::retain` as used at the end of each frame: keep exactly the
    elements the predicate accepts, in their original order. */
module Retention {

  /** The elements of `s` that `keep` accepts, in order. */
  function Filter<T>(s: seq<T>, keep: T -> bool): (r: seq<T>)
    ensures |r| <= |s|
  {
    if s == [] then []
    else if keep(s[|s| - 1]) then Filter(s[..|s| - 1], keep) + [s[|s| - 1]]
    else Filter(s[..|s| - 1], keep)
  }

  /** Exactly the accepted elements remain. */
  lemma {:induction false} FilterMember<T>(s: seq<T>, keep: T -> bool, x: T)
    ensures x in Filter(s, keep) <==> x in s && keep(x)
  {
    if s != [] {
      var init := s[..|s| - 1];
      FilterMember(init, keep, x);
      assert s == init + [s[|s| - 1]];
    }
  }

  /** Retaining a sequence with one more element at the end. */
  lemma FilterSnoc<T>(s: seq<T>, x: T, keep: T -> bool)
    ensures Filter(s + [x], keep) == Filter(s, keep) + (if keep(x) then [x] else [])
  {
    assert (s + [x])[..|s|] == s;
  }

  /** Retaining distributes over concatenation: together with the one-element
      case this fixes the result, and in particular its order. */
  lemma {:induction false} FilterAppend<T>(a: seq<T>, b: seq<T>, keep: T -> bool)
    ensures Filter(a + b, keep) == Filter(a, keep) + Filter(b, keep)
    decreases |b|
  {
    if b == [] {
      assert a + b == a;
    } else {
      var init, last := b[..|b| - 1], b[|b| - 1];
      assert b == init + [last];
      assert a + b == (a + init) + [last];
      FilterAppend(a, init, keep);
      FilterSnoc(a + init, last, keep);
      FilterSnoc(init, last, keep);
      var tail := if keep(last) then [last] else [];
      assert Filter(a + b, keep) == Filter(a, keep) + Filter(init, keep) + tail;
      assert Filter(b, keep) == Filter(init, keep) + tail;
    }
  }

  lemma FilterSingle<T>(x: T, keep: T -> bool)
    ensures Filter([x], keep) == if keep(x) then [x] else []
  {
    assert [x][..0] == [];
  }

  /** Survivors keep their relative order: an accepted element `s[i]` lands
      at position |Filter(s[..i])| of the result, and these positions grow with `i`. */
  lemma {:induction false} FilterOrder<T>(s: seq<T>, keep: T -> bool, i: int, j: int)
    requires 0 <= i < j < |s| && keep(s[i]) && keep(s[j])
    ensures |Filter(s[..i], keep)| < |Filter(s[..j], keep)| < |Filter(s, keep)|
    ensures Filter(s, keep)[|Filter(s[..i], keep)|] == s[i]
    ensures Filter(s, keep)[|Filter(s[..j], keep)|] == s[j]
  {
    FilterPlace(s, keep, i);
    FilterPlace(s, keep, j);
    assert s[..j] == s[..i] + s[i..j];
    FilterAppend(s[..i], s[i..j], keep);
    assert s[i..j] == [s[i]] + s[i + 1..j];
    FilterAppend([s[i]], s[i + 1..j], keep);
    FilterSingle(s[i], keep);
  }

  /** Where an accepted element lands. */
  lemma {:induction false} FilterPlace<T>(s: seq<T>, keep: T -> bool, i: int)
    requires 0 <= i < |s| && keep(s[i])
    ensures Filter(s, keep) == Filter(s[..i], keep) + [s[i]] + Filter(s[i + 1..], keep)
  {
    var pre, x, rest := s[..i], s[i], s[i + 1..];
    assert s == (pre + [x]) + rest;
    FilterAppend(pre + [x], rest, keep);
    FilterSnoc(pre, x, keep);
  }

  /** Retaining what is already all accepted changes nothing; in particular
      retaining twice is retaining once. */
  lemma {:induction false} FilterAllKept<T>(s: seq<T>, keep: T -> bool)
    requires forall i :: 0 <= i < |s| ==> keep(s[i])
    ensures Filter(s, keep) == s
  {
    if s != [] {
      FilterAllKept(s[..|s| - 1], keep);
      assert s == s[..|s| - 1] + [s[|s| - 1]];
    }
  }

  lemma {:induction false} FilterIdempotent<T>(s: seq<T>, keep: T -> bool)
    ensures Filter(Filter(s, keep), keep) == Filter(s, keep)
  {
    forall i | 0 <= i < |Filter(s, keep)| ensures keep(Filter(s, keep)[i]) {
      FilterMember(s, keep, Filter(s, keep)[i]);
    }
    FilterAllKept(Filter(s, keep), keep);
  }
}
