/** Sequence operations the validation script relies on: JavaScript's
    `Array.prototype.filter`, and the order-preserving de-duplication
    `[...new Set(xs)]`, together with the facts the script needs about them. */
module Collections {

  /** A value that may be absent: JavaScript's `undefined` result of `find`. */
  datatype Option<+T> = None | Some(value: T)

  /** No element occurs twice. */
  predicate NoDuplicates<T(==)>(s: seq<T>) {
    forall i, j :: 0 <= i < j < |s| ==> s[i] != s[j]
  }

  /** Appending `x` keeps a list duplicate-free exactly when `x` is new. */
  lemma NoDuplicatesAppend<T>(s: seq<T>, x: T)
    ensures NoDuplicates(s + [x]) <==> NoDuplicates(s) && x !in s
  {
    var r := s + [x];
    if NoDuplicates(r) {
      forall i | 0 <= i < |s| ensures s[i] != x {
        assert r[i] == s[i] && r[|s|] == x;
      }
      forall i, j | 0 <= i < j < |s| ensures s[i] != s[j] {
        assert r[i] == s[i] && r[j] == s[j];
      }
    }
    if NoDuplicates(s) && x !in s {
      forall i, j | 0 <= i < j < |r| ensures r[i] != r[j] {
        if j == |s| {
          assert r[i] == s[i] && s[i] in s;
        }
      }
    }
  }

  /** `r` can be obtained from `s` by deleting elements, keeping the order. */
  predicate IsSubsequence<T(==)>(r: seq<T>, s: seq<T>)
    decreases |s|
  {
    |r| == 0 ||
    (|s| > 0 &&
     ((r[|r| - 1] == s[|s| - 1] && IsSubsequence(r[..|r| - 1], s[..|s| - 1])) ||
      IsSubsequence(r, s[..|s| - 1])))
  }

  /** `s.filter(p)`: the elements of `s` that satisfy `p`, in their order in `s`. */
  function Filter<T(==)>(p: T -> bool, s: seq<T>): (r: seq<T>)
    ensures |r| <= |s|
    ensures forall i :: 0 <= i < |r| ==> r[i] in s && p(r[i])
    ensures forall i :: 0 <= i < |s| && p(s[i]) ==> s[i] in r
  {
    if |s| == 0 then []
    else Filter(p, s[..|s| - 1]) + (if p(s[|s| - 1]) then [s[|s| - 1]] else [])
  }

  /** The filtered list keeps the order of the input. */
  lemma {:induction false} FilterIsSubsequence<T>(p: T -> bool, s: seq<T>)
    ensures IsSubsequence(Filter(p, s), s)
  {
    if |s| > 0 {
      var init, last := s[..|s| - 1], s[|s| - 1];
      FilterIsSubsequence(p, init);
      if p(last) {
        var f := Filter(p, init);
        var r := f + [last];
        assert Filter(p, s) == r;
        assert r[..|r| - 1] == f && r[|r| - 1] == last;
        assert s[..|s| - 1] == init;
      } else {
        assert Filter(p, s) == Filter(p, init);
        assert s[..|s| - 1] == init;
      }
    }
  }

  /** Every occurrence of a qualifying element survives, and nothing else does. */
  lemma {:induction false} FilterCounts<T>(p: T -> bool, s: seq<T>)
    ensures forall x :: multiset(Filter(p, s))[x] == if p(x) then multiset(s)[x] else 0
  {
    if |s| > 0 {
      var init, last := s[..|s| - 1], s[|s| - 1];
      FilterCounts(p, init);
      assert s == init + [last];
      assert multiset(s) == multiset(init) + multiset{last};
    }
  }

  /** Filtering distributes over concatenation. */
  lemma {:induction false} FilterAppend<T>(p: T -> bool, a: seq<T>, b: seq<T>)
    ensures Filter(p, a + b) == Filter(p, a) + Filter(p, b)
  {
    if |b| == 0 {
      assert a + b == a;
    } else {
      var b' := b[..|b| - 1];
      FilterAppend(p, a, b');
      assert (a + b)[..|a + b| - 1] == a + b';
      assert (a + b)[|a + b| - 1] == b[|b| - 1];
    }
  }

  /** The filtered list is empty exactly when no element qualifies. */
  lemma FilterEmpty<T>(p: T -> bool, s: seq<T>)
    ensures |Filter(p, s)| == 0 <==> forall i :: 0 <= i < |s| ==> !p(s[i])
  {
    if |Filter(p, s)| == 0 {
      forall i | 0 <= i < |s| ensures !p(s[i]) {
        assert s[i] in s;
      }
    } else {
      assert Filter(p, s)[0] in Filter(p, s);
    }
  }

  /** `[...new Set(s)]`: each element once, in the order a `Set` receives them,
      that is, in the order of their first occurrence in `s`. */
  function Dedupe<T(==)>(s: seq<T>): (r: seq<T>)
    ensures forall i :: 0 <= i < |r| ==> r[i] in s
    ensures forall i :: 0 <= i < |s| ==> s[i] in r
    ensures |r| <= |s|
  {
    if |s| == 0 then []
    else
      var d := Dedupe(s[..|s| - 1]);
      if s[|s| - 1] in d then d else d + [s[|s| - 1]]
  }

  /** Reference definition of first-occurrence order: keep `s[i]` exactly when
      it does not occur in `s[..i]`. */
  function FirstOccurrences<T(==)>(s: seq<T>): seq<T> {
    if |s| == 0 then []
    else
      FirstOccurrences(s[..|s| - 1]) +
      (if s[|s| - 1] in s[..|s| - 1] then [] else [s[|s| - 1]])
  }

  lemma {:induction false} DedupeIsFirstOccurrences<T>(s: seq<T>)
    ensures Dedupe(s) == FirstOccurrences(s)
  {
    if |s| > 0 {
      DedupeIsFirstOccurrences(s[..|s| - 1]);
    }
  }

  lemma {:induction false} DedupeNoDuplicates<T>(s: seq<T>)
    ensures NoDuplicates(Dedupe(s))
  {
    if |s| > 0 {
      var d := Dedupe(s[..|s| - 1]);
      DedupeNoDuplicates(s[..|s| - 1]);
      NoDuplicatesAppend(d, s[|s| - 1]);
    }
  }

  lemma {:induction false} DedupeIsSubsequence<T>(s: seq<T>)
    ensures IsSubsequence(Dedupe(s), s)
  {
    if |s| > 0 {
      var d := Dedupe(s[..|s| - 1]);
      DedupeIsSubsequence(s[..|s| - 1]);
      if s[|s| - 1] !in d {
        assert (d + [s[|s| - 1]])[..|d|] == d;
      }
    }
  }

  /** On a duplicate-free list de-duplication changes nothing. */
  lemma {:induction false} DedupeOfDistinct<T>(s: seq<T>)
    requires NoDuplicates(s)
    ensures Dedupe(s) == s
  {
    if |s| > 0 {
      var init := s[..|s| - 1];
      DedupeOfDistinct(init);
      assert s == init + [s[|s| - 1]];
      NoDuplicatesAppend(init, s[|s| - 1]);
    }
  }

  /** The script's duplicate test: the de-duplicated list is as long as the
      original exactly when the original has no repeated element. */
  lemma {:induction false} DedupeLength<T>(s: seq<T>)
    ensures |Dedupe(s)| == |s| <==> NoDuplicates(s)
  {
    if NoDuplicates(s) {
      DedupeOfDistinct(s);
    } else if |s| > 0 {
      var init, last := s[..|s| - 1], s[|s| - 1];
      DedupeLength(init);
      assert s == init + [last];
      NoDuplicatesAppend(init, last);
    }
  }

  /** De-duplicating twice is the same as de-duplicating once. */
  lemma DedupeIdempotent<T>(s: seq<T>)
    ensures Dedupe(Dedupe(s)) == Dedupe(s)
  {
    DedupeNoDuplicates(s);
    DedupeOfDistinct(Dedupe(s));
  }
}
