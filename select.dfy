/** Stable selection over sequences of rows.

    Every filter of the application is a boolean mask applied to a table: the
    rows whose mask is true are kept, in table order, and nothing else about
    them changes. `Where` is that operation; `IsStableSelection` is an
    independent description of what a correct result looks like, and the
    lemmas below show that `Where` meets it, is the only sequence that does,
    and that masks compose by conjunction in any order. */
module Select {

  /** `r` can be obtained from `s` by deleting elements, keeping the rest in order. */
  predicate IsSubsequence<T(==)>(r: seq<T>, s: seq<T>)
    decreases |s|
  {
    if r == [] then true
    else if s == [] then false
    else (r[0] == s[0] && IsSubsequence(r[1..], s[1..])) || IsSubsequence(r, s[1..])
  }

  /** The rows of `s` for which `keep` holds, in their original order. */
  function Where<T(==,!new)>(s: seq<T>, keep: T -> bool): (r: seq<T>)
    ensures |r| <= |s|
    ensures IsSubsequence(r, s)
    ensures forall x :: x in r <==> x in s && keep(x)
    decreases |s|
  {
    if s == [] then []
    else
      var rest := Where(s[1..], keep);
      assert s == [s[0]] + s[1..];
      if keep(s[0]) then
        assert ([s[0]] + rest)[1..] == rest;
        [s[0]] + rest
      else
        rest
  }

  /** `f` applied to every row, in order (a whole-column rewrite). */
  function MapAll<T, U>(s: seq<T>, f: T -> U): (r: seq<U>)
    ensures |r| == |s|
    ensures forall i :: 0 <= i < |s| ==> r[i] == f(s[i])
    decreases |s|
  {
    if s == [] then [] else [f(s[0])] + MapAll(s[1..], f)
  }

  /** A correct result of a mask over `s`: a subsequence of `s` that holds every
      kept row exactly as often as `s` does, and no other row. */
  ghost predicate IsStableSelection<T(!new)>(s: seq<T>, r: seq<T>, keep: T -> bool)
  {
    && IsSubsequence(r, s)
    && forall x :: multiset(r)[x] == (if keep(x) then multiset(s)[x] else 0)
  }

  lemma {:induction false} SubsequenceReflexive<T>(s: seq<T>)
    ensures IsSubsequence(s, s)
    decreases |s|
  {
    if s != [] {
      SubsequenceReflexive(s[1..]);
    }
  }

  lemma {:induction false} SubsequenceTransitive<T>(a: seq<T>, b: seq<T>, c: seq<T>)
    requires IsSubsequence(a, b) && IsSubsequence(b, c)
    ensures IsSubsequence(a, c)
    decreases |c|
  {
    if a != [] {
      if b[0] == c[0] && IsSubsequence(b[1..], c[1..]) {
        if a[0] == b[0] && IsSubsequence(a[1..], b[1..]) {
          SubsequenceTransitive(a[1..], b[1..], c[1..]);
        } else {
          SubsequenceTransitive(a, b[1..], c[1..]);
        }
      } else {
        SubsequenceTransitive(a, b, c[1..]);
      }
    }
  }

  /** A subsequence never holds a row more often than the sequence it came from. */
  lemma {:induction false} SubsequenceMultiset<T>(r: seq<T>, s: seq<T>)
    requires IsSubsequence(r, s)
    ensures multiset(r) <= multiset(s)
    decreases |s|
  {
    if r != [] {
      assert s == [s[0]] + s[1..];
      if r[0] == s[0] && IsSubsequence(r[1..], s[1..]) {
        SubsequenceMultiset(r[1..], s[1..]);
        assert r == [r[0]] + r[1..];
      } else {
        SubsequenceMultiset(r, s[1..]);
      }
    }
  }

  /** `Where` is a stable selection: order kept, every kept row present as
      often as in the input, no other row. */
  lemma {:induction false} WhereIsStableSelection<T(!new)>(s: seq<T>, keep: T -> bool)
    ensures IsStableSelection(s, Where(s, keep), keep)
    decreases |s|
  {
    if s != [] {
      WhereIsStableSelection(s[1..], keep);
      assert s == [s[0]] + s[1..];
      var rest := Where(s[1..], keep);
      if keep(s[0]) {
        assert Where(s, keep) == [s[0]] + rest;
      } else {
        assert Where(s, keep) == rest;
      }
    }
  }

  /** A stable selection is unique: any sequence meeting the description is `Where`'s result. */
  lemma {:induction false} StableSelectionIsUnique<T(!new)>(s: seq<T>, r: seq<T>, keep: T -> bool)
    requires IsStableSelection(s, r, keep)
    ensures r == Where(s, keep)
    decreases |s|
  {
    if s == [] {
      assert r == [];
    } else {
      var h, t := s[0], s[1..];
      assert s == [h] + t;
      assert multiset(s)[h] == multiset(t)[h] + 1;
      if keep(h) {
        assert multiset(r)[h] >= 1;
        assert r != [];
        if !(r[0] == h && IsSubsequence(r[1..], t)) {
          SubsequenceMultiset(r, t);
          assert false;
        }
        assert r == [h] + r[1..];
        assert IsStableSelection(t, r[1..], keep);
        StableSelectionIsUnique(t, r[1..], keep);
      } else {
        assert multiset(r)[h] == 0;
        if r != [] && r[0] == h {
          assert false;
        }
        assert IsSubsequence(r, t);
        assert IsStableSelection(t, r, keep);
        StableSelectionIsUnique(t, r, keep);
      }
    }
  }

  /** Two masks with the same verdict on every row of `s` select the same rows. */
  lemma {:induction false} WhereCongruent<T(!new)>(s: seq<T>, p: T -> bool, q: T -> bool)
    requires forall x :: x in s ==> p(x) == q(x)
    ensures Where(s, p) == Where(s, q)
    decreases |s|
  {
    if s != [] {
      WhereCongruent(s[1..], p, q);
    }
  }

  /** Applying one mask after another is the same as applying their
      conjunction `both`. */
  lemma {:induction false} WhereWhere<T(!new)>(s: seq<T>, p: T -> bool, q: T -> bool, both: T -> bool)
    requires forall x :: x in s ==> both(x) == (p(x) && q(x))
    ensures Where(Where(s, p), q) == Where(s, both)
    decreases |s|
  {
    if s != [] {
      WhereWhere(s[1..], p, q, both);
      var rest := Where(s[1..], p);
      if p(s[0]) {
        assert Where(s, p) == [s[0]] + rest;
        assert ([s[0]] + rest)[1..] == rest;
      }
    }
  }

  /** Masks commute: the order in which two of them are applied does not matter. */
  lemma {:induction false} WhereCommutes<T(!new)>(s: seq<T>, p: T -> bool, q: T -> bool)
    ensures Where(Where(s, p), q) == Where(Where(s, q), p)
  {
    var both := x => p(x) && q(x);
    WhereWhere(s, p, q, both);
    WhereWhere(s, q, p, both);
  }

  /** A mask true on every row leaves the sequence unchanged. */
  lemma {:induction false} WhereKeepsAll<T(!new)>(s: seq<T>, keep: T -> bool)
    requires forall x :: x in s ==> keep(x)
    ensures Where(s, keep) == s
    decreases |s|
  {
    if s != [] {
      WhereKeepsAll(s[1..], keep);
      assert s == [s[0]] + s[1..];
    }
  }

  /** Selecting after a whole-column rewrite is selecting before it, with a
      mask `pre` that tests the rewritten value. */
  lemma {:induction false} WhereAfterMap<T(!new), U(!new)>(s: seq<T>, f: T -> U, keep: U -> bool, pre: T -> bool)
    requires forall x :: x in s ==> pre(x) == keep(f(x))
    ensures Where(MapAll(s, f), keep) == MapAll(Where(s, pre), f)
    decreases |s|
  {
    if s != [] {
      WhereAfterMap(s[1..], f, keep, pre);
      var m := MapAll(s[1..], f);
      assert MapAll(s, f) == [f(s[0])] + m;
      assert ([f(s[0])] + m)[1..] == m;
      var w := Where(s[1..], pre);
      if pre(s[0]) {
        assert Where(s, pre) == [s[0]] + w;
        assert ([s[0]] + w)[1..] == w;
      }
    }
  }
}
