/** Sequence helpers shared by the cache policies and the entry store:
    removal of one value, duplicate-freedom and the subsequence order. */
module Seqs {

  /** No value occurs twice in `s`. */
  ghost predicate Distinct<T>(s: seq<T>) {
    forall i, j :: 0 <= i < j < |s| ==> s[i] != s[j]
  }

  /** `s` without any occurrence of `x`; the other values keep their order. */
  function Remove<T(==)>(s: seq<T>, x: T): (r: seq<T>)
    ensures forall i :: 0 <= i < |r| ==> r[i] in s && r[i] != x
    ensures forall i :: 0 <= i < |s| && s[i] != x ==> s[i] in r
    ensures |r| <= |s|
    ensures x !in s ==> r == s
    ensures Distinct(s) ==> Distinct(r)
    ensures Distinct(s) && x in s ==> |r| == |s| - 1
  {
    if s == [] then []
    else if s[0] == x then Remove(s[1..], x)
    else
      var t := Remove(s[1..], x);
      DistinctSplit(s);
      DistinctPrepend(s[0], t);
      [s[0]] + t
  }

  /** The tail of a duplicate-free sequence is duplicate-free and does not
      hold the head. */
  lemma DistinctSplit<T>(s: seq<T>)
    requires s != []
    ensures Distinct(s) ==> Distinct(s[1..]) && s[0] !in s[1..]
  {
  }

  /** Putting a value that does not occur in front keeps a sequence
      duplicate-free. */
  lemma DistinctPrepend<T>(x: T, t: seq<T>)
    ensures Distinct(t) && x !in t ==> Distinct([x] + t)
  {
  }

  /** Removing a value from a concatenation removes it from both parts. */
  lemma {:induction false} RemoveAppend<T>(a: seq<T>, b: seq<T>, x: T)
    ensures Remove(a + b, x) == Remove(a, x) + Remove(b, x)
  {
    if a == [] {
      assert a + b == b;
    } else {
      assert (a + b)[1..] == a[1..] + b;
      RemoveAppend(a[1..], b, x);
    }
  }

  /** `a` is `b` with some elements left out: every element of `a` occurs in
      `b`, and in the same relative order. */
  ghost predicate Subseq<T>(a: seq<T>, b: seq<T>)
    decreases |b|
  {
    a == [] || (b != [] && ((a[0] == b[0] && Subseq(a[1..], b[1..])) || Subseq(a, b[1..])))
  }

  /** Appending the same element to both sides keeps the order relation. */
  lemma {:induction false} SubseqAppendBoth<T>(a: seq<T>, b: seq<T>, x: T)
    requires Subseq(a, b)
    ensures Subseq(a + [x], b + [x])
    decreases |b|
  {
    if b == [] {
      assert a == [];
      assert a + [x] == b + [x] == [x];
      assert Subseq([x][1..], [x][1..]);
    } else {
      assert (b + [x])[1..] == b[1..] + [x];
      if a == [] {
        SubseqAppendBoth(a, b[1..], x);
        assert Subseq(a + [x], (b + [x])[1..]);
      } else {
        assert (a + [x])[1..] == a[1..] + [x];
        if a[0] == b[0] && Subseq(a[1..], b[1..]) {
          SubseqAppendBoth(a[1..], b[1..], x);
        } else {
          SubseqAppendBoth(a, b[1..], x);
        }
      }
    }
  }

  /** Appending an element to the larger side keeps the order relation. */
  lemma {:induction false} SubseqAppendRight<T>(a: seq<T>, b: seq<T>, x: T)
    requires Subseq(a, b)
    ensures Subseq(a, b + [x])
    decreases |b|
  {
    if a != [] {
      assert (b + [x])[1..] == b[1..] + [x];
      if a[0] == b[0] && Subseq(a[1..], b[1..]) {
        SubseqAppendRight(a[1..], b[1..], x);
      } else {
        SubseqAppendRight(a, b[1..], x);
      }
    }
  }

  lemma {:induction false} SubseqTrans<T>(a: seq<T>, b: seq<T>, c: seq<T>)
    requires Subseq(a, b) && Subseq(b, c)
    ensures Subseq(a, c)
    decreases |c|
  {
    if a != [] {
      assert b != [] && c != [];
      if b[0] == c[0] && Subseq(b[1..], c[1..]) {
        if a[0] == b[0] && Subseq(a[1..], b[1..]) {
          SubseqTrans(a[1..], b[1..], c[1..]);
        } else {
          SubseqTrans(a, b[1..], c[1..]);
        }
      } else {
        SubseqTrans(a, b, c[1..]);
      }
    }
  }

  /** Removing a value leaves a subsequence of the original. */
  lemma {:induction false} RemoveSubseq<T>(s: seq<T>, x: T)
    ensures Subseq(Remove(s, x), s)
  {
    if s != [] {
      RemoveSubseq(s[1..], x);
      if s[0] != x {
        assert Remove(s, x)[1..] == Remove(s[1..], x);
      }
    }
  }

  /** The last `n` values of `s`, or all of `s` when it is shorter. */
  function Newest<T>(s: seq<T>, n: nat): (r: seq<T>)
    ensures |r| == if |s| < n then |s| else n
    ensures forall i :: 0 <= i < |r| ==> r[i] == s[|s| - |r| + i]
  {
    if |s| <= n then s else s[|s| - n..]
  }

  /** Keeping the last `n` values after each append is keeping the last `n`
      of everything appended. */
  lemma NewestAppend<T>(s: seq<T>, x: T, n: nat)
    requires 0 < n
    ensures Newest(Newest(s, n) + [x], n) == Newest(s + [x], n)
  {
  }
}
