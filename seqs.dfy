/** The list operations the client uses: `Array.prototype.filter` and
    `Array.prototype.map`, with the facts the rest of the model relies on. */
module Seqs {

  /** `a` is an order-preserving subsequence of `b`. */
  predicate IsSubseq<T(==)>(a: seq<T>, b: seq<T>)
    decreases |b|
  {
    a == [] || (b != [] && ((a[0] == b[0] && IsSubseq(a[1..], b[1..])) || IsSubseq(a, b[1..])))
  }

  /** `s.filter(p)`: the elements of `s` that satisfy `p`, in their order. */
  function Filter<T>(p: T -> bool, s: seq<T>): (r: seq<T>)
    ensures |r| <= |s|
    ensures forall i :: 0 <= i < |r| ==> p(r[i])
    ensures forall i :: 0 <= i < |r| ==> r[i] in s
    ensures forall i :: 0 <= i < |s| && p(s[i]) ==> s[i] in r
  {
    if s == [] then []
    else if p(s[0]) then [s[0]] + Filter(p, s[1..])
    else Filter(p, s[1..])
  }

  /** `s.map(f)`. */
  function Map<A, B>(f: A -> B, s: seq<A>): (r: seq<B>)
    ensures |r| == |s|
    ensures forall i :: 0 <= i < |s| ==> r[i] == f(s[i])
  {
    seq(|s|, i requires 0 <= i < |s| => f(s[i]))
  }

  /** Filtering keeps the survivors in their original relative order. */
  lemma {:induction false} FilterIsSubseq<T>(p: T -> bool, s: seq<T>)
    ensures IsSubseq(Filter(p, s), s)
  {
    if s != [] {
      FilterIsSubseq(p, s[1..]);
      var r := Filter(p, s[1..]);
      if p(s[0]) {
        assert Filter(p, s) == [s[0]] + r;
        assert ([s[0]] + r)[1..] == r;
      } else {
        SubseqOfTail(r, s);
      }
    }
  }

  /** A subsequence of the tail is a subsequence of the whole. */
  lemma SubseqOfTail<T>(a: seq<T>, b: seq<T>)
    requires b != [] && IsSubseq(a, b[1..])
    ensures IsSubseq(a, b)
  {
  }

  /** Filtering keeps every copy of a satisfying value and no copy of any other:
      the result is exactly the multiset of survivors. */
  lemma {:induction false} FilterCount<T>(p: T -> bool, s: seq<T>, x: T)
    ensures multiset(Filter(p, s))[x] == if p(x) then multiset(s)[x] else 0
  {
    if s != [] {
      FilterCount(p, s[1..], x);
      assert s == [s[0]] + s[1..];
      assert multiset(s) == multiset([s[0]]) + multiset(s[1..]);
      if p(s[0]) {
        assert multiset(Filter(p, s)) == multiset([s[0]]) + multiset(Filter(p, s[1..]));
      }
    }
  }

  /** Order and counts together: the survivors, in order, with every copy of
      each satisfying value and no copy of any other. */
  lemma FilterExact<T>(p: T -> bool, s: seq<T>)
    ensures IsSubseq(Filter(p, s), s)
    ensures forall x :: multiset(Filter(p, s))[x] == if p(x) then multiset(s)[x] else 0
  {
    FilterIsSubseq(p, s);
    forall x ensures multiset(Filter(p, s))[x] == if p(x) then multiset(s)[x] else 0 {
      FilterCount(p, s, x);
    }
  }

  /** A filter that every element passes returns the list unchanged. */
  lemma {:induction false} FilterAllPass<T>(p: T -> bool, s: seq<T>)
    requires forall i :: 0 <= i < |s| ==> p(s[i])
    ensures Filter(p, s) == s
  {
    if s != [] {
      FilterAllPass(p, s[1..]);
      assert [s[0]] + s[1..] == s;
    }
  }

  /** Filtering twice with the same test is filtering once. */
  lemma FilterIdempotent<T>(p: T -> bool, s: seq<T>)
    ensures Filter(p, Filter(p, s)) == Filter(p, s)
  {
    FilterAllPass(p, Filter(p, s));
  }

  /** Filtering distributes over concatenation. */
  lemma {:induction false} FilterAppend<T>(p: T -> bool, a: seq<T>, b: seq<T>)
    ensures Filter(p, a + b) == Filter(p, a) + Filter(p, b)
  {
    if a == [] {
      assert a + b == b;
    } else {
      assert (a + b)[0] == a[0];
      assert (a + b)[1..] == a[1..] + b;
      FilterAppend(p, a[1..], b);
    }
  }

  /** Two filters commute. */
  lemma {:induction false} FilterCommutes<T>(p: T -> bool, q: T -> bool, s: seq<T>)
    ensures Filter(p, Filter(q, s)) == Filter(q, Filter(p, s))
  {
    if s != [] {
      FilterCommutes(p, q, s[1..]);
      var t := s[1..];
      if p(s[0]) && q(s[0]) {
        assert Filter(q, s) == [s[0]] + Filter(q, t);
        assert Filter(p, s) == [s[0]] + Filter(p, t);
        assert Filter(p, [s[0]] + Filter(q, t)) == [s[0]] + Filter(p, Filter(q, t)) by {
          assert ([s[0]] + Filter(q, t))[1..] == Filter(q, t);
        }
        assert Filter(q, [s[0]] + Filter(p, t)) == [s[0]] + Filter(q, Filter(p, t)) by {
          assert ([s[0]] + Filter(p, t))[1..] == Filter(p, t);
        }
      } else if q(s[0]) {
        assert Filter(q, s) == [s[0]] + Filter(q, t);
        assert ([s[0]] + Filter(q, t))[1..] == Filter(q, t);
      } else if p(s[0]) {
        assert Filter(p, s) == [s[0]] + Filter(p, t);
        assert ([s[0]] + Filter(p, t))[1..] == Filter(p, t);
      }
    }
  }
}
