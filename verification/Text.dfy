/** Byte strings: lexicographic byte order, search and filtering.
    A `char` stands for one byte; keys are compared byte by byte, as in a "C" collation. */
module Text {

  datatype Option<+T> = None | Some(value: T)

  /** Strict lexicographic byte order, the order in which the database compares and sorts object keys. */
  predicate Less(a: string, b: string)
  {
    b != [] && (a == [] || a[0] < b[0] || (a[0] == b[0] && Less(a[1..], b[1..])))
  }

  lemma LessIrreflexive(a: string)
    ensures !Less(a, a)
  {
  }

  lemma {:induction false} LessTransitive(a: string, b: string, c: string)
    requires Less(a, b) && Less(b, c)
    ensures Less(a, c)
  {
    if a != [] && a[0] == b[0] == c[0] {
      LessTransitive(a[1..], b[1..], c[1..]);
    }
  }

  lemma {:induction false} LessTotal(a: string, b: string)
    ensures Less(a, b) || a == b || Less(b, a)
  {
    if a != [] && b != [] && a[0] == b[0] {
      LessTotal(a[1..], b[1..]);
      assert a == [a[0]] + a[1..] && b == [b[0]] + b[1..];
    }
  }

  /** Keys that share a prefix are contiguous in byte order. */
  lemma {:induction false} PrefixContiguous(p: string, a: string, b: string, c: string)
    requires p <= a && p <= c
    requires Less(a, b) && Less(b, c)
    ensures p <= b
  {
    if p == [] {
    } else {
      assert p[0] == a[0] == c[0];
      assert p[1..] <= a[1..] && p[1..] <= c[1..];
      PrefixContiguous(p[1..], a[1..], b[1..], c[1..]);
      assert p == [p[0]] + p[1..] && b == [b[0]] + b[1..];
    }
  }

  /** Two strings, neither a prefix of the other, are ordered like any of their extensions. */
  lemma {:induction false} LessByDivergence(p: string, q: string, a: string, b: string)
    requires p <= a && q <= b && Less(a, b)
    requires !(p <= q) && !(q <= p)
    ensures Less(p, q)
  {
    assert p[0] == a[0] && q[0] == b[0];
    if p[0] == q[0] {
      assert p[1..] <= a[1..] && q[1..] <= b[1..];
      assert p == [p[0]] + p[1..] && q == [q[0]] + q[1..];
      LessByDivergence(p[1..], q[1..], a[1..], b[1..]);
    }
  }

  /** Position of the first `c` in `s`, or |s| when there is none. */
  function IndexOf(s: string, c: char): (i: nat)
    ensures i <= |s|
    ensures forall k :: 0 <= k < i ==> s[k] != c
    ensures i < |s| ==> s[i] == c
  {
    if s == [] || s[0] == c then 0 else 1 + IndexOf(s[1..], c)
  }

  function Filter<T(!new)>(keep: T -> bool, s: seq<T>): (r: seq<T>)
    ensures forall x :: x in r <==> x in s && keep(x)
    ensures |r| <= |s|
  {
    if s == [] then []
    else if keep(s[0]) then [s[0]] + Filter(keep, s[1..])
    else Filter(keep, s[1..])
  }

  lemma {:induction false} FilterConcat<T(!new)>(keep: T -> bool, s: seq<T>, t: seq<T>)
    ensures Filter(keep, s + t) == Filter(keep, s) + Filter(keep, t)
  {
    if s == [] {
      assert s + t == t;
    } else {
      var front, rest := s + t, Filter(keep, s[1..]);
      assert front[0] == s[0] && front[1..] == s[1..] + t;
      FilterConcat(keep, s[1..], t);
      if keep(s[0]) {
        assert Filter(keep, front) == [s[0]] + (rest + Filter(keep, t)) == ([s[0]] + rest) + Filter(keep, t);
      } else {
        assert Filter(keep, front) == rest + Filter(keep, t);
      }
    }
  }

  lemma FilterSnoc<T(!new)>(keep: T -> bool, s: seq<T>, x: T)
    ensures Filter(keep, s + [x]) == if keep(x) then Filter(keep, s) + [x] else Filter(keep, s)
  {
    FilterConcat(keep, s, [x]);
  }

  lemma {:induction false} FilterNone<T(!new)>(keep: T -> bool, s: seq<T>)
    requires forall x :: x in s ==> !keep(x)
    ensures Filter(keep, s) == []
  {
    if s == [] {
    } else {
      FilterNone(keep, s[1..]);
    }
  }

  /** Filtering twice keeps what passes both tests. */
  lemma {:induction false} FilterFilter<T(!new)>(p: T -> bool, q: T -> bool, s: seq<T>)
    requires forall x :: x in s && q(x) ==> p(x)
    ensures Filter(q, Filter(p, s)) == Filter(q, s)
  {
    if s == [] {
    } else {
      FilterFilter(p, q, s[1..]);
      if p(s[0]) {
        assert Filter(p, s)[1..] == Filter(p, s[1..]);
      }
    }
  }

  lemma {:induction false} FilterAll<T(!new)>(keep: T -> bool, s: seq<T>)
    requires forall x :: x in s ==> keep(x)
    ensures Filter(keep, s) == s
  {
    if s == [] {
    } else {
      FilterAll(keep, s[1..]);
    }
  }
}
