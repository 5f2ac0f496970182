/** Sums over finite sets: independent of the order of summation. */
module Sums {

  ghost function Sum<K(!new)>(s: set<K>, f: K -> int): int
    decreases |s|
  {
    if s == {} then 0 else var x :| x in s; f(x) + Sum(s - {x}, f)
  }

  lemma {:induction false} SumRemove<K(!new)>(s: set<K>, f: K -> int, x: K)
    requires x in s
    ensures Sum(s, f) == f(x) + Sum(s - {x}, f)
    decreases |s|
  {
    var y :| y in s && Sum(s, f) == f(y) + Sum(s - {y}, f);
    if y != x {
      SumRemove(s - {y}, f, x);
      SumRemove(s - {x}, f, y);
      assert s - {y} - {x} == s - {x} - {y};
    }
  }

  lemma SumAdd<K(!new)>(s: set<K>, f: K -> int, x: K)
    requires x !in s
    ensures Sum(s + {x}, f) == f(x) + Sum(s, f)
  {
    SumRemove(s + {x}, f, x);
    assert s + {x} - {x} == s;
  }

  lemma {:induction false} SumSame<K(!new)>(s: set<K>, f: K -> int, g: K -> int)
    requires forall x :: x in s ==> f(x) == g(x)
    ensures Sum(s, f) == Sum(s, g)
    decreases |s|
  {
    if s == {} {
    } else {
      var x :| x in s;
      SumRemove(s, f, x);
      SumRemove(s, g, x);
      SumSame(s - {x}, f, g);
    }
  }

  lemma {:induction false} SumDisjoint<K(!new)>(a: set<K>, b: set<K>, f: K -> int)
    requires a !! b
    ensures Sum(a + b, f) == Sum(a, f) + Sum(b, f)
    decreases |a|
  {
    if a == {} {
      assert a + b == b;
    } else {
      var x :| x in a;
      SumRemove(a + b, f, x);
      SumRemove(a, f, x);
      assert a + b - {x} == (a - {x}) + b;
      SumDisjoint(a - {x}, b, f);
    }
  }

  ghost function Group<K(!new), G(!new)>(s: set<K>, group: K -> G, g: G): set<K>
  {
    set x | x in s && group(x) == g
  }

  /** Taking one group away splits the set, and leaves the other groups as they are. */
  lemma GroupSplit<K(!new), G(!new)>(s: set<K>, group: K -> G, g: G)
    ensures var rest := s - Group(s, group, g);
            && s == Group(s, group, g) + rest && Group(s, group, g) !! rest
            && (forall x :: x in rest ==> group(x) != g)
            && (forall h :: h != g ==> Group(s, group, h) == Group(rest, group, h))
  {
  }

  lemma SumEmpty<K(!new)>(f: K -> int)
    ensures Sum({}, f) == 0
  {
  }

  /** Summing group by group gives the total. */
  lemma {:induction false} SumGroups<K(!new), G(!new)>(s: set<K>, group: K -> G, groups: set<G>, f: K -> int)
    requires forall x :: x in s ==> group(x) in groups
    ensures Sum(groups, (g: G) => Sum(Group(s, group, g), f)) == Sum(s, f)
    decreases |groups|
  {
    hide Sum, Group;
    var total := (g: G) => Sum(Group(s, group, g), f);
    if groups == {} {
      assert s == {};
      SumEmpty(total);
      SumEmpty(f);
    } else {
      var g :| g in groups;
      var rest := s - Group(s, group, g);
      var total' := (h: G) => Sum(Group(rest, group, h), f);
      GroupSplit(s, group, g);
      SumRemove(groups, total, g);
      SumGroups(rest, group, groups - {g}, f);
      SumSame(groups - {g}, total, total');
      SumDisjoint(Group(s, group, g), rest, f);
    }
  }

  lemma {:induction false} SumOfOnes<K(!new)>(s: set<K>)
    ensures Sum(s, (x: K) => 1) == |s|
    decreases |s|
  {
    if s == {} {
    } else {
      var x :| x in s;
      SumRemove(s, (x: K) => 1, x);
      SumOfOnes(s - {x});
    }
  }
}
