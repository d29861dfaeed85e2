/** SUM over a finite set, and summing group by group. */
module Sums {

  ghost function Sum<T(!new)>(s: set<T>, f: T -> nat): nat {
    if s == {} then 0 else
      var x :| x in s;
      f(x) + Sum(s - {x}, f)
  }

  /** The order of summing does not matter. */
  lemma {:induction false} SumRemove<T(!new)>(s: set<T>, f: T -> nat, x: T)
    requires x in s
    ensures Sum(s, f) == f(x) + Sum(s - {x}, f)
    decreases |s|
  {
    var y :| y in s && Sum(s, f) == f(y) + Sum(s - {y}, f);
    if y != x {
      SumRemove(s - {y}, f, x);
      assert s - {y} - {x} == s - {x} - {y};
      SumRemove(s - {x}, f, y);
    }
  }

  lemma {:induction false} SumSame<T(!new)>(s: set<T>, f: T -> nat, g: T -> nat)
    requires forall x :: x in s ==> f(x) == g(x)
    ensures Sum(s, f) == Sum(s, g)
  {
    if s != {} {
      var x :| x in s;
      SumRemove(s, f, x);
      SumRemove(s, g, x);
      SumSame(s - {x}, f, g);
    }
  }

  lemma {:induction false} SumSplit<T(!new)>(a: set<T>, b: set<T>, f: T -> nat)
    requires a !! b
    ensures Sum(a + b, f) == Sum(a, f) + Sum(b, f)
  {
    if a == {} {
      assert a + b == b;
    } else {
      var x :| x in a;
      SumRemove(a, f, x);
      SumRemove(a + b, f, x);
      SumSplit(a - {x}, b, f);
      assert a + b - {x} == (a - {x}) + b;
    }
  }

  ghost function Fiber<T(!new), G(!new)>(s: set<T>, key: T -> G, g: G): set<T> {
    set x | x in s && key(x) == g
  }

  /** Summing each group and then the groups is summing everything. */
  lemma {:induction false} SumGroups<T(!new), G(!new)>(s: set<T>, f: T -> nat, groups: set<G>, key: T -> G)
    requires forall x :: x in s ==> key(x) in groups
    ensures Sum(s, f) == Sum(groups, g => Sum(Fiber(s, key, g), f))
  {
    var sums := g => Sum(Fiber(s, key, g), f);
    if groups == {} {
      assert s == {};
    } else {
      var g :| g in groups;
      var rest := s - Fiber(s, key, g);
      SumSplit(Fiber(s, key, g), rest, f);
      assert Fiber(s, key, g) + rest == s;
      SumGroups(rest, f, groups - {g}, key);
      SumRemove(groups, sums, g);
      forall h | h in groups - {g} ensures sums(h) == (g' => Sum(Fiber(rest, key, g'), f))(h) {
        assert Fiber(rest, key, h) == Fiber(s, key, h);
      }
      SumSame(groups - {g}, sums, g' => Sum(Fiber(rest, key, g'), f));
    }
  }

  lemma {:induction false} SumOnes<T(!new)>(s: set<T>)
    ensures Sum(s, (x: T) => 1) == |s|
  {
    if s != {} {
      var x :| x in s;
      SumRemove(s, (y: T) => 1, x);
      SumOnes(s - {x});
    }
  }

  /** Counting group by group. */
  lemma CountGroups<T(!new), G(!new)>(s: set<T>, groups: set<G>, key: T -> G)
    requires forall x :: x in s ==> key(x) in groups
    ensures |s| == Sum(groups, g => |Fiber(s, key, g)|)
  {
    var ones := (x: T) => 1;
    SumGroups(s, ones, groups, key);
    SumOnes(s);
    forall g | g in groups ensures Sum(Fiber(s, key, g), ones) == |Fiber(s, key, g)| {
      SumOnes(Fiber(s, key, g));
    }
    SumSame(groups, g => Sum(Fiber(s, key, g), ones), g => |Fiber(s, key, g)|);
  }
}
