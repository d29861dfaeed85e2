/** Region names as they are compared: trimmed, in lower case, "global" when nothing is left, and without repeats. */
module Regions {

  const GLOBAL: string := "global"

  predicate IsSpace(c: char) {
    c in {' ', '\t', '\n', '\r', '\U{000b}', '\U{000c}'}
  }

  function Lower(c: char): char {
    if 'A' <= c <= 'Z' then (c as int + 32) as char else c
  }

  function TrimLeft(s: string): (t: string)
    ensures t == "" || !IsSpace(t[0])
  {
    if s != "" && IsSpace(s[0]) then TrimLeft(s[1..]) else s
  }

  function TrimRight(s: string): (t: string)
    ensures t == "" || !IsSpace(t[|t| - 1])
    ensures t != "" ==> s != "" && t[0] == s[0]
  {
    if s != "" && IsSpace(s[|s| - 1]) then TrimRight(s[..|s| - 1]) else s
  }

  function ToLower(s: string): (t: string)
    ensures |t| == |s| && forall i :: 0 <= i < |s| ==> t[i] == Lower(s[i])
  {
    seq(|s|, i requires 0 <= i < |s| => Lower(s[i]))
  }

  lemma LowerKeepsSpace(c: char)
    ensures IsSpace(Lower(c)) <==> IsSpace(c)
    ensures Lower(Lower(c)) == Lower(c)
  {
  }

  lemma TrimmedFixed(s: string)
    requires s == "" || (!IsSpace(s[0]) && !IsSpace(s[|s| - 1]))
    ensures TrimRight(TrimLeft(s)) == s
  {
  }

  lemma LowerTwice(s: string)
    ensures ToLower(ToLower(s)) == ToLower(s)
  {
    forall i | 0 <= i < |s| ensures ToLower(ToLower(s))[i] == ToLower(s)[i] {
      LowerKeepsSpace(s[i]);
    }
  }

  function Trim(s: string): (t: string)
    ensures t == "" || (!IsSpace(t[0]) && !IsSpace(t[|t| - 1]))
  {
    TrimRight(TrimLeft(s))
  }

  function Normalize(region: string): string {
    var n := ToLower(Trim(region));
    if n == "" then GLOBAL else n
  }

  lemma GlobalIsNormal()
    ensures Trim(GLOBAL) == GLOBAL && ToLower(GLOBAL) == GLOBAL && GLOBAL != ""
  {
    TrimmedFixed(GLOBAL);
    assert forall i :: 0 <= i < 6 ==> Lower(GLOBAL[i]) == GLOBAL[i];
  }

  lemma FixedPoint(n: string)
    requires Trim(n) == n && ToLower(n) == n && n != ""
    ensures Normalize(n) == n
  {
  }

  lemma LoweredStaysTrimmed(t: string)
    requires t != "" && !IsSpace(t[0]) && !IsSpace(t[|t| - 1])
    ensures Trim(ToLower(t)) == ToLower(t) && ToLower(ToLower(t)) == ToLower(t) && ToLower(t) != ""
  {
    LowerKeepsSpace(t[0]);
    LowerKeepsSpace(t[|t| - 1]);
    LowerTwice(t);
    TrimmedFixed(ToLower(t));
  }

  /** A normalized name is a fixed point, so what a worker sends and what a monitor stores meet in one value. */
  lemma NormalizeIdempotent(region: string)
    ensures Normalize(region) != "" && Normalize(Normalize(region)) == Normalize(region)
  {
    var t := Trim(region);
    if t == "" {
      GlobalIsNormal();
      FixedPoint(GLOBAL);
    } else {
      LoweredStaysTrimmed(t);
      FixedPoint(ToLower(t));
    }
  }

  /** The characters that trimming takes off. */
  const SPACES := " \t\n\r\U{000b}\U{000c}"

  lemma {:induction false} LeftOfPadded(p: string, s: string)
    requires (forall c :: c in p ==> c in SPACES) && (s == "" || !IsSpace(s[0]))
    ensures TrimLeft(p + s) == s
  {
    if p == "" {
      assert p + s == s;
    } else {
      assert p[0] in SPACES && (p + s)[1..] == p[1..] + s;
      LeftOfPadded(p[1..], s);
    }
  }

  lemma {:induction false} RightOfPadded(s: string, q: string)
    requires (forall c :: c in q ==> c in SPACES) && (s == "" || !IsSpace(s[|s| - 1]))
    ensures TrimRight(s + q) == s
  {
    if q == "" {
      assert s + q == s;
    } else {
      var n := |q| - 1;
      assert q[n] in SPACES && (s + q)[..|s| + n] == s + q[..n];
      RightOfPadded(s, q[..n]);
    }
  }

  /** A name between spaces is stored in lower case and without them; spaces alone are stored as "global". */
  lemma NormalizePadded(p: string, name: string, q: string)
    requires forall c :: c in p + q ==> c in SPACES
    requires name == "" || (name[0] !in SPACES && name[|name| - 1] !in SPACES)
    ensures |name| > 0 ==> |Normalize(p + name + q)| == |name|
    ensures forall i :: 0 <= i < |name| ==> Normalize(p + name + q)[i] == Lower(name[i])
    ensures name == "" ==> Normalize(p + name + q) == "global"
  {
    if name == "" {
      assert p + name + q == (p + q) + "";
      LeftOfPadded(p + q, "");
    } else {
      assert p + name + q == p + (name + q);
      LeftOfPadded(p, name + q);
      RightOfPadded(name, q);
    }
  }

  lemma LowerIs(c: char)
    ensures var upper, lower := "ABCDEFGHIJKLMNOPQRSTUVWXYZ", "abcdefghijklmnopqrstuvwxyz";
            && (forall i :: 0 <= i < 26 && upper[i] == c ==> Lower(c) == lower[i])
            && (c !in upper ==> Lower(c) == c)
  {
    var upper := "ABCDEFGHIJKLMNOPQRSTUVWXYZ";
    if 'A' <= c <= 'Z' {
      var i := c as int - 'A' as int;
      assert upper[i] == c;
    }
  }

  /** The names that are stored: what normalizing yields. */
  predicate Normal(name: string) {
    Normalize(name) == name
  }

  /** A stored name is not empty, has no upper case and no space at either end, and any such name can be stored. */
  lemma NormalIff(name: string)
    ensures Normal(name) <==>
              name != "" && ToLower(name) == name && !IsSpace(name[0]) && !IsSpace(name[|name| - 1])
  {
    if Normal(name) {
      var t := Trim(name);
      GlobalIsNormal();
      if t != "" {
        LoweredStaysTrimmed(t);
        LowerKeepsSpace(t[0]);
        LowerKeepsSpace(t[|t| - 1]);
      }
    } else if name != "" && ToLower(name) == name && !IsSpace(name[0]) && !IsSpace(name[|name| - 1]) {
      TrimmedFixed(name);
    }
  }

  ghost predicate NoRepeats<T>(s: seq<T>) {
    forall i, j :: 0 <= i < j < |s| ==> s[i] != s[j]
  }

  /** The elements in order of first appearance. */
  function Distinct<T(==)>(s: seq<T>): seq<T> {
    if s == [] then [] else
      var done := Distinct(s[..|s| - 1]);
      if s[|s| - 1] in done then done else done + [s[|s| - 1]]
  }

  function Each(regions: seq<string>): (names: seq<string>)
    ensures |names| == |regions| && forall i :: 0 <= i < |regions| ==> names[i] == Normalize(regions[i])
  {
    seq(|regions|, i requires 0 <= i < |regions| => Normalize(regions[i]))
  }

  function Normalized(regions: seq<string>): seq<string> {
    Distinct(Each(regions))
  }

  method NormalizeList(regions: seq<string>) returns (result: seq<string>)
    ensures result == Normalized(regions)
  {
    if |regions| == 0 {
      return regions;
    }
    result := [];
    var seen: set<string> := {};
    ghost var names := Each(regions);
    for k := 0 to |regions|
      invariant result == Distinct(names[..k])
      invariant forall n :: n in seen <==> n in result
    {
      assert names[..k + 1][..k] == names[..k];
      var n := Normalize(regions[k]);
      if n !in seen {
        seen := seen + {n};
        result := result + [n];
      }
    }
    assert names[..|regions|] == names;
  }

  /** No element twice, exactly the given elements, and empty only for the empty sequence. */
  lemma {:induction false} DistinctIsSet<T>(s: seq<T>)
    ensures NoRepeats(Distinct(s))
    ensures forall x :: x in Distinct(s) <==> x in s
    ensures s != [] ==> Distinct(s) != []
  {
    if s != [] {
      var init := s[..|s| - 1];
      DistinctIsSet(init);
      assert s == init + [s[|s| - 1]];
    }
  }

  /** The list a monitor is stored with: every name normalized, none twice, nothing lost. */
  lemma NormalizedIsSet(regions: seq<string>)
    ensures NoRepeats(Normalized(regions))
    ensures forall n :: n in Normalized(regions) ==> Normal(n)
    ensures forall n :: n in Normalized(regions) <==> n in Each(regions)
    ensures regions != [] ==> Normalized(regions) != []
  {
    DistinctIsSet(Each(regions));
    forall n | n in Normalized(regions) ensures Normal(n) {
      var k :| 0 <= k < |regions| && Each(regions)[k] == n;
      NormalizeIdempotent(regions[k]);
    }
  }

  /** The list of a monitor that names no region. */
  lemma GlobalAlone()
    ensures Normalized([GLOBAL]) == [GLOBAL]
  {
    GlobalIsNormal();
    FixedPoint(GLOBAL);
    assert Each([GLOBAL]) == [GLOBAL];
    assert Distinct([GLOBAL][..0]) == [];
  }

  lemma {:induction false} DistinctFixed<T>(s: seq<T>)
    requires NoRepeats(s)
    ensures Distinct(s) == s
  {
    if s != [] {
      DistinctFixed(s[..|s| - 1]);
      assert s == s[..|s| - 1] + [s[|s| - 1]];
    }
  }

  /** Normalizing a stored list again changes nothing. */
  lemma NormalizedTwice(regions: seq<string>)
    ensures Normalized(Normalized(regions)) == Normalized(regions)
  {
    var once := Normalized(regions);
    NormalizedIsSet(regions);
    forall i | 0 <= i < |once| ensures Each(once)[i] == once[i] {
      assert once[i] in Each(regions);
      var k :| 0 <= k < |regions| && Normalize(regions[k]) == once[i];
      NormalizeIdempotent(regions[k]);
    }
    assert Each(once) == once;
    DistinctFixed(once);
  }
}
