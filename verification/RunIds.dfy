/** Run identifiers: monitor, region, second and digest, joined by hyphens. */
module RunIds {
  import opened Times
  import opened Jobs
  import Regions

  /** What the scheduler takes from outside: the rendering of a second, the eight-character digest of a text and the
      32-bit hash of a monitor and its seed. */
  datatype Env = Env(stamp: int -> string, digest: string -> string, hash: (string, int) -> nat)

  ghost predicate NoHyphen(s: string) {
    forall i :: 0 <= i < |s| ==> s[i] != '-'
  }

  /** A calendar stamp is digits only and tells seconds apart; digests all have the same length. */
  ghost predicate ValidEnv(env: Env) {
    && (forall t: int :: NoHyphen(env.stamp(t)))
    && (forall t: int, u: int :: env.stamp(t) == env.stamp(u) ==> t == u)
    && (forall x: string :: |env.digest(x)| == 8)
    && (forall m: string, k: int :: env.hash(m, k) < 0x1_0000_0000)
  }

  function Place(monitor: string, region: string): string {
    monitor + "-" + region
  }

  function RunIdOf(env: Env, place: string, second: int): RunId {
    place + "-" + env.stamp(second) + "-" + env.digest(place + "-" + env.stamp(second))
  }

  /** generateRunID */
  function GenerateRunId(env: Env, monitor: string, region: string, at: Time): RunId {
    RunIdOf(env, Place(monitor, region), WholeSecond(at))
  }

  lemma LastHyphen(a: string, x: string, s: string, i: nat)
    requires NoHyphen(x) && s == a + "-" + x && i < |s|
    ensures s[|a|] == '-' && (|a| < i ==> s[i] != '-')
  {
    if |a| < i {
      assert s[i] == x[i - |a| - 1];
    }
  }

  /** A text with a hyphen-free tail splits in one way only. */
  lemma SplitAtLastHyphen(a: string, x: string, b: string, y: string)
    requires NoHyphen(x) && NoHyphen(y) && a + "-" + x == b + "-" + y
    ensures a == b && x == y
  {
    var s := a + "-" + x;
    LastHyphen(a, x, s, |b|);
    LastHyphen(b, y, s, |a|);
    assert a == s[..|a|] && b == s[..|b|];
    assert x == s[|a| + 1..] && y == s[|b| + 1..];
  }

  /** Two run ids are equal exactly when their joined monitor and region, and their seconds, are equal. */
  lemma RunIdEqual(env: Env, m: string, g: string, at: Time, m': string, g': string, at': Time)
    requires ValidEnv(env)
    ensures GenerateRunId(env, m, g, at) == GenerateRunId(env, m', g', at')
       <==> Place(m, g) == Place(m', g') && WholeSecond(at) == WholeSecond(at')
  {
    var p, p' := Place(m, g), Place(m', g');
    var x, x' := env.stamp(WholeSecond(at)), env.stamp(WholeSecond(at'));
    var d, d' := env.digest(p + "-" + x), env.digest(p' + "-" + x');
    var s, s' := p + "-" + x + "-" + d, p' + "-" + x' + "-" + d';
    assert s == GenerateRunId(env, m, g, at) && s' == GenerateRunId(env, m', g', at');
    if s == s' {
      assert p + "-" + x == s[..|s| - 9] == s'[..|s'| - 9] == p' + "-" + x';
      SplitAtLastHyphen(p, x, p', x');
    }
  }

  /** Within one monitor the joining is harmless. */
  lemma PlaceOfOneMonitor(m: string, g: string, g': string)
    ensures Place(m, g) == Place(m, g') <==> g == g'
  {
    assert Place(m, g)[|m| + 1..] == g && Place(m, g')[|m| + 1..] == g';
  }

  /** `id` is `m`, a hyphen, and something that a stored region can begin with. */
  predicate Continues(id: string, m: string) {
    m + "-" <= id && BeginsRegion(id[|m| + 1..])
  }

  predicate BeginsRegion(rest: string) {
    Regions.ToLower(rest) == rest && (rest == "" || !Regions.IsSpace(rest[0]))
  }

  predicate Apart(m: string, m': string) {
    m == m' || (!Continues(m, m') && !Continues(m', m))
  }

  lemma LowerParts(a: string, b: string)
    ensures Regions.ToLower(a + b) == a + b <==> Regions.ToLower(a) == a && Regions.ToLower(b) == b
  {
    var s := a + b;
    if Regions.ToLower(s) == s {
      forall i | 0 <= i < |a| ensures Regions.ToLower(a)[i] == a[i] {
        assert s[i] == a[i];
      }
      forall i | 0 <= i < |b| ensures Regions.ToLower(b)[i] == b[i] {
        assert s[|a| + i] == b[i];
      }
    } else if Regions.ToLower(a) == a && Regions.ToLower(b) == b {
      forall i | 0 <= i < |s| ensures Regions.ToLower(s)[i] == s[i] {
        assert s[i] == if i < |a| then a[i] else b[i - |a|];
      }
    }
  }

  lemma HyphenIsPlain()
    ensures Regions.ToLower("-") == "-" && !Regions.IsSpace('-')
  {
    assert Regions.ToLower("-")[0] == '-';
  }

  lemma LongerLower(rest: string, g: string)
    ensures Regions.ToLower(rest + "-" + g) == rest + "-" + g <==> Regions.ToLower(rest) == rest && Regions.ToLower(g) == g
  {
    HyphenIsPlain();
    hide Regions.ToLower;
    LowerParts(rest, "-" + g);
    LowerParts("-", g);
    assert rest + "-" + g == rest + ("-" + g);
  }

  lemma LongerEnds(rest: string, g: string)
    requires g != ""
    ensures var longer := rest + "-" + g;
            longer != "" && longer[0] == (if rest == "" then '-' else rest[0]) && longer[|longer| - 1] == g[|g| - 1]
  {
  }

  /** Putting a text and a hyphen before a stored region gives a stored region exactly when the text can begin one. */
  lemma LongerRegion(rest: string, g: string)
    requires Regions.Normal(g)
    ensures Regions.Normal(rest + "-" + g) <==> BeginsRegion(rest)
  {
    hide Regions.Normal, Regions.ToLower, Regions.IsSpace;
    Regions.NormalIff(g);
    Regions.NormalIff(rest + "-" + g);
    HyphenIsPlain();
    LongerLower(rest, g);
    LongerEnds(rest, g);
  }

  /** Equal places of different monitors: one id continues the other and its region takes up the rest. */
  lemma SamePlace(m: string, g: string, m': string, g': string)
    requires Place(m, g) == Place(m', g') && |m| < |m'|
    ensures m + "-" <= m' && g == m'[|m| + 1..] + "-" + g'
  {
    var p := Place(m, g);
    assert p[..|m| + 1] == m + "-" && p[..|m'|] == m';
    assert m'[..|m| + 1] == p[..|m| + 1];
    var rest := m'[|m| + 1..];
    assert m' == m + "-" + rest;
    assert g == p[|m| + 1..];
    assert p == m + "-" + (rest + "-" + g');
  }

  lemma SameLength(m: string, g: string, m': string, g': string)
    requires Place(m, g) == Place(m', g') && |m| == |m'|
    ensures m == m'
  {
    assert m == Place(m, g)[..|m|] && m' == Place(m', g')[..|m'|];
  }

  lemma PlacesApart(m: string, g: string, m': string, g': string)
    requires m != m' && Apart(m, m') && Regions.Normal(g) && Regions.Normal(g')
    ensures Place(m, g) != Place(m', g')
  {
    if Place(m, g) == Place(m', g') {
      if |m| < |m'| {
        SamePlace(m, g, m', g');
        LongerRegion(m'[|m| + 1..], g');
      } else if |m'| < |m| {
        SamePlace(m', g', m, g);
        LongerRegion(m[|m'| + 1..], g);
      } else {
        SameLength(m, g, m', g');
      }
    }
  }

  /** Stored regions with which two monitors get the same place. */
  lemma ClashingRegions(m: string, m': string) returns (g: string, g': string)
    requires Continues(m', m)
    ensures Regions.Normal(g) && Regions.Normal(g') && Place(m, g) == Place(m', g')
  {
    var rest := m'[|m| + 1..];
    g, g' := rest + "-" + Regions.GLOBAL, Regions.GLOBAL;
    Regions.GlobalIsNormal();
    Regions.FixedPoint(Regions.GLOBAL);
    LongerRegion(rest, g');
    assert m' == m + "-" + rest;
    assert Place(m, g) == m + "-" + (rest + "-" + g');
  }

  /** Two monitors can get one place with regions that are stored exactly when one id continues the other after a hyphen
      with something a region can begin with. */
  lemma PlaceClash(m: string, m': string)
    requires m != m'
    ensures Apart(m, m') <==> forall g, g' :: Regions.Normal(g) && Regions.Normal(g') ==> Place(m, g) != Place(m', g')
  {
    if Apart(m, m') {
      forall g, g' | Regions.Normal(g) && Regions.Normal(g') ensures Place(m, g) != Place(m', g') {
        PlacesApart(m, g, m', g');
      }
    } else if Continues(m', m) {
      var g, g' := ClashingRegions(m, m');
    } else {
      var g', g := ClashingRegions(m', m);
    }
  }
}
