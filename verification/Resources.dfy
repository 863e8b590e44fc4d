/** Resource indicators of RFC 8707: which are valid, and which are contained in which. */
module Resources {

  /** A parsed URI. With a network location its path is empty or starts with a slash. */
  datatype Url = Url(scheme: string, netloc: string, path: string, fragment: string)

  predicate Parsed(u: Url) {
    u.netloc != "" && u.path != "" ==> u.path[0] == '/'
  }

  datatype Verdict = Valid | NotAbsolute | HasFragment | NotNormalized

  // ---------- Paths ----------

  predicate SlashFree(s: string) {
    '/' !in s
  }

  function Split(s: string): (r: seq<string>)
    ensures r != [] && forall c :: c in r ==> SlashFree(c)
  {
    if s == "" then [""]
    else
      var r := Split(s[1..]);
      if s[0] == '/' then [""] + r
      else
        var head := [s[0]] + r[0];
        assert r[0] in r && SlashFree(head) && forall c :: c in r[1..] ==> c in r;
        [head] + r[1..]
  }

  function Join(comps: seq<string>): string {
    if comps == [] then ""
    else if |comps| == 1 then comps[0]
    else comps[0] + "/" + Join(comps[1..])
  }

  function Last(comps: seq<string>): string
    requires comps != []
  {
    comps[|comps| - 1]
  }

  /** What `posixpath.normpath` keeps of the components of a path. */
  function Collapse(comps: seq<string>, rooted: bool): seq<string> {
    if comps == [] then []
    else
      var kept, c := Collapse(comps[..|comps| - 1], rooted), Last(comps);
      if c == "" || c == "." then kept
      else if c != ".." || (!rooted && kept == []) || (kept != [] && Last(kept) == "..") then kept + [c]
      else if kept != [] then kept[..|kept| - 1]
      else kept
  }

  /** Two leading slashes are special, but not three. */
  function Root(path: string): string {
    if !("/" <= path) then ""
    else if "//" <= path && !("///" <= path) then "//"
    else "/"
  }

  function NormPath(path: string): string {
    if path == "" then "."
    else
      var r := Root(path) + Join(Collapse(Split(path), Root(path) != ""));
      if r == "" then "." else r
  }

  predicate HasDoubleSlash(s: string) {
    |s| >= 2 && ((s[0] == '/' && s[1] == '/') || HasDoubleSlash(s[1..]))
  }

  /** `validate_resources`, for one resource. */
  function Validate(u: Url): Verdict {
    if u.scheme == "" || u.netloc == "" then NotAbsolute
    else if u.fragment != "" then HasFragment
    else if u.path != "" && NormPath(u.path) != u.path then NotNormalized
    else if HasDoubleSlash(u.path) then NotNormalized
    else Valid
  }

  function StripSlashes(s: string): string {
    if s != "" && s[|s| - 1] == '/' then StripSlashes(s[..|s| - 1]) else s
  }

  /** `_is_contained_by`. */
  predicate IsContainedBy(r: Url, g: Url) {
    && r.scheme == g.scheme && r.netloc == g.netloc
    && (r.path == g.path || StripSlashes(g.path) + "/" <= r.path)
  }

  /** `is_resources_subset`; no resources at all means any. */
  predicate IsSubset(requested: seq<Url>, granted: seq<Url>) {
    granted == [] || requested == []
    || forall r :: r in requested ==> exists g :: g in granted && IsContainedBy(r, g)
  }

  // ---------- Segments ----------

  function Segments(path: string): seq<string> {
    if path == "" || path == "/" then [] else Split(path[1..])
  }

  predicate Clean(segments: seq<string>) {
    forall s :: s in segments ==> s != "" && s != "." && s != ".."
  }

  lemma {:induction false} JoinOfSplit(s: string)
    ensures Join(Split(s)) == s
  {
    if s != "" {
      var r := Split(s[1..]);
      JoinOfSplit(s[1..]);
      assert s == [s[0]] + s[1..];
      if s[0] == '/' {
        assert ([""] + r)[1..] == r;
      } else {
        var head := [s[0]] + r[0];
        assert ([head] + r[1..])[1..] == r[1..];
        if |r| > 1 {
          assert Join(Split(s)) == head + "/" + Join(r[1..]);
        }
      }
    }
  }

  lemma {:induction false} SplitOfHead(c: string, rest: string)
    requires SlashFree(c)
    ensures Split(c) == [c]
    ensures Split(c + "/" + rest) == [c] + Split(rest)
  {
    var s := c + "/" + rest;
    if c == "" {
      assert s[0] == '/' && s[1..] == rest;
    } else {
      assert c[0] in c && forall d :: d in c[1..] ==> d in c;
      SplitOfHead(c[1..], rest);
      assert s[0] == c[0] && s[1..] == c[1..] + "/" + rest;
      assert [c[0]] + c[1..] == c;
    }
  }

  lemma {:induction false} SplitOfJoin(comps: seq<string>)
    requires comps != [] && forall c :: c in comps ==> SlashFree(c)
    ensures Split(Join(comps)) == comps
  {
    SplitOfHead(comps[0], Join(comps[1..]));
    if |comps| == 1 {
      assert comps == [comps[0]];
    } else {
      SplitOfJoin(comps[1..]);
      assert comps == [comps[0]] + comps[1..];
    }
  }

  // ---------- Validation ----------

  lemma {:induction false} CollapseOfClean(comps: seq<string>)
    requires Clean(comps)
    ensures Collapse([""] + comps, true) == comps
  {
    if comps == [] {
      assert [""] + comps == [""] && [""][..0] == [];
    } else {
      var n := |comps| - 1;
      var all := [""] + comps;
      assert comps[n] in comps && all[..|all| - 1] == [""] + comps[..n];
      assert forall c :: c in comps[..n] ==> c in comps;
      CollapseOfClean(comps[..n]);
      assert comps == comps[..n] + [comps[n]];
    }
  }

  lemma CleanPrefix(comps: seq<string>, n: nat)
    requires Clean(comps) && n <= |comps|
    ensures Clean(comps[..n]) && forall c :: c in comps[..n] ==> c in comps
  {
    forall c | c in comps[..n]
      ensures c in comps
    {
      var i :| 0 <= i < n && comps[..n][i] == c;
      assert comps[i] == c;
    }
  }

  lemma {:induction false} CollapseIsClean(comps: seq<string>)
    ensures Clean(Collapse(comps, true))
    ensures forall c :: c in Collapse(comps, true) ==> c in comps
  {
    if comps != [] {
      var n := |comps| - 1;
      CollapseIsClean(comps[..n]);
      var kept := Collapse(comps[..n], true);
      var c := Last(comps);
      assert comps[n] in comps && forall d :: d in comps[..n] ==> d in comps;
      assert kept != [] ==> Last(kept) in kept && Last(kept) != "..";
      if c != "" && c != "." && c != ".." {
        assert Collapse(comps, true) == kept + [c];
      } else if kept == [] || c == "" || c == "." {
        assert Collapse(comps, true) == kept;
      } else {
        assert Collapse(comps, true) == kept[..|kept| - 1];
        CleanPrefix(kept, |kept| - 1);
      }
    }
  }

  lemma {:induction false} DoubleSlashSplits(s: string)
    requires HasDoubleSlash(s)
    ensures "" in Split(s)[1..]
  {
    var r := Split(s[1..]);
    if s[0] == '/' && s[1] == '/' {
      assert s[1..][0] == '/' && r[0] == "";
      assert ([""] + r)[1..] == r;
    } else {
      DoubleSlashSplits(s[1..]);
      assert Split(s)[1..] == (if s[0] == '/' then r else r[1..]);
      assert forall c :: c in r[1..] ==> c in r;
    }
  }

  lemma SlashIsNormal()
    ensures NormPath("/") == "/" && !HasDoubleSlash("/")
  {
    SplitOfHead("", "");
    assert "" + "/" + "" == "/" && [""] + [""] == ["", ""];
    assert ["", ""][..1] == [""] && [""][..0] == [];
    assert Collapse([""], true) == [] && Collapse(["", ""], true) == [];
  }

  lemma CleanHasNoDoubleSlash(path: string)
    requires path != "" && path[0] == '/' && path != "/" && Clean(Segments(path))
    ensures !HasDoubleSlash(path) && path[1] != '/' && Split(path) == [""] + Segments(path)
  {
    var segments := Segments(path);
    assert ([""] + segments)[1..] == segments;
    if HasDoubleSlash(path) {
      DoubleSlashSplits(path);
      assert false;
    }
  }

  lemma RootedIsNormal(path: string)
    requires path != "" && path[0] == '/' && Clean(Segments(path))
    ensures NormPath(path) == path && !HasDoubleSlash(path)
  {
    if path == "/" {
      SlashIsNormal();
    } else {
      CleanHasNoDoubleSlash(path);
      RootIs(path);
      var segments := Segments(path);
      CollapseOfClean(segments);
      JoinOfSplit(path[1..]);
      assert Join(segments) == path[1..];
      hide Split, Collapse, Join, HasDoubleSlash, Clean, Root, Segments;
      assert NormPath(path) == "/" + path[1..];
    }
  }

  lemma RootIs(path: string)
    requires |path| > 1 && path[0] == '/' && path[1] != '/'
    ensures Root(path) == "/"
  {
    assert "//"[1] == '/' != path[1];
  }

  lemma NormalIsRooted(path: string)
    requires path != "" && path[0] == '/' && NormPath(path) == path && !HasDoubleSlash(path)
    ensures Clean(Segments(path))
  {
    var kept := Collapse(Split(path), true);
    CollapseIsClean(Split(path));
    assert Root(path) == "/";
    assert path == "/" + Join(kept) && path[1..] == Join(kept);
    if kept != [] {
      SplitOfJoin(kept);
    }
  }

  /** A parsed URI is a valid resource if and only if it is absolute, has no fragment, and no segment
      of its path is empty or refers to a directory by dots. */
  lemma ValidIff(u: Url)
    requires Parsed(u)
    ensures Validate(u) == Valid <==>
      u.scheme != "" && u.netloc != "" && u.fragment == "" && Clean(Segments(u.path))
    ensures Validate(u) == NotAbsolute <==> u.scheme == "" || u.netloc == ""
    ensures Validate(u) == HasFragment <==> u.scheme != "" && u.netloc != "" && u.fragment != ""
  {
    if u.netloc != "" && u.path != "" {
      if Clean(Segments(u.path)) {
        RootedIsNormal(u.path);
      } else if NormPath(u.path) == u.path && !HasDoubleSlash(u.path) {
        NormalIsRooted(u.path);
      }
    }
  }

  // ---------- Containment ----------

  lemma HeadsAgree(a: string, x: string, b: string, y: string)
    requires SlashFree(a) && SlashFree(b)
    ensures a + "/" + x <= b + "/" + y <==> a == b && x <= y
    ensures !(a + "/" + x <= b)
  {
    var p, q := a + "/" + x, b + "/" + y;
    assert p[|a|] == '/' && q[|b|] == '/';
    assert |a| < |b| ==> q[|a|] == b[|a|] && b[|a|] in b;
    assert |b| < |a| ==> p[|b|] == a[|b|] && a[|b|] in a;
    if p <= q && |a| == |b| {
      assert a == p[..|a|] == q[..|a|] == b;
      assert x == p[|a| + 1..] && y == q[|a| + 1..];
      assert p == q[..|p|];
      assert x == y[..|x|];
    }
    if a == b && x <= y {
      assert q == p + y[|x|..];
    }
    if |p| <= |b| {
      assert b[|a|] in b && p[|a|] != b[|a|];
    }
  }

  /** Prefixes of joined segments are joined prefixes. */
  lemma {:induction false} JoinPrefix(gs: seq<string>, rs: seq<string>)
    requires gs != [] && rs != [] && forall s :: s in gs || s in rs ==> SlashFree(s)
    ensures Join(gs) + "/" <= Join(rs) <==> |gs| < |rs| && gs <= rs
  {
    var g, r := Join(gs) + "/", Join(rs);
    var x := if |gs| == 1 then "" else Join(gs[1..]) + "/";
    assert g == gs[0] + "/" + x;
    assert gs[0] in gs && rs[0] in rs;
    HeadsAgree(gs[0], x, rs[0], Join(rs[1..]));
    if |rs| > 1 {
      assert gs == [gs[0]] + gs[1..] && rs == [rs[0]] + rs[1..];
      if |gs| > 1 {
        JoinPrefix(gs[1..], rs[1..]);
      }
    }
  }

  /** `rstrip("/")`: what is left does not end in a slash, and only slashes went. */
  lemma {:induction false} StripMeans(s: string)
    ensures var r := StripSlashes(s);
      r <= s && (forall i :: |r| <= i < |s| ==> s[i] == '/') && (r == "" || r[|r| - 1] != '/')
  {
    if s != "" && s[|s| - 1] == '/' {
      StripMeans(s[..|s| - 1]);
    }
  }

  lemma StripNothing(path: string)
    requires path != "" && path[|path| - 1] != '/'
    ensures StripSlashes(path) == path
  {
  }

  lemma StripToNothing(path: string)
    requires path == "" || path == "/"
    ensures StripSlashes(path) == "" && StripSlashes(path) + "/" == "/"
  {
    if path == "/" {
      assert |path| == 1 && path[0] == '/' && path[..0] == "";
      assert StripSlashes(path) == StripSlashes(path[..0]);
    }
  }

  lemma {:induction false} JoinEnds(comps: seq<string>)
    requires comps != [] && Clean(comps) && forall c :: c in comps ==> SlashFree(c)
    ensures Join(comps) != "" && Join(comps)[|Join(comps)| - 1] != '/'
  {
    assert Last(comps) in comps;
    if |comps| == 1 {
      var c := comps[0];
      assert c[|c| - 1] in c;
    } else {
      assert forall c :: c in comps[1..] ==> c in comps;
      JoinEnds(comps[1..]);
    }
  }

  /** Containment of valid resources is a prefix of segments, except that the empty path is not
      contained in the path that is just a slash. */
  lemma ContainedIff(r: Url, g: Url)
    requires Parsed(r) && Parsed(g) && Validate(r) == Valid && Validate(g) == Valid
    ensures IsContainedBy(r, g) <==>
      && r.scheme == g.scheme && r.netloc == g.netloc
      && Segments(g.path) <= Segments(r.path) && !(r.path == "" && g.path == "/")
  {
    ValidIff(r);
    ValidIff(g);
    var gs, rs := Segments(g.path), Segments(r.path);
    if gs == [] {
      AbsoluteSegments(g);
      StripToNothing(g.path);
      assert r.path != "" ==> "/" <= r.path;
    } else {
      ContainedBelow(r.path, g.path);
    }
  }

  lemma ContainedBelow(r: string, g: string)
    requires g != "" && g[0] == '/' && Clean(Segments(g)) && Segments(g) != []
    requires r != "" ==> r[0] == '/' && Clean(Segments(r))
    ensures r == g || StripSlashes(g) + "/" <= r <==> Segments(g) <= Segments(r)
  {
    var gs, rs := Segments(g), Segments(r);
    JoinOfSplit(g[1..]);
    JoinEnds(gs);
    assert g == "/" + Join(gs);
    StripNothing(g);
    if rs == [] {
      assert |r| <= 1 && |g| > 1;
      hide Split, Join, Clean, StripSlashes, Segments;
    } else {
      JoinOfSplit(r[1..]);
      assert r == "/" + Join(rs);
      hide Split, Join, Clean, StripSlashes, Segments;
      BelowIff(gs, rs);
    }
  }

  lemma BelowIff(gs: seq<string>, rs: seq<string>)
    requires gs != [] && rs != [] && forall s :: s in gs || s in rs ==> SlashFree(s)
    ensures "/" + Join(rs) == "/" + Join(gs) || "/" + Join(gs) + "/" <= "/" + Join(rs) <==> gs <= rs
  {
    JoinPrefix(gs, rs);
    Slashed(Join(gs), Join(rs));
    if Join(rs) == Join(gs) {
      SplitOfJoin(gs);
      SplitOfJoin(rs);
    }
    hide Split, Join;
    assert "/" + Join(rs) == "/" + Join(gs) ==> ("/" + Join(rs))[1..] == ("/" + Join(gs))[1..];
    assert gs <= rs && |gs| == |rs| ==> gs == rs;
  }

  lemma Slashed(g: string, r: string)
    ensures "/" + g + "/" <= "/" + r <==> g + "/" <= r
  {
    var a, b := "/" + g + "/", "/" + r;
    assert a == "/" + (g + "/");
    if a <= b {
      assert (g + "/") == a[1..] == b[1..|a|] == r[..|a| - 1];
    }
    if g + "/" <= r {
      assert r == (g + "/") + r[|g| + 1..];
      assert b == a + r[|g| + 1..];
    }
  }

  lemma ContainedReflexive(r: Url)
    ensures IsContainedBy(r, r)
  {
  }

  lemma ContainedTransitive(r: Url, m: Url, g: Url)
    requires Parsed(r) && Parsed(m) && Parsed(g)
    requires Validate(r) == Validate(m) == Validate(g) == Valid
    requires IsContainedBy(r, m) && IsContainedBy(m, g)
    ensures IsContainedBy(r, g)
  {
    ContainedIff(r, m);
    ContainedIff(m, g);
    ContainedIff(r, g);
    assert Segments(g.path) <= Segments(r.path);
    if r.path == "" {
      assert Segments(m.path) == [];
      AbsoluteSegments(m);
    }
  }

  lemma AbsoluteSegments(u: Url)
    requires Parsed(u) && u.netloc != ""
    ensures Segments(u.path) == [] <==> u.path == "" || u.path == "/"
  {
  }

  /** What was asked for is within the grant if and only if either is empty, or every resource asked for
      has, under the same scheme and location, a path that extends the path of one that was granted. */
  lemma SubsetIff(requested: seq<Url>, granted: seq<Url>)
    requires AllValid(requested) && AllValid(granted)
    ensures IsSubset(requested, granted) <==>
      || granted == [] || requested == []
      || forall r :: r in requested ==> exists g :: g in granted && Extends(r, g)
  {
    forall r, g | r in requested && g in granted
      ensures IsContainedBy(r, g) <==> Extends(r, g)
    {
      ContainedIff(r, g);
    }
  }

  predicate Extends(r: Url, g: Url) {
    && r.scheme == g.scheme && r.netloc == g.netloc
    && Segments(g.path) <= Segments(r.path) && !(r.path == "" && g.path == "/")
  }

  predicate AllValid(us: seq<Url>) {
    forall u :: u in us ==> Parsed(u) && Validate(u) == Valid
  }

  lemma SubsetTransitive(c: seq<Url>, b: seq<Url>, a: seq<Url>)
    requires AllValid(a) && AllValid(b) && AllValid(c)
    requires IsSubset(b, a) && IsSubset(c, b) && b != []
    ensures IsSubset(c, a)
  {
    if a != [] && c != [] {
      forall r | r in c
        ensures exists g :: g in a && IsContainedBy(r, g)
      {
        var m :| m in b && IsContainedBy(r, m);
        var g :| g in a && IsContainedBy(m, g);
        ContainedTransitive(r, m, g);
      }
    }
  }

  predicate Narrowing(grants: seq<seq<Url>>) {
    forall i :: 0 < i < |grants| ==> IsSubset(grants[i], grants[i - 1])
  }

  /** However often a grant is narrowed, the last one is within the first, as long as none is empty. */
  lemma NarrowingNeverWidens(grants: seq<seq<Url>>)
    requires grants != [] && Narrowing(grants)
    requires forall i :: 0 <= i < |grants| ==> grants[i] != [] && AllValid(grants[i])
    ensures IsSubset(grants[|grants| - 1], grants[0])
    ensures var last, first := grants[|grants| - 1], grants[0];
      forall r :: r in last ==> exists g :: g in first && Extends(r, g)
  {
    hide Extends, IsContainedBy, AllValid;
    NarrowingStays(grants);
    SubsetIff(grants[|grants| - 1], grants[0]);
  }

  lemma {:induction false} NarrowingStays(grants: seq<seq<Url>>)
    requires grants != [] && Narrowing(grants)
    requires forall i :: 0 <= i < |grants| ==> grants[i] != [] && AllValid(grants[i])
    ensures IsSubset(grants[|grants| - 1], grants[0])
  {
    var n := |grants| - 1;
    if n == 0 {
      forall r | r in grants[0]
        ensures exists g :: g in grants[0] && IsContainedBy(r, g)
      {
        ContainedReflexive(r);
      }
    } else {
      NarrowingStays(grants[..n]);
      SubsetTransitive(grants[n], grants[n - 1], grants[0]);
    }
  }

  ghost predicate Safe(b: seq<Url>) {
    forall a, c :: AllValid(a) && AllValid(c) && IsSubset(b, a) && IsSubset(c, b) ==> IsSubset(c, a)
  }

  /** A list of resources in between is safe if and only if it is not empty: an empty one counts as
      within every grant, and everything counts as within it. */
  lemma SafeIff(b: seq<Url>)
    requires AllValid(b)
    ensures Safe(b) <==> b != []
  {
    if b == [] {
      var a, c := [Url("a", "h", "", "")], [Url("c", "h", "", "")];
      assert Validate(a[0]) == Valid && Validate(c[0]) == Valid;
      assert AllValid(a) && AllValid(c) && IsSubset(b, a) && IsSubset(c, b);
      assert c[0] in c && !IsContainedBy(c[0], a[0]);
      assert !IsSubset(c, a);
    } else {
      forall a, c | AllValid(a) && AllValid(c) && IsSubset(b, a) && IsSubset(c, b)
        ensures IsSubset(c, a)
      {
        SubsetTransitive(c, b, a);
      }
    }
  }
}
