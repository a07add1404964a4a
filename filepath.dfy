/** Go's path/filepath on a system whose separator is '/': Join, Clean, Ext,
    Dir, Rel and ToSlash keep their string signatures; underneath, a path is
    the list of its elements between separators, and a cleaned path is a
    `Path` value (rooted or not, with its remaining elements). */
module FilePath {
  import opened Base

  const Separator: char := '/'

  predicate NoSep(s: string) {
    Separator !in s
  }

  /** strings.Split(s, "/"): the elements between separators, at least one. */
  function Split(s: string): (r: seq<string>)
    ensures |r| >= 1
    ensures forall i :: 0 <= i < |r| ==> NoSep(r[i])
  {
    if s == [] then [[]]
    else
      var rest := Split(s[1..]);
      if s[0] == Separator then [[]] + rest
      else [[s[0]] + rest[0]] + rest[1..]
  }

  /** strings.Join(elems, "/") */
  function Unsplit(elems: seq<string>): string
  {
    if elems == [] then []
    else if |elems| == 1 then elems[0]
    else elems[0] + [Separator] + Unsplit(elems[1..])
  }

  lemma {:induction false} SplitNoSep(s: string)
    requires NoSep(s)
    ensures Split(s) == [s]
  {
    if s != [] {
      SplitNoSep(s[1..]);
      assert [s[0]] + s[1..] == s;
    }
  }

  /** Splitting distributes over a separator. */
  lemma {:induction false} SplitConcat(a: string, b: string)
    ensures Split(a + [Separator] + b) == Split(a) + Split(b)
  {
    if a == [] {
      assert a + [Separator] + b == [Separator] + b;
      assert ([Separator] + b)[1..] == b;
    } else {
      var s := a + [Separator] + b;
      assert s[0] == a[0] && s[1..] == a[1..] + [Separator] + b;
      SplitConcat(a[1..], b);
    }
  }

  /** Unsplit undoes Split. */
  lemma {:induction false} UnsplitSplit(s: string)
    ensures Unsplit(Split(s)) == s
  {
    if s != [] {
      UnsplitSplit(s[1..]);
      var rest := Split(s[1..]);
      if s[0] == Separator {
        assert [s[0]] + s[1..] == s;
      } else if |rest| == 1 {
        assert [s[0]] + s[1..] == s;
      } else {
        assert Unsplit(rest) == rest[0] + [Separator] + Unsplit(rest[1..]);
        assert [s[0]] + s[1..] == s;
      }
    }
  }

  /** Split undoes Unsplit on a non-empty list of separator-free elements. */
  lemma {:induction false} SplitUnsplit(elems: seq<string>)
    requires |elems| >= 1
    requires forall i :: 0 <= i < |elems| ==> NoSep(elems[i])
    ensures Split(Unsplit(elems)) == elems
  {
    SplitNoSep(elems[0]);
    if |elems| > 1 {
      SplitUnsplit(elems[1..]);
      SplitConcat(elems[0], Unsplit(elems[1..]));
      assert [elems[0]] + elems[1..] == elems;
    }
  }

  lemma {:induction false} UnsplitFirstChar(elems: seq<string>)
    requires |elems| >= 1 && elems[0] != []
    ensures Unsplit(elems) != [] && Unsplit(elems)[0] == elems[0][0]
  {
  }

  // ---------------------------------------------------------------------
  // Clean

  /** A cleaned path: whether it starts at the root, and its elements. */
  datatype Path = Path(rooted: bool, elems: seq<string>)

  predicate Rooted(s: string) {
    |s| > 0 && s[0] == Separator
  }

  /** One element of Clean's scan: skip empty and "." elements, let ".."
      undo the previous element (or stay at the root, or be kept when
      there is nothing to undo), keep everything else. */
  function Step(rooted: bool, stack: seq<string>, e: string): seq<string>
  {
    if e == "" || e == "." then stack
    else if e == ".." then
      if |stack| > 0 && stack[|stack| - 1] != ".." then stack[..|stack| - 1]
      else if rooted then stack
      else stack + [".."]
    else stack + [e]
  }

  function Resolve(rooted: bool, stack: seq<string>, raw: seq<string>): seq<string>
    decreases |raw|
  {
    if raw == [] then stack else Resolve(rooted, Step(rooted, stack, raw[0]), raw[1..])
  }

  /** The cleaned form of s (the path filepath.Clean(s) denotes). */
  function Cleaned(s: string): Path {
    Path(Rooted(s), Resolve(Rooted(s), [], Split(s)))
  }

  /** The text of a cleaned path: "/" for the bare root, "." for nothing. */
  function Render(p: Path): string {
    if p.rooted then [Separator] + Unsplit(p.elems)
    else if p.elems == [] then "."
    else Unsplit(p.elems)
  }

  /** filepath.Clean */
  function Clean(s: string): string {
    Render(Cleaned(s))
  }

  predicate IsElement(e: string) {
    e != "" && e != "." && NoSep(e)
  }

  /** What Clean produces: proper elements only, ".." only at the front of
      a relative path. */
  predicate Canonical(p: Path) {
    && (forall i :: 0 <= i < |p.elems| ==> IsElement(p.elems[i]))
    && (p.rooted ==> ".." !in p.elems)
    && (forall i, j :: 0 <= j < i < |p.elems| && p.elems[i] == ".." ==> p.elems[j] == "..")
  }

  /** Every prefix of a canonical path is canonical. */
  lemma CanonicalPrefix(p: Path, k: nat)
    requires Canonical(p) && k <= |p.elems|
    ensures Canonical(Path(p.rooted, p.elems[..k]))
  {
  }

  /** A canonical path whose first element is not ".." has no ".." at all. */
  lemma CanonicalNoDotDot(p: Path)
    requires Canonical(p) && (p.elems == [] || p.elems[0] != "..")
    ensures ".." !in p.elems
  {
    forall i | 0 <= i < |p.elems| ensures p.elems[i] != ".." {
      if i > 0 {
        assert p.elems[0] != "..";
      }
    }
  }

  lemma {:induction false} ResolveConcat(rooted: bool, stack: seq<string>, a: seq<string>, b: seq<string>)
    ensures Resolve(rooted, stack, a + b) == Resolve(rooted, Resolve(rooted, stack, a), b)
    decreases |a|
  {
    if a != [] {
      assert (a + b)[0] == a[0] && (a + b)[1..] == a[1..] + b;
      ResolveConcat(rooted, Step(rooted, stack, a[0]), a[1..], b);
    } else {
      assert a + b == b;
    }
  }

  lemma StepCanonical(rooted: bool, stack: seq<string>, e: string)
    requires Canonical(Path(rooted, stack)) && NoSep(e)
    ensures Canonical(Path(rooted, Step(rooted, stack, e)))
  {
    if e == ".." && !(|stack| > 0 && stack[|stack| - 1] != "..") && !rooted {
      var s' := stack + [".."];
      forall i, j | 0 <= j < i < |s'| && s'[i] == ".." ensures s'[j] == ".." {
        if i < |stack| {
        } else {
          assert stack[|stack| - 1] == "..";
        }
      }
    }
  }

  lemma {:induction false} ResolveCanonicalStays(rooted: bool, stack: seq<string>, raw: seq<string>)
    requires Canonical(Path(rooted, stack))
    requires forall i :: 0 <= i < |raw| ==> NoSep(raw[i])
    ensures Canonical(Path(rooted, Resolve(rooted, stack, raw)))
    decreases |raw|
  {
    if raw != [] {
      StepCanonical(rooted, stack, raw[0]);
      ResolveCanonicalStays(rooted, Step(rooted, stack, raw[0]), raw[1..]);
    }
  }

  /** Every cleaned path is canonical. */
  lemma CleanedCanonical(s: string)
    ensures Canonical(Cleaned(s))
  {
    ResolveCanonicalStays(Rooted(s), [], Split(s));
  }

  /** Resolving the elements of a canonical path changes nothing. */
  lemma {:induction false} ResolveOfCanonical(rooted: bool, stack: seq<string>, raw: seq<string>)
    requires Canonical(Path(rooted, stack + raw))
    ensures Resolve(rooted, stack, raw) == stack + raw
    decreases |raw|
  {
    if raw != [] {
      var all := stack + raw;
      assert all[|stack|] == raw[0];
      if raw[0] == ".." && |stack| > 0 {
        assert all[|stack| - 1] == stack[|stack| - 1];
      }
      assert Step(rooted, stack, raw[0]) == stack + [raw[0]];
      assert (stack + [raw[0]]) + raw[1..] == all;
      ResolveOfCanonical(rooted, stack + [raw[0]], raw[1..]);
    }
  }

  lemma ResolveOfCanonicalElems(p: Path)
    requires Canonical(p)
    ensures Resolve(p.rooted, [], p.elems) == p.elems
  {
    assert [] + p.elems == p.elems;
    ResolveOfCanonical(p.rooted, [], p.elems);
  }

  lemma CleanedRenderRooted(p: Path)
    requires Canonical(p) && p.rooted
    ensures Cleaned(Render(p)) == p
  {
    var s := Render(p);
    var u := Unsplit(p.elems);
    SplitConcat([], u);
    assert [] + [Separator] + u == s;
    var raw := Split(s);
    assert raw == [[]] + Split(u);
    assert raw[0] == [] && raw[1..] == Split(u);
    assert Resolve(true, [], raw) == Resolve(true, [], Split(u));
    if p.elems == [] {
      var su := Split(u);
      assert su == [[]];
      assert Resolve(true, [], su) == Resolve(true, Step(true, [], su[0]), su[1..]);
      assert su[1..] == [];
    } else {
      SplitUnsplit(p.elems);
      ResolveOfCanonicalElems(p);
    }
  }

  lemma CleanedRenderRelative(p: Path)
    requires Canonical(p) && !p.rooted && p.elems != []
    ensures Cleaned(Render(p)) == p
  {
    var s := Render(p);
    UnsplitFirstChar(p.elems);
    assert p.elems[0][0] in p.elems[0];
    assert !Rooted(s);
    SplitUnsplit(p.elems);
    ResolveOfCanonicalElems(p);
  }

  /** Clean is the identity on the text of a cleaned path. */
  lemma CleanedRender(p: Path)
    requires Canonical(p)
    ensures Cleaned(Render(p)) == p
  {
    if p.rooted {
      CleanedRenderRooted(p);
    } else if p.elems != [] {
      CleanedRenderRelative(p);
    } else {
      assert Render(p) == ".";
      SplitNoSep(".");
      var raw := Split(".");
      assert Resolve(false, [], raw) == Resolve(false, Step(false, [], raw[0]), raw[1..]);
      assert raw[1..] == [];
    }
  }

  /** filepath.Clean is idempotent. */
  lemma CleanIdempotent(s: string)
    ensures Clean(Clean(s)) == Clean(s)
  {
    CleanedCanonical(s);
    CleanedRender(Cleaned(s));
  }

  /** Two cleaned paths with the same text are the same path. */
  lemma RenderInjective(p: Path, q: Path)
    requires Canonical(p) && Canonical(q) && Render(p) == Render(q)
    ensures p == q
  {
    CleanedRender(p);
    CleanedRender(q);
  }

  // ---------------------------------------------------------------------
  // Join

  /** filepath.Join: leading empty elements are skipped, the rest are
      joined with "/" and cleaned; no non-empty element gives "". */
  function Join(elems: seq<string>): string
  {
    if elems == [] then ""
    else if elems[0] == "" then Join(elems[1..])
    else Clean(Unsplit(elems))
  }

  // ---------------------------------------------------------------------
  // Ext

  /** filepath.Ext: the suffix from the last '.' of the last element, or "". */
  function Ext(s: string): (r: string)
    ensures |r| <= |s| && r == s[|s| - |r|..]
    ensures r == [] || (r[0] == '.' && NoSep(r) && '.' !in r[1..])
  {
    if s == [] || s[|s| - 1] == Separator then []
    else if s[|s| - 1] == '.' then s[|s| - 1..]
    else
      var init, c := s[..|s| - 1], s[|s| - 1];
      var e := Ext(init);
      if e == [] then []
      else
        assert init + [c] == s;
        assert (e + [c])[1..] == e[1..] + [c];
        assert s[|s| - |e| - 1..] == init[|init| - |e|..] + [c];
        e + [c]
  }

  /** A path ending in a separator has no extension. */
  lemma TrailingSeparatorNoExt(s: string)
    requires |s| > 0 && s[|s| - 1] == Separator
    ensures Ext(s) == ""
  {
  }

  /** One step of Ext on a path whose last character is not a separator. */
  lemma ExtUnfold(s: string)
    requires s != [] && s[|s| - 1] != Separator
    ensures Ext(s) == if s[|s| - 1] == '.' then [s[|s| - 1]]
      else if Ext(s[..|s| - 1]) == [] then [] else Ext(s[..|s| - 1]) + [s[|s| - 1]]
  {
    assert s[|s| - 1..] == [s[|s| - 1]];
  }

  /** The extension only looks past the last separator. */
  lemma {:induction false} ExtAfterSep(x: string, y: string)
    requires |x| > 0 && x[|x| - 1] == Separator && NoSep(y)
    ensures Ext(x + y) == Ext(y)
    decreases |y|
  {
    if y == [] {
      assert x + y == x;
    } else {
      var s := x + y;
      var init, c := y[..|y| - 1], y[|y| - 1];
      assert y == init + [c];
      assert s[|s| - 1] == c;
      assert s[..|s| - 1] == x + init;
      assert c != Separator by { assert c in y; }
      assert NoSep(init) by {
        forall i | 0 <= i < |init| ensures init[i] != Separator {
          assert init[i] == y[i];
        }
      }
      ExtAfterSep(x, init);
      ExtUnfold(s);
      ExtUnfold(y);
    }
  }

  /** An element has no extension exactly when it has no dot. */
  lemma {:induction false} ExtEmptyIffNoDot(y: string)
    requires NoSep(y)
    ensures Ext(y) == "" <==> '.' !in y
    decreases |y|
  {
    if y != [] && y[|y| - 1] != '.' {
      ExtEmptyIffNoDot(y[..|y| - 1]);
      assert y == y[..|y| - 1] + [y[|y| - 1]];
    }
  }

  // ---------------------------------------------------------------------
  // Dir

  /** The length of s up to and including its last separator (0 if none). */
  function DirLen(s: string): (n: nat)
    ensures n <= |s|
    ensures n == 0 || s[n - 1] == Separator
    ensures NoSep(s[n..])
  {
    if s == [] then 0
    else if s[|s| - 1] == Separator then |s|
    else
      var n := DirLen(s[..|s| - 1]);
      assert s[n..] == s[..|s| - 1][n..] + [s[|s| - 1]];
      n
  }

  /** filepath.Dir: everything up to the last separator, cleaned. */
  function Dir(s: string): string {
    Clean(s[..DirLen(s)])
  }

  /** The last element of a split path. */
  function LastElement(s: string): string {
    var raw := Split(s);
    raw[|raw| - 1]
  }

  lemma SplitNoLastSep(s: string)
    requires DirLen(s) == 0
    ensures Split(s) == [s] && !Rooted(s)
  {
    assert s[0..] == s;
    SplitNoSep(s);
    if s != [] {
      assert s[0] in s;
    }
  }

  lemma SplitAtLastSep(s: string)
    requires DirLen(s) > 0
    ensures Split(s) == Split(s[..DirLen(s) - 1]) + [s[DirLen(s)..]]
  {
    var n := DirLen(s);
    assert s == s[..n - 1] + [Separator] + s[n..];
    SplitConcat(s[..n - 1], s[n..]);
    SplitNoSep(s[n..]);
  }

  lemma SplitOfDirPrefix(s: string)
    requires DirLen(s) > 0
    ensures Split(s[..DirLen(s)]) == Split(s[..DirLen(s) - 1]) + [[]]
    ensures Rooted(s[..DirLen(s)]) == Rooted(s)
  {
    var n := DirLen(s);
    assert s[..n] == s[..n - 1] + [Separator] + [];
    SplitConcat(s[..n - 1], []);
  }

  /** The extension of a path is the extension of its last element. */
  lemma ExtOfLastElement(s: string)
    ensures Ext(s) == Ext(LastElement(s))
  {
    var n := DirLen(s);
    if n > 0 {
      SplitAtLastSep(s);
      assert s == s[..n] + s[n..];
      ExtAfterSep(s[..n], s[n..]);
    } else {
      SplitNoLastSep(s);
    }
  }

  /** A path has no extension exactly when its last element has no dot. */
  lemma ExtEmptyIffLastNoDot(s: string)
    ensures Ext(s) == "" <==> '.' !in LastElement(s)
  {
    ExtOfLastElement(s);
    ExtEmptyIffNoDot(LastElement(s));
  }

  /** The cleaned form of a directory prefix: the path without its last element. */
  lemma CleanedDirPrefix(s: string)
    ensures var raw := Split(s);
      Cleaned(s[..DirLen(s)]) == Path(Rooted(s), Resolve(Rooted(s), [], raw[..|raw| - 1]))
  {
    var n := DirLen(s);
    var raw := Split(s);
    if n == 0 {
      SplitNoLastSep(s);
      assert s[..n] == [];
      assert Split([]) == [[]];
      assert Resolve(false, [], [[]]) == [];
    } else {
      SplitAtLastSep(s);
      SplitOfDirPrefix(s);
      assert raw[..|raw| - 1] == Split(s[..n - 1]);
      ResolveConcat(Rooted(s), [], Split(s[..n - 1]), [[]]);
    }
  }

  /** The directory of a relative canonical path drops its last element. */
  lemma DirOfCanonical(p: Path)
    requires Canonical(p) && !p.rooted && |p.elems| >= 1
    ensures Cleaned(Dir(Render(p))) == Path(false, p.elems[..|p.elems| - 1])
  {
    var s := Render(p);
    var e := p.elems;
    var inner := e[..|e| - 1];
    CleanedRender(p);
    SplitUnsplit(e);
    assert !Rooted(s);
    CleanedDirPrefix(s);
    assert Canonical(Path(false, [] + inner));
    ResolveOfCanonical(false, [], inner);
    var pre := s[..DirLen(s)];
    assert Cleaned(pre) == Path(false, inner);
    CleanedCanonical(pre);
    CleanedRender(Cleaned(pre));
  }

  // ---------------------------------------------------------------------
  // Rel

  /** The number of leading elements a and b share. */
  function CommonPrefixLen(a: seq<string>, b: seq<string>): (k: nat)
    ensures k <= |a| && k <= |b| && a[..k] == b[..k]
    ensures k < |a| && k < |b| ==> a[k] != b[k]
  {
    if a == [] || b == [] || a[0] != b[0] then 0
    else
      var k := 1 + CommonPrefixLen(a[1..], b[1..]);
      assert a[..k] == [a[0]] + a[1..][..k - 1];
      assert b[..k] == [b[0]] + b[1..][..k - 1];
      k
  }

  /** n ".." elements */
  function Ups(n: nat): (r: seq<string>)
    ensures |r| == n && forall i :: 0 <= i < n ==> r[i] == ".."
  {
    if n == 0 then [] else [".."] + Ups(n - 1)
  }

  /** The target's elements as Rel compares them: Go compares the text "."
      of an empty relative target as one element, while an empty base has none. */
  function RelTarget(targ: Path): seq<string> {
    if !targ.rooted && targ.elems == [] then ["."] else targ.elems
  }

  /** Rel refuses when the base still has a ".." past the shared prefix. */
  predicate ClimbsPastDotDot(base: Path, targ: Path) {
    var k := CommonPrefixLen(base.elems, RelTarget(targ));
    k < |base.elems| && base.elems[k] == ".."
  }

  /** The elements of the relative path: one ".." for each base element past
      the shared prefix, then the rest of the target. */
  function RelElems(base: Path, targ: Path): seq<string> {
    var t := RelTarget(targ);
    var k := CommonPrefixLen(base.elems, t);
    Ups(|base.elems| - k) + t[k..]
  }

  /** filepath.Rel on cleaned paths: None when Go returns an error (one
      path rooted and the other not, or the base climbing past a ".."). */
  function RelPaths(base: Path, targ: Path): Option<string>
  {
    if Render(targ) == Render(base) then Some(".")
    else if base.rooted != targ.rooted || ClimbsPastDotDot(base, targ) then None
    else Some(Unsplit(RelElems(base, targ)))
  }

  /** filepath.Rel */
  function Rel(basepath: string, targpath: string): Option<string>
  {
    RelPaths(Cleaned(basepath), Cleaned(targpath))
  }

  /** filepath.ToSlash: with '/' as the separator it changes nothing. */
  function ToSlash(s: string): string {
    s
  }

  /** Climbing n times from a stack whose top n elements are not "..". */
  lemma {:induction false} ResolveUps(rooted: bool, stack: seq<string>, n: nat)
    requires n <= |stack|
    requires forall j :: |stack| - n <= j < |stack| ==> stack[j] != ".."
    ensures Resolve(rooted, stack, Ups(n)) == stack[..|stack| - n]
    decreases n
  {
    if n > 0 {
      assert Ups(n)[0] == ".." && Ups(n)[1..] == Ups(n - 1);
      var s' := stack[..|stack| - 1];
      assert Step(rooted, stack, "..") == s';
      ResolveUps(rooted, s', n - 1);
      assert s'[..|s'| - (n - 1)] == stack[..|stack| - n];
    }
  }

  /** Past the shared prefix, a base Rel accepts holds no "..". */
  lemma NoDotDotPastShared(base: Path, targ: Path)
    requires Canonical(base) && !ClimbsPastDotDot(base, targ)
    ensures forall j :: CommonPrefixLen(base.elems, RelTarget(targ)) <= j < |base.elems| ==> base.elems[j] != ".."
  {
    var b := base.elems;
    var k := CommonPrefixLen(b, RelTarget(targ));
    forall j | k <= j < |b| ensures b[j] != ".." {
      if j > k {
        assert b[k] != "..";
      }
    }
  }

  /** The relative elements are proper, and there is at least one. */
  lemma RelElemsShape(base: Path, targ: Path)
    requires Canonical(base) && Canonical(targ)
    requires Render(targ) != Render(base) && base.rooted == targ.rooted
    ensures var q := RelElems(base, targ);
      |q| >= 1 && forall i :: 0 <= i < |q| ==> NoSep(q[i])
  {
    var b := base.elems;
    var t := RelTarget(targ);
    var k := CommonPrefixLen(b, t);
    var q := RelElems(base, targ);
    assert |q| == (|b| - k) + (|t| - k);
    DotQuirkNoShare(base, targ);
    assert b[..|b|] == b && t[..|t|] == t;
    forall i | 0 <= i < |q| ensures NoSep(q[i]) {
      if i >= |b| - k {
        assert q[i] == t[k + i - (|b| - k)];
      }
    }
  }

  /** An empty relative target shares no element with a canonical base. */
  lemma DotQuirkNoShare(base: Path, targ: Path)
    requires Canonical(base)
    ensures !targ.rooted && targ.elems == [] ==> CommonPrefixLen(base.elems, RelTarget(targ)) == 0
  {
    if base.elems != [] {
      assert IsElement(base.elems[0]);
    }
  }

  /** The ".." elements of the relative path climb back to the shared prefix. */
  lemma RelClimb(base: Path, targ: Path)
    requires Canonical(base) && !ClimbsPastDotDot(base, targ)
    ensures var k := CommonPrefixLen(base.elems, RelTarget(targ));
      Resolve(base.rooted, base.elems, Ups(|base.elems| - k)) == RelTarget(targ)[..k]
  {
    var b := base.elems;
    var k := CommonPrefixLen(b, RelTarget(targ));
    NoDotDotPastShared(base, targ);
    ResolveUps(base.rooted, b, |b| - k);
    assert b[..|b| - (|b| - k)] == b[..k];
  }

  /** The rest of the target then descends to the target itself. */
  lemma RelDescend(rooted: bool, targ: Path, k: nat)
    requires Canonical(targ) && targ.rooted == rooted && k <= |RelTarget(targ)|
    requires !targ.rooted && targ.elems == [] ==> k == 0
    ensures Resolve(rooted, RelTarget(targ)[..k], RelTarget(targ)[k..]) == targ.elems
  {
    var t := RelTarget(targ);
    if !targ.rooted && targ.elems == [] {
      assert t[k..] == ["."] && t[..k] == [];
      assert Resolve(rooted, [], ["."]) == Resolve(rooted, [], ["."][1..]);
    } else {
      assert t[..k] + t[k..] == t;
      ResolveOfCanonical(rooted, t[..k], t[k..]);
    }
  }

  /** Resolving the relative elements from the base lands on the target. */
  lemma RelElemsResolve(base: Path, targ: Path)
    requires Canonical(base) && Canonical(targ)
    requires base.rooted == targ.rooted && !ClimbsPastDotDot(base, targ)
    ensures Resolve(base.rooted, base.elems, RelElems(base, targ)) == targ.elems
  {
    var R := base.rooted;
    var b := base.elems;
    var t := RelTarget(targ);
    var k := CommonPrefixLen(b, t);
    ResolveConcat(R, b, Ups(|b| - k), t[k..]);
    RelClimb(base, targ);
    DotQuirkNoShare(base, targ);
    RelDescend(R, targ, k);
  }

  /** A relative path computed from an empty base does not start at the root. */
  lemma RelFromEmptyBaseUnrooted(base: Path, targ: Path)
    requires Canonical(targ) && base == Path(false, []) && !targ.rooted
    requires Render(targ) != Render(base)
    ensures RelElems(base, targ) == RelTarget(targ)
    ensures !Rooted(Unsplit(RelElems(base, targ)))
  {
    var q := RelElems(base, targ);
    assert q == [] + RelTarget(targ)[0..];
    assert q == RelTarget(targ);
    assert q == targ.elems;
    assert IsElement(q[0]) && q[0][0] in q[0];
    UnsplitFirstChar(q);
  }

  lemma RelJoinSame(basepath: string, targpath: string)
    requires Render(Cleaned(targpath)) == Render(Cleaned(basepath))
    ensures Join([basepath, "."]) == Clean(targpath)
  {
    if basepath == "" {
      assert Join([basepath, "."]) == Join(["."]);
      SplitNoSep(".");
      var raw := Split(".");
      assert Resolve(false, [], raw) == Resolve(false, Step(false, [], raw[0]), raw[1..]);
      assert raw[1..] == [];
      assert Clean(".") == ".";
      assert Clean(basepath) == ".";
    } else {
      assert Unsplit([basepath, "."]) == basepath + [Separator] + ".";
      SplitConcat(basepath, ".");
      SplitNoSep(".");
      ResolveConcat(Rooted(basepath), [], Split(basepath), ["."]);
      var st := Resolve(Rooted(basepath), [], Split(basepath));
      assert Resolve(Rooted(basepath), st, ["."]) == Resolve(Rooted(basepath), st, ["."][1..]);
      assert Cleaned(basepath + [Separator] + ".") == Cleaned(basepath);
    }
  }

  /** The round trip of filepath.Rel: joining the base with the relative
      path Rel computes leads back to the cleaned target. */
  lemma RelJoin(basepath: string, targpath: string)
    requires Rel(basepath, targpath).Some?
    ensures Join([basepath, Rel(basepath, targpath).value]) == Clean(targpath)
  {
    var base, targ := Cleaned(basepath), Cleaned(targpath);
    CleanedCanonical(basepath);
    CleanedCanonical(targpath);
    var r := Rel(basepath, targpath).value;
    if Render(targ) == Render(base) {
      RelJoinSame(basepath, targpath);
    } else {
      var R := base.rooted;
      var q := RelElems(base, targ);
      assert r == Unsplit(q);
      RelElemsShape(base, targ);
      RelElemsResolve(base, targ);
      SplitUnsplit(q);
      if basepath == "" {
        assert Join([basepath, r]) == Join([r]);
        assert base == Path(false, []);
        RelFromEmptyBaseUnrooted(base, targ);
        assert r != [];
        assert Cleaned(r) == Path(false, Resolve(false, [], q));
      } else {
        var s := basepath + [Separator] + r;
        assert Unsplit([basepath, r]) == s;
        SplitConcat(basepath, r);
        ResolveConcat(R, [], Split(basepath), q);
        assert Rooted(s) == R;
        assert Cleaned(s) == targ;
      }
    }
  }

  /** Rel is blind to a shared leading prefix: relative to any non-empty
      common prefix, the answer depends only on what follows it. */
  lemma RelPrefixIndependent(p1: seq<string>, p2: seq<string>, x: seq<string>, y: seq<string>)
    requires |p1| >= 1 && |p2| >= 1
    requires Canonical(Path(false, p1 + x)) && Canonical(Path(false, p1 + y))
    requires Canonical(Path(false, p2 + x)) && Canonical(Path(false, p2 + y))
    ensures RelPaths(Path(false, p1 + x), Path(false, p1 + y)) == RelPaths(Path(false, p2 + x), Path(false, p2 + y))
  {
    SameRenderIffSameTail(p1, x, y);
    SameRenderIffSameTail(p2, x, y);
    RelAfterPrefix(p1, x, y);
    RelAfterPrefix(p2, x, y);
  }

  lemma SameRenderIffSameTail(p: seq<string>, x: seq<string>, y: seq<string>)
    requires Canonical(Path(false, p + x)) && Canonical(Path(false, p + y))
    ensures Render(Path(false, p + y)) == Render(Path(false, p + x)) <==> x == y
  {
    if Render(Path(false, p + y)) == Render(Path(false, p + x)) {
      RenderInjective(Path(false, p + y), Path(false, p + x));
      assert x == (p + x)[|p|..] == (p + y)[|p|..] == y;
    }
  }

  /** Past a non-empty shared prefix, the quantities Rel looks at are those
      of the tails. */
  lemma RelAfterPrefix(p: seq<string>, x: seq<string>, y: seq<string>)
    requires |p| >= 1
    ensures var bp, tp := Path(false, p + x), Path(false, p + y);
      && (ClimbsPastDotDot(bp, tp) <==> (CommonPrefixLen(x, y) < |x| && x[CommonPrefixLen(x, y)] == ".."))
      && RelElems(bp, tp) == Ups(|x| - CommonPrefixLen(x, y)) + y[CommonPrefixLen(x, y)..]
  {
    ClimbsAfterPrefix(p, x, y);
    RelElemsAfterPrefix(p, x, y);
  }

  lemma ClimbsAfterPrefix(p: seq<string>, x: seq<string>, y: seq<string>)
    requires |p| >= 1
    ensures ClimbsPastDotDot(Path(false, p + x), Path(false, p + y))
      <==> (CommonPrefixLen(x, y) < |x| && x[CommonPrefixLen(x, y)] == "..")
  {
    RelTargetNonEmpty(p, y);
    CommonPrefixAfter(p, x, y);
    var c := CommonPrefixLen(x, y);
    if c < |x| {
      assert (p + x)[|p| + c] == x[c];
    }
  }

  lemma RelElemsAfterPrefix(p: seq<string>, x: seq<string>, y: seq<string>)
    requires |p| >= 1
    ensures RelElems(Path(false, p + x), Path(false, p + y)) == Ups(|x| - CommonPrefixLen(x, y)) + y[CommonPrefixLen(x, y)..]
  {
    RelElemsWithPrefix(p, x, y);
    UpsAfterPrefix(p, x, y);
    RestAfterPrefix(p, x, y);
  }

  lemma RelElemsWithPrefix(p: seq<string>, x: seq<string>, y: seq<string>)
    requires |p| >= 1
    ensures RelElems(Path(false, p + x), Path(false, p + y))
      == Ups(|p + x| - CommonPrefixLen(p + x, p + y)) + (p + y)[CommonPrefixLen(p + x, p + y)..]
  {
    RelTargetNonEmpty(p, y);
  }

  lemma UpsAfterPrefix(p: seq<string>, x: seq<string>, y: seq<string>)
    ensures Ups(|p + x| - CommonPrefixLen(p + x, p + y)) == Ups(|x| - CommonPrefixLen(x, y))
  {
    CommonPrefixAfter(p, x, y);
  }

  lemma RestAfterPrefix(p: seq<string>, x: seq<string>, y: seq<string>)
    ensures (p + y)[CommonPrefixLen(p + x, p + y)..] == y[CommonPrefixLen(x, y)..]
  {
    CommonPrefixAfter(p, x, y);
    var c := CommonPrefixLen(x, y);
    assert (p + y)[|p| + c..] == y[c..];
  }

  lemma RelTargetNonEmpty(p: seq<string>, y: seq<string>)
    requires |p| >= 1
    ensures RelTarget(Path(false, p + y)) == p + y
  {
    assert (p + y) != [];
  }

  lemma {:induction false} CommonPrefixAfter(p: seq<string>, x: seq<string>, y: seq<string>)
    ensures CommonPrefixLen(p + x, p + y) == |p| + CommonPrefixLen(x, y)
    decreases |p|
  {
    if p == [] {
      assert p + x == x && p + y == y;
    } else {
      assert (p + x)[1..] == p[1..] + x;
      assert (p + y)[1..] == p[1..] + y;
      CommonPrefixAfter(p[1..], x, y);
    }
  }
}
