/** internal/parser/parse.go: extracting and rewriting the links of one HTML
    document (ParseAndRewriteLinks), and the depth-bounded discovery of a
    site's pages (ParseAllLinks). */
module Parser {
  import opened Base
  import opened Externals
  import opened GoStrings
  import opened FilePath
  import opened ParserUtils
  import opened Files
  import opened Crawling

  /** The attribute that holds a URL, by element name. */
  const AttrMap: map<string, string> := map[
    "a" := "href", "link" := "href",
    "img" := "src", "script" := "src", "iframe" := "src", "source" := "src",
    "video" := "src", "audio" := "src", "embed" := "src",
    "object" := "data"]

  /** The key of a URL in the seen and visited sets: its text form. */
  function Key(u: Url): string {
    u.ToString()
  }

  // ---------------------------------------------------------------------
  // The references of a document

  /** The absolute URL an attribute refers to, if it is the element's URL
      attribute, its trimmed value is not empty, and url.Parse accepts it. */
  function AttrRef(lib: Lib, base: Url, key: string, a: Attr): (r: Option<Url>)
    ensures r.Some? ==> a.key == key && TrimSpace(a.val) != ""
    ensures r.Some? <==> a.key == key && TrimSpace(a.val) != "" && lib.parseUrl(TrimSpace(a.val)).Some?
  {
    if a.key != key || TrimSpace(a.val) == "" then None
    else match lib.parseUrl(TrimSpace(a.val))
      case None => None
      case Some(ref) => Some(lib.resolveRef(base, ref))
  }

  function OptSeq(o: Option<Url>): seq<Url> {
    if o.Some? then [o.value] else []
  }

  /** The references in a run of attributes, in order. */
  function AttrRefs(lib: Lib, base: Url, key: string, attrs: seq<Attr>): seq<Url>
    decreases |attrs|
  {
    if attrs == [] then []
    else AttrRefs(lib, base, key, attrs[..|attrs| - 1]) + OptSeq(AttrRef(lib, base, key, attrs[|attrs| - 1]))
  }

  /** Element nodes named in AttrMap are the only ones whose attributes are read. */
  predicate Tracked(n: Node) {
    n.kind == ElementNode && n.data in AttrMap
  }

  function OwnRefs(lib: Lib, base: Url, n: Node): seq<Url> {
    if Tracked(n) then AttrRefs(lib, base, AttrMap[n.data], n.attrs) else []
  }

  /** The references of a tree in pre-order: the node's own, then those of
      each child in turn. */
  function Refs(lib: Lib, base: Url, n: Node): seq<Url>
    decreases n, 1, 0
  {
    OwnRefs(lib, base, n) + ChildRefs(lib, base, n, |n.children|)
  }

  /** The references of the first j children of n. */
  function ChildRefs(lib: Lib, base: Url, n: Node, j: nat): seq<Url>
    requires j <= |n.children|
    decreases n, 0, j
  {
    if j == 0 then [] else ChildRefs(lib, base, n, j - 1) + Refs(lib, base, n.children[j - 1])
  }

  // ---------------------------------------------------------------------
  // Keeping the first occurrence of each URL

  /** The links found so far and the set of their keys. */
  datatype Acc = Acc(links: seq<Url>, seen: set<string>)

  /** One step of the walk: a URL whose key is new is recorded. */
  function Record(acc: Acc, u: Url): Acc {
    if Key(u) in acc.seen then acc else Acc(acc.links + [u], acc.seen + {Key(u)})
  }

  function RecordAll(acc: Acc, refs: seq<Url>): Acc
    decreases |refs|
  {
    if refs == [] then acc else RecordAll(Record(acc, refs[0]), refs[1..])
  }

  function KeysOf(s: seq<Url>): set<string> {
    set u | u in s :: Key(u)
  }

  /** The reference definition: each URL whose key has not occurred earlier
      in the sequence, in order. */
  function FirstOccurrences(refs: seq<Url>): seq<Url>
    decreases |refs|
  {
    if refs == [] then []
    else
      var init := refs[..|refs| - 1];
      var u := refs[|refs| - 1];
      FirstOccurrences(init) + (if Key(u) in KeysOf(init) then [] else [u])
  }

  lemma {:induction false} RecordAllConcat(acc: Acc, a: seq<Url>, b: seq<Url>)
    ensures RecordAll(acc, a + b) == RecordAll(RecordAll(acc, a), b)
    decreases |a|
  {
    if a == [] {
      assert a + b == b;
    } else {
      assert (a + b)[0] == a[0] && (a + b)[1..] == a[1..] + b;
      RecordAllConcat(Record(acc, a[0]), a[1..], b);
    }
  }

  lemma RecordAllSnoc(acc: Acc, a: seq<Url>, u: Url)
    ensures RecordAll(acc, a + [u]) == Record(RecordAll(acc, a), u)
  {
    RecordAllConcat(acc, a, [u]);
    assert [u][1..] == [];
  }

  /** Recording from nothing keeps exactly the first occurrences. */
  lemma {:induction false} RecordAllIsFirstOccurrences(refs: seq<Url>)
    ensures RecordAll(Acc([], {}), refs) == Acc(FirstOccurrences(refs), KeysOf(refs))
    decreases |refs|
  {
    if refs != [] {
      var init := refs[..|refs| - 1];
      var u := refs[|refs| - 1];
      assert refs == init + [u];
      RecordAllIsFirstOccurrences(init);
      RecordAllSnoc(Acc([], {}), init, u);
      KeysOfSnoc(init, u);
    } else {
      assert KeysOf(refs) == {};
    }
  }

  lemma KeysOfSnoc(init: seq<Url>, u: Url)
    ensures KeysOf(init + [u]) == KeysOf(init) + {Key(u)}
  {
  }

  lemma {:induction false} FirstOccurrencesKeys(refs: seq<Url>)
    ensures KeysOf(FirstOccurrences(refs)) == KeysOf(refs)
    decreases |refs|
  {
    if refs != [] {
      var init := refs[..|refs| - 1];
      var u := refs[|refs| - 1];
      assert refs == init + [u];
      FirstOccurrencesKeys(init);
      KeysOfSnoc(init, u);
      var fi := FirstOccurrences(init);
      if Key(u) !in KeysOf(init) {
        KeysOfSnoc(fi, u);
      } else {
        assert FirstOccurrences(refs) == fi + [];
      }
    } else {
      assert KeysOf(refs) == {};
    }
  }

  lemma {:induction false} FirstOccurrencesFrom(refs: seq<Url>)
    ensures forall j :: 0 <= j < |FirstOccurrences(refs)| ==> FirstOccurrences(refs)[j] in refs
    decreases |refs|
  {
    if refs != [] {
      var init := refs[..|refs| - 1];
      var u := refs[|refs| - 1];
      assert refs == init + [u];
      FirstOccurrencesFrom(init);
      var fi := FirstOccurrences(init);
      var f := FirstOccurrences(refs);
      var tail := if Key(u) in KeysOf(init) then [] else [u];
      assert f == fi + tail;
      forall j | 0 <= j < |f| ensures f[j] in refs {
        if j < |fi| {
          assert f[j] == fi[j];
          assert fi[j] in init;
        } else {
          assert f[j] == u;
        }
      }
    }
  }

  lemma {:induction false} FirstOccurrencesDistinct(refs: seq<Url>)
    ensures var f := FirstOccurrences(refs); forall j, k :: 0 <= j < k < |f| ==> Key(f[j]) != Key(f[k])
    decreases |refs|
  {
    if refs != [] {
      var init := refs[..|refs| - 1];
      var u := refs[|refs| - 1];
      assert refs == init + [u];
      FirstOccurrencesDistinct(init);
      var fi := FirstOccurrences(init);
      if Key(u) !in KeysOf(init) {
        FirstOccurrencesKeys(init);
        forall j | 0 <= j < |fi| ensures Key(fi[j]) != Key(u) {
          assert fi[j] in fi;
          assert Key(fi[j]) in KeysOf(fi);
        }
        assert FirstOccurrences(refs) == fi + [u];
      } else {
        assert FirstOccurrences(refs) == fi + [];
      }
    }
  }

  /** The first occurrences are pairwise distinct by key, each comes from the
      sequence, and together they cover every key in it. */
  lemma FirstOccurrencesSpec(refs: seq<Url>)
    ensures var f := FirstOccurrences(refs);
      && (forall j, k :: 0 <= j < k < |f| ==> Key(f[j]) != Key(f[k]))
      && (forall j :: 0 <= j < |f| ==> f[j] in refs)
      && KeysOf(f) == KeysOf(refs)
  {
    FirstOccurrencesDistinct(refs);
    FirstOccurrencesFrom(refs);
    FirstOccurrencesKeys(refs);
  }

  // ---------------------------------------------------------------------
  // Rewriting

  /** The mirror path the rewriter expects for a page of `host`: the host
      name doubled as the root (host/host/…), index.html for directories. */
  function PagePath(host: string, path: string): string {
    MirrorPath(host, host, path)
  }

  /** The new value of one attribute: a same-host reference for which
      filepath.Rel succeeds becomes the relative path from the page's
      directory to the target's file; any other attribute is unchanged. */
  function RewriteAttr(lib: Lib, base: Url, key: string, a: Attr): Attr {
    match AttrRef(lib, base, key, a)
    case None => a
    case Some(abs) =>
      if abs.host != base.host then a
      else match Rel(Dir(PagePath(base.host, base.path)), PagePath(base.host, abs.path))
        case None => a
        case Some(rel) => Attr(a.key, ToSlash(rel))
  }

  function RewriteAttrs(lib: Lib, base: Url, n: Node): seq<Attr> {
    if Tracked(n) then seq(|n.attrs|, i requires 0 <= i < |n.attrs| => RewriteAttr(lib, base, AttrMap[n.data], n.attrs[i]))
    else n.attrs
  }

  /** The document after the walk: every attribute rewritten, nothing else changed. */
  function Rewrite(lib: Lib, base: Url, n: Node): Node
    decreases n, 1, 0
  {
    Node(n.kind, n.data, RewriteAttrs(lib, base, n), RewriteChildren(lib, base, n, |n.children|))
  }

  /** The first j children of n, rewritten. */
  function RewriteChildren(lib: Lib, base: Url, n: Node, j: nat): seq<Node>
    requires j <= |n.children|
    decreases n, 0, j
  {
    if j == 0 then [] else RewriteChildren(lib, base, n, j - 1) + [Rewrite(lib, base, n.children[j - 1])]
  }

  lemma {:induction false} RewriteChildrenIndex(lib: Lib, base: Url, n: Node, j: nat)
    requires j <= |n.children|
    ensures |RewriteChildren(lib, base, n, j)| == j
    ensures forall i :: 0 <= i < j ==> RewriteChildren(lib, base, n, j)[i] == Rewrite(lib, base, n.children[i])
  {
    if j > 0 {
      RewriteChildrenIndex(lib, base, n, j - 1);
    }
  }

  /** The four cases of the rewrite, which together cover every attribute.
      The key is always kept. An attribute that is not a reference, or that
      refers to another host, is left alone, and so is a same-host reference
      for which filepath.Rel fails. A same-host reference whose relative
      path exists gets that path, and joining the page's directory with it
      gives back the target's file. */
  lemma RewriteAttrSpec(lib: Lib, base: Url, key: string, a: Attr)
    ensures RewriteAttr(lib, base, key, a).key == a.key
    ensures AttrRef(lib, base, key, a).None? ==> RewriteAttr(lib, base, key, a) == a
    ensures var r := AttrRef(lib, base, key, a);
      r.Some? && r.value.host != base.host ==> RewriteAttr(lib, base, key, a) == a
    ensures var r := AttrRef(lib, base, key, a);
      var dir := Dir(PagePath(base.host, base.path));
      r.Some? && r.value.host == base.host && Rel(dir, PagePath(base.host, r.value.path)).None? ==>
        RewriteAttr(lib, base, key, a) == a
    ensures var r := AttrRef(lib, base, key, a);
      var dir := Dir(PagePath(base.host, base.path));
      r.Some? && r.value.host == base.host && Rel(dir, PagePath(base.host, r.value.path)).Some? ==>
        && RewriteAttr(lib, base, key, a).val == Rel(dir, PagePath(base.host, r.value.path)).value
        && Join([dir, RewriteAttr(lib, base, key, a).val]) == Clean(PagePath(base.host, r.value.path))
  {
    var r := AttrRef(lib, base, key, a);
    if r.Some? && r.value.host == base.host {
      var dir := Dir(PagePath(base.host, base.path));
      var target := PagePath(base.host, r.value.path);
      if Rel(dir, target).Some? {
        RelJoin(dir, target);
      }
    }
  }

  /** The rewrite changes attribute values only: node types, tag names,
      attribute keys and the tree's shape stay as they are. */
  lemma {:induction false} RewriteKeepsShape(lib: Lib, base: Url, n: Node)
    ensures var m := Rewrite(lib, base, n);
      && m.kind == n.kind && m.data == n.data
      && |m.attrs| == |n.attrs| && (forall i :: 0 <= i < |n.attrs| ==> m.attrs[i].key == n.attrs[i].key)
      && |m.children| == |n.children|
      && (forall i :: 0 <= i < |n.children| ==> m.children[i] == Rewrite(lib, base, n.children[i]))
    decreases n
  {
    var m := Rewrite(lib, base, n);
    RewriteChildrenIndex(lib, base, n, |n.children|);
    if Tracked(n) {
      forall i | 0 <= i < |n.attrs| ensures m.attrs[i].key == n.attrs[i].key {
        RewriteAttrSpec(lib, base, AttrMap[n.data], n.attrs[i]);
      }
    }
  }

  /** With a host that is a plain path element and URL paths without "." or
      ".." elements, the relative path written into a page is the one
      between the saved files (sites/<host>/… instead of <host>/<host>/…),
      and following it from the saved page's directory reaches the file the
      target is saved as. */
  lemma RewrittenLinkReachesSavedFile(base: Url, target: Url)
    requires PlainSegment(base.host) && target.host == base.host
    requires DotFree(base.path) && DotFree(target.path)
    ensures var rel := Rel(Dir(PagePath(base.host, base.path)), PagePath(base.host, target.path));
      && rel.Some?
      && rel == Rel(Dir(LocalPath(base)), LocalPath(target))
      && Join([Dir(LocalPath(base)), rel.value]) == LocalPath(target)
  {
    var h := base.host;
    assert PlainSegment(SitesRoot);
    var tb, tt := Tail(base.path), Tail(target.path);
    TailNonEmpty(base.path);
    var dirTail := tb[..|tb| - 1];
    // The pages as the rewriter sees them ...
    MirrorDir(h, h, base.path);
    MirrorFile(h, h, target.path);
    // ... and as SaveFile stores them.
    MirrorDir(SitesRoot, h, base.path);
    MirrorFile(SitesRoot, h, target.path);
    var rewriterBase, rewriterTarget := Path(false, [h, h] + dirTail), Path(false, [h, h] + tt);
    var savedBase, savedTarget := Path(false, [SitesRoot, h] + dirTail), Path(false, [SitesRoot, h] + tt);
    RelPrefixIndependent([h, h], [SitesRoot, h], dirTail, tt);
    CanonicalNoDotDot(savedBase);
    assert !ClimbsPastDotDot(savedBase, savedTarget);
    RelJoin(Dir(LocalPath(base)), LocalPath(target));
    CleanIdempotent(LocalPath(target));
    MirrorShape(SitesRoot, h, target.path);
    CleanedRender(savedTarget);
  }

  /** The cleaned directory of a mirror path: root/host and the tail
      without its last element. */
  lemma MirrorDir(root: string, host: string, path: string)
    requires PlainSegment(root) && PlainSegment(host) && DotFree(path)
    ensures |Tail(path)| >= 1
    ensures Canonical(Path(false, [root, host] + Tail(path)[..|Tail(path)| - 1]))
    ensures Cleaned(Dir(MirrorPath(root, host, path))) == Path(false, [root, host] + Tail(path)[..|Tail(path)| - 1])
  {
    var t := Tail(path);
    TailNonEmpty(path);
    MirrorShape(root, host, path);
    var p := Path(false, [root, host] + t);
    DirOfCanonical(p);
    assert p.elems[..|p.elems| - 1] == [root, host] + t[..|t| - 1];
    CanonicalPrefix(p, |p.elems| - 1);
  }

  /** The cleaned form of a mirror path: root/host and the tail. */
  lemma MirrorFile(root: string, host: string, path: string)
    requires PlainSegment(root) && PlainSegment(host) && DotFree(path)
    ensures Canonical(Path(false, [root, host] + Tail(path)))
    ensures Cleaned(MirrorPath(root, host, path)) == Path(false, [root, host] + Tail(path))
  {
    MirrorShape(root, host, path);
    CleanedRender(Path(false, [root, host] + Tail(path)));
  }

  // ---------------------------------------------------------------------
  // ParseAndRewriteLinks

  /** What ParseAndRewriteLinks returns on success: the distinct links in
      document order, and the rendered rewritten document. */
  datatype Rewritten = Rewritten(links: seq<Url>, html: Bytes)

  /** ParseAndRewriteLinks as a function: parse, walk, render. */
  function RewriteSpec(lib: Lib, data: Bytes, base: Url): Result<Rewritten, Error> {
    match lib.parseHtml(data)
    case None => Failure(HtmlParseFailed)
    case Some(doc) =>
      match lib.renderHtml(Rewrite(lib, base, doc))
      case None => Failure(HtmlRenderFailed)
      case Some(html) => Success(Rewritten(FirstOccurrences(Refs(lib, base, doc)), html))
  }
  /** The closure `f` of ParseAndRewriteLinks with the variables it captures:
      the links slice, the seen map, and the path of the current page. */
  class LinkWalker {
    const lib: Lib
    const base: Url
    const currentPath: string
    var links: seq<Url>
    var seen: set<string>

    constructor(lib: Lib, base: Url, currentPath: string)
      ensures this.lib == lib && this.base == base && this.currentPath == currentPath
      ensures links == [] && seen == {}
    {
      this.lib := lib;
      this.base := base;
      this.currentPath := currentPath;
      links := [];
      seen := {};
    }

    /** The body of the attribute loop for one attribute: a URL attribute
        with a non-empty value that url.Parse accepts is resolved against
        the base, recorded unless its text form was seen, and, when it is on
        the base's host and filepath.Rel succeeds, given the relative path
        from the current page's directory to its mirror file. */
    method VisitAttr(key: string, a: Attr) returns (b: Attr)
      requires currentPath == PagePath(base.host, base.path)
      modifies this
      ensures b == RewriteAttr(lib, base, key, a)
      ensures Acc(links, seen) == RecordAll(old(Acc(links, seen)), OptSeq(AttrRef(lib, base, key, a)))
    {
      b := a;
      if a.key == key && TrimSpace(a.val) != "" {
        var parsed := lib.parseUrl(TrimSpace(a.val));
        if parsed.Some? {
          var abs := lib.resolveRef(base, parsed.value);
          assert AttrRef(lib, base, key, a) == Some(abs);
          ghost var acc0 := Acc(links, seen);
          if Key(abs) !in seen {
            seen := seen + {Key(abs)};
            links := links + [abs];
          }
          assert Acc(links, seen) == Record(acc0, abs);
          assert [abs][1..] == [];
          assert RecordAll(acc0, [abs]) == RecordAll(Record(acc0, abs), []);
          if abs.host == base.host {
            var targetPath := Join([base.host, base.host, abs.path]);
            if HasSuffix(abs.path, "/") || Ext(abs.path) == "" {
              targetPath := Join([targetPath, IndexFile]);
            }
            assert targetPath == PagePath(base.host, abs.path);
            var rel := Rel(Dir(currentPath), targetPath);
            if rel.Some? {
              b := Attr(a.key, ToSlash(rel.value));
            }
          }
        }
      }
    }

    /** The attribute loop of f(n): the attributes of n as the loop leaves
        them, recording the references among them. */
    method VisitAttrs(n: Node) returns (attrs: seq<Attr>)
      requires currentPath == PagePath(base.host, base.path)
      modifies this
      ensures attrs == RewriteAttrs(lib, base, n)
      ensures Acc(links, seen) == RecordAll(old(Acc(links, seen)), OwnRefs(lib, base, n))
    {
      attrs := n.attrs;
      if n.kind == ElementNode && n.data in AttrMap {
        ghost var acc0 := Acc(links, seen);
        var key := AttrMap[n.data];
        var i := 0;
        while i < |n.attrs|
          invariant 0 <= i <= |n.attrs| == |attrs|
          invariant forall j :: 0 <= j < i ==> attrs[j] == RewriteAttr(lib, base, key, n.attrs[j])
          invariant forall j :: i <= j < |attrs| ==> attrs[j] == n.attrs[j]
          invariant Acc(links, seen) == RecordAll(acc0, AttrRefs(lib, base, key, n.attrs[..i]))
        {
          assert n.attrs[..i + 1][..i] == n.attrs[..i];
          RecordAllConcat(acc0, AttrRefs(lib, base, key, n.attrs[..i]), OptSeq(AttrRef(lib, base, key, n.attrs[i])));
          var b := VisitAttr(key, attrs[i]);
          attrs := attrs[i := b];
          i := i + 1;
        }
        assert n.attrs[..|n.attrs|] == n.attrs;
      }
    }

    /** f(n): for an element named in the attribute map, each attribute
        holding a URL is resolved, recorded once, and rewritten when it is
        local; then the children are walked in order. Returns n as the walk
        leaves it. */
    method Visit(n: Node) returns (m: Node)
      requires currentPath == PagePath(base.host, base.path)
      modifies this
      ensures m == Rewrite(lib, base, n)
      ensures Acc(links, seen) == RecordAll(old(Acc(links, seen)), Refs(lib, base, n))
      decreases n, 1
    {
      ghost var acc0 := Acc(links, seen);
      var attrs := VisitAttrs(n);
      var children := VisitChildren(n);
      m := Node(n.kind, n.data, attrs, children);
      RecordAllConcat(acc0, OwnRefs(lib, base, n), ChildRefs(lib, base, n, |n.children|));
    }

    /** The child loop of f(n): each child walked in document order. */
    method VisitChildren(n: Node) returns (children: seq<Node>)
      requires currentPath == PagePath(base.host, base.path)
      modifies this
      ensures children == RewriteChildren(lib, base, n, |n.children|)
      ensures Acc(links, seen) == RecordAll(old(Acc(links, seen)), ChildRefs(lib, base, n, |n.children|))
      decreases n, 0
    {
      ghost var acc1 := Acc(links, seen);
      children := [];
      var j := 0;
      while j < |n.children|
        invariant 0 <= j <= |n.children|
        invariant children == RewriteChildren(lib, base, n, j)
        invariant Acc(links, seen) == RecordAll(acc1, ChildRefs(lib, base, n, j))
      {
        var child := n.children[j];
        ghost var before := ChildRefs(lib, base, n, j);
        ghost var own := Refs(lib, base, child);
        assert ChildRefs(lib, base, n, j + 1) == before + own;
        assert RewriteChildren(lib, base, n, j + 1) == children + [Rewrite(lib, base, child)];
        var c := Visit(child);
        RecordAllConcat(acc1, before, own);
        children := children + [c];
        j := j + 1;
      }
    }
  }

  /** ParseAndRewriteLinks: parse the document, walk it from the root, render
      the result. The links are those of the document in order, each URL
      once; the bytes are the rendered rewritten tree. */
  method ParseAndRewriteLinks(lib: Lib, data: Bytes, base: Url) returns (r: Result<Rewritten, Error>)
    ensures r == RewriteSpec(lib, data, base)
  {
    var parsed := lib.parseHtml(data);
    if parsed.None? {
      return Failure(HtmlParseFailed);
    }
    var doc := parsed.value;
    var currentPath := Join([base.host, base.host, base.path]);
    if HasSuffix(base.path, "/") || Ext(base.path) == "" {
      currentPath := Join([currentPath, IndexFile]);
    }
    var walker := new LinkWalker(lib, base, currentPath);
    var rewritten := walker.Visit(doc);
    var html := lib.renderHtml(rewritten);
    if html.None? {
      return Failure(HtmlRenderFailed);
    }
    RecordAllIsFirstOccurrences(Refs(lib, base, doc));
    return Success(Rewritten(walker.links, html.value));
  }

  /** The links ParseAndRewriteLinks returns are pairwise distinct, each is a
      reference of the document, and every reference of the document is
      among them (by its text form). */
  lemma RewriteLinksDistinctAndComplete(lib: Lib, data: Bytes, base: Url)
    requires RewriteSpec(lib, data, base).Success?
    ensures var links := RewriteSpec(lib, data, base).value.links;
      var refs := Refs(lib, base, lib.parseHtml(data).value);
      && (forall j, k :: 0 <= j < k < |links| ==> Key(links[j]) != Key(links[k]))
      && (forall j :: 0 <= j < |links| ==> links[j] in refs)
      && KeysOf(links) == KeysOf(refs)
  {
    FirstOccurrencesSpec(Refs(lib, base, lib.parseHtml(data).value));
  }

  // ---------------------------------------------------------------------
  // ParseAllLinks

  /** What ParseAllLinks depends on besides its arguments: the library, the
      client's behaviour, and the crawler's depth limit. */
  datatype Env = Env(lib: Lib, respond: (Url, nat) -> Outcome, depth: int)

  /** The crawl state ParseAllLinks changes: the visited keys, and the
      client's requests and pauses. */
  datatype Crawl = Crawl(visited: set<string>, requests: seq<Url>, sleeps: nat)

  datatype Discovery = Discovery(result: Result<seq<Url>, Error>, after: Crawl)

  function Snap(c: Crawler): Crawl
    reads c, c.client
  {
    Crawl(c.visited, c.client.requests, c.client.sleeps)
  }

  /** The links of a fetched page: those of ParseAndRewriteLinks when the
      page is HTML, none otherwise. */
  function PageLinks(lib: Lib, data: Bytes, base: Url): Result<seq<Url>, Error> {
    if !IsHTML(base.path, data) then Success([])
    else match RewriteSpec(lib, data, base)
      case Failure(e) => Failure(e)
      case Success(rw) => Success(rw.links)
  }

  /** The number of levels left to explore from depth cur. */
  function Budget(depth: int, cur: int): nat {
    if cur > depth then 0 else depth - cur + 1
  }

  function Prepend(p: seq<Url>, d: Discovery): Discovery {
    if d.result.Success? then Discovery(Success(p + d.result.value), d.after) else d
  }

  /** ParseAllLinks(c, data, base, cur) as a function of the crawl state. */
  function Discover(env: Env, cur: int, data: Bytes, base: Url, s: Crawl): Discovery
    decreases Budget(env.depth, cur), 2, 0
  {
    if cur > env.depth then Discovery(Failure(MaxDepthExceeded), s)
    else match PageLinks(env.lib, data, base)
      case Failure(e) => Discovery(Failure(e), s)
      case Success(links) => DiscoverFrom(env, cur, base, links, 0, s)
  }

  /** The loop of ParseAllLinks from the i-th link on. */
  function DiscoverFrom(env: Env, cur: int, base: Url, links: seq<Url>, i: nat, s: Crawl): Discovery
    requires cur <= env.depth && i <= |links|
    decreases Budget(env.depth, cur), 1, |links| - i
  {
    if i == |links| then Discovery(Success([]), s)
    else
      var step := FollowSpec(env, cur, base, links[i], s);
      Prepend(step.found, DiscoverFrom(env, cur, base, links, i + 1, step.after))
  }

  /** What one iteration of the loop contributes, and the state after it. */
  datatype Followed = Followed(found: seq<Url>, after: Crawl)

  /** One iteration of the loop of ParseAllLinks, for one link: a link to
      another host, or one already visited, adds nothing; otherwise it is
      claimed and kept and, below the depth limit, fetched with two retries
      and, when that succeeds, followed by the links of its page one level
      deeper (none when that page cannot be parsed). */
  function FollowSpec(env: Env, cur: int, base: Url, link: Url, s: Crawl): Followed
    requires cur <= env.depth
    decreases Budget(env.depth, cur), 0, 0
  {
    if link.host != base.host || Key(link) in s.visited then Followed([], s)
    else
      var s1 := s.(visited := s.visited + {Key(link)});
      if cur == env.depth then Followed([link], s1)
      else
        var a := FetchSpec(env.respond, link, |s1.requests|, 2);
        var s2 := s1.(requests := s1.requests + Repeat(link, a.made), sleeps := s1.sleeps + a.sleeps);
        if a.result.Failure? then Followed([link], s2)
        else
          var sub := Discover(env, cur + 1, a.result.value, link, s2);
          Followed([link] + (if sub.result.Success? then sub.result.value else []), sub.after)
  }

  lemma PrependNil(d: Discovery)
    ensures Prepend([], d) == d
  {
    if d.result.Success? {
      assert [] + d.result.value == d.result.value;
    }
  }

  lemma PrependConcat(p: seq<Url>, q: seq<Url>, d: Discovery)
    ensures Prepend(p, Prepend(q, d)) == Prepend(p + q, d)
  {
    if d.result.Success? {
      assert p + (q + d.result.value) == (p + q) + d.result.value;
    }
  }

  /** ParseAllLinks: beyond the depth limit, an error; otherwise the
      links of the page (when it is HTML), each followed in turn. */
  method ParseAllLinks(c: Crawler, lib: Lib, data: Bytes, base: Url, cur: int) returns (r: Result<seq<Url>, Error>)
    modifies c`visited, c.client
    ensures Discovery(r, Snap(c)) == Discover(Env(lib, c.client.respond, c.depth), cur, data, base, old(Snap(c)))
    decreases Budget(c.depth, cur), 1
  {
    ghost var env := Env(lib, c.client.respond, c.depth);
    if cur > c.depth {
      return Failure(MaxDepthExceeded);
    }
    var links: seq<Url> := [];
    if IsHTML(base.path, data) {
      var rw := ParseAndRewriteLinks(lib, data, base);
      if rw.Failure? {
        return Failure(rw.error);
      }
      links := rw.value.links;
    }
    ghost var s0 := Snap(c);
    assert Discover(env, cur, data, base, s0) == DiscoverFrom(env, cur, base, links, 0, s0);
    PrependNil(DiscoverFrom(env, cur, base, links, 0, s0));
    var allLinks: seq<Url> := [];
    var i := 0;
    while i < |links|
      invariant 0 <= i <= |links|
      invariant DiscoverFrom(env, cur, base, links, 0, s0) == Prepend(allLinks, DiscoverFrom(env, cur, base, links, i, Snap(c)))
      decreases |links| - i
    {
      ghost var s := Snap(c);
      var found := FollowLink(c, lib, base, cur, links[i]);
      PrependConcat(allLinks, found, DiscoverFrom(env, cur, base, links, i + 1, Snap(c)));
      allLinks := allLinks + found;
      i := i + 1;
    }
    assert allLinks + [] == allLinks;
    return Success(allLinks);
  }

  /** The body of the loop of ParseAllLinks for one link; returns what it
      appends to allLinks. */
  method FollowLink(c: Crawler, lib: Lib, base: Url, cur: int, link: Url) returns (found: seq<Url>)
    requires cur <= c.depth
    modifies c`visited, c.client
    ensures Followed(found, Snap(c)) == FollowSpec(Env(lib, c.client.respond, c.depth), cur, base, link, old(Snap(c)))
    decreases Budget(c.depth, cur), 0
  {
    ghost var env := Env(lib, c.client.respond, c.depth);
    if link.host != base.host {
      return [];
    }
    var loaded := c.VisitedLoadOrStore(Key(link));
    if loaded {
      return [];
    }
    found := [link];
    if cur < c.depth {
      ghost var s1 := Snap(c);
      var res := c.Fetch(link, 2);
      ghost var a := FetchSpec(env.respond, link, |s1.requests|, 2);
      if res.Success? {
        ghost var s2 := Snap(c);
        var sub := ParseAllLinks(c, lib, res.value, link, cur + 1);
        assert Discovery(sub, Snap(c)) == Discover(env, cur + 1, a.result.value, link, s2);
        if sub.Success? {
          found := found + sub.value;
        } else {
          assert found == [link] + [];
        }
      }
    }
  }

  // ---------------------------------------------------------------------
  // What ParseAllLinks guarantees

  /** The links found from `before` to `after`: all on `host`, none of them
      visited before, no two alike, and exactly their keys added to the
      visited set. */
  predicate Fresh(host: string, before: set<string>, found: seq<Url>, after: set<string>) {
    && (forall j :: 0 <= j < |found| ==> found[j].host == host && Key(found[j]) !in before)
    && (forall j, k :: 0 <= j < k < |found| ==> Key(found[j]) != Key(found[k]))
    && after == before + KeysOf(found)
  }

  lemma FreshConcat(host: string, a: set<string>, x: seq<Url>, b: set<string>, y: seq<Url>, c: set<string>)
    requires Fresh(host, a, x, b) && Fresh(host, b, y, c)
    ensures Fresh(host, a, x + y, c)
  {
    var xy := x + y;
    forall j, k | 0 <= j < k < |xy| ensures Key(xy[j]) != Key(xy[k]) {
      if j < |x| <= k {
        assert xy[j] in x;
        assert Key(xy[j]) in b;
        assert xy[k] == y[k - |x|];
      }
    }
    assert KeysOf(xy) == KeysOf(x) + KeysOf(y) by {
      forall key | key in KeysOf(xy) ensures key in KeysOf(x) + KeysOf(y) {
        var u :| u in xy && Key(u) == key;
        assert u in x || u in y;
      }
    }
  }

  /** A successful run of ParseAllLinks returns fresh links (above); a
      failed one changes nothing. */
  lemma {:induction false} DiscoverFresh(env: Env, cur: int, data: Bytes, base: Url, s: Crawl)
    ensures var d := Discover(env, cur, data, base, s);
      && (d.result.Success? ==> Fresh(base.host, s.visited, d.result.value, d.after.visited))
      && (d.result.Failure? ==> d.after == s)
    decreases Budget(env.depth, cur), 2, 0
  {
    if cur <= env.depth && PageLinks(env.lib, data, base).Success? {
      DiscoverFromFresh(env, cur, base, PageLinks(env.lib, data, base).value, 0, s);
    }
  }

  lemma {:induction false} DiscoverFromFresh(env: Env, cur: int, base: Url, links: seq<Url>, i: nat, s: Crawl)
    requires cur <= env.depth && i <= |links|
    ensures var d := DiscoverFrom(env, cur, base, links, i, s);
      d.result.Success? && Fresh(base.host, s.visited, d.result.value, d.after.visited)
    decreases Budget(env.depth, cur), 1, |links| - i
  {
    if i == |links| {
      assert KeysOf([]) == {};
    } else {
      var step := FollowSpec(env, cur, base, links[i], s);
      FollowFresh(env, cur, base, links[i], s);
      DiscoverFromFresh(env, cur, base, links, i + 1, step.after);
      var rest := DiscoverFrom(env, cur, base, links, i + 1, step.after);
      FreshConcat(base.host, s.visited, step.found, step.after.visited, rest.result.value, rest.after.visited);
    }
  }

  lemma {:induction false} FollowFresh(env: Env, cur: int, base: Url, link: Url, s: Crawl)
    requires cur <= env.depth
    ensures var f := FollowSpec(env, cur, base, link, s);
      Fresh(base.host, s.visited, f.found, f.after.visited)
    decreases Budget(env.depth, cur), 0, 0
  {
    var f := FollowSpec(env, cur, base, link, s);
    if link.host != base.host || Key(link) in s.visited {
      assert KeysOf([]) == {};
    } else {
      var s1 := s.(visited := s.visited + {Key(link)});
      assert KeysOf([link]) == {Key(link)};
      assert Fresh(base.host, s.visited, [link], s1.visited);
      if cur < env.depth {
        var a := FetchSpec(env.respond, link, |s1.requests|, 2);
        var s2 := s1.(requests := s1.requests + Repeat(link, a.made), sleeps := s1.sleeps + a.sleeps);
        if a.result.Success? {
          var sub := Discover(env, cur + 1, a.result.value, link, s2);
          DiscoverFresh(env, cur + 1, a.result.value, link, s2);
          if sub.result.Success? {
            FreshConcat(base.host, s.visited, [link], s1.visited, sub.result.value, sub.after.visited);
          } else {
            assert f.found == [link] + [];
          }
        }
      }
    }
  }

  /** How the crawl state moves on: visited keys and pauses only grow,
      requests are only appended, and every new request is for a URL on
      `host` whose key was claimed in the meantime, so no URL visited
      before is requested again. */
  predicate Progress(host: string, s: Crawl, t: Crawl) {
    && s.visited <= t.visited
    && s.sleeps <= t.sleeps
    && |s.requests| <= |t.requests| && t.requests[..|s.requests|] == s.requests
    && (forall k :: |s.requests| <= k < |t.requests| ==>
          t.requests[k].host == host && Key(t.requests[k]) in t.visited && Key(t.requests[k]) !in s.visited)
  }

  lemma ProgressTrans(host: string, a: Crawl, b: Crawl, c: Crawl)
    requires Progress(host, a, b) && Progress(host, b, c)
    ensures Progress(host, a, c)
  {
    forall k | |a.requests| <= k < |c.requests|
      ensures c.requests[k].host == host && Key(c.requests[k]) in c.visited && Key(c.requests[k]) !in a.visited
    {
      if k < |b.requests| {
        assert c.requests[k] == c.requests[..|b.requests|][k];
      }
    }
    assert c.requests[..|a.requests|] == c.requests[..|b.requests|][..|a.requests|];
  }

  lemma {:induction false} DiscoverProgress(env: Env, cur: int, data: Bytes, base: Url, s: Crawl)
    ensures Progress(base.host, s, Discover(env, cur, data, base, s).after)
    decreases Budget(env.depth, cur), 2, 0
  {
    if cur <= env.depth && PageLinks(env.lib, data, base).Success? {
      DiscoverFromProgress(env, cur, base, PageLinks(env.lib, data, base).value, 0, s);
    } else {
      assert s.requests[..|s.requests|] == s.requests;
    }
  }

  lemma {:induction false} DiscoverFromProgress(env: Env, cur: int, base: Url, links: seq<Url>, i: nat, s: Crawl)
    requires cur <= env.depth && i <= |links|
    ensures Progress(base.host, s, DiscoverFrom(env, cur, base, links, i, s).after)
    decreases Budget(env.depth, cur), 1, |links| - i
  {
    if i == |links| {
      assert s.requests[..|s.requests|] == s.requests;
    } else {
      var step := FollowSpec(env, cur, base, links[i], s);
      FollowProgress(env, cur, base, links[i], s);
      DiscoverFromProgress(env, cur, base, links, i + 1, step.after);
      ProgressTrans(base.host, s, step.after, DiscoverFrom(env, cur, base, links, i + 1, step.after).after);
    }
  }

  lemma {:induction false} FollowProgress(env: Env, cur: int, base: Url, link: Url, s: Crawl)
    requires cur <= env.depth
    ensures Progress(base.host, s, FollowSpec(env, cur, base, link, s).after)
    decreases Budget(env.depth, cur), 0, 0
  {
    assert s.requests[..|s.requests|] == s.requests;
    if link.host == base.host && Key(link) !in s.visited && cur < env.depth {
      var s1 := s.(visited := s.visited + {Key(link)});
      var a := FetchSpec(env.respond, link, |s1.requests|, 2);
      var s2 := s1.(requests := s1.requests + Repeat(link, a.made), sleeps := s1.sleeps + a.sleeps);
      assert s2.requests[..|s.requests|] == s.requests;
      assert Progress(base.host, s, s2);
      if a.result.Success? {
        DiscoverProgress(env, cur + 1, a.result.value, link, s2);
        ProgressTrans(base.host, s, s2, Discover(env, cur + 1, a.result.value, link, s2).after);
      }
    }
  }

  /** Data that is not HTML contributes no links and changes nothing. */
  lemma NonHtmlHasNoLinks(env: Env, cur: int, data: Bytes, base: Url, s: Crawl)
    requires cur <= env.depth && !IsHTML(base.path, data)
    ensures Discover(env, cur, data, base, s) == Discovery(Success([]), s)
  {
  }

  /** At the depth limit the links are only collected: no request is made
      and no pause is taken. */
  lemma {:induction false} NoRequestsAtDepthLimit(env: Env, base: Url, links: seq<Url>, i: nat, s: Crawl)
    requires i <= |links|
    ensures var d := DiscoverFrom(env, env.depth, base, links, i, s);
      d.after.requests == s.requests && d.after.sleeps == s.sleeps
    decreases |links| - i
  {
    if i < |links| {
      NoRequestsAtDepthLimit(env, base, links, i + 1, FollowSpec(env, env.depth, base, links[i], s).after);
    }
  }

  /** The links on `host` whose keys are not in `visited`, in order. */
  function NewOnHost(links: seq<Url>, host: string, visited: set<string>): seq<Url>
    decreases |links|
  {
    if links == [] then []
    else (if links[0].host == host && Key(links[0]) !in visited then [links[0]] else []) + NewOnHost(links[1..], host, visited)
  }

  /** A link of NewOnHost is a link on the host that was not visited. */
  lemma {:induction false} NewOnHostMembers(links: seq<Url>, host: string, visited: set<string>, u: Url)
    ensures u in NewOnHost(links, host, visited) <==> u in links && u.host == host && Key(u) !in visited
    decreases |links|
  {
    if links != [] {
      NewOnHostMembers(links[1..], host, visited, u);
      assert links == [links[0]] + links[1..];
    }
  }

  /** Marking a key visited that none of the links has changes nothing. */
  lemma {:induction false} NewOnHostOtherKey(links: seq<Url>, host: string, visited: set<string>, key: string)
    requires forall j :: 0 <= j < |links| ==> Key(links[j]) != key
    ensures NewOnHost(links, host, visited + {key}) == NewOnHost(links, host, visited)
    decreases |links|
  {
    if links != [] {
      assert Key(links[0]) != key;
      NewOnHostOtherKey(links[1..], host, visited, key);
    }
  }

  /** At the depth limit the loop of ParseAllLinks, given links with
      distinct keys, returns exactly those on the page's host that were not
      visited before, in order, and fetches none of them. */
  lemma {:induction false} DiscoverAtLimit(env: Env, base: Url, links: seq<Url>, i: nat, s: Crawl)
    requires i <= |links|
    requires forall j, k :: i <= j < k < |links| ==> Key(links[j]) != Key(links[k])
    ensures DiscoverFrom(env, env.depth, base, links, i, s).result == Success(NewOnHost(links[i..], base.host, s.visited))
    decreases |links| - i
  {
    if i < |links| {
      var step := FollowSpec(env, env.depth, base, links[i], s);
      DiscoverAtLimit(env, base, links, i + 1, step.after);
      assert links[i..] == [links[i]] + links[i + 1..];
      if links[i].host == base.host && Key(links[i]) !in s.visited {
        var rest := links[i + 1..];
        forall j | 0 <= j < |rest| ensures Key(rest[j]) != Key(links[i]) {
          assert rest[j] == links[i + 1 + j];
        }
        NewOnHostOtherKey(rest, base.host, s.visited, Key(links[i]));
      }
    }
  }

  /** Beyond the depth limit ParseAllLinks fails and changes nothing; at the
      limit it makes no request. */
  lemma DiscoverDepthLimit(env: Env, cur: int, data: Bytes, base: Url, s: Crawl)
    ensures cur > env.depth ==> Discover(env, cur, data, base, s) == Discovery(Failure(MaxDepthExceeded), s)
    ensures cur == env.depth ==> Discover(env, cur, data, base, s).after.requests == s.requests
  {
    if cur == env.depth && PageLinks(env.lib, data, base).Success? {
      NoRequestsAtDepthLimit(env, base, PageLinks(env.lib, data, base).value, 0, s);
    }
  }
}
