/** internal/files/files.go: where a downloaded resource is stored, and the
    store itself (directory creation, then the write). */
module Files {
  import opened Base
  import opened Externals
  import opened GoStrings
  import opened FilePath

  const SitesRoot: string := "sites"
  const IndexFile: string := "index.html"

  /** A URL path names a directory page, stored as its index.html: it ends in
      '/' or has no extension. */
  predicate NeedsIndex(path: string) {
    HasSuffix(path, "/") || Ext(path) == ""
  }

  /** The mirror location of a URL path below root/host; `MirrorPath(SitesRoot, …)`
      is what SaveFile writes, `MirrorPath(host, …)` what the link rewriter
      expects. */
  function MirrorPath(root: string, host: string, path: string): string {
    var p := Join([root, host, path]);
    if NeedsIndex(path) then Join([p, IndexFile]) else p
  }

  /** The file SaveFile writes for u. */
  function LocalPath(u: Url): string {
    MirrorPath(SitesRoot, u.host, u.path)
  }

  /** The trailing-slash test adds nothing: a path ending in '/' already has
      no extension. */
  lemma NeedsIndexIffNoExt(path: string)
    ensures NeedsIndex(path) <==> Ext(path) == ""
  {
    if HasSuffix(path, "/") {
      assert path[|path| - 1] == path[|path| - 1..][0];
      TrailingSeparatorNoExt(path);
    }
  }

  /** Only the host and the path of a URL decide where it is stored; its
      scheme, query and fragment do not. */
  lemma LocalPathOnlyHostAndPath(u: Url, v: Url)
    requires u.host == v.host && u.path == v.path
    ensures LocalPath(u) == LocalPath(v)
  {
  }

  // ---------------------------------------------------------------------
  // The shape of a mirror path

  /** The elements that survive cleaning when no ".." is present. */
  function Plain(raw: seq<string>): seq<string> {
    if raw == [] then []
    else (if raw[0] == "" || raw[0] == "." then [] else [raw[0]]) + Plain(raw[1..])
  }

  /** Every element Plain keeps is a non-empty element other than "." of raw. */
  lemma {:induction false} PlainElements(raw: seq<string>)
    ensures forall i :: 0 <= i < |Plain(raw)| ==> Plain(raw)[i] != "" && Plain(raw)[i] != "." && Plain(raw)[i] in raw
    decreases |raw|
  {
    if raw != [] {
      PlainElements(raw[1..]);
      var head := if raw[0] == "" || raw[0] == "." then [] else [raw[0]];
      var p := Plain(raw);
      assert p == head + Plain(raw[1..]);
      forall i | 0 <= i < |p| ensures p[i] != "" && p[i] != "." && p[i] in raw {
        if i < |head| {
          assert p[i] == raw[0];
        } else {
          assert p[i] == Plain(raw[1..])[i - |head|];
          assert Plain(raw[1..])[i - |head|] in raw[1..];
        }
      }
    }
  }

  /** The elements a mirror path has below root/host. */
  function Tail(path: string): seq<string> {
    Plain(Split(path)) + (if NeedsIndex(path) then [IndexFile] else [])
  }

  lemma {:induction false} ResolvePlain(rooted: bool, stack: seq<string>, raw: seq<string>)
    requires ".." !in raw
    ensures Resolve(rooted, stack, raw) == stack + Plain(raw)
    decreases |raw|
  {
    if raw != [] {
      var e, rest := raw[0], raw[1..];
      assert raw[0] in raw;
      assert ".." !in rest by {
        forall i | 0 <= i < |rest| ensures rest[i] != ".." {
          assert rest[i] == raw[i + 1];
          assert raw[i + 1] in raw;
        }
      }
      var head := if e == "" || e == "." then [] else [e];
      assert Step(rooted, stack, e) == stack + head;
      assert Plain(raw) == head + Plain(rest);
      ResolvePlain(rooted, stack + head, rest);
      assert stack + head + Plain(rest) == stack + (head + Plain(rest));
    }
  }

  lemma {:induction false} PlainKeeps(raw: seq<string>, x: string)
    requires x in raw && x != "" && x != "."
    ensures x in Plain(raw)
    decreases |raw|
  {
    if raw[0] != x {
      PlainKeeps(raw[1..], x);
    }
  }

  /** A URL path without "." or ".." elements. */
  predicate DotFree(path: string) {
    "." !in Split(path) && ".." !in Split(path)
  }

  predicate PlainSegment(e: string) {
    IsElement(e) && e != ".."
  }

  lemma SplitThree(root: string, host: string, path: string)
    requires NoSep(root) && NoSep(host)
    ensures Split(Unsplit([root, host, path])) == [root, host] + Split(path)
  {
    var three := [root, host, path];
    assert three[1..] == [host, path] && [host, path][1..] == [path];
    assert Unsplit([host, path]) == host + [Separator] + path;
    assert Unsplit(three) == root + [Separator] + (host + [Separator] + path);
    SplitConcat(root, host + [Separator] + path);
    SplitConcat(host, path);
    SplitNoSep(root);
    SplitNoSep(host);
  }

  lemma PlainPrefixCanonical(root: string, host: string, raw: seq<string>)
    requires PlainSegment(root) && PlainSegment(host) && ".." !in raw
    requires forall i :: 0 <= i < |raw| ==> NoSep(raw[i])
    ensures Canonical(Path(false, [root, host] + Plain(raw)))
  {
    var pl := Plain(raw);
    var e := [root, host] + pl;
    PlainElements(raw);
    forall i | 0 <= i < |e| ensures IsElement(e[i]) && e[i] != ".." {
      if i >= 2 {
        assert e[i] == pl[i - 2];
        assert pl[i - 2] in raw;
        var k :| 0 <= k < |raw| && raw[k] == pl[i - 2];
        assert raw[k] in raw;
      }
    }
  }

  lemma ResolveThree(root: string, host: string, path: string)
    requires PlainSegment(root) && PlainSegment(host) && ".." !in Split(path)
    ensures Resolve(false, [], Split(Unsplit([root, host, path]))) == [root, host] + Plain(Split(path))
  {
    var raw := Split(path);
    SplitThree(root, host, path);
    ResolveConcat(false, [], [root, host], raw);
    assert Canonical(Path(false, [] + [root, host]));
    ResolveOfCanonical(false, [], [root, host]);
    assert [] + [root, host] == [root, host];
    ResolvePlain(false, [root, host], raw);
  }

  lemma UnsplitThreeUnrooted(root: string, host: string, path: string)
    requires PlainSegment(root)
    ensures !Rooted(Unsplit([root, host, path]))
  {
    var s := Unsplit([root, host, path]);
    assert root[0] in root;
    assert s[0] == root[0];
  }

  /** root/host/path, cleaned, for a path without ".." elements. */
  lemma JoinThree(root: string, host: string, path: string)
    requires PlainSegment(root) && PlainSegment(host) && ".." !in Split(path)
    ensures Canonical(Path(false, [root, host] + Plain(Split(path))))
    ensures Join([root, host, path]) == Render(Path(false, [root, host] + Plain(Split(path))))
  {
    PlainPrefixCanonical(root, host, Split(path));
    ResolveThree(root, host, path);
    UnsplitThreeUnrooted(root, host, path);
    assert Join([root, host, path]) == Clean(Unsplit([root, host, path]));
  }

  /** Joining a clean relative path with one more plain element appends it. */
  lemma JoinChild(p: Path, name: string)
    requires Canonical(p) && !p.rooted && |p.elems| >= 1 && PlainSegment(name)
    ensures Canonical(Path(false, p.elems + [name]))
    ensures Join([Render(p), name]) == Render(Path(false, p.elems + [name]))
  {
    var e := p.elems + [name];
    assert Canonical(Path(false, e));
    var r := Render(p);
    UnsplitFirstChar(p.elems);
    assert p.elems[0][0] in p.elems[0];
    var s := r + [Separator] + name;
    assert Unsplit([r, name]) == s;
    SplitConcat(r, name);
    SplitUnsplit(p.elems);
    SplitNoSep(name);
    assert Split(s) == e;
    assert !Rooted(s);
    ResolveOfCanonical(false, [], e);
    assert [] + e == e;
  }

  lemma IndexFilePlain()
    ensures PlainSegment(IndexFile)
  {
    assert forall i :: 0 <= i < |IndexFile| ==> IndexFile[i] != Separator;
  }

  /** A mirror path is the clean path root/host followed by the tail of the
      URL path, whenever the URL path has no ".." elements. */
  lemma MirrorShape(root: string, host: string, path: string)
    requires PlainSegment(root) && PlainSegment(host) && ".." !in Split(path)
    ensures Canonical(Path(false, [root, host] + Tail(path)))
    ensures MirrorPath(root, host, path) == Render(Path(false, [root, host] + Tail(path)))
  {
    JoinThree(root, host, path);
    var e1 := [root, host] + Plain(Split(path));
    var p := Join([root, host, path]);
    if NeedsIndex(path) {
      IndexFilePlain();
      JoinChild(Path(false, e1), IndexFile);
      assert Tail(path) == Plain(Split(path)) + [IndexFile];
      assert e1 + [IndexFile] == [root, host] + Tail(path);
    } else {
      assert Tail(path) == Plain(Split(path)) + [];
      assert e1 == [root, host] + Tail(path);
    }
  }

  /** For a host that is a plain path element and a URL path without ".."
      elements, the stored file lies under sites/<host>. */
  lemma LocalPathUnderSite(u: Url)
    requires PlainSegment(u.host) && ".." !in Split(u.path)
    ensures Cleaned(LocalPath(u)) == Path(false, [SitesRoot, u.host] + Tail(u.path))
    ensures Cleaned(LocalPath(u)).elems[..2] == [SitesRoot, u.host]
  {
    MirrorShape(SitesRoot, u.host, u.path);
    CleanedRender(Path(false, [SitesRoot, u.host] + Tail(u.path)));
  }

  /** Without "." or ".." elements in the URL path, the file has at least one
      element below root/host. */
  lemma TailNonEmpty(path: string)
    requires DotFree(path)
    ensures |Tail(path)| >= 1
  {
    if !NeedsIndex(path) {
      ExtEmptyIffLastNoDot(path);
      var raw := Split(path);
      var last := raw[|raw| - 1];
      assert '.' in last;
      assert last in raw;
      PlainKeeps(raw, last);
    }
  }

  // ---------------------------------------------------------------------
  // The file store

  /** The part of the file system the crawler writes to: file contents by
      path and the directories created. Whether os.MkdirAll and os.WriteFile
      succeed for a path is fixed by `mkdirOk` and `writeOk`. */
  class FileSystem {
    var files: map<string, Bytes>
    var dirs: set<string>
    const mkdirOk: string -> bool
    const writeOk: string -> bool

    constructor(mkdirOk: string -> bool, writeOk: string -> bool)
      ensures files == map[] && dirs == {}
      ensures this.mkdirOk == mkdirOk && this.writeOk == writeOk
    {
      files := map[];
      dirs := {};
      this.mkdirOk := mkdirOk;
      this.writeOk := writeOk;
    }

    /** os.MkdirAll */
    method MkdirAll(dir: string) returns (ok: bool)
      modifies this
      ensures ok == mkdirOk(dir)
      ensures dirs == if ok then old(dirs) + {dir} else old(dirs)
      ensures files == old(files)
    {
      ok := mkdirOk(dir);
      if ok {
        dirs := dirs + {dir};
      }
    }

    /** os.WriteFile */
    method WriteFile(path: string, data: Bytes) returns (ok: bool)
      modifies this
      ensures ok == writeOk(path)
      ensures files == if ok then old(files)[path := data] else old(files)
      ensures dirs == old(dirs)
    {
      ok := writeOk(path);
      if ok {
        files := files[path := data];
      }
    }
  }

  /** The error SaveFile returns for the file p, given which directory
      creations and writes succeed. */
  function SaveError(mkdirOk: string -> bool, writeOk: string -> bool, p: string): Option<Error> {
    if !mkdirOk(Dir(p)) then Some(MkdirFailed(p))
    else if !writeOk(p) then Some(WriteFailed(p))
    else None
  }

  /** The directories there are after saving the file p. */
  function DirsAfterSave(mkdirOk: string -> bool, dirs: set<string>, p: string): set<string> {
    if mkdirOk(Dir(p)) then dirs + {Dir(p)} else dirs
  }

  /** SaveFile: create the parent directory of LocalPath(u), then write the
      data there. A failed directory creation writes nothing. On success the
      file holds exactly `data` and no other file changes. */
  method SaveFile(fs: FileSystem, u: Url, data: Bytes) returns (err: Option<Error>)
    modifies fs
    ensures err == SaveError(fs.mkdirOk, fs.writeOk, LocalPath(u))
    ensures fs.files == if err.None? then old(fs.files)[LocalPath(u) := data] else old(fs.files)
    ensures fs.dirs == DirsAfterSave(fs.mkdirOk, old(fs.dirs), LocalPath(u))
  {
    var localPath := LocalPath(u);
    var dir := Dir(localPath);
    var ok := fs.MkdirAll(dir);
    if !ok {
      return Some(MkdirFailed(localPath));
    }
    ok := fs.WriteFile(localPath, data);
    if !ok {
      return Some(WriteFailed(localPath));
    }
    return None;
  }
}
