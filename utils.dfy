/** internal/parser/utils.go: URL normalisation before url.Parse, and the
    guess whether a fetched resource is an HTML document. */
module ParserUtils {
  import opened Base
  import opened Externals
  import opened GoStrings
  import opened FilePath

  const HttpsScheme: string := "https://"
  const HttpScheme: string := "http://"

  /** The text NormalizeURL hands to url.Parse: trimmed, and prefixed with
      "https://" unless it already starts with exactly that. */
  function Prefixed(raw: string): string {
    var t := TrimSpace(raw);
    if HasPrefix(t, HttpsScheme) then t else HttpsScheme + t
  }

  /** NormalizeURL; an error from url.Parse carries the text it was given. */
  function NormalizeURL(lib: Lib, raw: string): Result<Url, Error> {
    match lib.parseUrl(Prefixed(raw))
    case Some(u) => Success(u)
    case None => Failure(InvalidURL(Prefixed(raw)))
  }

  /** White space around the input is removed before anything else looks
      at it: the input and its trimmed form normalise alike. */
  lemma NormalizeTrimsFirst(lib: Lib, raw: string)
    ensures Prefixed(TrimSpace(raw)) == Prefixed(raw)
    ensures NormalizeURL(lib, raw) == NormalizeURL(lib, TrimSpace(raw))
  {
    TrimSpaceIdempotent(raw);
    var p := Prefixed(raw);
    assert Prefixed(TrimSpace(raw)) == p;
    assert NormalizeURL(lib, TrimSpace(raw)) == (match lib.parseUrl(p) case Some(u) => Success(u) case None => Failure(InvalidURL(p)));
  }

  /** The text given to url.Parse always starts with "https://"; it is the
      trimmed input itself when that already does, and "https://" followed
      by the trimmed input otherwise. */
  lemma PrefixedScheme(raw: string)
    ensures HasPrefix(Prefixed(raw), HttpsScheme)
    ensures HasPrefix(TrimSpace(raw), HttpsScheme) ==> Prefixed(raw) == TrimSpace(raw)
    ensures !HasPrefix(TrimSpace(raw), HttpsScheme) ==> Prefixed(raw) == HttpsScheme + TrimSpace(raw)
  {
  }

  /** Prefixing is idempotent: normalising the text once more changes nothing. */
  lemma PrefixedIdempotent(raw: string)
    ensures Prefixed(Prefixed(raw)) == Prefixed(raw)
  {
    var t := TrimSpace(raw);
    TrimSpaceEnds(raw);
    if HasPrefix(t, HttpsScheme) {
      TrimSpaceOfTrimmed(t);
    } else {
      SchemePrefixTrimmed(HttpsScheme, t);
    }
  }

  /** A scheme prefix in front of a trimmed string gives a trimmed string
      that starts with that prefix. */
  lemma SchemePrefixTrimmed(scheme: string, t: string)
    requires scheme == HttpsScheme || scheme == HttpScheme
    requires t == [] || (!IsSpace(t[0]) && !IsSpace(t[|t| - 1]))
    ensures TrimSpace(scheme + t) == scheme + t
    ensures HasPrefix(scheme + t, scheme)
  {
    var p := scheme + t;
    assert p[0] == scheme[0];
    assert p[|p| - 1] == if t == [] then scheme[|scheme| - 1] else t[|t| - 1];
    TrimSpaceOfTrimmed(p);
    assert p[..|scheme|] == scheme;
  }

  /** The scheme test is exact: a trimmed address that starts with "http://"
      is given "https://" in front of it. */
  lemma PrefixedHttpGetsSecondScheme(t: string)
    requires HasPrefix(t, HttpScheme)
    requires !IsSpace(t[|t| - 1])
    ensures Prefixed(t) == HttpsScheme + t
  {
    assert t[0] == 'h';
    TrimSpaceOfTrimmed(t);
    assert t[4] == ':';
    if |t| >= |HttpsScheme| {
      assert t[..|HttpsScheme|][4] != HttpsScheme[4];
    }
  }

  /** The address "http://example.com" is handed to url.Parse as
      "https://http://example.com". */
  lemma PrefixedDoublesHttpScheme()
    ensures Prefixed("http://example.com") == HttpsScheme + "http://example.com"
  {
    PrefixedHttpGetsSecondScheme("http://example.com");
  }

  /** The behaviour the comment on NormalizeURL describes: an address that
      already names http or https keeps its scheme; any other gets https. */
  function PrefixedIntended(raw: string): string {
    var t := TrimSpace(raw);
    if HasPrefix(t, HttpsScheme) || HasPrefix(t, HttpScheme) then t else HttpsScheme + t
  }

  /** NormalizeURL as its comment describes it. */
  function NormalizeURLIntended(lib: Lib, raw: string): Result<Url, Error> {
    match lib.parseUrl(PrefixedIntended(raw))
    case Some(u) => Success(u)
    case None => Failure(InvalidURL(PrefixedIntended(raw)))
  }

  /** The intended prefixing keeps an existing http or https scheme, always
      yields one of the two, and is idempotent. */
  lemma PrefixedIntendedKeepsScheme(raw: string)
    ensures var t := TrimSpace(raw);
      (HasPrefix(t, HttpsScheme) || HasPrefix(t, HttpScheme)) ==> PrefixedIntended(raw) == t
    ensures HasPrefix(PrefixedIntended(raw), HttpsScheme) || HasPrefix(PrefixedIntended(raw), HttpScheme)
    ensures PrefixedIntended(PrefixedIntended(raw)) == PrefixedIntended(raw)
  {
    var t := TrimSpace(raw);
    TrimSpaceEnds(raw);
    if HasPrefix(t, HttpsScheme) || HasPrefix(t, HttpScheme) {
      TrimSpaceOfTrimmed(t);
    } else {
      SchemePrefixTrimmed(HttpsScheme, t);
    }
  }

  /** The correction touches only http addresses: the intended and the
      actual text for url.Parse differ exactly when the trimmed input starts
      with "http://", and on every other input both normalisations agree. */
  lemma NormalizeURLIntendedDiffersOnlyOnHttp(lib: Lib, raw: string)
    ensures PrefixedIntended(raw) != Prefixed(raw) <==> HasPrefix(TrimSpace(raw), HttpScheme)
    ensures !HasPrefix(TrimSpace(raw), HttpScheme) ==> NormalizeURLIntended(lib, raw) == NormalizeURL(lib, raw)
  {
    var t := TrimSpace(raw);
    if HasPrefix(t, HttpScheme) {
      HttpNotHttps(t);
      assert Prefixed(raw) == HttpsScheme + t;
      assert PrefixedIntended(raw) == t;
      assert |HttpsScheme + t| != |t|;
    } else {
      assert PrefixedIntended(raw) == Prefixed(raw);
    }
  }

  /** No text starts with both "http://" and "https://". */
  lemma HttpNotHttps(t: string)
    requires HasPrefix(t, HttpScheme)
    ensures !HasPrefix(t, HttpsScheme)
  {
    assert t[4] == HttpScheme[4];
    if |t| >= |HttpsScheme| {
      assert t[..|HttpsScheme|][4] != HttpsScheme[4];
    }
  }

  /** The intended normalisation leaves an http address as it is. */
  lemma PrefixedIntendedKeepsHttp()
    ensures PrefixedIntended("http://example.com") == "http://example.com"
  {
    var s := "http://example.com";
    TrimSpaceOfTrimmed(s);
    assert s[..|HttpScheme|] == HttpScheme;
  }

  // ---------------------------------------------------------------------
  // IsHTML

  /** The bytes of "<!DOCTYPE html>". */
  const DoctypeMarker: Bytes := [60, 33, 68, 79, 67, 84, 89, 80, 69, 32, 104, 116, 109, 108, 62]

  lemma DoctypeMarkerSpelling()
    ensures |DoctypeMarker| == |"<!DOCTYPE html>"|
    ensures forall i :: 0 <= i < |DoctypeMarker| ==> DoctypeMarker[i] == "<!DOCTYPE html>"[i] as int
  {
  }

  /** bytes.HasPrefix */
  predicate HasBytePrefix(data: Bytes, prefix: Bytes) {
    |prefix| <= |data| && data[..|prefix|] == prefix
  }

  predicate IsHtmlExt(ext: string) {
    ext == ".html" || ext == ".htm" || ext == ""
  }

  /** IsHTML: the extension decides first; otherwise the data must begin
      with the doctype, byte for byte. */
  function IsHTML(path: string, data: Bytes): bool {
    IsHtmlExt(Ext(path)) || HasBytePrefix(data, DoctypeMarker)
  }

  /** Any data counts as HTML under a path ending in ".html", ".htm", or with
      no extension at all; a path ending in '/' is one of those. */
  lemma IsHTMLByExtension(path: string, data: Bytes)
    requires IsHtmlExt(Ext(path)) || (|path| > 0 && path[|path| - 1] == Separator)
    ensures IsHTML(path, data)
  {
    if |path| > 0 && path[|path| - 1] == Separator {
      TrailingSeparatorNoExt(path);
    }
  }

  /** Under any other extension only the doctype prefix of the data decides. */
  lemma IsHTMLByContent(path: string, data: Bytes)
    requires !IsHtmlExt(Ext(path))
    ensures IsHTML(path, data) <==> (|data| >= 15 && data[..15] == DoctypeMarker)
  {
  }

  /** IsHTML in terms of the last element of the path: no dot there, an
      ".html" or ".htm" ending of it, or the doctype prefix. */
  lemma IsHTMLByLastElement(path: string, data: Bytes)
    ensures var last := LastElement(path);
      IsHTML(path, data) <==> ('.' !in last || Ext(last) == ".html" || Ext(last) == ".htm" || HasBytePrefix(data, DoctypeMarker))
  {
    ExtOfLastElement(path);
    ExtEmptyIffLastNoDot(path);
  }
}
