/** The values the crawler exchanges with the libraries it calls but does not
    implement: URLs (net/url), HTML node trees (golang.org/x/net/html),
    robots.txt rules (github.com/temoto/robotstxt), raw bytes.  The library
    functions themselves are uninterpreted: they are the fields of `Lib`. */
module Externals {
  import opened Base

  type byte = b: int | 0 <= b < 256

  type Bytes = seq<byte>

  /** The parts of a url.URL the crawler reads. */
  datatype Url = Url(scheme: string, host: string, path: string, rawQuery: string, fragment: string)
  {
    /** The text form of the URL (url.URL.String without percent-escaping);
        the crawler uses it as the key of its seen and visited sets. */
    function ToString(): string {
      scheme + "://" + host + path
      + (if rawQuery == "" then "" else "?" + rawQuery)
      + (if fragment == "" then "" else "#" + fragment)
    }
  }

  /** html.NodeType */
  datatype NodeType = ErrorNode | TextNode | DocumentNode | ElementNode | CommentNode | DoctypeNode | RawNode

  /** html.Attribute (the namespace is never read by the crawler) */
  datatype Attr = Attr(key: string, val: string)

  /** html.Node: its type, its tag name (`Data`), its attributes in document
      order and its children from FirstChild along NextSibling. */
  datatype Node = Node(kind: NodeType, data: string, attrs: seq<Attr>, children: seq<Node>)

  /** robotstxt.RobotsData, seen only through FindGroup("*").Test(path). */
  datatype Robots = Robots(starAllows: string -> bool)

  /** The library functions the crawler calls:
      - parseUrl: url.Parse (None when it returns an error);
      - resolveRef: (*url.URL).ResolveReference, base first;
      - parseHtml: html.Parse; renderHtml: html.Render into a buffer;
      - parseRobots: robotstxt.FromBytes (None, a nil *RobotsData, on error). */
  datatype Lib = Lib(
    parseUrl: string -> Option<Url>,
    resolveRef: (Url, Url) -> Url,
    parseHtml: Bytes -> Option<Node>,
    renderHtml: Node -> Option<Bytes>,
    parseRobots: Bytes -> Option<Robots>)
}
