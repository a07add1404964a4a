# wget-go, modelled in Dafny

wget-go mirrors a web site to disk. It fetches a seed page and collects the
links on the seed's host that can be reached from it. With a depth limit of d,
links are collected up to d + 1 levels away from the seed. Each collected link
becomes a job. A job's page is fetched again and saved under
`sites/<host>/…`, and the links inside an HTML page are rewritten into
relative paths so that the mirror can be browsed offline. The seed page itself
is saved only when some collected page links to it. This project models the core of that
program and proves properties of the model:

- `gostrings.dfy` (module `GoStrings`): `strings.TrimSpace`, `HasPrefix`,
  `HasSuffix`.
- `filepath.dfy` (module `FilePath`): Go's `path/filepath` with `/` as the
  separator: `Join`, `Clean`, `Ext`, `Dir`, `Rel` and `ToSlash`. A cleaned path
  is a `Path(rooted, elems)` value.
- `utils.dfy` (module `ParserUtils`): `NormalizeURL` and `IsHTML` of
  `internal/parser/utils.go`.
- `files.dfy` (module `Files`): where `SaveFile` stores a URL, and the store
  itself as a `FileSystem` object with a map of files and a set of
  directories.
- `crawler.dfy` (module `Crawling`): the `Crawler` object (depth, visited set,
  robots rules), its retrying `Fetch`, `Save` and `LoadRobots`. The HTTP
  transport is a `Client` object whose n-th request ends in an outcome the
  model is given.
- `parse.dfy` (module `Parser`): `ParseAndRewriteLinks` is a recursive walk
  over a node tree that records links and rewrites attributes.
  `ParseAllLinks` is depth-bounded discovery over the crawler's visited set.
  Both are methods proved against specification functions (`RewriteSpec`,
  `Discover`).
- `worker.dfy` (module `Workers`): the job pipeline of `processJob`, and the
  producer and workers around a bounded FIFO channel. They run on one
  sequential schedule.
- `base.dfy` and `externals.dfy`: `Option`, `Result`, the error values, and the
  values the libraries exchange: URLs, HTML nodes and robots rules.

The libraries the program calls are not implemented. These are `url.Parse`,
`ResolveReference`, `html.Parse`, `html.Render` and `robotstxt.FromBytes`.
Each one is a function-valued field of `Externals.Lib`, passed as a
parameter. The network is the `respond` function of a `Client`. Whether
`os.MkdirAll` and `os.WriteFile` succeed for a path is decided by the
`mkdirOk` and `writeOk` functions of a `FileSystem`.

The central result is `Parser.RewrittenLinkReachesSavedFile`. It ties
together the two path computations. The rewriter computes relative links
between `host/host/…` paths, while the saver writes files under
`sites/host/…`. Take any host that is a plain path element and any URL paths
without `.` or `..` elements. For these, the relative path written into a
page is the one between the two saved files, and joining it to the saved
page's directory gives the target's saved file.

## Model

| member | source | states |
|---|---|---|
| GoStrings.TrimSpaceSlice | internal/parser/utils.go:13 | TrimSpace keeps one contiguous slice of its input and removes only white space around it; the result has no white space at either end |
| GoStrings.TrimSpaceIdempotent | internal/parser/utils.go:13 | trimming twice is trimming once |
| FilePath.Split | internal/files/files.go:16 | a path splits into at least one element, and no element contains the separator |
| FilePath.CleanedCanonical | internal/files/files.go:16 | every cleaned path is canonical: its elements are proper names or "..", ".." occurs only at the front, and never under the root |
| FilePath.CleanedRender | internal/files/files.go:16 | cleaning the text of a canonical path gives back that path |
| FilePath.CleanIdempotent | internal/files/files.go:16 | filepath.Clean applied to its own result changes nothing |
| FilePath.RenderInjective | internal/files/files.go:16 | two canonical paths with the same text are the same path |
| FilePath.Ext | internal/files/files.go:19 | the extension is a suffix of the path; it is either empty, or a '.' followed by text with no dot and no separator |
| FilePath.TrailingSeparatorNoExt | internal/files/files.go:19 | a path ending in '/' has an empty extension |
| FilePath.ExtOfLastElement | internal/parser/utils.go:27 | the extension of a path is the extension of its last element |
| FilePath.ExtEmptyIffLastNoDot | internal/parser/utils.go:27 | a path has no extension exactly when its last element has no dot |
| FilePath.DirLen | internal/files/files.go:23 | Dir cuts the path just after its last separator, and no separator follows the cut |
| FilePath.DirOfCanonical | internal/files/files.go:23 | the directory of a clean relative path with at least one element is that path without its last element |
| FilePath.CommonPrefixLen | internal/parser/parse.go:138 | Rel compares base and target up to the longest shared prefix: the prefixes agree, and the next elements differ |
| FilePath.RelElemsResolve | internal/parser/parse.go:138 | starting from the base, the ".." steps and then the remaining target elements of the relative path end at the target |
| FilePath.RelJoin | internal/parser/parse.go:138 | whenever filepath.Rel succeeds, joining the base with its result gives the cleaned target |
| FilePath.RelPrefixIndependent | internal/parser/parse.go:96-99 | Rel between two clean relative paths does not depend on a shared, non-empty leading prefix |
| ParserUtils.NormalizeTrimsFirst | internal/parser/utils.go:13 | surrounding white space is removed before anything else: an input and its trimmed form normalise to the same URL or the same error |
| ParserUtils.PrefixedScheme | internal/parser/utils.go:15-17 | the text handed to url.Parse always starts with "https://": it is the trimmed input when that already starts so, and "https://" followed by the trimmed input otherwise |
| ParserUtils.PrefixedIdempotent | internal/parser/utils.go:15-17 | prefixing its own output changes nothing |
| ParserUtils.PrefixedHttpGetsSecondScheme | internal/parser/utils.go:15-17 | a trimmed address starting with "http://" is handed to url.Parse with "https://" in front of it |
| ParserUtils.PrefixedDoublesHttpScheme | internal/parser/utils.go:15-17 | "http://example.com" is handed to url.Parse as "https://http://example.com" |
| ParserUtils.PrefixedIntendedKeepsScheme | internal/parser/utils.go:10-17 | corrected prefixing keeps an existing http or https scheme, always yields one of the two, and is idempotent |
| ParserUtils.NormalizeURLIntendedDiffersOnlyOnHttp | internal/parser/utils.go:10-17 | the corrected text for url.Parse differs from the actual one exactly when the trimmed input starts with "http://"; on any other input both normalisations give the same URL or the same error |
| ParserUtils.HttpNotHttps | internal/parser/utils.go:15 | no text starts with both "http://" and "https://" |
| ParserUtils.PrefixedIntendedKeepsHttp | internal/parser/utils.go:10-17 | corrected prefixing leaves "http://example.com" as it is |
| ParserUtils.DoctypeMarkerSpelling | internal/parser/utils.go:33 | the marker bytes are exactly the ASCII bytes of "<!DOCTYPE html>" |
| ParserUtils.IsHTMLByExtension | internal/parser/utils.go:27-30 | a path with extension ".html", ".htm" or none, or ending in '/', is HTML whatever the data |
| ParserUtils.IsHTMLByContent | internal/parser/utils.go:33 | under any other extension, the data is HTML exactly when its first 15 bytes are the doctype marker |
| ParserUtils.IsHTMLByLastElement | internal/parser/utils.go:25-34 | IsHTML holds exactly when the last path element has no dot, ends in ".html" or ".htm", or the data starts with the marker |
| Files.NeedsIndexIffNoExt | internal/files/files.go:19 | the trailing-slash test adds nothing: index.html is appended exactly when the path has no extension |
| Files.LocalPathOnlyHostAndPath | internal/files/files.go:16-21 | URLs with the same host and path are stored in the same file, whatever their scheme, query or fragment |
| Files.MirrorShape | internal/files/files.go:16-21 | for a path without "..", the file is the clean path root/host followed by the path's proper elements, with index.html appended when needed |
| Files.LocalPathUnderSite | internal/files/files.go:16 | for a host that is a plain name and a path without "..", the stored file lies under sites/host |
| Files.TailNonEmpty | internal/files/files.go:19-21 | for a path without "." or "..", the file has at least one element below root/host |
| Files.FileSystem.MkdirAll | internal/files/files.go:24 | the directory exists afterwards exactly when its creation succeeds, and no file changes |
| Files.FileSystem.WriteFile | internal/files/files.go:31 | on success exactly the given path maps to the data; on failure nothing changes |
| Files.SaveFile | internal/files/files.go:14-38 | a failed directory creation writes nothing and returns its error; otherwise the write's error is returned; on success exactly LocalPath(u) maps to the data and no other file changes |
| Crawling.Verdict | internal/crawler/crawler.go:47-60 | an attempt succeeds exactly when a body arrived, and a timeout is exactly the deadline error |
| Crawling.Client.Get | internal/fetcher/fetch.go:12-32 | one request: its outcome is the client's answer to the next request number, and it is recorded |
| Crawling.Client.Sleep | internal/crawler/crawler.go:55 | one pause is counted; no request is made |
| Crawling.Attempts | internal/crawler/crawler.go:45 | the loop may make retries+1 attempts, and none when retries is negative |
| Crawling.RunAttemptsSpec | internal/crawler/crawler.go:45-63 | at most the allowed attempts, at least one when allowed; every attempt before the last timed out; the result is the last attempt's data or error (no data and no error when there is no attempt); it stops early only after a non-timeout; it pauses once per timeout |
| Crawling.RunAttemptsAfterTimeouts | internal/crawler/crawler.go:53-57 | after i timeouts, the remaining attempts decide the result, with i more attempts and pauses counted |
| Crawling.RunAttemptsAllTimeouts | internal/crawler/crawler.go:53-63 | when every attempt times out, all are made, each is followed by a pause, and the deadline error is returned |
| Crawling.Crawler.constructor | internal/crawler/crawler.go:28-36 | the given depth, nothing visited, no robots rules |
| Crawling.Crawler.VisitedLoadOrStore | internal/parser/parse.go:46 | reports whether the key was already visited; it is visited afterwards |
| Crawling.Crawler.Fetch | internal/crawler/crawler.go:41-64 | returns the retry loop's result; the requests made are the URL repeated once per attempt, and the pauses are those of the loop |
| Crawling.Crawler.Save | internal/crawler/crawler.go:68-76 | no error exactly when SaveFile succeeds; otherwise SaveFile's error wrapped with "save file"; the files and directories change as SaveFile changes them |
| Crawling.Crawler.LoadRobots | internal/crawler/crawler.go:81-104 | an unparsable robots URL is an error and makes no request; otherwise exactly one request for scheme://host/robots.txt with no pause; a failed request leaves the rules unchanged and returns the wrapped error; a body replaces the rules with what the parser makes of it, and it is an error exactly when that is nil |
| Parser.AttrRef | internal/parser/parse.go:107-118 | an attribute yields a link exactly when its key is the element's URL key, its trimmed value is not empty, and url.Parse accepts that value |
| Parser.RecordAllIsFirstOccurrences | internal/parser/parse.go:121-124 | recording the references one by one from nothing keeps exactly their first occurrences, and the seen set is the set of all their keys |
| Parser.FirstOccurrencesSpec | internal/parser/parse.go:121-124 | the kept links are pairwise distinct by text, each is one of the references, and together they cover every reference's text |
| Parser.RewriteAttrSpec | internal/parser/parse.go:107-143 | all four cases of the rewrite. The key is kept. A non-URL attribute, an external link, or a same-host link for which Rel fails is left alone. A same-host link for which Rel succeeds gets Rel's result, and joining the page's directory with it gives the target's cleaned path |
| Parser.RewriteKeepsShape | internal/parser/parse.go:103-153 | the walk changes attribute values only: node types, tag names, attribute keys and the tree's shape are kept |
| Parser.RewrittenLinkReachesSavedFile | internal/parser/parse.go:132-143 | for a plain host and paths without "." or "..", Rel succeeds; its result equals Rel between the saved files' paths; and joining the saved page's directory with it gives the target's saved file |
| Parser.MirrorDir | internal/parser/parse.go:96-99 | the directory of a page's mirror path is root/host followed by the page's elements without the last |
| Parser.MirrorFile | internal/parser/parse.go:132-135 | the cleaned mirror path of a target is root/host followed by the target's elements |
| Parser.LinkWalker.VisitAttr | internal/parser/parse.go:107-143 | one attribute: it is rewritten as RewriteAttr says, and its link, if any, is recorded unless its text was seen |
| Parser.LinkWalker.VisitAttrs | internal/parser/parse.go:104-147 | the attribute loop rewrites every attribute and records the node's own references in order |
| Parser.LinkWalker.VisitChildren | internal/parser/parse.go:149-152 | the children are walked in document order: each is replaced by its rewrite, and their references are recorded child after child |
| Parser.LinkWalker.Visit | internal/parser/parse.go:103-153 | the walk returns the rewritten tree and records the references of the whole tree in pre-order |
| Parser.ParseAndRewriteLinks | internal/parser/parse.go:71-165 | a parse or render failure is returned as an error; otherwise the result is the first occurrences of the document's references and the rendered rewritten tree |
| Parser.RewriteLinksDistinctAndComplete | internal/parser/parse.go:121-124 | the returned links are pairwise distinct, each is a reference of the document, and every reference's text is among them |
| Parser.ParseAllLinks | internal/parser/parse.go:21-65 | the result and the new visited set, requests and pauses are those of Discover on the old state |
| Parser.FollowLink | internal/parser/parse.go:40-61 | one link: an external or visited link adds nothing; otherwise it is claimed and kept, and below the limit it is fetched with two retries and followed one level deeper |
| Parser.DiscoverFresh | internal/parser/parse.go:21-65 | a successful discovery returns links on the base's host, none visited before, no two alike, and the visited set grows by exactly their keys; a failed one changes nothing |
| Parser.DiscoverFromFresh | internal/parser/parse.go:39-62 | the loop always succeeds, and its links are fresh in the same sense |
| Parser.FollowFresh | internal/parser/parse.go:41-61 | the links one iteration adds are fresh in the same sense |
| Parser.DiscoverProgress | internal/parser/parse.go:46-59 | visited keys and pauses only grow, requests are only appended, and every new request is for a URL on the base's host whose key was not visited before and is visited after |
| Parser.DiscoverFromProgress | internal/parser/parse.go:39-62 | the loop moves the crawl state on in the same way |
| Parser.FollowProgress | internal/parser/parse.go:46-59 | one iteration moves the crawl state on in the same way |
| Parser.NonHtmlHasNoLinks | internal/parser/parse.go:31-36 | data that is not HTML contributes no links and changes nothing |
| Parser.NoRequestsAtDepthLimit | internal/parser/parse.go:53 | at the depth limit the loop makes no request and takes no pause |
| Parser.NewOnHostMembers | internal/parser/parse.go:39-50 | a link is kept by the same-host, not-yet-visited filter exactly when it is on the host and its key was not visited |
| Parser.NewOnHostOtherKey | internal/parser/parse.go:46-48 | claiming a key that none of the links has does not change which links the filter keeps |
| Parser.DiscoverAtLimit | internal/parser/parse.go:38-64 | at the depth limit the loop over links with distinct keys returns exactly those on the page's host not visited before, in order |
| Parser.DiscoverDepthLimit | internal/parser/parse.go:23-25 | beyond the depth limit the result is the max-depth error and nothing changes; at the limit no request is made |
| Workers.Jobs | internal/worker/worker.go:119-124 | one job per link, in order, each with the given depth |
| Workers.PlanJobSpec | internal/worker/worker.go:67-91 | a disallowed path is neither fetched nor saved; a fetch failure stops the job with its error; an HTML parse or render failure stops it; a page is stored only when allowed and fetched, and it is the rewritten document for HTML and the fetched bytes otherwise |
| Workers.RunJobFiles | internal/worker/worker.go:94-96 | a job that stops before saving leaves the files alone; a job saves exactly when a page is stored and SaveFile succeeds, and then exactly its local path maps to the page |
| Workers.Worker.constructor | internal/worker/worker.go:30-38 | an open, empty channel with capacity 2*maxWorkers |
| Workers.Worker.ProcessJob | internal/worker/worker.go:67-97 | the outcome and the new requests, pauses, files and directories are those of the job's plan carried out on the old state |
| Workers.Worker.TakeAndProcess | internal/worker/worker.go:60-62 | the oldest buffered job leaves the channel and is appended to the processed log; the channel stays in order; the requests, pauses, files and directories become those of processJob on that job from the old state |
| Workers.Worker.Send | internal/worker/worker.go:120-123 | the job is appended to what was sent, unless there is no worker to receive it, and then the send never completes and nothing changes; into a full buffer a worker first takes and processes the oldest job, so the buffer becomes its tail plus the new job; otherwise the job is buffered and nothing else changes |
| Workers.Worker.SendAll | internal/worker/worker.go:119-127 | the jobs sent are the links in order, each with the crawler's depth, and the channel is closed afterwards, unless the producer blocks on its first send; of the old buffer followed by the new jobs, all but the last 2*maxWorkers have been processed in order, the world is that of processJob run on them in turn, and the rest stay buffered |
| Workers.Worker.ProcessAllURL | internal/worker/worker.go:101-128 | a failed seed fetch or discovery closes the channel with nothing sent; otherwise the links discovered from the seed at depth 0 are sent and the channel is closed; the visited set is discovery's; the world is discovery's requests and pauses over the old files and directories, followed by processJob on each job a worker had to take from the full buffer, in order |
| Workers.Worker.Drain | internal/worker/worker.go:57-63 | the workers empty the closed channel: every buffered job is then processed, in order, and the world is that of processJob run on each in turn |
| Workers.Worker.Start | internal/worker/worker.go:42-54 | unless the producer blocks for ever, every job sent is processed exactly once, in the order sent, and the jobs are the links discovered from the seed; the final requests, pauses, files and directories are those of the seed discovery followed by processJob on each job sent, in order |
| Workers.RunJobsConcat | internal/worker/worker.go:60-62 | processing one run of jobs and then another is processing both runs joined, in order |
| Workers.RunJobsFrame | internal/worker/worker.go:67-97 | processing jobs only appends requests, each for one of the jobs' URLs, and creates or changes no file other than the jobs' local paths |
| Workers.BufferedSend | internal/worker/worker.go:119-124 | after one more send the channel is still the jobs sent so far with the oldest overflow handed to the workers, in order, and the rest buffered |
| Workers.SeedJobsFresh | internal/worker/worker.go:105-124 | the jobs' links are on the seed's host, pairwise distinct and not visited before; the seed itself is visited and sent only when some page links to it |
| Workers.PageLinksDistinct | internal/parser/parse.go:120-124 | the links of a parsed page have pairwise distinct keys |
| Workers.DepthZeroSendsSeedLinks | internal/worker/worker.go:111-124 | with depth 0 the jobs are the seed page's own links on its host that were not visited before, in document order |
| Workers.DepthZeroSeedSentOnlyIfLinked | internal/worker/worker.go:111-124 | with depth 0 the seed is among the jobs only when its own page links to it |
| Workers.DepthZeroSeedFile | internal/worker/worker.go:111-124 | with depth 0, when no link of the seed page is stored at the seed's local path, processing the jobs leaves the seed's file as it was, so the seed page is not saved |
| Workers.SeedDiscoveryIntendedFirst | internal/worker/worker.go:111-124 | under the corrected producer the seed is always the first job |
| Workers.SeedDiscoveryIntendedFresh | internal/worker/worker.go:111-124 | under the corrected producer the jobs are on the seed's host, pairwise distinct and not visited before, so the seed is sent exactly once |
| Workers.SeedDiscoveryIntendedDepthZero | internal/worker/worker.go:104-124 | under the corrected producer, depth 0 sends only the seed, and the seed fetch is the only request |
| Workers.IntendedDepthZeroSavesOnlySeed | internal/worker/worker.go:104-124 | under the corrected producer, depth 0 requests nothing but the seed and changes no file other than the seed's own |
| Workers.NegativeDepthSendsNothing | internal/worker/worker.go:112-116 | with a negative depth limit, discovery fails and no job is sent |

## Left out

- Concurrency is not modelled. This covers the goroutines, `sync.WaitGroup`, the atomicity of `sync.Map`, and the interleavings of workers with one another and with the producer. The model runs one schedule. The producer discovers and sends; when the channel is full, a worker first takes the oldest job; after the close, the workers drain the channel in order. Two jobs whose URLs differ only in query or fragment write the same file. Which write survives is decided by that schedule, not by the model.
- `Workers.Worker.Send`: with no workers the channel has no buffer and no receiver. The first send then blocks for ever, and the model only sets a `hung` flag. Go's runtime would report the deadlock and stop the program; that is not modelled.
- `Workers.Worker.constructor` requires a non-negative worker count. With a negative count, `make` panics.
- `log.Printf` is left out. `processJob`'s log lines become the `JobOutcome` it returns. `time.Sleep` is only counted.
- The `Error` values stand for Go's error chains. Only their kind and wrapping are kept, not the message text.
- The HTTP client and `fetcher.Fetch` are replaced by the answer function `respond`. This hides the five-second timeout, status codes and body reads. `respond` also decides whether a failure counts as a deadline error (`errors.Is(err, context.DeadlineExceeded)`).
- `net/url` parsing, reference resolution and percent-escaping are not implemented; they are uninterpreted library functions. `Url` keeps only the scheme, host, path, query and fragment. `Url.ToString` does no escaping and leaves out user info and opaque URLs. It also always writes the scheme followed by "://", and never puts a "/" in front of a path that lacks one. Go writes no "scheme:" when the scheme is empty, and adds that "/" when a host is present. Every URL the crawler formats is absolute, with an empty or rooted path, so neither case arises here.
- `html.Parse` and `html.Render` (the tokenizer and serializer) are not implemented; they are uninterpreted. The model does not mutate `html.Node` in place through pointers. The walk builds the rewritten tree as a new value. Attribute namespaces are not kept.
- The `robotstxt` parser is not implemented. A rule set is seen only through its `*` group's test on a path.
- Real file systems are not modelled. Whether directory creation and writes succeed is given per path. Permissions, partial writes and the created parent chain are not modelled; `MkdirAll` records only the directory it was asked for.
- Windows separators and volume names are not modelled. Only `/` is a separator, so `ToSlash` is the identity.
- Strings are modelled as sequences of characters, while Go strings are bytes. Every test the core makes (separators, dots, the `https://` prefix, white space) is on ASCII or on `unicode.IsSpace`. Invalid UTF-8 is not modelled.
- `Parser.ParseAllLinks` does not return Go's second result, which is always nil.
- `Crawling.Crawler.LoadRobots` makes exactly one request and never retries, as `internal/crawler/crawler.go:91` does. It calls the fetcher directly, not `Crawler.Fetch`.
- The command line, flags, configuration and `main` (`cmd/wget/main.go`, `internal/flags/flags.go`, `internal/config/config.go`) are not modelled: they only parse options and wire the parts together.

## Findings

| source | as written | input that shows it | evidently intended | confidence | as-written member | corrected member |
|---|---|---|---|---|---|---|
| internal/parser/utils.go:15-17 | "https://" is prepended unless the trimmed input starts with exactly "https://" | "http://example.com" is handed to url.Parse as "https://http://example.com" | the comment at internal/parser/utils.go:10-11 says a scheme (http or https) is kept and https is only a default, so an http address should keep its scheme | high; not executed | ParserUtils.PrefixedDoublesHttpScheme | ParserUtils.PrefixedIntendedKeepsScheme |
| internal/worker/worker.go:111-124 | discovery starts from the seed at depth 0, and every link it collects is sent as a job to be fetched and saved; the seed is not itself a job | with depth 0, a seed page linking only to "/a.html" on its own host sends "/a.html" as the only job, so that page is saved and the seed page is not | the depth flag's help text at internal/flags/flags.go:22 reads "0 = only the given page": the seed should be the first job, and depth d should save the pages at most d links away | high; not executed | Workers.DepthZeroSendsSeedLinks | Workers.IntendedDepthZeroSavesOnlySeed |
