/** internal/crawler/crawler.go: the crawler's state (depth limit, visited
    set, robots rules), the retrying fetch, the save, and the robots.txt
    load; the transport (internal/fetcher/fetch.go over an http.Client) is
    the `Client` class below. */
module Crawling {
  import opened Base
  import opened Externals
  import opened Files

  /** What one fetcher.Fetch call ends in: the body of a 200 response, an
      error errors.Is reports as context.DeadlineExceeded, or any other
      error (transport failure, non-200 status, body read failure). */
  datatype Outcome = Body(data: Bytes) | TimedOut | Failed(reason: string)

  /** The error or data the crawler sees for one outcome. */
  function Verdict(o: Outcome): (r: Result<Bytes, Error>)
    ensures r.Success? <==> o.Body?
    ensures o.TimedOut? <==> r == Failure(DeadlineExceeded)
  {
    match o
    case Body(d) => Success(d)
    case TimedOut => Failure(DeadlineExceeded)
    case Failed(e) => Failure(RequestFailed(e))
  }

  /** The HTTP client with its 5-second timeout, seen from outside: the n-th
      request it makes (counting from 0), for URL u, ends in respond(u, n).
      It records the requests made and the pauses taken between attempts. */
  class Client {
    const respond: (Url, nat) -> Outcome
    var requests: seq<Url>
    var sleeps: nat

    constructor(respond: (Url, nat) -> Outcome)
      ensures this.respond == respond && requests == [] && sleeps == 0
    {
      this.respond := respond;
      requests := [];
      sleeps := 0;
    }

    /** fetcher.Fetch(u, client) */
    method Get(u: Url) returns (o: Outcome)
      modifies this
      ensures o == respond(u, |old(requests)|)
      ensures requests == old(requests) + [u] && sleeps == old(sleeps)
    {
      o := respond(u, |requests|);
      requests := requests + [u];
    }

    /** time.Sleep(2 * time.Second) */
    method Sleep()
      modifies this
      ensures sleeps == old(sleeps) + 1 && requests == old(requests)
    {
      sleeps := sleeps + 1;
    }
  }

  // ---------------------------------------------------------------------
  // The retry loop of Crawler.Fetch

  /** The outcomes of the retries+1 attempts Fetch may make for u, the first
      being the client's request number `start`. */
  function Attempts(respond: (Url, nat) -> Outcome, u: Url, start: nat, retries: int): (os: seq<Outcome>)
    ensures |os| == if retries < 0 then 0 else retries + 1
  {
    seq(if retries < 0 then 0 else retries + 1, j requires j >= 0 => respond(u, start + j))
  }

  /** What a run of the retry loop over the given outcomes returns, how many
      attempts it makes and how many pauses it takes. */
  datatype Attempt = Attempt(result: Result<Bytes, Error>, made: nat, sleeps: nat)

  function RunAttempts(os: seq<Outcome>): Attempt
  {
    if os == [] then Attempt(Success([]), 0, 0)
    else match os[0]
      case TimedOut =>
        if |os| == 1 then Attempt(Failure(DeadlineExceeded), 1, 1)
        else
          var rest := RunAttempts(os[1..]);
          Attempt(rest.result, rest.made + 1, rest.sleeps + 1)
      case _ => Attempt(Verdict(os[0]), 1, 0)
  }

  function CountTimeouts(os: seq<Outcome>): nat {
    if os == [] then 0 else (if os[0].TimedOut? then 1 else 0) + CountTimeouts(os[1..])
  }

  /** Crawler.Fetch(u, retries) as a function of the client's behaviour. */
  function FetchSpec(respond: (Url, nat) -> Outcome, u: Url, start: nat, retries: int): Attempt {
    RunAttempts(Attempts(respond, u, start, retries))
  }

  /** The retry loop makes at most as many attempts as it is allowed and at
      least one when it may; every attempt but the last timed out; the
      result is the last attempt's (success data, or its error), and a run
      with no attempt at all returns no data and no error; only a timeout
      lets it go on, so it stops early only after a non-timeout; it pauses
      once after each timeout. */
  lemma {:induction false} RunAttemptsSpec(os: seq<Outcome>)
    ensures var a := RunAttempts(os);
      && a.made <= |os|
      && (|os| > 0 ==> a.made >= 1)
      && (forall j :: 0 <= j < a.made - 1 ==> os[j] == TimedOut)
      && (os == [] ==> a.result == Success([]))
      && (os != [] ==> a.result == Verdict(os[a.made - 1]))
      && (0 < a.made < |os| ==> !os[a.made - 1].TimedOut?)
      && a.sleeps == CountTimeouts(os[..a.made])
  {
    if os != [] {
      var a := RunAttempts(os);
      if os[0].TimedOut? && |os| > 1 {
        RunAttemptsSpec(os[1..]);
        var rest := RunAttempts(os[1..]);
        forall j | 0 <= j < a.made - 1 ensures os[j] == TimedOut {
          if j > 0 {
            assert os[j] == os[1..][j - 1];
          }
        }
        assert os[..a.made][1..] == os[1..][..rest.made];
      } else {
        assert os[..a.made][1..] == [];
      }
    }
  }

  /** Retry loop spec after i timeouts: the remaining run decides the result. */
  lemma {:induction false} RunAttemptsAfterTimeouts(os: seq<Outcome>, i: nat)
    requires i < |os| && forall j :: 0 <= j < i ==> os[j] == TimedOut
    ensures var rest := RunAttempts(os[i..]);
      RunAttempts(os) == Attempt(rest.result, rest.made + i, rest.sleeps + i)
    decreases i
  {
    if i > 0 {
      assert os[1..][i - 1..] == os[i..];
      RunAttemptsAfterTimeouts(os[1..], i - 1);
    } else {
      assert os[0..] == os;
    }
  }

  /** When every attempt times out, all of them are made and the deadline
      error is returned. */
  lemma {:induction false} RunAttemptsAllTimeouts(os: seq<Outcome>)
    requires |os| >= 1 && forall j :: 0 <= j < |os| ==> os[j] == TimedOut
    ensures RunAttempts(os) == Attempt(Failure(DeadlineExceeded), |os|, |os|)
  {
    if |os| > 1 {
      RunAttemptsAllTimeouts(os[1..]);
    }
  }

  function Repeat(u: Url, n: nat): (r: seq<Url>)
    ensures |r| == n && forall i :: 0 <= i < n ==> r[i] == u
  {
    seq(n, _ => u)
  }

  // ---------------------------------------------------------------------
  // The crawler

  /** The crawler: its depth limit, the URLs already claimed (sync.Map used
      as a set), the robots rules once loaded, its client, and the file
      store it saves into. */
  class Crawler {
    const depth: int
    var visited: set<string>
    var robots: Option<Robots>
    const client: Client
    const fs: FileSystem

    /** crawler.New: the given depth, nothing visited, no robots rules. */
    constructor(depth: int, client: Client, fs: FileSystem)
      ensures this.depth == depth && visited == {} && robots == None
      ensures this.client == client && this.fs == fs
    {
      this.depth := depth;
      visited := {};
      robots := None;
      this.client := client;
      this.fs := fs;
    }

    /** Visited.LoadOrStore(key, true): whether key was already there; it is
        there afterwards. */
    method VisitedLoadOrStore(key: string) returns (loaded: bool)
      modifies this`visited
      ensures loaded == (key in old(visited))
      ensures visited == old(visited) + {key}
    {
      loaded := key in visited;
      visited := visited + {key};
    }

    /** Crawler.Fetch: up to retries+1 requests for u, stopping at the first
        success or the first error that is not a timeout, pausing after each
        timeout. */
    method Fetch(u: Url, retries: int) returns (r: Result<Bytes, Error>)
      modifies client
      ensures var a := FetchSpec(client.respond, u, |old(client.requests)|, retries);
        && r == a.result
        && client.requests == old(client.requests) + Repeat(u, a.made)
        && client.sleeps == old(client.sleeps) + a.sleeps
    {
      ghost var os := Attempts(client.respond, u, |client.requests|, retries);
      ghost var requests0, sleeps0 := client.requests, client.sleeps;
      var err: Option<Error> := None;
      var i := 0;
      while i <= retries
        invariant 0 <= i <= |os|
        invariant forall j :: 0 <= j < i ==> os[j] == TimedOut
        invariant client.requests == requests0 + Repeat(u, i)
        invariant client.sleeps == sleeps0 + i
        invariant err == if i == 0 then None else Some(DeadlineExceeded)
        decreases retries - i
      {
        var o := client.Get(u);
        assert o == os[i];
        RunAttemptsAfterTimeouts(os, i);
        assert os[i..][0] == o;
        assert Repeat(u, i) + [u] == Repeat(u, i + 1);
        match o {
          case Body(d) =>
            return Success(d);
          case TimedOut =>
            err := Some(DeadlineExceeded);
            client.Sleep();
            i := i + 1;
          case Failed(e) =>
            // a non-timeout error ends the loop and is returned
            return Failure(RequestFailed(e));
        }
      }
      if i > 0 {
        RunAttemptsAllTimeouts(os);
      }
      r := if err.Some? then Failure(err.value) else Success([]);
    }

    /** Crawler.Save: SaveFile's error, wrapped with "save file". */
    method Save(u: Url, data: Bytes) returns (err: Option<Error>)
      modifies fs
      ensures var e := SaveError(fs.mkdirOk, fs.writeOk, LocalPath(u));
        err == if e.None? then None else Some(Wrapped("save file", e.value))
      ensures fs.files == if err.None? then old(fs.files)[LocalPath(u) := data] else old(fs.files)
      ensures fs.dirs == DirsAfterSave(fs.mkdirOk, old(fs.dirs), LocalPath(u))
    {
      var e := SaveFile(fs, u, data);
      if e.Some? {
        return Some(Wrapped("save file", e.value));
      }
      return None;
    }

    /** Crawler.LoadRobots: one plain request (no retries) for
        scheme://host/robots.txt; the rules are replaced only when that
        request returns a body, by what robotstxt.FromBytes makes of it. */
    method LoadRobots(lib: Lib, base: Url) returns (err: Option<Error>)
      modifies this`robots, client
      ensures var text := RobotsURL(base);
        match lib.parseUrl(text)
        case None =>
          && err == Some(InvalidURL(text))
          && robots == old(robots) && client.requests == old(client.requests)
        case Some(target) =>
          var o := client.respond(target, |old(client.requests)|);
          && client.requests == old(client.requests) + [target]
          && (if o.Body? then robots == lib.parseRobots(o.data) && (err == None <==> robots.Some?)
              else robots == old(robots) && err == Some(Wrapped("fetch", Verdict(o).error)))
          && (err.Some? && o.Body? ==> err == Some(RobotsParseFailed))
      ensures client.sleeps == old(client.sleeps)
    {
      var text := RobotsURL(base);
      var parsed := lib.parseUrl(text);
      if parsed.None? {
        return Some(InvalidURL(text));
      }
      var o := client.Get(parsed.value);
      if !o.Body? {
        return Some(Wrapped("fetch", Verdict(o).error));
      }
      robots := lib.parseRobots(o.data);
      if robots.None? {
        return Some(RobotsParseFailed);
      }
      return None;
    }
  }

  /** The text of the robots.txt URL for a site: scheme://host/robots.txt. */
  function RobotsURL(base: Url): string
  {
    base.scheme + "://" + base.host + "/robots.txt"
  }
}
