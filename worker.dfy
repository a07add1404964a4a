/** internal/worker/worker.go: the worker pool, run on one sequential
    schedule. The producer (processAllURL) fetches the seed, discovers the
    site, and sends one job per link into the buffered Jobs channel, then
    closes it; the workers drain the channel, processing each job
    (processJob). A send to a full channel lets a worker take the oldest
    job first; with no workers at all the first send blocks for ever. */
module Workers {
  import opened Base
  import opened Externals
  import opened Files
  import opened ParserUtils
  import opened Crawling
  import opened Parser

  /** worker.Job */
  datatype Job = Job(url: Url, depth: int)

  /** One job per link, in order, each carrying the given depth. */
  function Jobs(links: seq<Url>, depth: int): (r: seq<Job>)
    ensures |r| == |links| && forall i :: 0 <= i < |r| ==> r[i] == Job(links[i], depth)
  {
    seq(|links|, i requires 0 <= i < |links| => Job(links[i], depth))
  }

  lemma JobsSnoc(links: seq<Url>, i: nat, depth: int)
    requires i < |links|
    ensures Jobs(links[..i + 1], depth) == Jobs(links[..i], depth) + [Job(links[i], depth)]
  {
    assert links[..i + 1] == links[..i] + [links[i]];
  }

  // ---------------------------------------------------------------------
  // processJob

  /** How processJob ends; each value stands for the log line it prints (or
      for the silent success). */
  datatype JobOutcome =
    | Disallowed
    | FetchFailed(error: Error)
    | ParseFailed(error: Error)
    | SaveFailed(error: Error)
    | Saved(path: string)

  /** Whether robots rules let the crawler fetch a path: always, when none
      are loaded. */
  predicate Allowed(robots: Option<Robots>, path: string) {
    robots.None? || robots.value.starAllows(path)
  }

  /** What is saved for a fetched resource: the rewritten document when it
      is HTML (or the parse or render error), the bytes as fetched otherwise. */
  function PageToSave(lib: Lib, u: Url, data: Bytes): Result<Bytes, Error> {
    if IsHTML(u.path, data) then
      match RewriteSpec(lib, data, u)
      case Failure(e) => Failure(e)
      case Success(rw) => Success(rw.html)
    else Success(data)
  }

  /** The decisions of processJob before the save: stop with an outcome, or
      store a page; and the requests and pauses made on the way. */
  datatype Plan =
    | Stop(outcome: JobOutcome, made: nat, sleeps: nat)
    | Store(page: Bytes, made: nat, sleeps: nat)

  function PlanJob(robots: Option<Robots>, respond: (Url, nat) -> Outcome, start: nat, lib: Lib, u: Url): Plan {
    if !Allowed(robots, u.path) then Stop(Disallowed, 0, 0)
    else
      var a := FetchSpec(respond, u, start, 2);
      if a.result.Failure? then Stop(FetchFailed(a.result.error), a.made, a.sleeps)
      else match PageToSave(lib, u, a.result.value)
        case Failure(e) => Stop(ParseFailed(e), a.made, a.sleeps)
        case Success(page) => Store(page, a.made, a.sleeps)
  }

  /** A disallowed path is neither fetched nor saved; a page is stored only
      when the path is allowed and the fetch succeeded, and then it is the
      rewritten document for HTML and the fetched bytes unchanged otherwise;
      a fetch failure stops the job with that error. */
  lemma PlanJobSpec(robots: Option<Robots>, respond: (Url, nat) -> Outcome, start: nat, lib: Lib, u: Url)
    ensures var plan := PlanJob(robots, respond, start, lib, u);
      !Allowed(robots, u.path) ==> plan == Stop(Disallowed, 0, 0)
    ensures var plan := PlanJob(robots, respond, start, lib, u);
      var a := FetchSpec(respond, u, start, 2);
      && (Allowed(robots, u.path) && a.result.Failure? ==> plan == Stop(FetchFailed(a.result.error), a.made, a.sleeps))
      && (plan.Store? ==>
            && Allowed(robots, u.path) && a.result.Success?
            && plan.made == a.made && plan.sleeps == a.sleeps
            && (IsHTML(u.path, a.result.value) ==>
                  RewriteSpec(lib, a.result.value, u).Success? && plan.page == RewriteSpec(lib, a.result.value, u).value.html)
            && (!IsHTML(u.path, a.result.value) ==> plan.page == a.result.value))
    ensures var plan := PlanJob(robots, respond, start, lib, u);
      var a := FetchSpec(respond, u, start, 2);
      Allowed(robots, u.path) && a.result.Success? && IsHTML(u.path, a.result.value) && RewriteSpec(lib, a.result.value, u).Failure? ==>
        plan == Stop(ParseFailed(RewriteSpec(lib, a.result.value, u).error), a.made, a.sleeps)
  {
  }

  /** The client's requests and pauses and the file store's contents. */
  datatype World = World(requests: seq<Url>, sleeps: nat, files: map<string, Bytes>, dirs: set<string>)

  /** Carrying out a plan: the requests it made, then for a stored page the
      save of SaveFile (its error wrapped with "save file"). */
  function RunJob(plan: Plan, u: Url, mkdirOk: string -> bool, writeOk: string -> bool, w: World): (JobOutcome, World) {
    var net := w.(requests := w.requests + Repeat(u, plan.made), sleeps := w.sleeps + plan.sleeps);
    match plan
    case Stop(outcome, _, _) => (outcome, net)
    case Store(page, _, _) =>
      var p := LocalPath(u);
      var e := SaveError(mkdirOk, writeOk, p);
      var disk := net.(files := if e.None? then w.files[p := page] else w.files, dirs := DirsAfterSave(mkdirOk, w.dirs, p));
      (if e.None? then Saved(p) else SaveFailed(Wrapped("save file", e.value)), disk)
  }

  /** Only a stored page is written, at the URL's local path; a job that
      stops before the save leaves the file store as it was; a successful
      job changes exactly one file. */
  lemma RunJobFiles(robots: Option<Robots>, respond: (Url, nat) -> Outcome, lib: Lib, u: Url,
                    mkdirOk: string -> bool, writeOk: string -> bool, w: World)
    ensures var plan := PlanJob(robots, respond, |w.requests|, lib, u);
      var (outcome, w2) := RunJob(plan, u, mkdirOk, writeOk, w);
      && (plan.Stop? ==> w2.files == w.files && w2.dirs == w.dirs && outcome == plan.outcome)
      && (outcome.Saved? <==> plan.Store? && SaveError(mkdirOk, writeOk, LocalPath(u)).None?)
      && (outcome.Saved? ==> outcome.path == LocalPath(u) && w2.files == w.files[LocalPath(u) := plan.page])
      && (!outcome.Saved? ==> w2.files == w.files)
      && w2.requests == w.requests + Repeat(u, plan.made)
  {
  }

  /** What processJob depends on besides the job and the world: the robots
      rules, the client's behaviour, the library, and which directory
      creations and writes succeed. */
  datatype JobEnv = JobEnv(robots: Option<Robots>, respond: (Url, nat) -> Outcome, lib: Lib,
                           mkdirOk: string -> bool, writeOk: string -> bool)

  /** The world after processJob has handled one job. */
  function JobStep(e: JobEnv, job: Job, w: World): World {
    RunJob(PlanJob(e.robots, e.respond, |w.requests|, e.lib, job.url), job.url, e.mkdirOk, e.writeOk, w).1
  }

  /** The world after the jobs have been processed one after another, in order. */
  function RunJobs(e: JobEnv, jobs: seq<Job>, w: World): World
    decreases |jobs|
  {
    if jobs == [] then w else RunJobs(e, jobs[1..], JobStep(e, jobs[0], w))
  }

  lemma {:induction false} RunJobsConcat(e: JobEnv, a: seq<Job>, b: seq<Job>, w: World)
    ensures RunJobs(e, a + b, w) == RunJobs(e, b, RunJobs(e, a, w))
    decreases |a|
  {
    if a == [] {
      assert a + b == b;
    } else {
      assert (a + b)[0] == a[0] && (a + b)[1..] == a[1..] + b;
      RunJobsConcat(e, a[1..], b, JobStep(e, a[0], w));
    }
  }

  lemma RunJobsSnoc(e: JobEnv, a: seq<Job>, job: Job, w: World)
    ensures RunJobs(e, a + [job], w) == JobStep(e, job, RunJobs(e, a, w))
  {
    RunJobsConcat(e, a, [job], w);
    assert [job][1..] == [];
  }

  /** The URLs of some jobs, and the files they are stored as. */
  function JobUrls(jobs: seq<Job>): set<Url> {
    set j | j in jobs :: j.url
  }

  function JobPaths(jobs: seq<Job>): set<string> {
    set j | j in jobs :: LocalPath(j.url)
  }

  /** Processing jobs only adds requests, each for one of the jobs' URLs, and
      touches no file other than the jobs' local paths. */
  lemma {:induction false} RunJobsFrame(e: JobEnv, jobs: seq<Job>, w: World)
    ensures var w2 := RunJobs(e, jobs, w);
      && w.requests <= w2.requests
      && (forall i :: |w.requests| <= i < |w2.requests| ==> w2.requests[i] in JobUrls(jobs))
      && (forall p :: p !in JobPaths(jobs) ==> (p in w2.files <==> p in w.files))
      && (forall p :: p !in JobPaths(jobs) && p in w.files ==> w2.files[p] == w.files[p])
    decreases |jobs|
  {
    if jobs != [] {
      var job, rest := jobs[0], jobs[1..];
      var w1 := JobStep(e, job, w);
      var plan := PlanJob(e.robots, e.respond, |w.requests|, e.lib, job.url);
      RunJobFiles(e.robots, e.respond, e.lib, job.url, e.mkdirOk, e.writeOk, w);
      assert w1.requests == w.requests + Repeat(job.url, plan.made);
      RunJobsFrame(e, rest, w1);
      var w2 := RunJobs(e, rest, w1);
      assert w2 == RunJobs(e, jobs, w);
      assert job in jobs;
      forall j | j in rest ensures j in jobs {
        var k :| 0 <= k < |rest| && rest[k] == j;
        assert jobs[k + 1] == j;
      }
      forall i | |w.requests| <= i < |w2.requests| ensures w2.requests[i] in JobUrls(jobs) {
        if i < |w1.requests| {
          assert w2.requests[i] == w1.requests[i] == job.url;
        } else {
          assert w2.requests[i] in JobUrls(rest);
        }
      }
      forall p | p !in JobPaths(jobs) ensures p !in JobPaths(rest) && p != LocalPath(job.url) {
      }
    }
  }

  /** How many of n buffered-or-sent jobs a channel of the given capacity
      has had to hand to a worker. */
  function Overflow(n: int, capacity: int): nat {
    if n > capacity then n - capacity else 0
  }

  /** The channel after the jobs `all` were sent into it, starting from a
      log p0 and a world w0: the overflow has gone to the workers, in
      order, and the rest is buffered. */
  predicate Buffered(queue: seq<Job>, processed: seq<Job>, w: World, e: JobEnv, capacity: int,
                     p0: seq<Job>, w0: World, all: seq<Job>)
  {
    var k := Overflow(|all|, capacity);
    k <= |all| && queue == all[k..] && processed == p0 + all[..k] && w == RunJobs(e, all[..k], w0)
  }

  /** One more send keeps the channel described by Buffered: a full buffer
      first hands its oldest job to a worker. */
  lemma BufferedSend(e: JobEnv, capacity: int, p0: seq<Job>, w0: World, all: seq<Job>, job: Job,
                     q: seq<Job>, p: seq<Job>, w: World, q': seq<Job>, p': seq<Job>, w': World)
    requires capacity >= 1 && |q| <= capacity
    requires Buffered(q, p, w, e, capacity, p0, w0, all)
    requires |q| == capacity ==> q' == q[1..] + [job] && p' == p + [q[0]] && w' == JobStep(e, q[0], w)
    requires |q| < capacity ==> q' == q + [job] && p' == p && w' == w
    ensures Buffered(q', p', w', e, capacity, p0, w0, all + [job])
  {
    var k := Overflow(|all|, capacity);
    var all' := all + [job];
    if |q| == capacity {
      assert Overflow(|all'|, capacity) == k + 1;
      assert q[1..] + [job] == all'[k + 1..];
      assert all'[..k + 1] == all[..k] + [all[k]];
      RunJobsSnoc(e, all[..k], all[k], w0);
    } else {
      assert k == 0 && Overflow(|all'|, capacity) == 0;
      assert all'[..0] == all[..0];
    }
  }

  // ---------------------------------------------------------------------
  // The pool

  class Worker {
    const crawler: Crawler
    const baseURL: Url
    const maxWorkers: int
    const lib: Lib
    /** The jobs buffered in the channel, oldest first. */
    var queue: seq<Job>
    var closed: bool
    /** Set when a send can never complete: no worker will ever receive. */
    var hung: bool
    /** Every job sent so far, and every job a worker has taken. */
    var sent: seq<Job>
    var processed: seq<Job>

    /** The channel's buffer size. */
    function Capacity(): int
      reads this
    {
      2 * maxWorkers
    }

    /** The channel delivers in order: what was sent is what was taken,
        followed by what is buffered, and the buffer never overflows. */
    predicate Valid()
      reads this
    {
      maxWorkers >= 0 && |queue| <= Capacity() && sent == processed + queue
    }

    /** worker.New: a channel of capacity 2*maxWorkers, empty and open. A
        negative size would make `make` panic. */
    constructor(crawler: Crawler, baseURL: Url, maxWorkers: int, lib: Lib)
      requires maxWorkers >= 0
      ensures this.crawler == crawler && this.baseURL == baseURL && this.maxWorkers == maxWorkers && this.lib == lib
      ensures Capacity() == 2 * maxWorkers
      ensures queue == [] && !closed && !hung && sent == [] && processed == []
      ensures Valid()
    {
      this.crawler := crawler;
      this.baseURL := baseURL;
      this.maxWorkers := maxWorkers;
      this.lib := lib;
      queue := [];
      closed := false;
      hung := false;
      sent := [];
      processed := [];
    }

    /** The part of the world a job changes. */
    function JobWorld(): World
      reads this, crawler, crawler.client, crawler.fs
    {
      World(crawler.client.requests, crawler.client.sleeps, crawler.fs.files, crawler.fs.dirs)
    }

    /** What processJob depends on in this pool. */
    function Context(): JobEnv
      reads this, crawler, crawler.client, crawler.fs
    {
      JobEnv(crawler.robots, crawler.client.respond, lib, crawler.fs.mkdirOk, crawler.fs.writeOk)
    }

    /** processJob: the robots check, the fetch with two retries, the
        rewrite of HTML, the save. */
    method ProcessJob(job: Job) returns (outcome: JobOutcome)
      modifies crawler.client, crawler.fs
      ensures (outcome, JobWorld()) ==
        RunJob(PlanJob(crawler.robots, crawler.client.respond, |old(crawler.client.requests)|, lib, job.url),
               job.url, crawler.fs.mkdirOk, crawler.fs.writeOk, old(JobWorld()))
    {
      if crawler.robots.Some? && !crawler.robots.value.starAllows(job.url.path) {
        assert Repeat(job.url, 0) == [];
        assert crawler.client.requests + [] == crawler.client.requests;
        return Disallowed;
      }
      var data := crawler.Fetch(job.url, 2);
      if data.Failure? {
        return FetchFailed(data.error);
      }
      var page := data.value;
      if IsHTML(job.url.path, page) {
        var rw := ParseAndRewriteLinks(lib, page, job.url);
        if rw.Failure? {
          return ParseFailed(rw.error);
        }
        page := rw.value.html;
      }
      var err := crawler.Save(job.url, page);
      if err.Some? {
        return SaveFailed(err.value);
      }
      return Saved(LocalPath(job.url));
    }

    /** A worker receives the oldest buffered job and processes it. */
    method TakeAndProcess()
      requires Valid() && queue != []
      modifies this, crawler.client, crawler.fs
      ensures Valid()
      ensures queue == old(queue)[1..] && processed == old(processed) + [old(queue)[0]]
      ensures sent == old(sent) && closed == old(closed) && hung == old(hung)
      ensures JobWorld() == JobStep(Context(), old(queue)[0], old(JobWorld()))
    {
      var job := queue[0];
      var outcome := ProcessJob(job);
      assert queue == [job] + queue[1..];
      queue := queue[1..];
      processed := processed + [job];
    }

    /** w.Jobs <- job: when the buffer is full a worker first takes the
        oldest job; with no workers and no buffer the send blocks for ever. */
    method Send(job: Job)
      requires Valid() && !closed && !hung
      modifies this, crawler.client, crawler.fs
      ensures Valid() && !closed && sent == (if hung then old(sent) else old(sent) + [job])
      ensures hung == (maxWorkers == 0)
      ensures hung ==> processed == old(processed) && queue == old(queue) && JobWorld() == old(JobWorld())
      ensures !hung && |old(queue)| == Capacity() ==>
        && queue == old(queue)[1..] + [job] && processed == old(processed) + [old(queue)[0]]
        && JobWorld() == JobStep(Context(), old(queue)[0], old(JobWorld()))
      ensures !hung && |old(queue)| < Capacity() ==>
        queue == old(queue) + [job] && processed == old(processed) && JobWorld() == old(JobWorld())
    {
      if maxWorkers == 0 {
        hung := true;
        return;
      }
      if |queue| == Capacity() {
        TakeAndProcess();
      }
      queue := queue + [job];
      sent := sent + [job];
    }

    /** The send loop of processAllURL and the close after it: one job per
        link, in order, each with the crawler's depth; the producer stays
        blocked on its first send when there are no workers. The jobs that
        did not fit in the buffer have been handed to a worker, oldest
        first, and processed. */
    method SendAll(links: seq<Url>)
      requires Valid() && !closed && !hung
      modifies this, crawler.client, crawler.fs
      ensures Valid()
      ensures hung <==> maxWorkers == 0 && links != []
      ensures !hung ==> closed && sent == old(sent) + Jobs(links, crawler.depth)
      ensures !hung ==>
        var all := old(queue) + Jobs(links, crawler.depth);
        var k := Overflow(|all|, Capacity());
        && queue == all[k..] && processed == old(processed) + all[..k]
        && JobWorld() == RunJobs(Context(), all[..k], old(JobWorld()))
      ensures hung ==>
        && !closed && sent == old(sent) && processed == old(processed) && queue == old(queue)
        && JobWorld() == old(JobWorld())
    {
      ghost var q0, p0, w0 := queue, processed, JobWorld();
      var i := 0;
      while i < |links|
        invariant 0 <= i <= |links|
        invariant Valid() && !closed && !hung
        invariant sent == old(sent) + Jobs(links[..i], crawler.depth)
        invariant Buffered(queue, processed, JobWorld(), Context(), Capacity(), p0, w0, q0 + Jobs(links[..i], crawler.depth))
        invariant i > 0 ==> maxWorkers > 0
      {
        ghost var all := q0 + Jobs(links[..i], crawler.depth);
        ghost var k := Overflow(|all|, Capacity());
        var job := Job(links[i], crawler.depth);
        JobsSnoc(links, i, crawler.depth);
        assert q0 + Jobs(links[..i + 1], crawler.depth) == all + [job];
        ghost var q, p, w := queue, processed, JobWorld();
        Send(job);
        if hung {
          assert i == 0;
          assert Jobs(links[..0], crawler.depth) == [];
          assert all == q0 && k == 0 && all[..0] == [];
          return;
        }
        BufferedSend(Context(), Capacity(), p0, w0, all, job, q, p, w, queue, processed, JobWorld());
        i := i + 1;
      }
      assert links[..i] == links;
      closed := true;
    }

    /** processAllURL: fetch the seed with two retries; on failure close the
        channel. Otherwise discover from the seed at depth 0; on failure close
        the channel. Otherwise send the links found and close. Returns the
        links it sends. */
    method ProcessAllURL() returns (links: Option<seq<Url>>)
      requires Valid() && !closed && !hung
      modifies this, crawler`visited, crawler.client, crawler.fs
      ensures Valid()
      ensures var d := SeedDiscovery(Env(lib, crawler.client.respond, crawler.depth), baseURL, old(Snap(crawler)));
        && links == (if d.result.Success? then Some(d.result.value) else None)
        && crawler.visited == d.after.visited
      ensures links.None? ==>
        closed && !hung && sent == old(sent) && processed == old(processed) && queue == old(queue)
      ensures links.Some? ==>
        && (hung <==> maxWorkers == 0 && links.value != [])
        && (!hung ==> closed && sent == old(sent) + Jobs(links.value, crawler.depth))
        && (hung ==> sent == old(sent) && processed == old(processed) && queue == old(queue))
      ensures var d := SeedDiscovery(Env(lib, crawler.client.respond, crawler.depth), baseURL, old(Snap(crawler)));
        var w1 := World(d.after.requests, d.after.sleeps, old(crawler.fs.files), old(crawler.fs.dirs));
        && (links.None? || hung ==> JobWorld() == w1)
        && (links.Some? && !hung ==>
              var all := old(queue) + Jobs(links.value, crawler.depth);
              var k := Overflow(|all|, Capacity());
              && queue == all[k..] && processed == old(processed) + all[..k]
              && JobWorld() == RunJobs(Context(), all[..k], w1))
    {
      ghost var env := Env(lib, crawler.client.respond, crawler.depth);
      ghost var s0 := Snap(crawler);
      ghost var d := SeedDiscovery(env, baseURL, s0);
      ghost var w1 := World(d.after.requests, d.after.sleeps, crawler.fs.files, crawler.fs.dirs);
      var data := crawler.Fetch(baseURL, 2);
      if data.Failure? {
        closed := true;
        assert Snap(crawler) == d.after;
        return None;
      }
      var found := ParseAllLinks(crawler, lib, data.value, baseURL, 0);
      assert Discovery(found, Snap(crawler)) == d;
      if found.Failure? {
        closed := true;
        return None;
      }
      links := Some(found.value);
      assert JobWorld() == w1;
      SendAll(found.value);
    }

    /** The workers' receive loops: every buffered job is taken, oldest
        first, until the closed channel is empty. */
    method Drain()
      requires Valid() && closed
      modifies this, crawler.client, crawler.fs
      ensures Valid() && queue == [] && processed == old(processed) + old(queue) && sent == old(sent)
      ensures closed && hung == old(hung)
      ensures JobWorld() == RunJobs(Context(), old(queue), old(JobWorld()))
    {
      while queue != []
        invariant Valid() && closed && sent == old(sent) && hung == old(hung)
        invariant processed + queue == old(processed) + old(queue)
        invariant RunJobs(Context(), queue, JobWorld()) == RunJobs(Context(), old(queue), old(JobWorld()))
        decreases |queue|
      {
        ghost var q := queue;
        TakeAndProcess();
        assert processed + queue == old(processed) + old(queue) by {
          assert q == [q[0]] + queue;
        }
      }
    }

    /** Start: the producer and the workers until the channel is closed and
        drained. Unless the producer blocked for ever, every job sent is
        processed exactly once, in the order sent, and the jobs sent are the
        links discovered from the seed (none when the seed fetch or the
        discovery failed); the requests and files are those of the seed
        fetch and discovery followed by processJob for each job in turn. */
    method Start() returns (links: Option<seq<Url>>)
      requires Valid() && !closed && !hung && sent == []
      modifies this, crawler`visited, crawler.client, crawler.fs
      ensures var d := SeedDiscovery(Env(lib, crawler.client.respond, crawler.depth), baseURL, old(Snap(crawler)));
        && links == (if d.result.Success? then Some(d.result.value) else None)
        && crawler.visited == d.after.visited
      ensures !hung ==>
        && closed && queue == [] && processed == sent
        && sent == (if links.Some? then Jobs(links.value, crawler.depth) else [])
      ensures hung ==> maxWorkers == 0 && links.Some? && links.value != [] && processed == []
      ensures var d := SeedDiscovery(Env(lib, crawler.client.respond, crawler.depth), baseURL, old(Snap(crawler)));
        var w1 := World(d.after.requests, d.after.sleeps, old(crawler.fs.files), old(crawler.fs.dirs));
        JobWorld() == (if hung then w1 else RunJobs(Context(), sent, w1))
    {
      ghost var s0, files0, dirs0 := Snap(crawler), crawler.fs.files, crawler.fs.dirs;
      links := ProcessAllURL();
      ghost var d := SeedDiscovery(Env(lib, crawler.client.respond, crawler.depth), baseURL, s0);
      ghost var w1 := World(d.after.requests, d.after.sleeps, files0, dirs0);
      if !hung {
        ghost var q1, p1 := queue, processed;
        Drain();
        RunJobsConcat(Context(), p1, q1, w1);
        if links.None? {
          assert p1 == [] && q1 == [];
        }
      }
    }
  }

  /** processAllURL's seed fetch and discovery as a function of the crawl
      state. */
  function SeedDiscovery(env: Env, base: Url, s: Crawl): Discovery {
    var a := FetchSpec(env.respond, base, |s.requests|, 2);
    var s1 := s.(requests := s.requests + Repeat(base, a.made), sleeps := s.sleeps + a.sleeps);
    if a.result.Failure? then Discovery(Failure(a.result.error), s1)
    else Discover(env, 0, a.result.value, base, s1)
  }

  /** The links sent as jobs lie on the seed's host, are pairwise distinct,
      and were not visited before; the visited set grows by exactly their
      keys. In particular the seed itself becomes visited, and is sent as a
      job, only when some page links to it. */
  lemma SeedJobsFresh(env: Env, base: Url, s: Crawl)
    requires SeedDiscovery(env, base, s).result.Success?
    ensures var d := SeedDiscovery(env, base, s);
      Fresh(base.host, s.visited, d.result.value, d.after.visited)
    ensures var d := SeedDiscovery(env, base, s);
      Key(base) !in s.visited ==> (Key(base) in d.after.visited <==> exists j :: 0 <= j < |d.result.value| && Key(d.result.value[j]) == Key(base))
  {
    var a := FetchSpec(env.respond, base, |s.requests|, 2);
    var s1 := s.(requests := s.requests + Repeat(base, a.made), sleeps := s.sleeps + a.sleeps);
    DiscoverFresh(env, 0, a.result.value, base, s1);
    var links := SeedDiscovery(env, base, s).result.value;
    if Key(base) in KeysOf(links) {
      var u :| u in links && Key(u) == Key(base);
      var j :| 0 <= j < |links| && links[j] == u;
    }
  }

  /** The links of the seed page as processAllURL's first fetch finds them;
      none when that fetch or the parse fails. */
  function SeedPageLinks(env: Env, base: Url, s: Crawl): seq<Url> {
    var a := FetchSpec(env.respond, base, |s.requests|, 2);
    if a.result.Failure? then []
    else match PageLinks(env.lib, a.result.value, base)
      case Success(links) => links
      case Failure(_) => []
  }

  /** The links of a parsed page have distinct keys. */
  lemma PageLinksDistinct(lib: Lib, data: Bytes, base: Url)
    requires PageLinks(lib, data, base).Success?
    ensures var links := PageLinks(lib, data, base).value;
      forall j, k :: 0 <= j < k < |links| ==> Key(links[j]) != Key(links[k])
  {
    if IsHTML(base.path, data) {
      var doc := lib.parseHtml(data).value;
      var f := FirstOccurrences(Refs(lib, base, doc));
      assert RewriteSpec(lib, data, base).Success?;
      assert RewriteSpec(lib, data, base).value.links == f;
      FirstOccurrencesSpec(Refs(lib, base, doc));
    }
  }

  /** Depth 0 as written: the jobs are the seed page's own links, namely
      those on its host that were not visited before, in document order.
      None of them is fetched during discovery, but each is fetched and saved
      as a job. */
  lemma DepthZeroSendsSeedLinks(env: Env, base: Url, s: Crawl)
    requires env.depth == 0 && SeedDiscovery(env, base, s).result.Success?
    ensures SeedDiscovery(env, base, s).result.value == NewOnHost(SeedPageLinks(env, base, s), base.host, s.visited)
  {
    var a := FetchSpec(env.respond, base, |s.requests|, 2);
    var s1 := s.(requests := s.requests + Repeat(base, a.made), sleeps := s.sleeps + a.sleeps);
    var links := PageLinks(env.lib, a.result.value, base).value;
    PageLinksDistinct(env.lib, a.result.value, base);
    DiscoverAtLimit(env, base, links, 0, s1);
    assert links[0..] == links;
  }

  /** At depth 0 the seed itself is sent only when its own page links to it. */
  lemma DepthZeroSeedSentOnlyIfLinked(env: Env, base: Url, s: Crawl)
    requires env.depth == 0 && SeedDiscovery(env, base, s).result.Success?
    ensures Key(base) in KeysOf(SeedDiscovery(env, base, s).result.value) ==>
      exists j :: 0 <= j < |SeedPageLinks(env, base, s)| && Key(SeedPageLinks(env, base, s)[j]) == Key(base)
  {
    var jobs := SeedDiscovery(env, base, s).result.value;
    var links := SeedPageLinks(env, base, s);
    DepthZeroSendsSeedLinks(env, base, s);
    if Key(base) in KeysOf(jobs) {
      var u :| u in jobs && Key(u) == Key(base);
      NewOnHostMembers(links, base.host, s.visited, u);
      var j :| 0 <= j < |links| && links[j] == u;
    }
  }

  /** Hence at depth 0 the pool writes the seed's own file only when a link
      of the seed page is stored under the same local path. */
  lemma DepthZeroSeedFile(e: JobEnv, env: Env, base: Url, s: Crawl, w: World)
    requires env.depth == 0 && SeedDiscovery(env, base, s).result.Success?
    requires forall j :: 0 <= j < |SeedPageLinks(env, base, s)| ==> LocalPath(SeedPageLinks(env, base, s)[j]) != LocalPath(base)
    ensures var w2 := RunJobs(e, Jobs(SeedDiscovery(env, base, s).result.value, env.depth), w);
      && (LocalPath(base) in w2.files <==> LocalPath(base) in w.files)
      && (LocalPath(base) in w.files ==> w2.files[LocalPath(base)] == w.files[LocalPath(base)])
  {
    var found := SeedDiscovery(env, base, s).result.value;
    var jobs := Jobs(found, env.depth);
    var links := SeedPageLinks(env, base, s);
    DepthZeroSendsSeedLinks(env, base, s);
    RunJobsFrame(e, jobs, w);
    forall job | job in jobs ensures LocalPath(job.url) != LocalPath(base) {
      var k :| 0 <= k < |jobs| && jobs[k] == job;
      assert job.url in found;
      NewOnHostMembers(links, base.host, s.visited, job.url);
      var j :| 0 <= j < |links| && links[j] == job.url;
    }
  }

  /** processAllURL as the depth flag describes it ("0 = only the given
      page"): the seed page is the first job, and a depth of d sends the
      pages at most d links away from it. ParseAllLinks with limit d
      collects links d + 1 levels deep, so the corrected producer claims the
      seed, then runs it with limit d - 1, and not at all for d = 0. */
  function SeedDiscoveryIntended(env: Env, base: Url, s: Crawl): Discovery {
    var s0 := s.(visited := s.visited + {Key(base)});
    if env.depth > 0 then Prepend([base], SeedDiscovery(env.(depth := env.depth - 1), base, s0))
    else
      var a := FetchSpec(env.respond, base, |s0.requests|, 2);
      var s1 := s0.(requests := s0.requests + Repeat(base, a.made), sleeps := s0.sleeps + a.sleeps);
      if a.result.Failure? then Discovery(Failure(a.result.error), s1)
      else if env.depth < 0 then Discovery(Failure(MaxDepthExceeded), s1)
      else Discovery(Success([base]), s1)
  }

  /** With the correction the seed is always the first job. */
  lemma SeedDiscoveryIntendedFirst(env: Env, base: Url, s: Crawl)
    ensures var d := SeedDiscoveryIntended(env, base, s);
      d.result.Success? ==> |d.result.value| >= 1 && d.result.value[0] == base
  {
  }

  /** ... and it is sent once: the jobs are on the seed's host, distinct and
      not visited before, and exactly their keys are claimed. */
  lemma SeedDiscoveryIntendedFresh(env: Env, base: Url, s: Crawl)
    requires Key(base) !in s.visited
    ensures var d := SeedDiscoveryIntended(env, base, s);
      d.result.Success? ==> Fresh(base.host, s.visited, d.result.value, d.after.visited)
  {
    var d := SeedDiscoveryIntended(env, base, s);
    var s0 := s.(visited := s.visited + {Key(base)});
    assert KeysOf([base]) == {Key(base)};
    assert Fresh(base.host, s.visited, [base], s0.visited);
    if env.depth > 0 && d.result.Success? {
      var env' := env.(depth := env.depth - 1);
      var rest := SeedDiscovery(env', base, s0);
      SeedJobsFresh(env', base, s0);
      FreshConcat(base.host, s.visited, [base], s0.visited, rest.result.value, rest.after.visited);
    }
  }

  /** At depth 0 the seed is the only job, and its fetch the only request. */
  lemma SeedDiscoveryIntendedDepthZero(env: Env, base: Url, s: Crawl)
    requires env.depth == 0
    ensures var a := FetchSpec(env.respond, base, |s.requests|, 2);
      a.result.Success? ==>
        && SeedDiscoveryIntended(env, base, s).result == Success([base])
        && SeedDiscoveryIntended(env, base, s).after.requests == s.requests + Repeat(base, a.made)
  {
  }

  /** With the correction, depth 0 saves only the given page: the pool
      requests nothing but the seed and touches no file other than the
      seed's own. */
  lemma IntendedDepthZeroSavesOnlySeed(e: JobEnv, env: Env, base: Url, s: Crawl, w: World)
    requires env.depth == 0 && SeedDiscoveryIntended(env, base, s).result.Success?
    ensures var w2 := RunJobs(e, Jobs(SeedDiscoveryIntended(env, base, s).result.value, env.depth), w);
      && (forall i :: |w.requests| <= i < |w2.requests| ==> w2.requests[i] == base)
      && (forall p :: p != LocalPath(base) ==> (p in w2.files <==> p in w.files))
      && (forall p :: p != LocalPath(base) && p in w.files ==> w2.files[p] == w.files[p])
  {
    var jobs := Jobs(SeedDiscoveryIntended(env, base, s).result.value, env.depth);
    assert jobs == [Job(base, env.depth)];
    RunJobsFrame(e, jobs, w);
    assert JobUrls(jobs) == {base};
    assert JobPaths(jobs) == {LocalPath(base)};
  }

  /** With a negative depth limit no job is ever sent: discovery from depth 0
      already fails. */
  lemma NegativeDepthSendsNothing(env: Env, base: Url, s: Crawl)
    requires env.depth < 0
    ensures SeedDiscovery(env, base, s).result.Failure?
  {
  }
}
