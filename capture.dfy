/** The `POST /api/capture` handler of server.js: validate the request,
    resolve the viewport modes, stream a `start` event, open one browser
    session, run the URL x mode jobs one after another (each isolated from
    the others' failures, stealth jobs pausing for a continue signal), and
    close with `done`.

    The browser, the file system, the URL parser and the clock are not
    modelled; what they do is read from an environment `Env`: which launch
    or per-job step rejects (and with which message), whether a continue
    signal ever arrives for a paused job, what `new URL(url)` yields, and
    what `Date.now()` returns. `Handle` is the whole observable result as a
    function of the request and the environment; `HandleCapture` is the
    handler itself, proved to produce exactly that. */
module Capture {
  import opened Wrappers
  import opened TextUtil
  import opened Protocol
  import FileName
  import Registry

  /** The JSON body `{ urls, desktop, mobile, stealth }`; a missing `urls`
      is `None`. */
  datatype Request = Request(urls: Option<seq<string>>, desktop: bool, mobile: bool, stealth: bool)

  const NoUrlsMessage := "No URLs provided"
  const NoModesMessage := "No modes selected"
  const UnknownError := "Unknown error"
  const FatalBrowserError := "Fatal browser error"

  /** The headers set before the first event is written. */
  const StreamHeaders: seq<(string, string)> := [
    ("Content-Type", "application/x-ndjson"),
    ("Transfer-Encoding", "chunked"),
    ("Cache-Control", "no-cache"),
    ("Connection", "keep-alive")
  ]

  /** `err.message || fallback` */
  function ErrorText(message: string, fallback: string): (r: string)
    ensures r != [] || fallback == []
    ensures message != [] ==> r == message
    ensures message == [] ==> r == fallback
  {
    if message == [] then fallback else message
  }

  // ---------------------------------------------------------------------
  // Modes and jobs

  /** The `modes` array: desktop when requested, then mobile when
      requested. */
  function SelectedModes(desktop: bool, mobile: bool): (r: seq<Mode>)
    ensures (Desktop in r <==> desktop) && (Mobile in r <==> mobile)
    ensures |r| == (if desktop then 1 else 0) + (if mobile then 1 else 0)
    ensures |r| == 2 ==> r[0] == Desktop && r[1] == Mobile
  {
    (if desktop then [Desktop] else []) + (if mobile then [Mobile] else [])
  }

  /** One (url, mode) unit of work. */
  datatype Job = Job(url: string, mode: Mode)
  {
    /** `${url}-${mode.name}` */
    function Id(): string
    {
      url + "-" + mode.Name()
    }
  }

  /** The jobs of one url, in mode order. */
  function Row(url: string, modes: seq<Mode>): (r: seq<Job>)
    ensures |r| == |modes|
    ensures forall j :: 0 <= j < |modes| ==> r[j] == Job(url, modes[j])
  {
    seq(|modes|, j requires 0 <= j < |modes| => Job(url, modes[j]))
  }

  /** The nested `for (url of urls) for (mode of modes)` order. */
  function Jobs(urls: seq<string>, modes: seq<Mode>): seq<Job>
    decreases |urls|
  {
    if urls == [] then [] else Jobs(urls[..|urls| - 1], modes) + Row(urls[|urls| - 1], modes)
  }

  /** `i * m`, by repeated addition: the job counter of the nested loops
      advances by `m` per url. */
  function Times(i: nat, m: nat): nat
    decreases i
  {
    if i == 0 then 0 else Times(i - 1, m) + m
  }

  lemma {:induction false} TimesIsProduct(i: nat, m: nat)
    ensures Times(i, m) == i * m
    decreases i
  {
    if i > 0 {
      TimesIsProduct(i - 1, m);
      assert (i - 1) * m + m == i * m;
    }
  }

  lemma {:induction false} TimesMonotone(i: nat, n: nat, m: nat)
    requires i < n
    ensures Times(i, m) + m <= Times(n, m)
    decreases n
  {
    if i < n - 1 {
      TimesMonotone(i, n - 1, m);
    }
  }

  lemma {:induction false} JobsCount(urls: seq<string>, modes: seq<Mode>)
    ensures |Jobs(urls, modes)| == Times(|urls|, |modes|)
    decreases |urls|
  {
    if urls != [] {
      JobsCount(urls[..|urls| - 1], modes);
    }
  }

  /** The jobs of `urls[i]` lie within the job list and end where the
      next url's begin. */
  lemma UrlSpan(urls: seq<string>, modes: seq<Mode>, i: nat)
    requires i < |urls|
    ensures Times(i + 1, |modes|) == Times(i, |modes|) + |modes| <= |Jobs(urls, modes)|
  {
    TimesMonotone(i, |urls|, |modes|);
    JobsCount(urls, modes);
  }

  lemma {:induction false} JobsIndex(urls: seq<string>, modes: seq<Mode>, i: nat, j: nat)
    requires i < |urls| && j < |modes|
    ensures Times(i, |modes|) + j < |Jobs(urls, modes)|
    ensures Jobs(urls, modes)[Times(i, |modes|) + j] == Job(urls[i], modes[j])
    decreases |urls|
  {
    var n, m := |urls|, |modes|;
    var init := urls[..n - 1];
    JobsCount(init, modes);
    if i < n - 1 {
      JobsIndex(init, modes, i, j);
      TimesMonotone(i, n - 1, m);
      assert urls[i] == init[i];
    }
  }

  /** The job list is the URL-major cross product: there are
      `urls.length * modes.length` jobs, and job `i * modes.length + j` is
      (urls[i], modes[j]). */
  lemma JobsLayout(urls: seq<string>, modes: seq<Mode>, i: nat, j: nat)
    requires i < |urls| && j < |modes|
    ensures |Jobs(urls, modes)| == |urls| * |modes|
    ensures i * |modes| + j < |Jobs(urls, modes)| && Jobs(urls, modes)[i * |modes| + j] == Job(urls[i], modes[j])
  {
    JobsCount(urls, modes);
    TimesIsProduct(|urls|, |modes|);
    JobsIndex(urls, modes, i, j);
    TimesIsProduct(i, |modes|);
  }

  lemma {:induction false} JobsAppend(a: seq<string>, b: seq<string>, modes: seq<Mode>)
    ensures Jobs(a + b, modes) == Jobs(a, modes) + Jobs(b, modes)
    decreases |b|
  {
    if b == [] {
      assert a + b == a;
    } else {
      var b' := b[..|b| - 1];
      assert (a + b)[..|a + b| - 1] == a + b';
      JobsAppend(a, b', modes);
    }
  }

  /** Two jobs of one request have the same id only if they are the same
      (url, mode) pair: the mode names end in different letters, and the
      same mode leaves the url as the rest of the id. */
  lemma JobIdInjective(u: string, m: Mode, u': string, m': Mode)
    ensures Job(u, m).Id() == Job(u', m').Id() ==> u == u' && m == m'
  {
    var a, b := Job(u, m).Id(), Job(u', m').Id();
    ModeNamesDiffer(m, m');
    IdEndsWithMode(u, m);
    IdEndsWithMode(u', m');
    if a == b && m == m' {
      assert a[..|u|] == u && b[..|u'|] == u';
    }
  }

  lemma IdEndsWithMode(u: string, m: Mode)
    ensures |Job(u, m).Id()| == |u| + 1 + |m.Name()|
    ensures Job(u, m).Id()[|Job(u, m).Id()| - 1] == m.Name()[|m.Name()| - 1]
  {
  }

  /** With the URLs de-duplicated, as the page does, all job ids of a
      request differ. */
  lemma JobIdsUnique(urls: seq<string>, modes: seq<Mode>, i: nat, j: nat, i': nat, j': nat)
    requires forall p, q :: 0 <= p < q < |urls| ==> urls[p] != urls[q]
    requires forall p, q :: 0 <= p < q < |modes| ==> modes[p] != modes[q]
    requires i < |urls| && i' < |urls| && j < |modes| && j' < |modes|
    requires Job(urls[i], modes[j]).Id() == Job(urls[i'], modes[j']).Id()
    ensures i == i' && j == j'
  {
    JobIdInjective(urls[i], modes[j], urls[i'], modes[j']);
  }

  // ---------------------------------------------------------------------
  // The environment

  /** The awaited operations of one job that may reject. */
  datatype Step =
    | NewContext | AddInitScript | NewPage | SetViewport | Goto
    | AddStyleTag | AutoScroll | Settle
    | MakeDownloadsDir | ResetViewport | Screenshot | CloseContext | ClosePage

  datatype UrlParts = UrlParts(hostname: string, pathname: string)

  datatype Env = Env(
    /** the session launch (profile directory, `launch` or
        `launchPersistentContext`) rejects with this message */
    launchFault: Option<string>,
    /** step `s` of the `k`-th job rejects with this message */
    fault: (nat, Step) -> Option<string>,
    /** a continue signal for the `k`-th job eventually arrives */
    resumes: nat -> bool,
    /** `new URL(url)`: its hostname and pathname, or the thrown message */
    parseUrl: string -> Result<UrlParts, string>,
    /** `Date.now()` when the `k`-th job names its file */
    clock: nat -> nat,
    /** `path.join(os.homedir(), 'Downloads')` */
    downloads: string,
    /** closing the browser or the persistent context rejects */
    closeFault: Option<string>)

  /** Steps up to and including navigation (the stealth pause follows). */
  function Opening(stealth: bool): seq<Step>
  {
    if stealth then [NewPage, SetViewport, Goto] else [NewContext, AddInitScript, NewPage, Goto]
  }

  /** Steps after the pause, before the URL is parsed for the file name. */
  const Preparing: seq<Step> := [AddStyleTag, AutoScroll, Settle]

  /** Steps after the file name is known. */
  function Saving(stealth: bool): seq<Step>
  {
    [MakeDownloadsDir, ResetViewport, Screenshot, if stealth then ClosePage else CloseContext]
  }

  /** The message of the first step of `steps` that rejects, if any: the
      awaited calls run in order and the first rejection leaves the `try`. */
  function FirstFault(env: Env, k: nat, steps: seq<Step>): Option<string>
    decreases |steps|
  {
    if steps == [] then None
    else if env.fault(k, steps[0]).Some? then env.fault(k, steps[0])
    else FirstFault(env, k, steps[1..])
  }

  /** No fault is reported exactly when every step succeeds, and a reported
      fault is the message of a failing step all of whose predecessors
      succeeded. */
  lemma {:induction false} FirstFaultSpec(env: Env, k: nat, steps: seq<Step>)
    ensures FirstFault(env, k, steps).None? <==> forall i :: 0 <= i < |steps| ==> env.fault(k, steps[i]).None?
    ensures FirstFault(env, k, steps).Some? ==>
      exists i :: 0 <= i < |steps| && env.fault(k, steps[i]) == FirstFault(env, k, steps) &&
                  forall j :: 0 <= j < i ==> env.fault(k, steps[j]).None?
    decreases |steps|
  {
    if steps != [] && env.fault(k, steps[0]).None? {
      FirstFaultSpec(env, k, steps[1..]);
      assert forall i :: 1 <= i < |steps| ==> steps[i] == steps[1..][i - 1];
      if FirstFault(env, k, steps).Some? {
        var i :| 0 <= i < |steps[1..]| && env.fault(k, steps[1..][i]) == FirstFault(env, k, steps) &&
                 forall j :: 0 <= j < i ==> env.fault(k, steps[1..][j]).None?;
        assert env.fault(k, steps[i + 1]) == FirstFault(env, k, steps);
      }
    }
  }

  // ---------------------------------------------------------------------
  // One job

  /** One statement of a job's `try` block. */
  datatype Action =
    | Await(step: Step)   // an awaited call, which may reject
    | SendWaiting         // announce the stealth pause
    | Suspend             // register the continuation and wait on it
    | SendProgress        // announce that the job goes on
    | NameFile            // `new URL(url)` (may throw) and the file name
    | SendSuccess         // announce the saved file

  /** Where the job continues after navigation and the stealth pause. */
  function AfterPause(stealth: bool): nat
  {
    if stealth then 7 else 5
  }

  /** What one job does, statement by statement: announce `progress`, then
      the `try` block (navigation, the stealth pause, preparing the page,
      naming the file, saving it). */
  function Script(stealth: bool): (r: seq<Action>)
    ensures |r| > AfterPause(stealth) + 8
  {
    if stealth then
      [SendProgress, Await(NewPage), Await(SetViewport), Await(Goto), SendWaiting, Suspend, SendProgress,
       Await(AddStyleTag), Await(AutoScroll), Await(Settle), NameFile,
       Await(MakeDownloadsDir), Await(ResetViewport), Await(Screenshot), Await(ClosePage), SendSuccess]
    else
      [SendProgress, Await(NewContext), Await(AddInitScript), Await(NewPage), Await(Goto),
       Await(AddStyleTag), Await(AutoScroll), Await(Settle), NameFile,
       Await(MakeDownloadsDir), Await(ResetViewport), Await(Screenshot), Await(CloseContext), SendSuccess]
  }

  datatype JobEnd = Captured | Failed | Parked

  datatype JobRun = JobRun(events: seq<Event>, end: JobEnd)

  function Failure(job: Job, message: string): Event
  {
    JobError(job.url, job.mode, ErrorText(message, UnknownError), job.Id())
  }

  /** The `catch` of a job: one error message. */
  function Fail(job: Job, message: string): JobRun
  {
    JobRun([Failure(job, message)], Failed)
  }

  function Prepend(e: Event, r: JobRun): JobRun
  {
    JobRun([e] + r.events, r.end)
  }

  /** The `k`-th job of a request, run from statement `i` of its script on:
      the events it emits and how it ends. The first statement that throws
      ends the `try` in the `catch`; `filepath` is the file name once
      `NameFile` has run. The whole job is `RunJob(stealth, k, job, env, 0, "")`. */
  function RunJob(stealth: bool, k: nat, job: Job, env: Env, i: nat, filepath: string): JobRun
    requires i <= |Script(stealth)|
    decreases |Script(stealth)| - i, 1
  {
    if i == |Script(stealth)| then JobRun([], Captured)
    else match Script(stealth)[i]
      case Await(s) =>
        if env.fault(k, s).Some? then Fail(job, env.fault(k, s).value)
        else RunJob(stealth, k, job, env, i + 1, filepath)
      case SendWaiting => Prepend(Waiting(job.url, job.mode, job.Id()), RunJob(stealth, k, job, env, i + 1, filepath))
      case Suspend =>
        if env.resumes(k) then RunJob(stealth, k, job, env, i + 1, filepath) else JobRun([], Parked)
      case SendProgress => Prepend(Progress(job.url, job.mode, job.Id()), RunJob(stealth, k, job, env, i + 1, filepath))
      case NameFile => RunNameFile(stealth, k, job, env, i)
      case SendSuccess => JobRun([Success(job.url, job.mode, filepath, job.Id())], Captured)
  }

  /** `new URL(url)`, which may throw, and the screenshot's path; the job
      goes on from statement `i + 1`. */
  function RunNameFile(stealth: bool, k: nat, job: Job, env: Env, i: nat): JobRun
    requires i < |Script(stealth)|
    decreases |Script(stealth)| - i, 0
  {
    match env.parseUrl(job.url)
    case Err(m) => Fail(job, m)
    case Ok(parts) =>
      var name := FileName.Name(parts.hostname, parts.pathname, job.mode, env.clock(k));
      RunJob(stealth, k, job, env, i + 1, FileName.FilePath(env.downloads, name))
  }

  /** A run of awaited calls: the first rejection ends the `try`. */
  lemma {:induction false} RunAwaits(stealth: bool, k: nat, job: Job, env: Env, i: nat, steps: seq<Step>, filepath: string)
    requires i + |steps| <= |Script(stealth)|
    requires forall t :: 0 <= t < |steps| ==> Script(stealth)[i + t] == Await(steps[t])
    ensures RunJob(stealth, k, job, env, i, filepath) ==
      match FirstFault(env, k, steps)
      case Some(m) => Fail(job, m)
      case None => RunJob(stealth, k, job, env, i + |steps|, filepath)
    decreases |steps|
  {
    if steps != [] {
      var s := steps[0];
      assert Script(stealth)[i] == Await(s);
      assert RunJob(stealth, k, job, env, i, filepath) ==
        if env.fault(k, s).Some? then Fail(job, env.fault(k, s).value)
        else RunJob(stealth, k, job, env, i + 1, filepath);
      assert FirstFault(env, k, steps) ==
        if env.fault(k, s).Some? then env.fault(k, s) else FirstFault(env, k, steps[1..]);
      RunAwaits(stealth, k, job, env, i + 1, steps[1..], filepath);
    }
  }

  /** The stealth pause, read off the script. */
  function PauseRun(k: nat, job: Job, env: Env): JobRun
  {
    Prepend(Waiting(job.url, job.mode, job.Id()),
      if env.resumes(k) then Prepend(Progress(job.url, job.mode, job.Id()), RunJob(true, k, job, env, 7, ""))
      else JobRun([], Parked))
  }

  /** A job up to the pause: `progress`, then navigation fails, or the job
      pauses (stealth) or goes straight on. */
  lemma JobOpening(stealth: bool, k: nat, job: Job, env: Env)
    ensures RunJob(stealth, k, job, env, 0, "") ==
      Prepend(Progress(job.url, job.mode, job.Id()),
        match FirstFault(env, k, Opening(stealth))
        case Some(m) => Fail(job, m)
        case None => if stealth then PauseRun(k, job, env) else RunJob(false, k, job, env, 5, ""))
  {
    if stealth {
      RunAwaits(true, k, job, env, 1, Opening(true), "");
      JobPause(k, job, env);
    } else {
      RunAwaits(false, k, job, env, 1, Opening(false), "");
    }
  }

  lemma JobPause(k: nat, job: Job, env: Env)
    ensures RunJob(true, k, job, env, 4, "") == PauseRun(k, job, env)
  {
    assert RunJob(true, k, job, env, 5, "") ==
      if env.resumes(k) then RunJob(true, k, job, env, 6, "") else JobRun([], Parked);
  }

  /** The part of the `try` after the pause, spelt out: the page is
      prepared, the URL parsed and the file saved, and the job reports
      success or the first error. */
  function FinishJob(stealth: bool, k: nat, job: Job, env: Env): JobRun
  {
    match FirstFault(env, k, Preparing)
    case Some(m) => Fail(job, m)
    case None => SaveJob(stealth, k, job, env)
  }

  /** From naming the file on. */
  function SaveJob(stealth: bool, k: nat, job: Job, env: Env): JobRun
  {
    match env.parseUrl(job.url)
    case Err(m) => Fail(job, m)
    case Ok(parts) =>
      match FirstFault(env, k, Saving(stealth))
      case Some(m) => Fail(job, m)
      case None =>
        var name := FileName.Name(parts.hostname, parts.pathname, job.mode, env.clock(k));
        JobRun([Success(job.url, job.mode, FileName.FilePath(env.downloads, name), job.Id())], Captured)
  }

  lemma JobClosing(stealth: bool, k: nat, job: Job, env: Env)
    ensures RunJob(stealth, k, job, env, AfterPause(stealth), "") == FinishJob(stealth, k, job, env)
  {
    RunAwaits(stealth, k, job, env, AfterPause(stealth), Preparing, "");
    JobSaving(stealth, k, job, env);
  }

  lemma JobSaving(stealth: bool, k: nat, job: Job, env: Env)
    ensures RunJob(stealth, k, job, env, AfterPause(stealth) + 3, "") == SaveJob(stealth, k, job, env)
  {
    var i := AfterPause(stealth) + 3;
    assert Script(stealth)[i] == NameFile;
    if env.parseUrl(job.url).Ok? {
      var parts := env.parseUrl(job.url).value;
      var filepath := FileName.FilePath(env.downloads, FileName.Name(parts.hostname, parts.pathname, job.mode, env.clock(k)));
      RunAwaits(stealth, k, job, env, i + 1, Saving(stealth), filepath);
    }
  }

  /** A stealth job from the pause on: `waiting`, then either the rest of
      the job after a second `progress`, or parked for good. */
  function Resumed(k: nat, job: Job, env: Env): JobRun
  {
    Prepend(Waiting(job.url, job.mode, job.Id()),
      if env.resumes(k) then Prepend(Progress(job.url, job.mode, job.Id()), FinishJob(true, k, job, env))
      else JobRun([], Parked))
  }

  /** A job after its first `progress`: navigation fails, or the job goes
      on (through the pause, in stealth). */
  function Navigated(stealth: bool, k: nat, job: Job, env: Env): JobRun
  {
    match FirstFault(env, k, Opening(stealth))
    case Some(m) => Fail(job, m)
    case None => if stealth then Resumed(k, job, env) else FinishJob(false, k, job, env)
  }

  /** The whole job, phase by phase. */
  lemma JobPhases(stealth: bool, k: nat, job: Job, env: Env)
    ensures RunJob(stealth, k, job, env, 0, "") == Prepend(Progress(job.url, job.mode, job.Id()), Navigated(stealth, k, job, env))
  {
    JobOpening(stealth, k, job, env);
    JobClosing(stealth, k, job, env);
  }

  /** The keys of `pendingContinue` after one job: a paused job leaves its
      entry, a failing job deletes it, a resumed job's entry was taken by
      the continue signal, and a non-stealth success touches nothing. */
  function KeysAfterJob(keys: set<string>, id: string, stealth: bool, end: JobEnd): set<string>
  {
    match end
    case Parked => keys + {id}
    case Failed => keys - {id}
    case Captured => if stealth then keys - {id} else keys
  }

  // ---------------------------------------------------------------------
  // The batch

  datatype Batch = Batch(events: seq<Event>, parked: Option<nat>, keys: set<string>)

  /** How each job of the request runs, the `k`-th as job number `k`. */
  function JobRuns(stealth: bool, jobs: seq<Job>, env: Env): (r: seq<JobRun>)
    ensures |r| == |jobs|
  {
    seq(|jobs|, k requires 0 <= k < |jobs| => RunJob(stealth, k, jobs[k], env, 0, ""))
  }

  lemma JobRunAt(stealth: bool, jobs: seq<Job>, env: Env, k: nat)
    requires k < |jobs|
    ensures JobRuns(stealth, jobs, env)[k] == RunJob(stealth, k, jobs[k], env, 0, "")
  {
  }

  /** The batch after one more job, the `k`-th, with id `id`, which ran
      as `r`. */
  function Extend(b: Batch, stealth: bool, k: nat, id: string, r: JobRun): Batch
  {
    Batch(b.events + r.events, if r.end.Parked? then Some(k) else None, KeysAfterJob(b.keys, id, stealth, r.end))
  }

  /** The first `n` jobs run in order; a job that pauses for good stops
      the loop. */
  function RunJobs(stealth: bool, jobs: seq<Job>, runs: seq<JobRun>, n: nat, keys: set<string>): Batch
    requires n <= |jobs| == |runs|
    decreases n
  {
    if n == 0 then Batch([], None, keys)
    else
      var b := RunJobs(stealth, jobs, runs, n - 1, keys);
      if b.parked.Some? then b else Extend(b, stealth, n - 1, jobs[n - 1].Id(), runs[n - 1])
  }

  lemma RunJobsNext(stealth: bool, jobs: seq<Job>, runs: seq<JobRun>, n: nat, keys: set<string>)
    requires n < |jobs| == |runs| && RunJobs(stealth, jobs, runs, n, keys).parked.None?
    ensures RunJobs(stealth, jobs, runs, n + 1, keys) ==
      Extend(RunJobs(stealth, jobs, runs, n, keys), stealth, n, jobs[n].Id(), runs[n])
  {
  }

  /** Once a job has paused for good, the jobs after it never run. */
  lemma {:induction false} ParkedStays(stealth: bool, jobs: seq<Job>, runs: seq<JobRun>, n: nat, m: nat, keys: set<string>)
    requires n <= m <= |jobs| == |runs|
    requires RunJobs(stealth, jobs, runs, n, keys).parked.Some?
    ensures RunJobs(stealth, jobs, runs, m, keys) == RunJobs(stealth, jobs, runs, n, keys)
    decreases m
  {
    if n < m {
      ParkedStays(stealth, jobs, runs, n, m - 1, keys);
    }
  }

  datatype Outcome =
    | Rejected                      // 400 before the stream began
    | NoModes                       // a single error event, then end
    | Finished                      // `done` written and the response ended
    | Suspended(job: nat)           // waiting forever for a continue signal
    | CleanupFailed(error: string)  // closing the session rejected in `finally`

  /** Everything the handler leaves behind. */
  datatype Run = Run(
    status: nat,
    headers: seq<(string, string)>,
    json: Option<string>,
    events: seq<Event>,
    ended: bool,
    keys: set<string>,
    outcome: Outcome)

  /** `urls.length * modes.length`: the `total` that `start` announces. */
  function Total(urls: seq<string>, modes: seq<Mode>): nat
  {
    |urls| * |modes|
  }

  /** The observable result of one capture request, given the keys of
      `pendingContinue` when it starts. */
  function Handle(req: Request, env: Env, keys: set<string>): Run
  {
    if req.urls.None? || |req.urls.value| == 0 then
      Run(400, [], Some(NoUrlsMessage), [], true, keys, Rejected)
    else
      var modes := SelectedModes(req.desktop, req.mobile);
      if modes == [] then
        Run(200, StreamHeaders, None, [RequestError(NoModesMessage)], true, keys, NoModes)
      else Session(req.stealth, req.urls.value, modes, env, keys)
  }

  /** From `start` to `done`: launch, the jobs, and the `finally` that
      closes the session. */
  function Session(stealth: bool, urls: seq<string>, modes: seq<Mode>, env: Env, keys: set<string>): (r: Run)
    ensures r.status == 200 && r.headers == StreamHeaders && r.json == None
    ensures r.ended <==> r.outcome == Finished
  {
    var start := Start(Total(urls, modes));
    if env.launchFault.Some? then
      Run(200, StreamHeaders, None,
          [start, Fatal(ErrorText(env.launchFault.value, FatalBrowserError)), Done],
          true, keys, Finished)
    else
      var jobs := Jobs(urls, modes);
      Finally(start, RunJobs(stealth, jobs, JobRuns(stealth, jobs, env), |jobs|, keys), env.closeFault)
  }

  /** The `finally` after the jobs ran as `b`: a job paused for good keeps
      the handler waiting; otherwise the session is closed, which may
      reject, and then `done` is written and the response ended. */
  function Finally(start: Event, b: Batch, closeFault: Option<string>): (r: Run)
    ensures r.status == 200 && r.headers == StreamHeaders && r.json == None
    ensures r.ended <==> r.outcome == Finished
  {
    if b.parked.Some? then
      Run(200, StreamHeaders, None, [start] + b.events, false, b.keys, Suspended(b.parked.value))
    else if closeFault.Some? then
      Run(200, StreamHeaders, None, [start] + b.events, false, b.keys, CleanupFailed(closeFault.value))
    else
      Run(200, StreamHeaders, None, [start] + b.events + [Done], true, b.keys, Finished)
  }

  // ---------------------------------------------------------------------
  // The handler

  /** The Express response as far as the handler uses it. */
  class Response {
    var status: nat
    var headers: seq<(string, string)>
    /** the body of `res.json(...)`, which is `{ error }` here */
    var json: Option<string>
    /** the messages written with `sendMsg`, in order */
    var events: seq<Event>
    var ended: bool

    constructor ()
      ensures status == 200 && headers == [] && json == None && events == [] && !ended
    {
      status := 200;
      headers := [];
      json := None;
      events := [];
      ended := false;
    }

    /** The bytes written to the stream so far. */
    function Body(): string
      reads this
    {
      Wire(events)
    }

    /** `res.setHeader(name, value)` */
    method SetHeader(name: string, value: string)
      requires !ended
      modifies this
      ensures headers == old(headers) + [(name, value)]
      ensures status == old(status) && json == old(json) && events == old(events) && !ended
    {
      headers := headers + [(name, value)];
    }

    /** `sendMsg(msg)`: `res.write(JSON.stringify(msg) + '\n')` */
    method Send(e: Event)
      requires !ended
      modifies this
      ensures events == old(events) + [e]
      ensures status == old(status) && headers == old(headers) && json == old(json) && !ended
    {
      events := events + [e];
    }

    /** `res.status(code).json({ error: message })` */
    method Reject(code: nat, message: string)
      requires !ended
      modifies this
      ensures status == code && json == Some(message) && ended
      ensures headers == old(headers) && events == old(events)
    {
      status := code;
      json := Some(message);
      ended := true;
    }

    /** `res.end()` */
    method End()
      requires !ended
      modifies this
      ensures ended
      ensures status == old(status) && headers == old(headers) && json == old(json) && events == old(events)
    {
      ended := true;
    }
  }

  /** One iteration of the inner loop: the `try`/`catch` around one job.
      Returns how the job ended; `Parked` means the handler is now waiting
      on the promise registered under the job id and goes no further. */
  method ProcessJob(stealth: bool, k: nat, job: Job, env: Env, res: Response, reg: Registry.PendingContinue)
    returns (end: JobEnd)
    requires reg.Valid() && !res.ended
    modifies res, reg
    ensures reg.Valid()
    ensures end == RunJob(stealth, k, job, env, 0, "").end
    ensures res.events == old(res.events) + RunJob(stealth, k, job, env, 0, "").events
    ensures res.status == old(res.status) && res.headers == old(res.headers) && res.json == old(res.json)
    ensures !res.ended
    ensures reg.pending.Keys == KeysAfterJob(old(reg.pending.Keys), job.Id(), stealth, end)
    ensures end.Parked? ==> job.Id() in reg.pending && reg.pending[job.Id()] !in reg.resolved
  {
    var progress := Progress(job.url, job.mode, job.Id());
    res.Send(progress);
    JobPhases(stealth, k, job, env);
    end := Navigate(stealth, k, job, env, res, reg);
    AppendAssoc(old(res.events), [progress], Navigated(stealth, k, job, env).events);
  }

  /** The `try` of one job after its first `progress`. */
  method Navigate(stealth: bool, k: nat, job: Job, env: Env, res: Response, reg: Registry.PendingContinue)
    returns (end: JobEnd)
    requires reg.Valid() && !res.ended
    modifies res, reg
    ensures reg.Valid()
    ensures end == Navigated(stealth, k, job, env).end
    ensures res.events == old(res.events) + Navigated(stealth, k, job, env).events
    ensures res.status == old(res.status) && res.headers == old(res.headers) && res.json == old(res.json)
    ensures !res.ended
    ensures reg.pending.Keys == KeysAfterJob(old(reg.pending.Keys), job.Id(), stealth, end)
    ensures end.Parked? ==> job.Id() in reg.pending && reg.pending[job.Id()] !in reg.resolved
  {
    var fault := FirstFault(env, k, Opening(stealth));
    if fault.Some? {
      reg.Cancel(job.Id());
      res.Send(Failure(job, fault.value));
      return Failed;
    }
    if stealth {
      end := PauseAndFinish(k, job, env, res, reg);
    } else {
      end := CompleteJob(false, k, job, env, res, reg);
    }
  }

  /** A stealth job from the pause on. */
  method PauseAndFinish(k: nat, job: Job, env: Env, res: Response, reg: Registry.PendingContinue)
    returns (end: JobEnd)
    requires reg.Valid() && !res.ended
    modifies res, reg
    ensures reg.Valid()
    ensures end == Resumed(k, job, env).end
    ensures res.events == old(res.events) + Resumed(k, job, env).events
    ensures res.status == old(res.status) && res.headers == old(res.headers) && res.json == old(res.json)
    ensures !res.ended
    ensures reg.pending.Keys == KeysAfterJob(old(reg.pending.Keys), job.Id(), true, end)
    ensures end.Parked? ==> job.Id() in reg.pending && reg.pending[job.Id()] !in reg.resolved
  {
    var resumed := Pause(k, job, env, res, reg);
    if !resumed {
      return Parked;
    }
    ghost var pause := res.events;
    end := CompleteJob(true, k, job, env, res, reg);
    AppendAssoc(old(res.events), pause[|old(res.events)|..], FinishJob(true, k, job, env).events);
  }

  /** The stealth pause: announce `waiting`, register the job's
      continuation and wait on it. If the continue signal arrives, its
      handler has taken the entry, and the job announces `progress` again;
      otherwise the job stays parked with its continuation pending. */
  method Pause(k: nat, job: Job, env: Env, res: Response, reg: Registry.PendingContinue)
    returns (resumed: bool)
    requires reg.Valid() && !res.ended
    modifies res, reg
    ensures reg.Valid()
    ensures resumed == env.resumes(k)
    ensures res.events == old(res.events) + [Waiting(job.url, job.mode, job.Id())] +
      (if resumed then [Progress(job.url, job.mode, job.Id())] else [])
    ensures res.status == old(res.status) && res.headers == old(res.headers) && res.json == old(res.json)
    ensures !res.ended
    ensures reg.pending.Keys == if resumed then old(reg.pending.Keys) - {job.Id()} else old(reg.pending.Keys) + {job.Id()}
    ensures !resumed ==> job.Id() in reg.pending && reg.pending[job.Id()] !in reg.resolved
  {
    var id := job.Id();
    res.Send(Waiting(job.url, job.mode, id));
    var c := reg.Park(id);
    resumed := env.resumes(k);
    if resumed {
      // the continue signal for this job arrives
      var reply := reg.Continue(id);
      res.Send(Progress(job.url, job.mode, id));
    }
  }

  /** The rest of the `try` after navigation (and the pause): style tag,
      scrolling, settling, file name, screenshot, closing; the `catch`
      deletes the job's entry and reports the error. */
  method CompleteJob(stealth: bool, k: nat, job: Job, env: Env, res: Response, reg: Registry.PendingContinue)
    returns (end: JobEnd)
    requires reg.Valid() && !res.ended
    modifies res, reg
    ensures reg.Valid()
    ensures end == FinishJob(stealth, k, job, env).end && !end.Parked?
    ensures res.events == old(res.events) + FinishJob(stealth, k, job, env).events
    ensures res.status == old(res.status) && res.headers == old(res.headers) && res.json == old(res.json)
    ensures !res.ended
    ensures reg.pending.Keys == if end.Failed? then old(reg.pending.Keys) - {job.Id()} else old(reg.pending.Keys)
  {
    var fault := FirstFault(env, k, Preparing);
    if fault.None? {
      match env.parseUrl(job.url)
      case Err(m) =>
        fault := Some(m);
      case Ok(parts) =>
        fault := FirstFault(env, k, Saving(stealth));
        if fault.None? {
          var name := FileName.Name(parts.hostname, parts.pathname, job.mode, env.clock(k));
          res.Send(Success(job.url, job.mode, FileName.FilePath(env.downloads, name), job.Id()));
          return Captured;
        }
    }
    reg.Cancel(job.Id());
    res.Send(Failure(job, fault.value));
    end := Failed;
  }

  /** `POST /api/capture`. `res` is a fresh response and `reg` the
      process-wide `pendingContinue` map. The handler leaves exactly the
      result `Handle` describes. */
  method HandleCapture(req: Request, env: Env, res: Response, reg: Registry.PendingContinue)
    returns (outcome: Outcome)
    requires reg.Valid()
    requires res.status == 200 && res.headers == [] && res.json == None && res.events == [] && !res.ended
    modifies res, reg
    ensures reg.Valid()
    ensures var run := Handle(req, env, old(reg.pending.Keys));
      res.status == run.status && res.headers == run.headers && res.json == run.json &&
      res.events == run.events && res.ended == run.ended &&
      reg.pending.Keys == run.keys && outcome == run.outcome
  {
    ghost var keys0 := reg.pending.Keys;
    if req.urls.None? || |req.urls.value| == 0 {
      res.Reject(400, NoUrlsMessage);
      assert Handle(req, env, keys0) == Run(400, [], Some(NoUrlsMessage), [], true, keys0, Rejected);
      return Rejected;
    }
    var urls := req.urls.value;
    res.SetHeader("Content-Type", "application/x-ndjson");
    res.SetHeader("Transfer-Encoding", "chunked");
    res.SetHeader("Cache-Control", "no-cache");
    res.SetHeader("Connection", "keep-alive");
    assert res.headers == StreamHeaders;
    var modes: seq<Mode> := [];
    if req.desktop {
      modes := modes + [Desktop];
    }
    if req.mobile {
      modes := modes + [Mobile];
    }
    assert modes == SelectedModes(req.desktop, req.mobile);
    if |modes| == 0 {
      res.Send(RequestError(NoModesMessage));
      res.End();
      assert Handle(req, env, keys0) ==
        Run(200, StreamHeaders, None, [RequestError(NoModesMessage)], true, keys0, NoModes);
      return NoModes;
    }
    assert Handle(req, env, keys0) == Session(req.stealth, urls, modes, env, keys0);
    outcome := RunSession(req.stealth, urls, modes, env, res, reg);
  }

  /** The part of the handler from `start` on: the `try` that launches the
      session and runs the jobs, its `catch` (a launch failure is fatal)
      and its `finally` (close the session, `done`, end the response). */
  method RunSession(stealth: bool, urls: seq<string>, modes: seq<Mode>, env: Env, res: Response,
                    reg: Registry.PendingContinue)
    returns (outcome: Outcome)
    requires reg.Valid() && !res.ended
    modifies res, reg
    ensures reg.Valid()
    ensures var run := Session(stealth, urls, modes, env, old(reg.pending.Keys));
      res.status == old(res.status) && res.headers == old(res.headers) && res.json == old(res.json) &&
      res.events == old(res.events) + run.events && res.ended == run.ended &&
      reg.pending.Keys == run.keys && outcome == run.outcome
  {
    ghost var keys0 := reg.pending.Keys;
    var start := Start(Total(urls, modes));
    res.Send(start);
    if env.launchFault.Some? {
      res.Send(Fatal(ErrorText(env.launchFault.value, FatalBrowserError)));
      res.Send(Done);
      res.End();
      return Finished;
    }
    ghost var jobs := Jobs(urls, modes);
    var parked;
    ghost var b;
    parked, b := CaptureAll(stealth, urls, modes, env, res, reg, jobs, JobRuns(stealth, jobs, env));
    AppendAssoc(old(res.events), [start], b.events);
    if parked.Some? {
      return Suspended(parked.value);
    }
    if env.closeFault.Some? {
      return CleanupFailed(env.closeFault.value);
    }
    res.Send(Done);
    res.End();
    AppendAssoc(old(res.events), [start] + b.events, [Done]);
    outcome := Finished;
  }

  lemma AppendAssoc<T>(a: seq<T>, b: seq<T>, c: seq<T>)
    ensures (a + b) + c == a + (b + c)
  {
  }

  /** The two nested loops over urls and modes. Returns the index of the
      job that paused for good, if one did (the handler then waits on it
      and runs nothing more). */
  method CaptureAll(stealth: bool, urls: seq<string>, modes: seq<Mode>, env: Env, res: Response,
                    reg: Registry.PendingContinue, ghost jobs: seq<Job>, ghost runs: seq<JobRun>)
    returns (parked: Option<nat>, ghost b: Batch)
    requires jobs == Jobs(urls, modes) && runs == JobRuns(stealth, jobs, env)
    requires reg.Valid() && !res.ended
    modifies res, reg
    ensures reg.Valid() && !res.ended
    ensures res.status == old(res.status) && res.headers == old(res.headers) && res.json == old(res.json)
    ensures b == RunJobs(stealth, jobs, runs, |jobs|, old(reg.pending.Keys))
    ensures res.events == old(res.events) + b.events && parked == b.parked && reg.pending.Keys == b.keys
  {
    ghost var keys0, events0 := reg.pending.Keys, res.events;
    b := Batch([], None, keys0);
    var i := 0;
    while i < |urls|
      invariant 0 <= i <= |urls| && Times(i, |modes|) <= |jobs|
      invariant reg.Valid() && !res.ended
      invariant res.status == old(res.status) && res.headers == old(res.headers) && res.json == old(res.json)
      invariant b == RunJobs(stealth, jobs, runs, Times(i, |modes|), keys0)
      invariant b.parked.None? && res.events == events0 + b.events && reg.pending.Keys == b.keys
    {
      parked, b := CaptureUrl(stealth, urls, modes, i, env, res, reg, jobs, runs, keys0, events0);
      if parked.Some? {
        return;
      }
      i := i + 1;
    }
    JobsCount(urls, modes);
    parked := None;
  }

  /** The inner loop, over the modes of `urls[i]`: jobs `i * |modes|` up
      to the next url's first job, unless one of them pauses for good. */
  method CaptureUrl(stealth: bool, urls: seq<string>, modes: seq<Mode>, i: nat, env: Env, res: Response,
                    reg: Registry.PendingContinue, ghost jobs: seq<Job>, ghost runs: seq<JobRun>,
                    ghost keys0: set<string>, ghost events0: seq<Event>)
    returns (parked: Option<nat>, ghost b: Batch)
    requires jobs == Jobs(urls, modes) && runs == JobRuns(stealth, jobs, env)
    requires i < |urls| && Times(i, |modes|) <= |jobs|
    requires reg.Valid() && !res.ended
    requires var b := RunJobs(stealth, jobs, runs, Times(i, |modes|), keys0);
      b.parked.None? && res.events == events0 + b.events && reg.pending.Keys == b.keys
    modifies res, reg
    ensures reg.Valid() && !res.ended
    ensures res.status == old(res.status) && res.headers == old(res.headers) && res.json == old(res.json)
    ensures Times(i + 1, |modes|) <= |jobs|
    ensures parked.Some? ==> b == RunJobs(stealth, jobs, runs, |jobs|, keys0)
    ensures parked.None? ==> b == RunJobs(stealth, jobs, runs, Times(i + 1, |modes|), keys0)
    ensures res.events == events0 + b.events && parked == b.parked && reg.pending.Keys == b.keys
  {
    UrlSpan(urls, modes, i);
    b := RunJobs(stealth, jobs, runs, Times(i, |modes|), keys0);
    var k := Times(i, |modes|);
    var j := 0;
    while j < |modes|
      invariant 0 <= j <= |modes| && k == Times(i, |modes|) + j
      invariant reg.Valid() && !res.ended
      invariant res.status == old(res.status) && res.headers == old(res.headers) && res.json == old(res.json)
      invariant b == RunJobs(stealth, jobs, runs, k, keys0) && b.parked.None?
      invariant res.events == events0 + b.events && reg.pending.Keys == b.keys
    {
      var end;
      end, b := CaptureMode(stealth, urls, modes, i, j, k, env, res, reg, jobs, runs, keys0, events0, b);
      k := k + 1;
      if end.Parked? {
        return Some(k - 1), b;
      }
      j := j + 1;
    }
    assert k == Times(i + 1, |modes|);
    parked := None;
  }

  /** One pass of the inner loop, for mode `modes[j]` of `urls[i]`, which
      is job `k`; a job that parks ends the whole batch. */
  method CaptureMode(stealth: bool, urls: seq<string>, modes: seq<Mode>, i: nat, j: nat, k: nat, env: Env,
                     res: Response, reg: Registry.PendingContinue, ghost jobs: seq<Job>, ghost runs: seq<JobRun>,
                     ghost keys0: set<string>, ghost events0: seq<Event>, ghost b0: Batch)
    returns (end: JobEnd, ghost b: Batch)
    requires jobs == Jobs(urls, modes) && runs == JobRuns(stealth, jobs, env)
    requires i < |urls| && j < |modes| && k == Times(i, |modes|) + j && Times(i + 1, |modes|) == Times(i, |modes|) + |modes| <= |jobs|
    requires b0 == RunJobs(stealth, jobs, runs, k, keys0) && b0.parked.None?
    requires reg.Valid() && !res.ended && res.events == events0 + b0.events && reg.pending.Keys == b0.keys
    modifies res, reg
    ensures reg.Valid() && !res.ended
    ensures res.status == old(res.status) && res.headers == old(res.headers) && res.json == old(res.json)
    ensures end.Parked? ==> b == RunJobs(stealth, jobs, runs, |jobs|, keys0)
    ensures !end.Parked? ==> b == RunJobs(stealth, jobs, runs, k + 1, keys0)
    ensures b.parked == (if end.Parked? then Some(k) else None)
    ensures res.events == events0 + b.events && reg.pending.Keys == b.keys
  {
    JobsIndex(urls, modes, i, j);
    var job := Job(urls[i], modes[j]);
    JobRunAt(stealth, jobs, env, k);
    end, b := CaptureJob(stealth, k, job, env, res, reg, jobs, runs, keys0, events0, b0);
    if end.Parked? {
      ParkedStays(stealth, jobs, runs, k + 1, |jobs|, keys0);
    }
  }

  /** One pass of the inner loop: job `k` runs and the batch grows by it. */
  method CaptureJob(stealth: bool, k: nat, job: Job, env: Env, res: Response, reg: Registry.PendingContinue,
                    ghost jobs: seq<Job>, ghost runs: seq<JobRun>, ghost keys0: set<string>,
                    ghost events0: seq<Event>, ghost b0: Batch)
    returns (end: JobEnd, ghost b: Batch)
    requires k < |jobs| == |runs| && jobs[k] == job && runs[k] == RunJob(stealth, k, job, env, 0, "")
    requires b0 == RunJobs(stealth, jobs, runs, k, keys0) && b0.parked.None?
    requires reg.Valid() && !res.ended && res.events == events0 + b0.events && reg.pending.Keys == b0.keys
    modifies res, reg
    ensures reg.Valid() && !res.ended
    ensures res.status == old(res.status) && res.headers == old(res.headers) && res.json == old(res.json)
    ensures b == RunJobs(stealth, jobs, runs, k + 1, keys0) && b.parked == (if end.Parked? then Some(k) else None)
    ensures res.events == events0 + b.events && reg.pending.Keys == b.keys
  {
    end := ProcessJob(stealth, k, job, env, res, reg);
    RunJobsNext(stealth, jobs, runs, k, keys0);
    b := Extend(b0, stealth, k, job.Id(), runs[k]);
    AppendAssoc(events0, b0.events, runs[k].events);
  }
}
