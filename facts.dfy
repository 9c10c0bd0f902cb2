/** What the capture handler guarantees about the stream it writes, proved
    about `Capture.Handle` (and so, through `HandleCapture`'s contract,
    about the handler itself): the 400 path, the single error without
    modes, `start` first, `done` last, one `success` or `error` per job in
    URL-major order, the stealth pause, at most one `fatal`, and what is
    left in `pendingContinue`. */
module CaptureFacts {
  import opened Wrappers
  import opened Protocol
  import opened Capture

  /** The job ids of the end-of-job messages (`success` or job `error`),
      in stream order. */
  function TerminalIds(events: seq<Event>): seq<string>
    decreases |events|
  {
    if events == [] then []
    else
      var e := events[|events| - 1];
      TerminalIds(events[..|events| - 1]) + (if e.IsTerminal() then [e.jobId] else [])
  }

  lemma {:induction false} TerminalIdsAppend(a: seq<Event>, b: seq<Event>)
    ensures TerminalIds(a + b) == TerminalIds(a) + TerminalIds(b)
    decreases |b|
  {
    if b != [] {
      var b' := b[..|b| - 1];
      assert (a + b)[..|a + b| - 1] == a + b';
      TerminalIdsAppend(a, b');
    } else {
      assert a + b == a;
    }
  }

  /** The ids of `jobs`, in order. */
  function Ids(jobs: seq<Job>): (r: seq<string>)
    ensures |r| == |jobs|
    decreases |jobs|
  {
    if jobs == [] then [] else Ids(jobs[..|jobs| - 1]) + [jobs[|jobs| - 1].Id()]
  }

  lemma {:induction false} IdsAt(jobs: seq<Job>, i: nat)
    requires i < |jobs|
    ensures Ids(jobs)[i] == jobs[i].Id()
    decreases |jobs|
  {
    if i < |jobs| - 1 {
      IdsAt(jobs[..|jobs| - 1], i);
    }
  }

  /** The ids of `jobs`, as a set. */
  function IdSet(jobs: seq<Job>): (r: set<string>)
    decreases |jobs|
  {
    if jobs == [] then {} else IdSet(jobs[..|jobs| - 1]) + {jobs[|jobs| - 1].Id()}
  }

  /** The message concerns `job`: it carries the job's url, mode and id. */
  predicate Belongs(e: Event, job: Job)
  {
    IsJobEvent(e) && e.url == job.url && e.mode == job.mode && e.jobId == job.Id()
  }

  // ---------------------------------------------------------------------
  // One job

  lemma SaveShape(stealth: bool, k: nat, job: Job, env: Env)
    ensures var r := SaveJob(stealth, k, job, env);
      |r.events| == 1 && r.events[0].IsTerminal() && Belongs(r.events[0], job) && !r.end.Parked? &&
      (r.end.Captured? <==> r.events[0].Success?)
  {
  }

  lemma FinishShape(stealth: bool, k: nat, job: Job, env: Env)
    ensures var r := FinishJob(stealth, k, job, env);
      |r.events| == 1 && r.events[0].IsTerminal() && Belongs(r.events[0], job) && !r.end.Parked? &&
      (r.end.Captured? <==> r.events[0].Success?)
  {
    SaveShape(stealth, k, job, env);
  }

  lemma {:induction false} NoTerminals(events: seq<Event>)
    requires forall i :: 0 <= i < |events| ==> !events[i].IsTerminal()
    ensures TerminalIds(events) == []
    decreases |events|
  {
    if events != [] {
      NoTerminals(events[..|events| - 1]);
    }
  }

  /** The end-of-job ids of some messages followed by one end-of-job
      message. */
  lemma ThenTerminal(events: seq<Event>, t: Event)
    requires forall i :: 0 <= i < |events| ==> !events[i].IsTerminal()
    requires t.IsTerminal()
    ensures TerminalIds(events + [t]) == [t.jobId]
  {
    NoTerminals(events);
    assert (events + [t])[..|events + [t]| - 1] == events;
  }

  lemma ConsIndex<T>(x: T, s: seq<T>)
    ensures forall i :: 1 <= i < |[x] + s| ==> ([x] + s)[i] == s[i - 1]
  {
  }

  /** The shape of a job after its first `progress`. */
  lemma NavigatedShape(stealth: bool, k: nat, job: Job, env: Env)
    ensures var n := Navigated(stealth, k, job, env);
      n.events != [] &&
      (forall i :: 0 <= i < |n.events| ==> Belongs(n.events[i], job)) &&
      TerminalIds(n.events) == (if n.end.Parked? then [] else [job.Id()]) &&
      (n.end.Parked? ==> stealth && !env.resumes(k) && n.events[|n.events| - 1] == Waiting(job.url, job.mode, job.Id())) &&
      (!n.end.Parked? ==> n.events[|n.events| - 1].IsTerminal()) &&
      (n.end.Captured? <==> n.events[|n.events| - 1].Success?) &&
      (!stealth ==> forall i :: 0 <= i < |n.events| ==> !n.events[i].Waiting?)
  {
    var p := Progress(job.url, job.mode, job.Id());
    var w := Waiting(job.url, job.mode, job.Id());
    var n := Navigated(stealth, k, job, env);
    var f := FinishJob(stealth, k, job, env);
    FinishShape(stealth, k, job, env);
    match FirstFault(env, k, Opening(stealth))
    case Some(m) =>
      assert n.events == [Failure(job, m)];
      ThenTerminal([], Failure(job, m));
    case None =>
      if !stealth {
        assert n == f;
        ThenTerminal([], f.events[0]);
      } else if env.resumes(k) {
        assert n.events == [w, p] + [f.events[0]];
        ThenTerminal([w, p], f.events[0]);
      } else {
        assert n.events == [w];
        NoTerminals([w]);
      }
  }

  /** A job starts with `progress`, every message of it belongs to it,
      and only a stealth job waits. */
  lemma JobMessages(stealth: bool, k: nat, job: Job, env: Env)
    ensures var r := RunJob(stealth, k, job, env, 0, "");
      r.events != [] && r.events[0] == Progress(job.url, job.mode, job.Id()) &&
      (forall i :: 0 <= i < |r.events| ==> Belongs(r.events[i], job)) &&
      (!stealth ==> forall i :: 0 <= i < |r.events| ==> !r.events[i].Waiting?)
  {
    JobPhases(stealth, k, job, env);
    var p := Progress(job.url, job.mode, job.Id());
    var n := Navigated(stealth, k, job, env);
    NavigatedShape(stealth, k, job, env);
    assert RunJob(stealth, k, job, env, 0, "").events == [p] + n.events;
    ConsIndex(p, n.events);
  }

  /** A job reports exactly one `success` or `error`, as its last message,
      unless it is still paused, and then it paused in stealth because its
      continue signal never came and its last message is `waiting`;
      `success` is reported exactly when the screenshot was saved. */
  lemma JobEnds(stealth: bool, k: nat, job: Job, env: Env)
    ensures var r := RunJob(stealth, k, job, env, 0, "");
      r.events != [] &&
      TerminalIds(r.events) == (if r.end.Parked? then [] else [job.Id()]) &&
      (r.end.Parked? ==> stealth && !env.resumes(k) && r.events[|r.events| - 1] == Waiting(job.url, job.mode, job.Id())) &&
      (!r.end.Parked? ==> r.events[|r.events| - 1].IsTerminal()) &&
      (r.end.Captured? <==> r.events[|r.events| - 1].Success?)
  {
    JobPhases(stealth, k, job, env);
    var p := Progress(job.url, job.mode, job.Id());
    var n := Navigated(stealth, k, job, env);
    NavigatedShape(stealth, k, job, env);
    TerminalIdsAppend([p], n.events);
    NoTerminals([p]);
    var r := RunJob(stealth, k, job, env, 0, "");
    assert r.events == [p] + n.events && r.end == n.end;
    assert r.events[|r.events| - 1] == n.events[|n.events| - 1];
  }

  /** In stealth, a job whose navigation succeeded announces `waiting`
      next; it goes on, announcing `progress` again, exactly when its
      continue signal arrives. */
  lemma StealthPause(k: nat, job: Job, env: Env)
    requires FirstFault(env, k, Opening(true)).None?
    ensures var r := RunJob(true, k, job, env, 0, "");
      |r.events| >= 2 && r.events[1] == Waiting(job.url, job.mode, job.Id()) &&
      (r.end.Parked? <==> !env.resumes(k)) &&
      (env.resumes(k) ==> |r.events| == 4 && r.events[2] == Progress(job.url, job.mode, job.Id())) &&
      (!env.resumes(k) ==> |r.events| == 2)
  {
    JobPhases(true, k, job, env);
    FinishShape(true, k, job, env);
  }

  // ---------------------------------------------------------------------
  // The jobs of one request

  lemma IdsSnoc(jobs: seq<Job>, n: nat)
    requires 0 < n <= |jobs|
    ensures Ids(jobs[..n]) == Ids(jobs[..n - 1]) + [jobs[n - 1].Id()]
    ensures IdSet(jobs[..n]) == IdSet(jobs[..n - 1]) + {jobs[n - 1].Id()}
  {
    assert jobs[..n][..n - 1] == jobs[..n - 1];
  }

  /** Every message concerns a job. */
  predicate AllJobEvents(events: seq<Event>)
  {
    forall i :: 0 <= i < |events| ==> IsJobEvent(events[i])
  }

  /** No message is `waiting`. */
  predicate NoWaiting(events: seq<Event>)
  {
    forall i :: 0 <= i < |events| ==> !events[i].Waiting?
  }

  lemma JobEventsAppend(a: seq<Event>, b: seq<Event>)
    ensures AllJobEvents(a) && AllJobEvents(b) ==> AllJobEvents(a + b)
    ensures NoWaiting(a) && NoWaiting(b) ==> NoWaiting(a + b)
  {
    if AllJobEvents(a) && AllJobEvents(b) {
      forall i | 0 <= i < |a + b| ensures IsJobEvent((a + b)[i]) {
        if i >= |a| { assert (a + b)[i] == b[i - |a|]; }
      }
    }
    if NoWaiting(a) && NoWaiting(b) {
      forall i | 0 <= i < |a + b| ensures !(a + b)[i].Waiting? {
        if i >= |a| { assert (a + b)[i] == b[i - |a|]; }
      }
    }
  }

  /** What the messages of one job's run are: each concerns a job, and
      only a stealth job waits. */
  predicate Speaks(stealth: bool, r: JobRun)
  {
    AllJobEvents(r.events) && (!stealth ==> NoWaiting(r.events))
  }

  /** How one job's run ends: it reports its end once unless it is still
      paused, and a paused job is a stealth job whose continue signal never
      came, its last message `waiting`. */
  predicate Reports(stealth: bool, job: Job, resumes: bool, r: JobRun)
  {
    r.events != [] &&
    TerminalIds(r.events) == (if r.end.Parked? then [] else [job.Id()]) &&
    (r.end.Parked? ==> stealth && !resumes && r.events[|r.events| - 1] == Waiting(job.url, job.mode, job.Id()))
  }

  lemma RunShaped(stealth: bool, k: nat, job: Job, env: Env)
    ensures Speaks(stealth, RunJob(stealth, k, job, env, 0, ""))
    ensures Reports(stealth, job, env.resumes(k), RunJob(stealth, k, job, env, 0, ""))
  {
    JobMessages(stealth, k, job, env);
    JobEnds(stealth, k, job, env);
  }

  lemma JobRunsShaped(stealth: bool, jobs: seq<Job>, env: Env)
    ensures var runs := JobRuns(stealth, jobs, env);
      (forall k :: 0 <= k < |runs| ==> Speaks(stealth, runs[k])) &&
      (forall k :: 0 <= k < |runs| ==> Reports(stealth, jobs[k], env.resumes(k), runs[k])) &&
      (forall k :: 0 <= k < |runs| ==> runs[k].end.Parked? ==> stealth)
  {
    var runs := JobRuns(stealth, jobs, env);
    forall k | 0 <= k < |runs|
      ensures Speaks(stealth, runs[k]) && Reports(stealth, jobs[k], env.resumes(k), runs[k])
    {
      JobRunAt(stealth, jobs, env, k);
      RunShaped(stealth, k, jobs[k], env);
    }
  }

  /** Every message the jobs write concerns a job, and without stealth none
      of them is `waiting`. */
  lemma {:induction false} BatchEvents(stealth: bool, jobs: seq<Job>, runs: seq<JobRun>, n: nat, keys: set<string>)
    requires n <= |jobs| == |runs| && forall k :: 0 <= k < |runs| ==> Speaks(stealth, runs[k])
    ensures AllJobEvents(RunJobs(stealth, jobs, runs, n, keys).events)
    ensures !stealth ==> NoWaiting(RunJobs(stealth, jobs, runs, n, keys).events)
    decreases n
  {
    if n > 0 {
      BatchEvents(stealth, jobs, runs, n - 1, keys);
      var b := RunJobs(stealth, jobs, runs, n - 1, keys);
      if b.parked.None? {
        var r := runs[n - 1];
        assert Speaks(stealth, r);
        assert RunJobs(stealth, jobs, runs, n, keys).events == b.events + r.events;
        JobEventsAppend(b.events, r.events);
      }
    }
  }

  /** One more job that has not paused for good: its end is reported after
      the earlier ones. */
  lemma TerminalsStep(events: seq<Event>, r: JobRun, jobs: seq<Job>, n: nat, stealth: bool, resumes: bool)
    requires 0 < n <= |jobs| && TerminalIds(events) == Ids(jobs[..n - 1])
    requires Reports(stealth, jobs[n - 1], resumes, r)
    ensures !r.end.Parked? ==> TerminalIds(events + r.events) == Ids(jobs[..n])
    ensures r.end.Parked? ==>
      stealth && !resumes && TerminalIds(events + r.events) == Ids(jobs[..n - 1]) &&
      (events + r.events)[|events + r.events| - 1] == Waiting(jobs[n - 1].url, jobs[n - 1].mode, jobs[n - 1].Id())
  {
    TerminalIdsAppend(events, r.events);
    IdsSnoc(jobs, n);
  }

  /** After `n` jobs ran as `b`, the end-of-job ids are those of the first
      `n` jobs; or, when job `p` paused for good, those of the jobs before
      it, and the stream's last message is job `p`'s `waiting`. */
  predicate Reported(stealth: bool, jobs: seq<Job>, env: Env, b: Batch, n: nat)
    requires n <= |jobs|
  {
    match b.parked
    case None => TerminalIds(b.events) == Ids(jobs[..n])
    case Some(p) =>
      p < n && stealth && !env.resumes(p) && TerminalIds(b.events) == Ids(jobs[..p]) &&
      b.events != [] && b.events[|b.events| - 1] == Waiting(jobs[p].url, jobs[p].mode, jobs[p].Id())
  }

  lemma ReportedStep(stealth: bool, jobs: seq<Job>, env: Env, b: Batch, n: nat, r: JobRun)
    requires 0 < n <= |jobs| && b.parked.None? && Reported(stealth, jobs, env, b, n - 1)
    requires Reports(stealth, jobs[n - 1], env.resumes(n - 1), r)
    ensures Reported(stealth, jobs, env, Extend(b, stealth, n - 1, jobs[n - 1].Id(), r), n)
  {
    TerminalsStep(b.events, r, jobs, n, stealth, env.resumes(n - 1));
  }

  lemma ReportedStays(stealth: bool, jobs: seq<Job>, env: Env, b: Batch, n: nat)
    requires 0 < n <= |jobs| && b.parked.Some? && Reported(stealth, jobs, env, b, n - 1)
    ensures Reported(stealth, jobs, env, b, n)
  {
  }

  /** The jobs report their ends in job order, one each. */
  lemma {:induction false} BatchTerminals(stealth: bool, jobs: seq<Job>, env: Env, runs: seq<JobRun>, n: nat, keys: set<string>)
    requires n <= |jobs| == |runs| && forall k :: 0 <= k < |runs| ==> Reports(stealth, jobs[k], env.resumes(k), runs[k])
    ensures Reported(stealth, jobs, env, RunJobs(stealth, jobs, runs, n, keys), n)
    decreases n
  {
    if n > 0 {
      BatchTerminals(stealth, jobs, env, runs, n - 1, keys);
      var b := RunJobs(stealth, jobs, runs, n - 1, keys);
      if b.parked.None? {
        ReportedStep(stealth, jobs, env, b, n, runs[n - 1]);
        assert RunJobs(stealth, jobs, runs, n, keys) == Extend(b, stealth, n - 1, jobs[n - 1].Id(), runs[n - 1]);
      } else {
        ReportedStays(stealth, jobs, env, b, n);
        assert RunJobs(stealth, jobs, runs, n, keys) == b;
      }
    } else {
      assert jobs[..0] == [];
    }
  }

  /** What the jobs leave in `pendingContinue` after `n` of them ran as
      `b`: without stealth nothing is added; in stealth every job that
      finished has taken its own entry out (a resumed job through the
      continue signal, a failed one in its `catch`), and a job paused for
      good leaves exactly its own entry. */
  predicate KeysLeft(stealth: bool, jobs: seq<Job>, keys: set<string>, b: Batch, n: nat)
    requires n <= |jobs|
  {
    (!stealth ==> b.keys <= keys) &&
    match b.parked
    case None => stealth ==> b.keys == keys - IdSet(jobs[..n])
    case Some(p) => p < n && b.keys == (keys - IdSet(jobs[..p])) + {jobs[p].Id()}
  }

  lemma KeysStep(stealth: bool, jobs: seq<Job>, keys: set<string>, b: Batch, n: nat, r: JobRun)
    requires 0 < n <= |jobs| && b.parked.None? && KeysLeft(stealth, jobs, keys, b, n - 1)
    requires r.end.Parked? ==> stealth
    ensures KeysLeft(stealth, jobs, keys, Extend(b, stealth, n - 1, jobs[n - 1].Id(), r), n)
  {
    IdsSnoc(jobs, n);
  }

  lemma KeysStay(stealth: bool, jobs: seq<Job>, keys: set<string>, b: Batch, n: nat)
    requires 0 < n <= |jobs| && b.parked.Some? && KeysLeft(stealth, jobs, keys, b, n - 1)
    ensures KeysLeft(stealth, jobs, keys, b, n)
  {
  }

  lemma {:induction false} BatchKeys(stealth: bool, jobs: seq<Job>, runs: seq<JobRun>, n: nat, keys: set<string>)
    requires n <= |jobs| == |runs| && forall k :: 0 <= k < |runs| ==> runs[k].end.Parked? ==> stealth
    ensures KeysLeft(stealth, jobs, keys, RunJobs(stealth, jobs, runs, n, keys), n)
    decreases n
  {
    if n > 0 {
      BatchKeys(stealth, jobs, runs, n - 1, keys);
      var b := RunJobs(stealth, jobs, runs, n - 1, keys);
      if b.parked.None? {
        KeysStep(stealth, jobs, keys, b, n, runs[n - 1]);
        assert RunJobs(stealth, jobs, runs, n, keys) == Extend(b, stealth, n - 1, jobs[n - 1].Id(), runs[n - 1]);
      } else {
        KeysStay(stealth, jobs, keys, b, n);
        assert RunJobs(stealth, jobs, runs, n, keys) == b;
      }
    } else {
      assert jobs[..0] == [];
    }
  }

  // ---------------------------------------------------------------------
  // The whole request

  /** The stream around the jobs' messages: `start` first and only there,
      no `fatal`, and `done` exactly when the handler finishes, and then
      last; the response is ended exactly then. */
  lemma FinallyOrder(start: Event, b: Batch, closeFault: Option<string>)
    requires start.Start? && AllJobEvents(b.events)
    ensures var run := Finally(start, b, closeFault);
      run.events != [] && run.events[0] == start &&
      (forall i :: 1 <= i < |run.events| ==> !run.events[i].Start? && !run.events[i].Fatal?) &&
      (Done in run.events <==> run.outcome == Finished) &&
      (run.outcome == Finished ==>
        run.events[|run.events| - 1] == Done &&
        forall i :: 0 <= i < |run.events| - 1 ==> run.events[i] != Done) &&
      (run.ended <==> run.outcome == Finished)
  {
    var run := Finally(start, b, closeFault);
    var tail: seq<Event> := if run.outcome == Finished then [Done] else [];
    assert run.events == [start] + (b.events + tail);
    ConsIndex(start, b.events + tail);
    if run.outcome == Finished {
      assert run.events[..|run.events| - 1] == [start] + b.events;
      ConsIndex(start, b.events);
    }
  }

  /** The end-of-job ids and the `waiting` messages of the stream are the
      jobs' own. */
  lemma FinallyJobs(start: Event, b: Batch, closeFault: Option<string>)
    requires start.Start?
    ensures var run := Finally(start, b, closeFault);
      TerminalIds(run.events) == TerminalIds(b.events) &&
      (NoWaiting(b.events) ==> NoWaiting(run.events))
  {
    var run := Finally(start, b, closeFault);
    var tail: seq<Event> := if run.outcome == Finished then [Done] else [];
    assert run.events == [start] + b.events + tail;
    TerminalIdsAppend([start] + b.events, tail);
    TerminalIdsAppend([start], b.events);
    NoTerminals([start]);
    NoTerminals(tail);
    JobEventsAppend([start], b.events);
    JobEventsAppend([start] + b.events, tail);
  }

  /** The jobs of a request: every url with every selected mode. */
  function RequestJobs(req: Request): seq<Job>
    requires req.urls.Some?
  {
    Jobs(req.urls.value, SelectedModes(req.desktop, req.mobile))
  }

  /** How the jobs of a launched session run. */
  function SessionBatch(req: Request, env: Env, keys: set<string>): Batch
    requires req.urls.Some?
  {
    var jobs := RequestJobs(req);
    RunJobs(req.stealth, jobs, JobRuns(req.stealth, jobs, env), |jobs|, keys)
  }

  /** Once a mode is selected and the session launched, the request runs
      as its jobs' batch followed by the `finally`. */
  lemma SessionRuns(req: Request, env: Env, keys: set<string>)
    requires req.urls.Some? && |req.urls.value| > 0 && (req.desktop || req.mobile) && env.launchFault.None?
    ensures Handle(req, env, keys) ==
      Finally(Start(Total(req.urls.value, SelectedModes(req.desktop, req.mobile))), SessionBatch(req, env, keys), env.closeFault)
  {
  }

  /** Every message of the jobs concerns a job, and without stealth none
      of them is `waiting`. */
  lemma SessionEvents(req: Request, env: Env, keys: set<string>)
    requires req.urls.Some?
    ensures AllJobEvents(SessionBatch(req, env, keys).events)
    ensures !req.stealth ==> NoWaiting(SessionBatch(req, env, keys).events)
  {
    var jobs := RequestJobs(req);
    JobRunsShaped(req.stealth, jobs, env);
    BatchEvents(req.stealth, jobs, JobRuns(req.stealth, jobs, env), |jobs|, keys);
  }

  /** The jobs of the session report their ends in job order. */
  lemma SessionReported(req: Request, env: Env, keys: set<string>)
    requires req.urls.Some?
    ensures Reported(req.stealth, RequestJobs(req), env, SessionBatch(req, env, keys), |RequestJobs(req)|)
  {
    var jobs := RequestJobs(req);
    JobRunsShaped(req.stealth, jobs, env);
    BatchTerminals(req.stealth, jobs, env, JobRuns(req.stealth, jobs, env), |jobs|, keys);
  }

  /** What the jobs of the session leave in `pendingContinue`. */
  lemma SessionKeys(req: Request, env: Env, keys: set<string>)
    requires req.urls.Some?
    ensures KeysLeft(req.stealth, RequestJobs(req), keys, SessionBatch(req, env, keys), |RequestJobs(req)|)
  {
    var jobs := RequestJobs(req);
    JobRunsShaped(req.stealth, jobs, env);
    BatchKeys(req.stealth, jobs, JobRuns(req.stealth, jobs, env), |jobs|, keys);
  }

  /** The request is refused with 400 and `{ error: 'No URLs provided' }`,
      before any header or message, exactly when `urls` is missing or
      empty. */
  lemma RejectsMissingUrls(req: Request, env: Env, keys: set<string>)
    ensures var run := Handle(req, env, keys);
      (run.status == 400 <==> req.urls.None? || |req.urls.value| == 0) &&
      (run.status == 400 ==>
        run.json == Some(NoUrlsMessage) && run.headers == [] && run.events == [] &&
        run.ended && run.keys == keys)
  {
  }

  /** With urls but no mode, the stream holds a single `error` message and
      ends: no `start`, no session, no `done`. */
  lemma NoModesSingleError(req: Request, env: Env, keys: set<string>)
    requires req.urls.Some? && |req.urls.value| > 0 && !req.desktop && !req.mobile
    ensures var run := Handle(req, env, keys);
      run.status == 200 && run.headers == StreamHeaders &&
      run.events == [RequestError(NoModesMessage)] && run.ended && run.keys == keys
  {
  }

  /** The stream order of a launched session: `start`, then the jobs, then
      `done` if the handler finishes. */
  lemma SessionOrder(req: Request, env: Env, keys: set<string>)
    requires req.urls.Some? && |req.urls.value| > 0 && (req.desktop || req.mobile) && env.launchFault.None?
    ensures var run := Handle(req, env, keys);
      run.events != [] && run.events[0] == Start(Total(req.urls.value, SelectedModes(req.desktop, req.mobile))) &&
      (forall i :: 1 <= i < |run.events| ==> !run.events[i].Start? && !run.events[i].Fatal?) &&
      (Done in run.events <==> run.outcome == Finished) &&
      (run.outcome == Finished ==>
        run.events[|run.events| - 1] == Done &&
        forall i :: 0 <= i < |run.events| - 1 ==> run.events[i] != Done)
  {
    SessionRuns(req, env, keys);
    SessionEvents(req, env, keys);
    FinallyOrder(Start(Total(req.urls.value, SelectedModes(req.desktop, req.mobile))), SessionBatch(req, env, keys), env.closeFault);
  }

  /** Once a mode is selected, the first message is
      `start { total: urls.length * modes.length }` and no other message is
      a `start`. */
  lemma StartComesFirst(req: Request, env: Env, keys: set<string>)
    requires req.urls.Some? && |req.urls.value| > 0 && (req.desktop || req.mobile)
    ensures var run := Handle(req, env, keys);
      var total := Total(req.urls.value, SelectedModes(req.desktop, req.mobile));
      run.events != [] && run.events[0] == Start(total) &&
      forall i :: 1 <= i < |run.events| ==> !run.events[i].Start?
  {
    if env.launchFault.None? {
      SessionOrder(req, env, keys);
    }
  }

  /** `done` is written exactly when the handler finishes, and then it is
      the last message and the only `done`. */
  lemma DoneIsLast(req: Request, env: Env, keys: set<string>)
    ensures var run := Handle(req, env, keys);
      (Done in run.events <==> run.outcome == Finished) &&
      (run.outcome == Finished ==>
        run.events[|run.events| - 1] == Done &&
        forall i :: 0 <= i < |run.events| - 1 ==> run.events[i] != Done)
  {
    if req.urls.Some? && |req.urls.value| > 0 && (req.desktop || req.mobile) && env.launchFault.None? {
      SessionOrder(req, env, keys);
    }
  }

  /** The response is ended exactly when the handler finishes or refuses
      the request (400 or no mode); otherwise the response stays open. */
  lemma EndedWhenFinished(req: Request, env: Env, keys: set<string>)
    ensures var run := Handle(req, env, keys);
      (run.ended <==> run.outcome.Finished? || run.outcome.Rejected? || run.outcome.NoModes?)
  {
    if req.urls.Some? && |req.urls.value| > 0 && (req.desktop || req.mobile) && env.launchFault.None? {
      SessionRuns(req, env, keys);
      FinallyEnded(Start(Total(req.urls.value, SelectedModes(req.desktop, req.mobile))), SessionBatch(req, env, keys), env.closeFault);
    }
  }

  lemma FinallyEnded(start: Event, b: Batch, closeFault: Option<string>)
    ensures var run := Finally(start, b, closeFault);
      (run.ended <==> run.outcome.Finished?) && !run.outcome.Rejected? && !run.outcome.NoModes?
  {
  }

  /** A `fatal` message is written only when the session cannot be
      launched, and then the stream is `start`, `fatal`, `done`. */
  lemma FatalOnlyAtLaunch(req: Request, env: Env, keys: set<string>)
    ensures var run := Handle(req, env, keys);
      (exists i :: 0 <= i < |run.events| && run.events[i].Fatal?) ==>
        env.launchFault.Some? && |run.events| == 3 && run.events[1].Fatal? &&
        run.events[2] == Done && run.outcome == Finished
  {
    if req.urls.Some? && |req.urls.value| > 0 && (req.desktop || req.mobile) && env.launchFault.None? {
      SessionOrder(req, env, keys);
    }
  }

  /** A request that runs to `done` after a successful launch reports the
      end of every job exactly once, in the nested url-then-mode order, so
      there are as many ends as `start` announced. */
  lemma EveryJobReportsOnce(req: Request, env: Env, keys: set<string>)
    requires env.launchFault.None?
    ensures var run := Handle(req, env, keys);
      run.outcome == Finished ==>
        var urls, modes := req.urls.value, SelectedModes(req.desktop, req.mobile);
        TerminalIds(run.events) == Ids(Jobs(urls, modes)) &&
        |TerminalIds(run.events)| == run.events[0].total
  {
    var run := Handle(req, env, keys);
    if run.outcome == Finished {
      var urls, modes := req.urls.value, SelectedModes(req.desktop, req.mobile);
      var jobs := Jobs(urls, modes);
      SessionRuns(req, env, keys);
      SessionReported(req, env, keys);
      FinallyJobs(Start(Total(urls, modes)), SessionBatch(req, env, keys), env.closeFault);
      assert jobs[..|jobs|] == jobs;
      assert run.events[0] == Start(Total(urls, modes));
      JobsCount(urls, modes);
      TimesIsProduct(|urls|, |modes|);
    }
  }

  /** Without stealth no message is `waiting`, the handler never waits on
      a continue signal, and no entry is added to `pendingContinue`. */
  lemma NoWaitingWithoutStealth(req: Request, env: Env, keys: set<string>)
    requires !req.stealth
    ensures var run := Handle(req, env, keys);
      NoWaiting(run.events) && !run.outcome.Suspended? && run.keys <= keys
  {
    if req.urls.Some? && |req.urls.value| > 0 && (req.desktop || req.mobile) && env.launchFault.None? {
      SessionRuns(req, env, keys);
      SessionEvents(req, env, keys);
      SessionReported(req, env, keys);
      SessionKeys(req, env, keys);
      FinallyJobs(Start(Total(req.urls.value, SelectedModes(req.desktop, req.mobile))), SessionBatch(req, env, keys), env.closeFault);
    }
  }

  /** A handler that stops at job `p` does so in stealth, because the
      continue signal for that job never arrives: the stream ends (for now)
      with its `waiting`, every earlier job has reported its end, and its
      entry is the one this request leaves in `pendingContinue`. */
  lemma SuspendedWaitsForContinue(req: Request, env: Env, keys: set<string>)
    ensures var run := Handle(req, env, keys);
      run.outcome.Suspended? ==>
        var jobs := Jobs(req.urls.value, SelectedModes(req.desktop, req.mobile));
        var p := run.outcome.job;
        req.stealth && p < |jobs| && !env.resumes(p) && !run.ended &&
        run.events[|run.events| - 1] == Waiting(jobs[p].url, jobs[p].mode, jobs[p].Id()) &&
        TerminalIds(run.events) == Ids(jobs[..p]) &&
        run.keys == (keys - IdSet(jobs[..p])) + {jobs[p].Id()}
  {
    var run := Handle(req, env, keys);
    if run.outcome.Suspended? {
      var start := Start(Total(req.urls.value, SelectedModes(req.desktop, req.mobile)));
      var b := SessionBatch(req, env, keys);
      SessionRuns(req, env, keys);
      SessionReported(req, env, keys);
      SessionKeys(req, env, keys);
      FinallyJobs(start, b, env.closeFault);
      assert run.events == [start] + b.events;
    }
  }

  /** A stealth request that finishes leaves no entry of its own jobs in
      `pendingContinue`: each was taken by its continue signal or deleted
      by the job's `catch`. */
  lemma StealthLeavesNoEntries(req: Request, env: Env, keys: set<string>)
    requires req.stealth && env.launchFault.None?
    ensures var run := Handle(req, env, keys);
      run.outcome == Finished ==>
        run.keys == keys - IdSet(Jobs(req.urls.value, SelectedModes(req.desktop, req.mobile)))
  {
    var run := Handle(req, env, keys);
    if run.outcome == Finished {
      var jobs := RequestJobs(req);
      SessionRuns(req, env, keys);
      SessionKeys(req, env, keys);
      assert jobs[..|jobs|] == jobs;
    }
  }
}
