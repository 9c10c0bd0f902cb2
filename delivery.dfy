/** The server and the browser together: what the page shows after
    reading the stream a capture request produced. The stream is read back
    message for message however it was cut into chunks, the counter ends
    at the number of job ends, the total is the one `start` announced, and
    a run that finishes with every job reported turns the progress bar to
    the success colour. */
module Delivery {
  import opened Wrappers
  import opened TextUtil
  import opened Protocol
  import opened Ndjson
  import opened Capture
  import opened CaptureFacts
  import opened Client

  /** Whatever chunks the body arrives in, the browser's line loop hands
      `handleStreamMessage` exactly the messages the server wrote, in
      order, provided `JSON.parse` reads each written line back as the
      message it came from. */
  lemma StreamReadsBack(chunks: seq<string>, events: seq<Event>, decode: string -> Option<Event>)
    requires Concat(chunks) == Wire(events)
    requires forall i :: 0 <= i < |events| ==> decode(Serialize(events[i])) == Some(events[i])
    ensures Messages(NonBlank(SplitLines(Concat(chunks))), decode) == events
  {
    var texts := Serialized(events);
    WireLines(events);
    forall i | 0 <= i < |texts| ensures decode(texts[i]) == Some(events[i]) {
    }
    MessagesOf(texts, events, decode);
  }

  /** The counter counts the job ends: one per `success` or job `error`. */
  lemma {:induction false} ReplayCompleted(b: Board, events: seq<Event>)
    ensures Replay(b, events).completedTasks == b.completedTasks + |TerminalIds(events)|
    decreases |events|
  {
    if events != [] {
      ReplayCompleted(b, events[..|events| - 1]);
    }
  }

  /** After a stream whose only `start` is its first message, the total
      shown is the one that `start` announced. */
  lemma {:induction false} ReplayTotal(b: Board, events: seq<Event>)
    requires events != [] && events[0].Start?
    requires forall i :: 1 <= i < |events| ==> !events[i].Start?
    ensures Replay(b, events).totalTasks == events[0].total
    decreases |events|
  {
    if |events| > 1 {
      ReplayTotal(b, events[..|events| - 1]);
    } else {
      assert events[..0] == [];
    }
  }

  /** Before the last message the bar is as it was unless a `done` came
      earlier; a `done` turns it exactly when the counter has reached a
      non-zero total. */
  lemma {:induction false} ReplayFinished(b: Board, events: seq<Event>)
    requires events != [] && events[|events| - 1] == Done
    requires forall i :: 0 <= i < |events| - 1 ==> events[i] != Done
    ensures var before := Replay(b, events[..|events| - 1]);
      Replay(b, events).finished == (b.finished || (before.completedTasks == before.totalTasks && before.totalTasks > 0))
  {
    var init := events[..|events| - 1];
    NoDoneKeeps(b, init);
  }

  /** Messages other than `done` leave the bar's colour alone. */
  lemma {:induction false} NoDoneKeeps(b: Board, events: seq<Event>)
    requires forall i :: 0 <= i < |events| ==> events[i] != Done
    ensures Replay(b, events).finished == b.finished
    decreases |events|
  {
    if events != [] {
      NoDoneKeeps(b, events[..|events| - 1]);
    }
  }

  /** A stream that opens with its only `start`, closes with its only
      `done` and ends as many jobs as `start` announced, a non-zero number,
      leaves a page whose counter started at zero showing every job ended
      and the bar in the success colour. */
  lemma AllEndedFinishes(b: Board, events: seq<Event>)
    requires events != [] && events[0].Start? && forall i :: 1 <= i < |events| ==> !events[i].Start?
    requires events[|events| - 1] == Done && forall i :: 0 <= i < |events| - 1 ==> events[i] != Done
    requires b.completedTasks == 0 && |TerminalIds(events)| == events[0].total > 0
    ensures var shown := Replay(b, events);
      shown.totalTasks == events[0].total && shown.completedTasks == events[0].total && shown.finished
  {
    var init := events[..|events| - 1];
    ReplayTotal(b, events);
    ReplayCompleted(b, events);
    assert |init| > 0 && init[0] == events[0];
    assert forall i :: 1 <= i < |init| ==> init[i] == events[i];
    ReplayTotal(b, init);
    ReplayCompleted(b, init);
    assert events == init + [Done];
    TerminalIdsAppend(init, [Done]);
    assert TerminalIds([Done]) == [] by {
      assert [Done][..0] == [];
    }
    ReplayFinished(b, events);
  }

  /** A request with at least one url and one mode whose session launches
      and runs to `done` leaves the page showing every job ended, the
      counter equal to the announced total, and the bar in the success
      colour, provided the page starts the run with its counter at zero
      as the click handler leaves it. */
  lemma FinishedRunCompletes(req: Request, env: Env, keys: set<string>, b: Board)
    requires req.urls.Some? && |req.urls.value| > 0 && (req.desktop || req.mobile)
    requires env.launchFault.None? && b.completedTasks == 0
    ensures var run := Handle(req, env, keys);
      var total := Total(req.urls.value, SelectedModes(req.desktop, req.mobile));
      run.outcome == Finished ==>
        var shown := Replay(b, run.events);
        shown.totalTasks == total && shown.completedTasks == total && total > 0 && shown.finished
  {
    var run := Handle(req, env, keys);
    if run.outcome == Finished {
      SessionOrder(req, env, keys);
      EveryJobReportsOnce(req, env, keys);
      assert |SelectedModes(req.desktop, req.mobile)| > 0;
      AllEndedFinishes(b, run.events);
    }
  }

  /** When the session cannot be launched the stream is `start`, `fatal`,
      `done`: no job is counted and the bar keeps its colour. */
  lemma LaunchFailureLeavesBar(req: Request, env: Env, keys: set<string>, b: Board)
    requires req.urls.Some? && |req.urls.value| > 0 && (req.desktop || req.mobile)
    requires env.launchFault.Some? && b.completedTasks == 0
    ensures var shown := Replay(b, Handle(req, env, keys).events);
      shown.completedTasks == 0 && shown.finished == b.finished &&
      shown.totalTasks == Total(req.urls.value, SelectedModes(req.desktop, req.mobile))
  {
    var events := Handle(req, env, keys).events;
    var total := Total(req.urls.value, SelectedModes(req.desktop, req.mobile));
    var fatal := Fatal(ErrorText(env.launchFault.value, FatalBrowserError));
    assert events == [Start(total), fatal, Done];
    var init := events[..2];
    assert init == [Start(total), fatal];
    assert init[..1] == [Start(total)] && init[..1][..0] == [];
    ReplayTotal(b, events);
    ReplayTotal(b, init);
    ReplayCompleted(b, events);
    ReplayCompleted(b, init);
    assert TerminalIds(init[..1]) == [];
    assert TerminalIds(init) == [];
    assert TerminalIds(events) == [];
    assert |SelectedModes(req.desktop, req.mobile)| > 0;
    ReplayFinished(b, events);
  }

  /** A run the button lets through is one the server accepts: with a url
      and a mode selected, the request is neither refused with 400 nor
      answered with the single no-mode error. */
  lemma EnabledRunIsAccepted(urls: seq<string>, desktop: bool, mobile: bool, stealth: bool,
                             env: Env, keys: set<string>)
    requires !RunDisabled(urls, desktop, mobile, false)
    ensures var run := Handle(Request(Some(urls), desktop, mobile, stealth), env, keys);
      run.status == 200 && run.headers == StreamHeaders && !run.outcome.Rejected? && !run.outcome.NoModes?
  {
  }
}
