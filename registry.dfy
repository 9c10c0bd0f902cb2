/** The process-wide `pendingContinue` map of server.js: job id to the
    `resolve` function of the promise a paused stealth job is waiting on.
    A continuation is represented by a serial number; resolving one is
    recorded in the ghost log `resolved`, so that "never resolved twice"
    can be stated. */
module Registry {

  /** The `resolve` function of one pending promise. */
  datatype Continuation = Continuation(serial: nat)

  /** The answer to `POST /api/continue/:jobId`. */
  datatype Reply = Resumed | NotFound(error: string)
  {
    /** HTTP status of the reply: `res.json(...)` defaults to 200. */
    function Status(): nat
    {
      if Resumed? then 200 else 404
    }
  }

  const NotFoundMessage := "Job not found or already continued"

  class PendingContinue {
    var pending: map<string, Continuation>
    /** Number of continuations created so far (each `new Promise` makes one). */
    var created: nat
    /** Continuations that have been invoked, in the order they were invoked. */
    ghost var resolved: seq<Continuation>

    /** Every pending continuation is a distinct one that has not been
        invoked yet, and no continuation has been invoked twice. */
    ghost predicate Valid()
      reads this
    {
      (forall id :: id in pending ==> pending[id].serial < created && pending[id] !in resolved) &&
      (forall id, id' :: id in pending && id' in pending && id != id' ==> pending[id] != pending[id']) &&
      (forall i :: 0 <= i < |resolved| ==> resolved[i].serial < created) &&
      (forall i, j :: 0 <= i < j < |resolved| ==> resolved[i] != resolved[j])
    }

    constructor ()
      ensures Valid()
      ensures pending == map[] && resolved == []
    {
      pending := map[];
      created := 0;
      resolved := [];
    }

    /** `await new Promise((resolve) => { pendingContinue.set(jobId, resolve); })`:
        a fresh continuation is registered under `jobId`, replacing any
        entry already there. */
    method Park(jobId: string) returns (c: Continuation)
      requires Valid()
      modifies this
      ensures Valid()
      ensures c !in old(pending).Values && c !in resolved
      ensures pending == old(pending)[jobId := c]
      ensures resolved == old(resolved)
    {
      c := Continuation(created);
      pending := pending[jobId := c];
      created := created + 1;
    }

    /** The `/api/continue/:jobId` handler: check and remove in one step,
        then invoke. An unknown or already continued id is reported as not
        found and changes nothing. */
    method Continue(jobId: string) returns (reply: Reply)
      requires Valid()
      modifies this
      ensures Valid()
      ensures reply.Resumed? <==> jobId in old(pending)
      ensures reply.Resumed? ==>
        pending == old(pending) - {jobId} && resolved == old(resolved) + [old(pending)[jobId]]
      ensures reply.NotFound? ==>
        reply.error == NotFoundMessage && pending == old(pending) && resolved == old(resolved)
      ensures created == old(created)
    {
      if jobId in pending {
        var c := pending[jobId];
        pending := pending - {jobId};
        resolved := resolved + [c];
        reply := Resumed;
      } else {
        reply := NotFound(NotFoundMessage);
      }
    }

    /** `pendingContinue.delete(jobId)` in a failing job's `catch`: the
        entry goes without its continuation being invoked. */
    method Cancel(jobId: string)
      requires Valid()
      modifies this
      ensures Valid()
      ensures pending == old(pending) - {jobId}
      ensures resolved == old(resolved) && created == old(created)
    {
      pending := pending - {jobId};
    }
  }

  /** A continue signal for an id that was just continued finds nothing:
      the second of two signals for the same job is refused and changes
      nothing, so no continuation is ever invoked twice. */
  method ContinueTwice(r: PendingContinue, jobId: string) returns (first: Reply, second: Reply)
    requires r.Valid()
    modifies r
    ensures r.Valid()
    ensures first.Resumed? <==> jobId in old(r.pending)
    ensures second == NotFound(NotFoundMessage)
    ensures r.pending == old(r.pending) - {jobId}
  {
    first := r.Continue(jobId);
    second := r.Continue(jobId);
  }
}
