/** The job pipeline of the central server: the spool directory, the three
    hand-off queues created by `CentralControl`, and one step of each
    worker. Threads are abstracted as a scheduler that picks which worker
    runs its next iteration; each iteration runs to its end before the next
    step starts. */
module Central {
  import opened Jobs
  import Billing
  import PSParser

  /** What a printer worker did with the job it handled. */
  datatype Delivery =
    | Delivered(printer: Printer)   // connected to the printer and closed the socket
    | SendFailed(printer: Printer)  // the transport raised; the error was only logged

  /** What one iteration of a worker did. */
  datatype StepOutcome =
    | Ingested(jid: string)                       // a submission was spooled and queued
    | Dropped(failure: Failure)                   // a submission could not be decoded
    | Idle                                        // the input queue is empty: `get` keeps blocking
    | Halted                                      // the worker's thread has already died
    | Released(jid: string)                       // moved from `toRelease` to `toBill`
    | Billed(jid: string, user: string, cost: nat) // logged a charge and moved to `toPrint`
    | Dispatched(jid: string, delivery: Delivery) // handed to the printer, spool file removed
    | Crashed(jid: string, failure: Failure)      // an uncaught exception ended the thread

  /** The choice of which worker runs next, with what the outside world
      supplies to it: the decoded submission, or whether the printer's
      socket accepted the connection. */
  datatype Worker =
    | Ingest(decoded: Option<Job>)
    | Release
    | Bill
    | Dispatch(connectOk: bool)

  /** The pipeline's invariant over a spool and the names waiting in the
      queues: every queued name has a spool file, and no name waits in two
      places at once. */
  ghost predicate Consistent(spool: map<string, Job>, queued: multiset<string>)
  {
    (forall n :: queued[n] <= 1) && forall n :: n in queued ==> n in spool
  }

  /** Every name waiting in one of the three queues. */
  ghost function Waiting(toRelease: seq<string>, toBill: seq<string>, toPrint: seq<string>): multiset<string>
  {
    multiset(toRelease) + multiset(toBill) + multiset(toPrint)
  }

  /** Taking a name off a queue keeps the invariant, and the name is then
      queued nowhere. */
  lemma ConsistentAfterTake(spool: map<string, Job>, queued: multiset<string>, jid: string)
    requires Consistent(spool, queued + multiset{jid})
    ensures Consistent(spool, queued) && jid !in queued && jid in spool
  {
    assert jid in queued + multiset{jid};
    forall n ensures queued[n] <= 1 {
      assert (queued + multiset{jid})[n] >= queued[n];
    }
    assert (queued + multiset{jid})[jid] == queued[jid] + 1;
  }

  /** Ingestion under a name that is queued nowhere keeps the invariant. */
  lemma {:induction false} IngestKeepsConsistent(
    spool: map<string, Job>, toRelease: seq<string>, toBill: seq<string>, toPrint: seq<string>, job: Job)
    requires Consistent(spool, Waiting(toRelease, toBill, toPrint))
    requires job.name !in Waiting(toRelease, toBill, toPrint)
    ensures Consistent(spool[job.name := job], Waiting(toRelease + [job.name], toBill, toPrint))
  {
    var before := Waiting(toRelease, toBill, toPrint);
    assert Waiting(toRelease + [job.name], toBill, toPrint) == before + multiset{job.name};
    forall n ensures (before + multiset{job.name})[n] <= 1 {
      if n == job.name {
        assert before[n] == 0;
      }
    }
  }

  /** Ingestion under a name that is already queued breaks the invariant:
      the name then waits twice. The code does not check for this. */
  lemma {:induction false} IngestDuplicateBreaksConsistent(
    spool: map<string, Job>, toRelease: seq<string>, toBill: seq<string>, toPrint: seq<string>, job: Job)
    requires job.name in Waiting(toRelease, toBill, toPrint)
    ensures Waiting(toRelease + [job.name], toBill, toPrint)[job.name] >= 2
    ensures !Consistent(spool[job.name := job], Waiting(toRelease + [job.name], toBill, toPrint))
  {
    assert Waiting(toRelease + [job.name], toBill, toPrint)
      == Waiting(toRelease, toBill, toPrint) + multiset{job.name};
  }

  /** A release step moves a name between queues: nothing else is waiting
      than before, and the invariant holds. */
  lemma {:induction false} ReleaseKeepsConsistent(
    spool: map<string, Job>, toRelease: seq<string>, toBill: seq<string>, toPrint: seq<string>)
    requires toRelease != []
    ensures Waiting(toRelease[1..], toBill + [toRelease[0]], toPrint) == Waiting(toRelease, toBill, toPrint)
    ensures Consistent(spool, Waiting(toRelease, toBill, toPrint)) ==>
      Consistent(spool, Waiting(toRelease[1..], toBill + [toRelease[0]], toPrint))
  {
    assert toRelease == [toRelease[0]] + toRelease[1..];
  }

  /** Under the invariant the name a billing step takes has a spool file,
      so the step forwards it, and nothing else is waiting than before. */
  lemma {:induction false} BillKeepsConsistent(
    spool: map<string, Job>, toRelease: seq<string>, toBill: seq<string>, toPrint: seq<string>)
    requires toBill != []
    requires Consistent(spool, Waiting(toRelease, toBill, toPrint))
    ensures toBill[0] in spool
    ensures Waiting(toRelease, toBill[1..], toPrint + [toBill[0]]) == Waiting(toRelease, toBill, toPrint)
  {
    assert toBill == [toBill[0]] + toBill[1..];
    assert toBill[0] in Waiting(toRelease, toBill, toPrint);
  }

  /** The name a printer step takes is then queued nowhere, so deleting
      its spool file, or keeping it, leaves the invariant intact. */
  lemma {:induction false} DispatchKeepsConsistent(
    spool: map<string, Job>, toRelease: seq<string>, toBill: seq<string>, toPrint: seq<string>)
    requires toPrint != []
    requires Consistent(spool, Waiting(toRelease, toBill, toPrint))
    ensures toPrint[0] !in Waiting(toRelease, toBill, toPrint[1..])
    ensures Consistent(spool, Waiting(toRelease, toBill, toPrint[1..]))
    ensures Consistent(spool - {toPrint[0]}, Waiting(toRelease, toBill, toPrint[1..]))
  {
    assert toPrint == [toPrint[0]] + toPrint[1..];
    var rest := Waiting(toRelease, toBill, toPrint[1..]);
    assert Waiting(toRelease, toBill, toPrint) == rest + multiset{toPrint[0]};
    ConsistentAfterTake(spool, rest, toPrint[0]);
  }

  class PrintPipeline {
    /** The spool directory: one file per job, named by the job's name. */
    var spool: map<string, Job>
    var toRelease: seq<string>
    var toBill: seq<string>
    var toPrint: seq<string>
    /** Whether the `Billing` and `SendToPrinter` threads are still alive;
        an exception that escapes their loops ends them for good. */
    var billingRunning: bool
    var dispatchRunning: bool
    /** The "printers" section of the configuration. */
    const printers: map<string, Printer>

    /** Every name waiting in a queue. */
    ghost function Queued(): multiset<string>
      reads this
    {
      Waiting(toRelease, toBill, toPrint)
    }

    /** The pipeline's invariant: every queued name has a spool file, and no
        name waits in two places at once. */
    ghost predicate Valid()
      reads this
    {
      Consistent(spool, Queued())
    }

    constructor (printers: map<string, Printer>, spool: map<string, Job>)
      ensures this.printers == printers && this.spool == spool
      ensures toRelease == [] && toBill == [] && toPrint == []
      ensures billingRunning && dispatchRunning
      ensures Valid()
    {
      this.printers := printers;
      this.spool := spool;
      toRelease, toBill, toPrint := [], [], [];
      billingRunning, dispatchRunning := true, true;
    }

    /** `IncommingJob.saveJob`: writes the job to the spool file named by
        its name, replacing any file of that name, and returns the name. */
    method SaveJob(job: Job) returns (jid: string)
      modifies this`spool
      ensures jid == job.name
      ensures spool == old(spool)[jid := job]
    {
      jid := job.name;
      spool := spool[jid := job];
    }

    /** `IncommingJob.sendToBilling`: queues the name for release. */
    method SendToBilling(jid: string)
      modifies this`toRelease
      ensures toRelease == old(toRelease) + [jid]
    {
      toRelease := toRelease + [jid];
    }

    /** One `IncommingJob`: a submission that decodes is spooled and then
        queued for release; one that does not leaves everything as it was.
        The code never checks whether the name is already in use, so the
        invariant survives only when it is not queued already. */
    method IngestJob(decoded: Option<Job>) returns (r: Result<string>)
      modifies this`spool, this`toRelease
      ensures decoded.None? ==>
        r == Err(Undecodable) && spool == old(spool) && toRelease == old(toRelease)
      ensures decoded.Some? ==>
        && r == Ok(decoded.value.name)
        && spool == old(spool)[decoded.value.name := decoded.value]
        && toRelease == old(toRelease) + [decoded.value.name]
      ensures old(Valid()) && (decoded.Some? ==> decoded.value.name !in old(Queued())) ==> Valid()
    {
      if decoded.None? {
        return Err(Undecodable);
      }
      var job := decoded.value;
      if Valid() && job.name !in Queued() {
        IngestKeepsConsistent(spool, toRelease, toBill, toPrint, job);
      }
      var jid := SaveJob(job);
      SendToBilling(jid);
      r := Ok(jid);
    }

    /** One iteration of `JobRelease.run`: the oldest name waiting for
        release is passed, unchanged, to the end of the billing queue. */
    method ReleaseStep() returns (o: StepOutcome)
      modifies this`toRelease, this`toBill
      ensures old(toRelease) == [] ==> o == Idle && toRelease == [] && toBill == old(toBill)
      ensures old(toRelease) != [] ==>
        && o == Released(old(toRelease)[0])
        && toRelease == old(toRelease)[1..]
        && toBill == old(toBill) + [old(toRelease)[0]]
      ensures Queued() == old(Queued())
      ensures old(Valid()) ==> Valid()
    {
      if toRelease == [] {
        return Idle;
      }
      var jid := toRelease[0];
      ReleaseKeepsConsistent(spool, toRelease, toBill, toPrint);
      toRelease, toBill := toRelease[1..], toBill + [jid];
      o := Released(jid);
    }

    /** One iteration of `Billing.run`: the oldest name waiting for billing
        is costed and its user looked up, the charge is only logged (no
        ledger is ever debited), and the name moves on to the printer
        queue. A name with no spool file makes the reads raise, which ends
        the billing thread with the name already taken off the queue. */
    method BillStep() returns (o: StepOutcome)
      modifies this`toBill, this`toPrint, this`billingRunning
      ensures !old(billingRunning) ==>
        o == Halted && toBill == old(toBill) && toPrint == old(toPrint) && !billingRunning
      ensures old(billingRunning) && old(toBill) == [] ==>
        o == Idle && toBill == [] && toPrint == old(toPrint) && billingRunning
      ensures old(billingRunning) && old(toBill) != [] ==>
        var jid := old(toBill)[0];
        toBill == old(toBill)[1..]
        && (jid in spool ==>
              o == Billed(jid, spool[jid].originUser, Billing.ComputeCost(spool[jid].postscript))
              && toPrint == old(toPrint) + [jid] && billingRunning)
        && (jid !in spool ==>
              o == Crashed(jid, NoSpoolFile(jid)) && toPrint == old(toPrint) && !billingRunning)
      ensures old(Valid()) ==> Valid() && !o.Crashed?
    {
      if !billingRunning {
        return Halted;
      }
      if toBill == [] {
        return Idle;
      }
      var jid := toBill[0];
      if Valid() {
        BillKeepsConsistent(spool, toRelease, toBill, toPrint);
      }
      var cost := Billing.CostOf(spool, jid);
      if cost.Err? {
        toBill, billingRunning := toBill[1..], false;
        o := Crashed(jid, cost.failure);
      } else {
        var user := Billing.GetUser(spool, jid);
        toBill, toPrint := toBill[1..], toPrint + [jid];
        o := Billed(jid, user.value, cost.value);
      }
    }

    /** `SendToPrinter.printJob`: looks up the job's printer in the
        configuration, outside any handler, so a missing spool file or an
        unconfigured printer raises out of it; then opens a connection to
        the printer, where any transport error is caught and only logged. */
    method PrintJob(jid: string, connectOk: bool) returns (r: Result<Delivery>)
      ensures jid !in spool ==> r == Err(NoSpoolFile(jid))
      ensures jid in spool && spool[jid].destPrinter !in printers ==>
        r == Err(UnknownPrinter(spool[jid].destPrinter))
      ensures jid in spool && spool[jid].destPrinter in printers ==>
        var p := printers[spool[jid].destPrinter];
        r == Ok(if connectOk then Delivered(p) else SendFailed(p))
    {
      if jid !in spool {
        return Err(NoSpoolFile(jid));
      }
      var dest := spool[jid].destPrinter;
      if dest !in printers {
        return Err(UnknownPrinter(dest));
      }
      var printer := printers[dest];
      if connectOk {
        r := Ok(Delivered(printer));
      } else {
        r := Ok(SendFailed(printer));
      }
    }

    /** `SendToPrinter.rmJob`: deletes the spool file of `jid`; deleting a
        file that does not exist raises. */
    method RmJob(jid: string) returns (r: Result<()>)
      modifies this`spool
      ensures jid in old(spool) ==> r == Ok(()) && spool == old(spool) - {jid}
      ensures jid !in old(spool) ==> r == Err(NoSpoolFile(jid)) && spool == old(spool)
    {
      if jid !in spool {
        return Err(NoSpoolFile(jid));
      }
      spool := spool - {jid};
      r := Ok(());
    }

    /** One iteration of `SendToPrinter.run`: the oldest name waiting for a
        printer is sent and its spool file removed, whether or not the
        transport worked. When `printJob` raises, `rmJob` is never reached:
        the spool file stays and the printer thread ends. */
    method DispatchStep(connectOk: bool) returns (o: StepOutcome)
      modifies this`toPrint, this`spool, this`dispatchRunning
      ensures !old(dispatchRunning) ==>
        o == Halted && toPrint == old(toPrint) && spool == old(spool) && !dispatchRunning
      ensures old(dispatchRunning) && old(toPrint) == [] ==>
        o == Idle && toPrint == [] && spool == old(spool) && dispatchRunning
      ensures old(dispatchRunning) && old(toPrint) != [] ==>
        var jid := old(toPrint)[0];
        toPrint == old(toPrint)[1..]
        && (jid !in old(spool) ==>
              o == Crashed(jid, NoSpoolFile(jid)) && spool == old(spool) && !dispatchRunning)
        && (jid in old(spool) && old(spool)[jid].destPrinter !in printers ==>
              o == Crashed(jid, UnknownPrinter(old(spool)[jid].destPrinter))
              && spool == old(spool) && !dispatchRunning)
        && (jid in old(spool) && old(spool)[jid].destPrinter in printers ==>
              var p := printers[old(spool)[jid].destPrinter];
              o == Dispatched(jid, if connectOk then Delivered(p) else SendFailed(p))
              && spool == old(spool) - {jid} && dispatchRunning)
      ensures old(Valid()) ==> Valid()
      ensures old(Valid()) ==> forall n :: n in old(spool) && n !in spool ==> n !in Queued()
    {
      if !dispatchRunning {
        return Halted;
      }
      if toPrint == [] {
        return Idle;
      }
      var jid := toPrint[0];
      if Valid() {
        DispatchKeepsConsistent(spool, toRelease, toBill, toPrint);
      }
      var sent := PrintJob(jid, connectOk);
      if sent.Err? {
        toPrint, dispatchRunning := toPrint[1..], false;
        o := Crashed(jid, sent.failure);
      } else {
        toPrint := toPrint[1..];
        var removed := RmJob(jid);
        o := Dispatched(jid, sent.value);
      }
    }

    /** One scheduling step: the chosen worker runs one iteration. Only the
        printer worker ever deletes a spool file, and only the one it just
        took off its queue, which is then queued nowhere. */
    method Step(w: Worker) returns (o: StepOutcome)
      modifies this
      ensures old(Valid()) && (w.Ingest? && w.decoded.Some? ==> w.decoded.value.name !in old(Queued()))
        ==> Valid()
      ensures !w.Dispatch? ==> old(spool).Keys <= spool.Keys
      ensures forall n :: n in old(spool) && n !in spool ==>
        w.Dispatch? && old(toPrint) != [] && n == old(toPrint)[0] && o.Dispatched?
      ensures old(Valid()) ==> forall n :: n in old(spool) && n !in spool ==> n !in Queued()
      ensures old(Valid()) && o.Crashed? ==> w.Dispatch? && o.failure.UnknownPrinter?
    {
      match w
      case Ingest(decoded) =>
        var r := IngestJob(decoded);
        o := if r.Ok? then Ingested(r.value) else Dropped(r.failure);
      case Release =>
        o := ReleaseStep();
      case Bill =>
        o := BillStep();
      case Dispatch(connectOk) =>
        o := DispatchStep(connectOk);
    }
  }
}
