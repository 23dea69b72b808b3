/**
 The segments of flushUsage in app-mobile/contexts/VpnContext.tsx as methods that change the refs of the
 context in place. Each is proved to take exactly the step of `UsageRuns` that it stands for, so what
 holds in every run of those steps holds of the object.
 */
module UsageReporter {
  import opened Wrappers
  import opened UsageLedger
  import opened UsageRuns

  class Reporter {
    var ledgerRef: Option<Ledger>       // ledgerRef.current
    var stored: Option<Ledger>          // the ledger on disk
    var phase: Phase
    ghost var world: State              // with the network, the server and the histories

    ghost predicate Valid()
      reads this
    {
      && Inv(world) && phase == world.phase
      && ledgerRef == (match world.mem case Some(b) => Some(b.ledger) case None => None)
      && stored == (match world.disk case Some(b) => Some(b.ledger) case None => None)
    }

    constructor ()
      ensures Valid() && world == INITIAL
    {
      ledgerRef, stored, phase, world := None, None, Idle, INITIAL;
    }

    /** The ledger is taken from memory or loaded, then anchored or accumulated. */
    method MeasureCounters(reading: Option<Counters>, context: Context, next: Option<Context>)
      requires Valid() && phase == Idle
      modifies this
      ensures Valid() && world == Step(old(world), Measure(reading, context, next))
    {
      hide BookInv, Accumulate, Loaded, IsFresh;
      var ledger := EMPTY;
      if ledgerRef.Some? {
        ledger := ledgerRef.value;
      } else if stored.Some? {
        ledger := Loaded(stored.value);
      }
      if reading.Some? {
        if IsFresh(ledger) {
          ledger := Anchor(ledger, reading.value);
        } else {
          ledger := Accumulate(ledger, reading.value, context);
        }
      }
      ledger := ledger.(context := if next.Some? then next else Some(context));
      ledgerRef, phase := Some(ledger), Saving;
      StepKeeps(world, Measure(reading, context, next));
      world := Step(world, Measure(reading, context, next));
    }

    /** saveLedger: the write succeeds, or throws and ends the flush. */
    method SaveLedger(succeeds: bool)
      requires Valid() && (phase.Saving? || phase.Freezing?)
      modifies this
      ensures Valid() && world == Step(old(world), if succeeds then SaveDone else SaveFailed)
    {
      hide BookInv;
      if succeeds {
        stored, phase := ledgerRef, AfterSave(phase);
        StepKeeps(world, SaveDone);
        world := Step(world, SaveDone);
      } else {
        phase := Idle;
        StepKeeps(world, SaveFailed);
        world := Step(world, SaveFailed);
      }
    }

    /** nextReport: freezes the head in memory, or ends the loop when nothing can be sent now. */
    method PrepareReport(now: nat)
      requires Valid() && phase.ReadyToSend?
      modifies this
      ensures Valid() && world == Step(old(world), Prepare(now))
    {
      hide BookInv, NextReport;
      var prepared := NextReport(ledgerRef.value, now);
      match prepared {
        case None =>
          phase := Idle;
        case Some((ledger, report)) =>
          ledgerRef, phase := Some(ledger), Freezing(report);
      }
      StepKeeps(world, Prepare(now));
      world := Step(world, Prepare(now));
    }

    /** The request leaves: the report is on disk, frozen, with these very contents. */
    method SendReport() returns (report: Report)
      requires Valid() && phase.Frozen?
      modifies this
      ensures Valid() && world == Step(old(world), Send) && report in world.net
      ensures stored.Some? && Holds(stored.value.entries, report)
    {
      hide BookInv;
      report := phase.report;
      phase := Sending(report);
      StepKeeps(world, Send);
      world := Step(world, Send);
    }

    /** The server says that the report is counted, now or before. */
    method SettleReport()
      requires Valid() && phase.Sending? && KeyCounted(world.counted, phase.report)
      modifies this
      ensures Valid() && world == Step(old(world), Acknowledged)
    {
      hide BookInv, Settle;
      ledgerRef, phase := Some(Settle(ledgerRef.value, phase.report)), Saving;
      StepKeeps(world, Acknowledged);
      world := Step(world, Acknowledged);
    }

    /** The server refuses the plan of the report: it waits without blocking the others. */
    method DeferRefused(retryAfter: nat)
      requires Valid() && phase.Sending?
      modifies this
      ensures Valid() && world == Step(old(world), Refused(retryAfter))
    {
      hide BookInv, DeferReport;
      ledgerRef, phase := Some(DeferReport(ledgerRef.value, phase.report, retryAfter)), Saving;
      StepKeeps(world, Refused(retryAfter));
      world := Step(world, Refused(retryAfter));
    }

    method StopFlush()
      requires Valid()
      modifies this
      ensures Valid() && world == Step(old(world), Stop)
    {
      hide BookInv;
      phase := Idle;
      StepKeeps(world, Stop);
      world := Step(world, Stop);
    }
  }
}
