/**
 Write-ahead reporting: the segments of flushUsage in app-mobile/contexts/VpnContext.tsx between two
 awaits, against a disk, a network that may lose, repeat and delay reports, and a server that counts
 each (session, sequence) once. A crash at any point keeps only the disk.
 */
module UsageRuns {
  import opened Wrappers
  import opened UsageLedger

  /** A reading of the counters, and the plan and session it was measured under. */
  datatype Reading = Reading(counters: Counters, context: Context)

  /** A ledger with its history: the reports settled from it, and the readings measured into it. */
  datatype Book = Book(ledger: Ledger, settled: seq<Report>, readings: seq<Reading>)

  datatype Phase =
    | Idle
    | Saving                     // the ledger in memory changed and its save is pending
    | ReadyToSend
    | Freezing(report: Report)   // a report was frozen in memory and its save is pending
    | Frozen(report: Report)     // the frozen report is on disk
    | Sending(report: Report)    // the request was sent and its answer is awaited

  /** `net` holds every report ever sent; `counted` what the server has counted, in order. */
  datatype State = State(mem: Option<Book>, disk: Option<Book>, phase: Phase, net: set<Report>, counted: seq<Report>)

  datatype Event =
    | Measure(reading: Option<Counters>, context: Context, next: Option<Context>)
    | SaveDone
    | SaveFailed
    | Prepare(now: nat)
    | Send
    | Receive(report: Report)
    | Acknowledged
    | Refused(retryAfter: nat)
    | Stop       // an abort, a lost answer, an error, a change of session: the flush ends
    | Crash

  const INITIAL: State := State(None, None, Idle, {}, [])

  // ----- sums of bytes, upwards or downwards, of one plan and session or of all

  datatype Side = Side(up: bool, of: Option<Context>)

  function All(up: bool): Side { Side(up, None) }

  predicate Counts(side: Side, context: Context) { side.of == None || side.of == Some(context) }

  function EntryBytes(e: Entry, side: Side): nat {
    if !Counts(side, e.context) then 0 else if side.up then e.up else e.down
  }

  function ReportBytes(r: Report, side: Side): nat {
    if !Counts(side, r.context) then 0 else if side.up then r.up else r.down
  }

  function CounterOf(l: Ledger, up: bool): nat { if up then l.counterUp else l.counterDown }
  function ReadingOf(r: Reading, up: bool): nat { if up then r.counters.up else r.counters.down }

  function Pending(entries: seq<Entry>, side: Side): nat {
    if entries == [] then 0 else EntryBytes(entries[0], side) + Pending(entries[1..], side)
  }

  function Total(reports: seq<Report>, side: Side): nat {
    if reports == [] then 0 else ReportBytes(reports[0], side) + Total(reports[1..], side)
  }

  // ----- what a list of readings amounts to

  /** The counter after some readings: the last one that is not zero, from the anchor on. */
  function Level(readings: seq<Reading>, up: bool): nat {
    if readings == [] then 0
    else
      var n := |readings| - 1;
      if n == 0 then ReadingOf(readings[0], up) else Advance(Level(readings[..n], up), ReadingOf(readings[n], up))
  }

  /** The sum of the rises after the first reading, of those measured under the context of the side. */
  function Rises(readings: seq<Reading>, side: Side): nat {
    if |readings| <= 1 then 0
    else
      var n := |readings| - 1;
      var before, now := Level(readings[..n], side.up), ReadingOf(readings[n], side.up);
      Rises(readings[..n], side) + if Counts(side, readings[n].context) && now > before then now - before else 0
  }

  /** The sum of the falls to a reading that is not zero. */
  function Falls(readings: seq<Reading>, up: bool): nat {
    if |readings| <= 1 then 0
    else
      var n := |readings| - 1;
      var before, now := Level(readings[..n], up), ReadingOf(readings[n], up);
      Falls(readings[..n], up) + if 0 < now < before then before - now else 0
  }

  // ----- the steps

  function CurrentBook(s: State): Book {
    match s.mem
    case Some(b) => b
    case None =>
      match s.disk
      case Some(d) => d.(ledger := Loaded(d.ledger))
      case None => Book(EMPTY, [], [])
  }

  /** What a reading makes of the book: an anchor on a fresh ledger, else an accumulation. */
  function Measured(b: Book, c: Counters, context: Context): Book {
    b.(ledger := if IsFresh(b.ledger) then Anchor(b.ledger, c) else Accumulate(b.ledger, c, context),
       readings := b.readings + [Reading(c, context)])
  }

  function MeasureStep(s: State, reading: Option<Counters>, context: Context, next: Option<Context>): State {
    var b := CurrentBook(s);
    var measured := match reading case Some(c) => Measured(b, c, context) case None => b;
    var current := if next.Some? then next else Some(context);
    s.(mem := Some(measured.(ledger := measured.ledger.(context := current))), phase := Saving)
  }

  function AfterSave(p: Phase): Phase {
    match p
    case Saving => ReadyToSend
    case Freezing(r) => Frozen(r)
    case _ => p
  }

  predicate KeyCounted(counted: seq<Report>, r: Report) {
    exists k | 0 <= k < |counted| :: counted[k].context.sessionId == r.context.sessionId && counted[k].seq_ == r.seq_
  }

  /** An event that cannot happen in a state leaves it as it is. */
  function Step(s: State, e: Event): State {
    match e
    case Measure(reading, context, next) =>
      if s.phase.Idle? then MeasureStep(s, reading, context, next) else s
    case SaveDone =>
      if (s.phase.Saving? || s.phase.Freezing?) && s.mem.Some? then s.(disk := s.mem, phase := AfterSave(s.phase))
      else s
    case SaveFailed =>
      if s.phase.Saving? || s.phase.Freezing? then s.(phase := Idle) else s
    case Prepare(now) =>
      if s.phase.ReadyToSend? && s.mem.Some? then
        match NextReport(s.mem.value.ledger, now)
        case Some((l, r)) => s.(mem := Some(s.mem.value.(ledger := l)), phase := Freezing(r))
        case None => s.(phase := Idle)
      else s
    case Send =>
      if s.phase.Frozen? then s.(phase := Sending(s.phase.report), net := s.net + {s.phase.report}) else s
    case Receive(r) =>
      if r in s.net && !KeyCounted(s.counted, r) then s.(counted := s.counted + [r]) else s
    case Acknowledged =>
      if s.phase.Sending? && s.mem.Some? && KeyCounted(s.counted, s.phase.report) then
        var r, b := s.phase.report, s.mem.value;
        s.(mem := Some(b.(ledger := Settle(b.ledger, r), settled := b.settled + [r])), phase := Saving)
      else s
    case Refused(retryAfter) =>
      if s.phase.Sending? && s.mem.Some? then
        var b := s.mem.value;
        s.(mem := Some(b.(ledger := DeferReport(b.ledger, s.phase.report, retryAfter))), phase := Saving)
      else s
    case Stop => s.(phase := Idle)
    case Crash => s.(mem := None, phase := Idle)
  }

  function Run(events: seq<Event>): State {
    if events == [] then INITIAL else Step(Run(events[..|events| - 1]), events[|events| - 1])
  }

  // ----- what every reachable state satisfies

  ghost predicate LedgerOk(l: Ledger) {
    && (forall i | 0 <= i < |l.entries| :: l.entries[i].up + l.entries[i].down > 0 && l.entries[i].seq_ < l.nextSeq)
    && (forall i, j | 0 <= i < j < |l.entries| :: l.entries[i].seq_ != l.entries[j].seq_)
  }

  /** Every sequence number belongs to one entry or one settled report. */
  ghost predicate Ordered(l: Ledger, settled: seq<Report>) {
    && LedgerOk(l)
    && (forall k | 0 <= k < |settled| :: settled[k].seq_ < l.nextSeq)
    && (forall k, m | 0 <= k < m < |settled| :: settled[k].seq_ != settled[m].seq_)
    && (forall k, i | 0 <= k < |settled| && 0 <= i < |l.entries| :: settled[k].seq_ != l.entries[i].seq_)
  }

  /** ... and the bytes add up. */
  ghost predicate BookOk(b: Book) {
    && Ordered(b.ledger, b.settled) && (forall side :: Balanced(b, side))
    && (if b.readings == [] then IsFresh(b.ledger) else b.ledger.initialized)
  }

  predicate Balanced(b: Book, side: Side) {
    && Pending(b.ledger.entries, side) + Total(b.settled, side) == Rises(b.readings, side)
    && CounterOf(b.ledger, side.up) == Level(b.readings, side.up)
  }

  /** The entry is frozen with exactly the contents of the report, within the limit. */
  predicate Matches(e: Entry, r: Report) {
    e.frozen && ReportOf(e) == r && r.up + r.down <= MAX_REPORT_BYTES
  }

  ghost predicate Holds(entries: seq<Entry>, r: Report) {
    exists i | 0 <= i < |entries| :: Matches(entries[i], r)
  }

  /** The book still holds the report unchanged, or has settled it. */
  ghost predicate Keeps(b: Book, r: Report) {
    r in b.settled || Holds(b.ledger.entries, r)
  }

  ghost predicate BookInv(s: State, b: Book) {
    && BookOk(b)
    && (forall r | r in s.net :: Keeps(b, r))
    && (forall r | r in b.settled :: r in s.counted)
  }

  ghost predicate PhaseInv(s: State) {
    && (s.phase != Idle ==> s.mem.Some?)
    && (s.phase.Freezing? || s.phase.Frozen? || s.phase.Sending? ==> Holds(s.mem.value.ledger.entries, s.phase.report))
    && (s.phase.Frozen? ==> s.disk.Some? && Holds(s.disk.value.ledger.entries, s.phase.report))
    && (s.phase.Sending? ==> s.phase.report in s.net)
  }

  ghost predicate Inv(s: State) {
    && (s.mem.Some? ==> BookInv(s, s.mem.value))
    && (s.disk.Some? ==> BookInv(s, s.disk.value))
    && (s.disk.None? ==> s.net == {} && s.counted == [])
    && (forall r | r in s.counted :: r in s.net)
    && (forall i, j | 0 <= i < j < |s.counted| :: s.counted[i].seq_ != s.counted[j].seq_)
    && PhaseInv(s)
  }

  // ----- the ledger operations keep the book in order

  lemma {:induction false} PendingAppend(a: seq<Entry>, b: seq<Entry>, side: Side)
    ensures Pending(a + b, side) == Pending(a, side) + Pending(b, side)
    decreases |a|
  {
    if a == [] {
      assert a + b == b;
    } else {
      assert (a + b)[1..] == a[1..] + b;
      PendingAppend(a[1..], b, side);
    }
  }

  lemma {:induction false} TotalAppend(a: seq<Report>, b: seq<Report>, side: Side)
    ensures Total(a + b, side) == Total(a, side) + Total(b, side)
    decreases |a|
  {
    if a == [] {
      assert a + b == b;
    } else {
      assert (a + b)[1..] == a[1..] + b;
      TotalAppend(a[1..], b, side);
    }
  }

  lemma PendingUpdate(a: seq<Entry>, i: nat, e: Entry, side: Side)
    requires i < |a|
    ensures Pending(a[i := e], side) == Pending(a, side) - EntryBytes(a[i], side) + EntryBytes(e, side)
  {
    assert a == a[..i] + ([a[i]] + a[i + 1..]);
    assert a[i := e] == a[..i] + ([e] + a[i + 1..]);
    PendingAppend(a[..i], [a[i]] + a[i + 1..], side);
    PendingAppend(a[..i], [e] + a[i + 1..], side);
    assert ([a[i]] + a[i + 1..])[1..] == a[i + 1..] && ([e] + a[i + 1..])[1..] == a[i + 1..];
  }

  lemma PendingInsert(a: seq<Entry>, i: nat, e: Entry, rest: Entry, side: Side)
    requires i < |a|
    ensures Pending(a[..i] + [e, rest] + a[i + 1..], side)
            == Pending(a, side) - EntryBytes(a[i], side) + EntryBytes(e, side) + EntryBytes(rest, side)
  {
    assert a == a[..i] + ([a[i]] + a[i + 1..]);
    assert a[..i] + [e, rest] + a[i + 1..] == a[..i] + ([e, rest] + a[i + 1..]);
    PendingAppend(a[..i], [a[i]] + a[i + 1..], side);
    PendingAppend(a[..i], [e, rest] + a[i + 1..], side);
    PendingAppend([e, rest], a[i + 1..], side);
    assert [e, rest][1..] == [rest] && [rest][1..] == [];
    assert ([a[i]] + a[i + 1..])[1..] == a[i + 1..];
  }

  lemma OrderedUpdate(l: Ledger, settled: seq<Report>, i: nat, e: Entry)
    requires Ordered(l, settled) && i < |l.entries| && e.seq_ == l.entries[i].seq_ && e.up + e.down > 0
    ensures Ordered(l.(entries := l.entries[i := e]), settled)
  {
  }

  lemma OrderedAppend(l: Ledger, settled: seq<Report>, e: Entry)
    requires Ordered(l, settled) && e.seq_ == l.nextSeq && e.up + e.down > 0
    ensures Ordered(l.(entries := l.entries + [e], nextSeq := l.nextSeq + 1), settled)
  {
    var l' := l.(entries := l.entries + [e], nextSeq := l.nextSeq + 1);
    forall k | 0 <= k < |l'.entries|
      ensures l'.entries[k].seq_ == if k < |l.entries| then l.entries[k].seq_ else l.nextSeq
    {
    }
  }

  lemma OrderedInsert(l: Ledger, settled: seq<Report>, i: nat, cut: Entry, rest: Entry)
    requires Ordered(l, settled) && i < |l.entries| && cut.seq_ == l.entries[i].seq_ && rest.seq_ == l.nextSeq
    requires cut.up + cut.down > 0 && rest.up + rest.down > 0
    ensures Ordered(l.(entries := l.entries[..i] + [cut, rest] + l.entries[i + 1..], nextSeq := l.nextSeq + 1), settled)
  {
    var entries := l.entries[..i] + [cut, rest] + l.entries[i + 1..];
    forall k | 0 <= k < |entries|
      ensures entries[k].seq_ == if k <= i then l.entries[k].seq_ else if k == i + 1 then l.nextSeq else l.entries[k - 1].seq_
      ensures entries[k].up + entries[k].down > 0
    {
    }
  }

  /** Ordering does not depend on the counters or the context. */
  lemma OrderedSame(l: Ledger, l': Ledger, settled: seq<Report>)
    requires Ordered(l, settled) && l'.entries == l.entries && l'.nextSeq == l.nextSeq
    ensures Ordered(l', settled)
  {
  }

  lemma HoldsUpdate(entries: seq<Entry>, i: nat, e: Entry, r: Report)
    requires i < |entries| && Holds(entries, r)
    requires Matches(entries[i], r) ==> Matches(e, r)
    ensures Holds(entries[i := e], r)
  {
    var k :| 0 <= k < |entries| && Matches(entries[k], r);
    assert Matches(entries[i := e][k], r);
  }

  lemma HoldsInsert(entries: seq<Entry>, i: nat, cut: Entry, rest: Entry, r: Report)
    requires i < |entries| && Holds(entries, r)
    requires !Matches(entries[i], r)
    ensures Holds(entries[..i] + [cut, rest] + entries[i + 1..], r)
  {
    var k :| 0 <= k < |entries| && Matches(entries[k], r);
    var entries' := entries[..i] + [cut, rest] + entries[i + 1..];
    assert entries'[if k < i then k else k + 1] == entries[k];
  }

  lemma HoldsAppend(entries: seq<Entry>, e: Entry, r: Report)
    requires Holds(entries, r)
    ensures Holds(entries + [e], r)
  {
    var k :| 0 <= k < |entries| && Matches(entries[k], r);
    assert Matches((entries + [e])[k], r);
  }

  /** A measurement adds what it counts to the pending bytes. */
  lemma AccumulateOk(s: State, b: Book, c: Counters, context: Context)
    requires BookInv(s, b) && !IsFresh(b.ledger)
    ensures Ordered(Accumulate(b.ledger, c, context), b.settled)
    ensures forall r | r in s.net :: Keeps(Measured(b, c, context), r)
    ensures forall side :: Pending(Accumulate(b.ledger, c, context).entries, side)
                           == Pending(b.ledger.entries, side) + Added(b.ledger, c, context, side)
  {
    hide Balanced, Ordered, Holds;
    var l, l' := b.ledger, Accumulate(b.ledger, c, context);
    var up, down := Rise(l.counterUp, c.up), Rise(l.counterDown, c.down);
    if up == 0 && down == 0 {
      OrderedSame(l, l', b.settled);
    } else if l.entries != [] && MayJoin(l.entries[|l.entries| - 1], context) {
      var n, last := |l.entries| - 1, l.entries[|l.entries| - 1];
      var joined := last.(up := last.up + up, down := last.down + down);
      forall side
        ensures Pending(l'.entries, side) == Pending(l.entries, side) + Added(l, c, context, side)
      {
        PendingUpdate(l.entries, n, joined, side);
      }
      OrderedUpdate(l, b.settled, n, joined);
      OrderedSame(l.(entries := l.entries[n := joined]), l', b.settled);
      forall r | r in s.net
        ensures Keeps(Measured(b, c, context), r)
      {
        if r !in b.settled {
          HoldsUpdate(l.entries, n, joined, r);
        }
      }
    } else {
      var e := Entry(context, l.nextSeq, up, down, false, 0);
      forall side
        ensures Pending(l'.entries, side) == Pending(l.entries, side) + Added(l, c, context, side)
      {
        PendingAppend(l.entries, [e], side);
        PendingOne(e, side);
      }
      OrderedAppend(l, b.settled, e);
      OrderedSame(l.(entries := l.entries + [e], nextSeq := l.nextSeq + 1), l', b.settled);
      forall r | r in s.net
        ensures Keeps(Measured(b, c, context), r)
      {
        if r !in b.settled {
          HoldsAppend(l.entries, e, r);
        }
      }
    }
  }

  /** What a reading adds to a side: its rise, if it was measured under the context of the side. */
  function Added(l: Ledger, c: Counters, context: Context, side: Side): nat {
    if !Counts(side, context) then 0
    else if side.up then Rise(l.counterUp, c.up) else Rise(l.counterDown, c.down)
  }

  lemma MeasuredOk(s: State, b: Book, c: Counters, context: Context)
    requires BookInv(s, b)
    ensures BookInv(s, Measured(b, c, context))
  {
    hide Ordered, Accumulate, Keeps, Balanced;
    var r := Reading(c, context);
    if IsFresh(b.ledger) {
      FreshBook(s, b);
      OrderedSame(b.ledger, Anchor(b.ledger, c), b.settled);
      KeepsSame(b, Measured(b, c, context));
      FreshEntries(b.ledger, c);
      FreshBalance(b, c, context);
    } else {
      AccumulateOk(s, b, c, context);
      AccumulatedCounters(b.ledger, c, context);
      MeasuredBalance(b, c, context);
    }
  }

  /** The balance after a measurement, from what it adds to each side. */
  lemma MeasuredBalance(b: Book, c: Counters, context: Context)
    requires !IsFresh(b.ledger) && b.readings != [] && forall side :: Balanced(b, side)
    requires forall side :: Pending(Accumulate(b.ledger, c, context).entries, side)
                            == Pending(b.ledger.entries, side) + Added(b.ledger, c, context, side)
    ensures forall side :: Balanced(Measured(b, c, context), side)
  {
    hide Pending, Total, Rises, Level, Accumulate, Rise, Advance, IsFresh;
    AccumulatedCounters(b.ledger, c, context);
    NextReading(b.readings, Reading(c, context));
    forall side
      ensures Balanced(Measured(b, c, context), side)
    {
      assert Balanced(b, side);
    }
  }

  lemma FreshBalance(b: Book, c: Counters, context: Context)
    requires IsFresh(b.ledger) && b.settled == [] && b.readings == []
    ensures forall side :: Balanced(Measured(b, c, context), side)
  {
    hide Level, Rises;
    OneReading(Reading(c, context));
    assert [] + [Reading(c, context)] == [Reading(c, context)];
  }

  lemma FreshEntries(l: Ledger, c: Counters)
    requires IsFresh(l)
    ensures Anchor(l, c).entries == [] && Anchor(l, c).nextSeq == l.nextSeq
  {
  }

  lemma OneReading(r: Reading)
    ensures forall up :: Level([r], up) == ReadingOf(r, up)
    ensures forall side :: Rises([r], side) == 0
  {
  }

  lemma NextReading(readings: seq<Reading>, r: Reading)
    requires readings != []
    ensures forall up :: Level(readings + [r], up) == Advance(Level(readings, up), ReadingOf(r, up))
    ensures forall side :: Rises(readings + [r], side)
                           == Rises(readings, side) + if Counts(side, r.context) then Rise(Level(readings, side.up), ReadingOf(r, side.up)) else 0
  {
    assert (readings + [r])[..|readings|] == readings;
  }

  lemma AccumulatedCounters(l: Ledger, c: Counters, context: Context)
    ensures Accumulate(l, c, context).counterUp == Advance(l.counterUp, c.up)
    ensures Accumulate(l, c, context).counterDown == Advance(l.counterDown, c.down)
    ensures Accumulate(l, c, context).initialized
  {
  }

  lemma KeepsSame(b: Book, b': Book)
    requires b'.settled == b.settled && b'.ledger.entries == b.ledger.entries
    ensures forall r | Keeps(b, r) :: Keeps(b', r)
  {
  }

  /** Nothing was settled from a ledger whose numbering has not begun. */
  lemma FreshBook(s: State, b: Book)
    requires BookInv(s, b) && IsFresh(b.ledger)
    ensures b.settled == []
  {
    hide Ordered;
    SettledIsNumbered(b.ledger, b.settled);
  }

  lemma SettledIsNumbered(l: Ledger, settled: seq<Report>)
    requires Ordered(l, settled)
    ensures settled != [] ==> l.nextSeq > 0
  {
    if settled != [] {
      assert settled[0].seq_ < l.nextSeq;
    }
  }

  /** The same reports, frozen or not, in entries of their own. */
  predicate SameReports(a: seq<Entry>, b: seq<Entry>) {
    |a| == |b| && forall i | 0 <= i < |a| :: ReportOf(a[i]) == ReportOf(b[i]) && (a[i].frozen ==> b[i].frozen)
  }

  lemma SameReportsKeep(l: Ledger, l': Ledger, settled: seq<Report>)
    requires Ordered(l, settled) && SameReports(l.entries, l'.entries) && l.nextSeq <= l'.nextSeq
    ensures Ordered(l', settled)
  {
    assert forall i | 0 <= i < |l.entries| :: ReportOf(l'.entries[i]).seq_ == l.entries[i].seq_;
  }

  lemma SameReportsHold(a: seq<Entry>, b: seq<Entry>, r: Report)
    requires SameReports(a, b) && Holds(a, r)
    ensures Holds(b, r)
  {
    var i :| 0 <= i < |a| && Matches(a[i], r);
    assert Matches(b[i], r);
  }

  lemma SameReportsOk(s: State, b: Book, l: Ledger)
    requires BookInv(s, b) && SameReports(b.ledger.entries, l.entries) && b.ledger.nextSeq <= l.nextSeq
    requires l == b.ledger.(entries := l.entries, nextSeq := l.nextSeq)
    requires l.entries == [] ==> l.nextSeq == b.ledger.nextSeq
    ensures BookInv(s, b.(ledger := l))
  {
    hide Ordered, Holds, SameReports;
    SameReportsKeep(b.ledger, l, b.settled);
    SameReportsBytes(b.ledger.entries, l.entries);
    forall side
      ensures Balanced(b.(ledger := l), side)
    {
      assert Balanced(b, side);
    }
    forall r | Holds(b.ledger.entries, r)
      ensures Holds(l.entries, r)
    {
      SameReportsHold(b.ledger.entries, l.entries, r);
    }
  }

  lemma SameReportsBytes(a: seq<Entry>, b: seq<Entry>)
    requires SameReports(a, b)
    ensures forall side :: Pending(a, side) == Pending(b, side)
    ensures a == [] <==> b == []
  {
    forall side
      ensures Pending(a, side) == Pending(b, side)
    {
      SameBytes(a, b, side);
    }
  }

  lemma LoadedOk(s: State, b: Book)
    requires BookInv(s, b)
    ensures BookInv(s, b.(ledger := Loaded(b.ledger)))
  {
    hide BookInv;
    SameReportsOk(s, b, Loaded(b.ledger));
  }

  lemma {:induction false} SameBytes(a: seq<Entry>, b: seq<Entry>, side: Side)
    requires |a| == |b| && forall i | 0 <= i < |a| :: ReportOf(a[i]) == ReportOf(b[i])
    ensures Pending(a, side) == Pending(b, side)
    decreases |a|
  {
    if a != [] {
      assert ReportOf(a[0]) == ReportOf(b[0]);
      forall i | 0 <= i < |a[1..]|
        ensures ReportOf(a[1..][i]) == ReportOf(b[1..][i])
      {
        assert ReportOf(a[i + 1]) == ReportOf(b[i + 1]);
      }
      SameBytes(a[1..], b[1..], side);
    }
  }

  function FrozenHead(head: Entry): Entry { head.(up := CutUp(head), down := CutDown(head), frozen := true) }

  function CutRest(head: Entry, n: nat): Entry
    requires CutUp(head) <= head.up && CutDown(head) <= head.down
  {
    Entry(head.context, n, head.up - CutUp(head), head.down - CutDown(head), false, 0)
  }

  lemma FreezeWhole(s: State, b: Book, i: nat)
    requires BookInv(s, b) && i < |b.ledger.entries|
    requires b.ledger.entries[i].up + b.ledger.entries[i].down <= MAX_REPORT_BYTES
    ensures BookInv(s, b.(ledger := b.ledger.(entries := b.ledger.entries[i := FrozenHead(b.ledger.entries[i])])))
  {
    hide Ordered;
    var l, head := b.ledger, b.ledger.entries[i];
    var cut := FrozenHead(head);
    var b' := b.(ledger := l.(entries := l.entries[i := cut]));
    CutFacts(head);
    forall side
      ensures Balanced(b', side)
    {
      PendingUpdate(l.entries, i, cut, side);
      assert Balanced(b, side);
    }
    PositiveEntry(b, i);
    OrderedUpdate(l, b.settled, i, cut);
    forall q | q in s.net
      ensures Keeps(b', q)
    {
      if q !in b.settled {
        HoldsUpdate(l.entries, i, cut, q);
      }
    }
  }

  lemma FreezeCut(s: State, b: Book, i: nat)
    requires BookInv(s, b) && i < |b.ledger.entries|
    requires b.ledger.entries[i].up + b.ledger.entries[i].down > MAX_REPORT_BYTES
    ensures CutUp(b.ledger.entries[i]) <= b.ledger.entries[i].up && CutDown(b.ledger.entries[i]) <= b.ledger.entries[i].down
    ensures var l, head := b.ledger, b.ledger.entries[i];
            BookInv(s, b.(ledger := l.(
              entries := l.entries[..i] + [FrozenHead(head), CutRest(head, l.nextSeq)] + l.entries[i + 1..],
              nextSeq := l.nextSeq + 1)))
  {
    hide Ordered;
    var l, head := b.ledger, b.ledger.entries[i];
    CutFacts(head);
    var cut, rest := FrozenHead(head), CutRest(head, l.nextSeq);
    var b' := b.(ledger := l.(entries := l.entries[..i] + [cut, rest] + l.entries[i + 1..], nextSeq := l.nextSeq + 1));
    forall side
      ensures Balanced(b', side)
    {
      PendingInsert(l.entries, i, cut, rest, side);
      assert Balanced(b, side);
    }
    OrderedInsert(l, b.settled, i, cut, rest);
    forall q | q in s.net
      ensures Keeps(b', q)
    {
      if q !in b.settled {
        HoldsInsert(l.entries, i, cut, rest, q);
      }
    }
  }

  lemma PositiveEntry(b: Book, i: nat)
    requires BookOk(b) && i < |b.ledger.entries|
    ensures b.ledger.entries[i].up + b.ledger.entries[i].down > 0
  {
  }

  /** Freezing keeps every report already sent, and holds the new one. */
  lemma NextReportOk(s: State, b: Book, now: nat)
    requires BookInv(s, b) && NextReport(b.ledger, now).Some?
    ensures var (l, r) := NextReport(b.ledger, now).value;
            BookInv(s, b.(ledger := l)) && Holds(l.entries, r)
  {
    hide BookInv;
    var l, i := b.ledger, FirstReady(b.ledger.entries, now);
    var (l', r) := NextReport(l, now).value;
    var head := l.entries[i];
    CutFacts(head);
    if head.up + head.down > MAX_REPORT_BYTES {
      FreezeCut(s, b, i);
    } else {
      FreezeWhole(s, b, i);
    }
    assert l'.entries[i] == FrozenHead(head) && Matches(FrozenHead(head), r);
  }

  /** Within the limit nothing is cut; beyond it, exactly the limit is kept. */
  lemma CutFacts(e: Entry)
    ensures CutUp(e) <= e.up && CutDown(e) <= e.down
    ensures e.up + e.down <= MAX_REPORT_BYTES ==> CutUp(e) == e.up && CutDown(e) == e.down
    ensures e.up + e.down > MAX_REPORT_BYTES ==> CutUp(e) + CutDown(e) == MAX_REPORT_BYTES
  {
  }

  lemma WithoutOne(entries: seq<Entry>, r: Report, i: nat, side: Side)
    requires i < |entries| && ReportOf(entries[i]) == r
    requires forall k, m | 0 <= k < m < |entries| :: entries[k].seq_ != entries[m].seq_
    ensures Without(entries, r) == entries[..i] + entries[i + 1..]
    ensures Pending(Without(entries, r), side) == Pending(entries, side) - ReportBytes(r, side)
  {
    hide Without, Pending;
    var left, e, right := entries[..i], entries[i], entries[i + 1..];
    assert entries == left + ([e] + right);
    CutOut(left, e, right, r);
    PendingAppend(left, [e] + right, side);
    PendingAppend([e], right, side);
    PendingAppend(left, right, side);
    assert Pending([e], side) == ReportBytes(r, side) by { PendingOne(e, side); }
  }

  lemma PendingOne(e: Entry, side: Side)
    ensures Pending([e], side) == ReportBytes(ReportOf(e), side)
  {
    assert [e][1..] == [];
  }

  lemma {:induction false} CutOut(left: seq<Entry>, e: Entry, right: seq<Entry>, r: Report)
    requires ReportOf(e) == r
    requires forall k | 0 <= k < |left| :: left[k].seq_ != r.seq_
    requires forall k | 0 <= k < |right| :: right[k].seq_ != r.seq_
    ensures Without(left + ([e] + right), r) == left + right
    decreases |left|
  {
    if left == [] {
      WithoutNone(right, r);
      assert left + ([e] + right) == [e] + right;
    } else {
      CutOut(left[1..], e, right, r);
      assert (left + ([e] + right))[1..] == left[1..] + ([e] + right);
    }
  }

  lemma {:induction false} WithoutNone(entries: seq<Entry>, r: Report)
    requires forall k | 0 <= k < |entries| :: entries[k].seq_ != r.seq_
    ensures Without(entries, r) == entries
    decreases |entries|
  {
    if entries != [] {
      WithoutNone(entries[1..], r);
    }
  }

  /** Settling moves the bytes of the report from the pending entries to the settled reports. */
  lemma SettleOk(s: State, b: Book, r: Report)
    requires BookInv(s, b) && Holds(b.ledger.entries, r) && r in s.counted
    ensures BookInv(s, b.(ledger := Settle(b.ledger, r), settled := b.settled + [r]))
  {
    hide Keeps, ReportBytes, Without, Pending;
    var entries := b.ledger.entries;
    var i :| 0 <= i < |entries| && Matches(entries[i], r);
    var b' := b.(ledger := Settle(b.ledger, r), settled := b.settled + [r]);
    WithoutOne(entries, r, i, All(true));
    forall side
      ensures Balanced(b', side)
    {
      WithoutOne(entries, r, i, side);
      TotalAppend(b.settled, [r], side);
      assert [r][1..] == [];
      assert Balanced(b, side);
    }
    SettledApart(b, b', r, i);
    forall q | Keeps(b, q)
      ensures Keeps(b', q)
    {
      SettledKeeps(b, b', r, i, q);
    }
  }

  lemma SettledKeeps(b: Book, b': Book, r: Report, i: nat, q: Report)
    requires i < |b.ledger.entries| && Matches(b.ledger.entries[i], r) && Keeps(b, q)
    requires b'.ledger.entries == b.ledger.entries[..i] + b.ledger.entries[i + 1..]
    requires b'.settled == b.settled + [r]
    ensures Keeps(b', q)
  {
    var entries := b.ledger.entries;
    if q !in b.settled {
      var k :| 0 <= k < |entries| && Matches(entries[k], q);
      if k != i {
        assert Matches(b'.ledger.entries[if k < i then k else k - 1], q);
      }
    }
  }

  lemma SettledApart(b: Book, b': Book, r: Report, i: nat)
    requires Ordered(b.ledger, b.settled) && i < |b.ledger.entries| && ReportOf(b.ledger.entries[i]) == r
    requires b'.ledger == b.ledger.(entries := b.ledger.entries[..i] + b.ledger.entries[i + 1..])
    requires b'.settled == b.settled + [r]
    ensures Ordered(b'.ledger, b'.settled)
  {
    forall k | 0 <= k < |b'.ledger.entries|
      ensures b'.ledger.entries[k] == b.ledger.entries[if k < i then k else k + 1]
    {
    }
  }

  lemma DeferOk(s: State, b: Book, r: Report, retryAfter: nat)
    requires BookInv(s, b)
    ensures BookInv(s, b.(ledger := DeferReport(b.ledger, r, retryAfter)))
  {
    hide BookInv;
    SameReportsOk(s, b, DeferReport(b.ledger, r, retryAfter));
  }

  // ----- every step keeps the invariant

  lemma NothingBilled(s: State)
    requires s.net == {}
    ensures BookInv(s, Book(EMPTY, [], []))
  {
    hide BookOk, Holds;
    EmptyBookOk();
  }

  lemma EmptyBookOk()
    ensures BookOk(Book(EMPTY, [], []))
  {
    hide Rise, Advance;
  }

  lemma CurrentBookOk(s: State)
    requires Inv(s)
    ensures BookInv(s, CurrentBook(s))
  {
    hide BookInv;
    if s.mem.None? {
      if s.disk.Some? {
        LoadedOk(s, s.disk.value);
      } else {
        NothingBilled(s);
      }
    }
  }

  lemma MeasureKeeps(s: State, reading: Option<Counters>, context: Context, next: Option<Context>)
    requires Inv(s) && s.phase.Idle?
    ensures Inv(MeasureStep(s, reading, context, next))
  {
    hide BookOk;
    var b := CurrentBook(s);
    CurrentBookOk(s);
    var measured := match reading case Some(c) => Measured(b, c, context) case None => b;
    if reading.Some? {
      MeasuredOk(s, b, reading.value, context);
    }
    var current := if next.Some? then next else Some(context);
    var b' := measured.(ledger := measured.ledger.(context := current));
    ContextOnly(measured, b');
  }

  lemma ContextOnly(b: Book, b': Book)
    requires BookOk(b) && b' == b.(ledger := b.ledger.(context := b'.ledger.context))
    ensures BookOk(b')
    ensures forall r | Keeps(b, r) :: Keeps(b', r)
  {
    OrderedSame(b.ledger, b'.ledger, b.settled);
    forall side
      ensures Balanced(b', side)
    {
      assert Balanced(b, side);
    }
  }

  lemma ReceiveKeeps(s: State, r: Report)
    requires Inv(s) && r in s.net && !KeyCounted(s.counted, r)
    ensures Inv(s.(counted := s.counted + [r]))
  {
    hide BookOk;
    var counted := s.counted + [r];
    forall i, j | 0 <= i < j < |counted|
      ensures counted[i].seq_ != counted[j].seq_
    {
      if j == |s.counted| && s.counted[i].seq_ == r.seq_ {
        assert s.counted[i] in s.counted;
        SameSeqSameReport(s, s.counted[i], r);
      }
    }
  }

  /** Two reports ever sent with the same number are the same report. */
  lemma SameSeqSameReport(s: State, q: Report, r: Report)
    requires Inv(s) && q in s.net && r in s.net && q.seq_ == r.seq_
    ensures q == r
  {
    var b := s.disk.value;
    assert Keeps(b, q) && Keeps(b, r);
    if q in b.settled && r in b.settled {
    } else if q in b.settled {
      SettledNotHeld(b, q, r);
    } else if r in b.settled {
      SettledNotHeld(b, r, q);
    } else {
      var i :| 0 <= i < |b.ledger.entries| && Matches(b.ledger.entries[i], q);
      var j :| 0 <= j < |b.ledger.entries| && Matches(b.ledger.entries[j], r);
    }
  }

  lemma SettledNotHeld(b: Book, q: Report, r: Report)
    requires BookOk(b) && q in b.settled && Holds(b.ledger.entries, r)
    ensures q.seq_ != r.seq_
  {
    var k :| 0 <= k < |b.settled| && b.settled[k] == q;
    var i :| 0 <= i < |b.ledger.entries| && Matches(b.ledger.entries[i], r);
    assert b.settled[k].seq_ != b.ledger.entries[i].seq_;
  }

  /** An acknowledged report is the very report that the server counted. */
  lemma AcknowledgedIsCounted(s: State)
    requires Inv(s) && s.phase.Sending? && KeyCounted(s.counted, s.phase.report)
    ensures s.phase.report in s.counted
  {
    var r := s.phase.report;
    var k :| 0 <= k < |s.counted| && s.counted[k].context.sessionId == r.context.sessionId && s.counted[k].seq_ == r.seq_;
    assert s.counted[k] in s.counted;
    SameSeqSameReport(s, s.counted[k], r);
  }

  lemma BookTaken(s: State, b: Book, phase: Phase)
    requires Inv(s) && BookInv(s, b)
    requires phase == Saving || (phase.Freezing? && Holds(b.ledger.entries, phase.report))
    ensures Inv(s.(mem := Some(b), phase := phase))
  {
    hide BookOk, Holds;
  }

  /** Saving, sending, stopping and crashing change no book. */
  lemma SameBooksKeep(s: State, e: Event)
    requires Inv(s) && (e.SaveDone? || e.SaveFailed? || e.Send? || e.Stop? || e.Crash?)
    ensures Inv(Step(s, e))
  {
    hide BookOk, Holds;
  }

  lemma StepKeeps(s: State, e: Event)
    requires Inv(s)
    ensures Inv(Step(s, e))
  {
    hide BookInv, Holds, MeasureStep;
    match e
    case Measure(reading, context, next) =>
      if s.phase.Idle? {
        MeasureKeeps(s, reading, context, next);
      }
    case Prepare(now) =>
      if s.phase.ReadyToSend? {
        match NextReport(s.mem.value.ledger, now)
        case Some((l, r)) =>
          NextReportOk(s, s.mem.value, now);
          BookTaken(s, s.mem.value.(ledger := l), Freezing(r));
        case None =>
          SameBooksKeep(s, Stop);
      }
    case Receive(r) =>
      if r in s.net && !KeyCounted(s.counted, r) {
        ReceiveKeeps(s, r);
      }
    case Acknowledged =>
      if s.phase.Sending? && KeyCounted(s.counted, s.phase.report) {
        var b, r := s.mem.value, s.phase.report;
        AcknowledgedIsCounted(s);
        SettleOk(s, b, r);
        BookTaken(s, b.(ledger := Settle(b.ledger, r), settled := b.settled + [r]), Saving);
      }
    case Refused(retryAfter) =>
      if s.phase.Sending? {
        var b := s.mem.value;
        DeferOk(s, b, s.phase.report, retryAfter);
        BookTaken(s, b.(ledger := DeferReport(b.ledger, s.phase.report, retryAfter)), Saving);
      }
    case SaveDone => SameBooksKeep(s, e);
    case SaveFailed => SameBooksKeep(s, e);
    case Send => SameBooksKeep(s, e);
    case Stop => SameBooksKeep(s, e);
    case Crash => SameBooksKeep(s, e);
  }

  lemma {:induction false} RunInv(events: seq<Event>)
    ensures Inv(Run(events))
    decreases |events|
  {
    if events != [] {
      RunInv(events[..|events| - 1]);
      StepKeeps(Run(events[..|events| - 1]), events[|events| - 1]);
    }
  }

  // ----- what each move of a flush decides

  /**
   A flush measures only when none is under way, and keeps the plan in force for the next; what it has changed is
   saved before it goes on, and a save that fails ends it with the disk as it was.
   */
  lemma FlushDecides(s: State, reading: Option<Counters>, context: Context, following: Option<Context>)
    requires Inv(s)
    ensures var next := Step(s, Measure(reading, context, following));
            if s.phase != Idle then next == s
            else
              && next.mem.Some? && next.phase == Saving && next.disk == s.disk
              && next.mem.value.ledger.context == (if following.Some? then following else Some(context))
              && next.mem.value.readings == (if s.mem.Some? then s.mem.value.readings else if s.disk.Some? then s.disk.value.readings else [])
                                            + (if reading.Some? then [Reading(reading.value, context)] else [])
    ensures s.phase == Saving ==> Step(s, SaveDone) == s.(disk := s.mem, phase := ReadyToSend) && Step(s, SaveFailed) == s.(phase := Idle)
    ensures s.phase.Freezing? ==> Step(s, SaveDone) == s.(disk := s.mem, phase := Frozen(s.phase.report)) && Step(s, SaveFailed) == s.(phase := Idle)
    ensures s.phase.Frozen? ==> Step(s, Send) == s.(phase := Sending(s.phase.report), net := s.net + {s.phase.report})
    ensures Step(s, Stop) == s.(phase := Idle)
  {
    hide BookInv, Accumulate, Anchor, Loaded, IsFresh;
  }

  // ----- what the runs guarantee

  /** Nothing is sent before it is on disk, and it stays there unchanged until it is settled. */
  lemma SentReportsAreOnDisk(events: seq<Event>)
    ensures var s := Run(events);
            && (s.phase.Frozen? ==> s.disk.Some? && Holds(s.disk.value.ledger.entries, s.phase.report))
            && (forall r | r in s.net :: s.disk.Some? && Keeps(s.disk.value, r))
  {
    RunInv(events);
  }

  /** Every settled report was counted, and no (session, sequence) is counted twice. */
  lemma SettledReportsAreCountedOnce(events: seq<Event>)
    ensures var s := Run(events);
            && (s.disk.Some? ==> forall r | r in s.disk.value.settled :: r in s.counted)
            && (s.mem.Some? ==> forall r | r in s.mem.value.settled :: r in s.counted)
            && (forall i, j | 0 <= i < j < |s.counted| :: s.counted[i].seq_ != s.counted[j].seq_)
  {
    RunInv(events);
  }

  /** The pending entries whose report the server has counted, as reports. */
  function CountedEntries(entries: seq<Entry>, counted: seq<Report>): seq<Report> {
    if entries == [] then []
    else (if ReportOf(entries[0]) in counted then [ReportOf(entries[0])] else []) + CountedEntries(entries[1..], counted)
  }

  /** The pending bytes that the server has not counted. */
  function Unbilled(entries: seq<Entry>, counted: seq<Report>, side: Side): nat {
    if entries == [] then 0
    else (if ReportOf(entries[0]) in counted then 0 else EntryBytes(entries[0], side)) + Unbilled(entries[1..], counted, side)
  }

  lemma {:induction false} PendingSplits(entries: seq<Entry>, counted: seq<Report>, side: Side)
    ensures Pending(entries, side) == Unbilled(entries, counted, side) + Total(CountedEntries(entries, counted), side)
    decreases |entries|
  {
    if entries != [] {
      PendingSplits(entries[1..], counted, side);
      var head := if ReportOf(entries[0]) in counted then [ReportOf(entries[0])] else [];
      TotalAppend(head, CountedEntries(entries[1..], counted), side);
    }
  }

  lemma {:induction false} CountedEntriesMembers(entries: seq<Entry>, counted: seq<Report>)
    ensures forall r :: r in CountedEntries(entries, counted)
                        <==> r in counted && exists i | 0 <= i < |entries| :: ReportOf(entries[i]) == r
    decreases |entries|
  {
    if entries != [] {
      CountedEntriesMembers(entries[1..], counted);
      forall r
        ensures r in CountedEntries(entries, counted)
                <==> r in counted && exists i | 0 <= i < |entries| :: ReportOf(entries[i]) == r
      {
        if r in CountedEntries(entries[1..], counted) {
          var i :| 0 <= i < |entries[1..]| && ReportOf(entries[1..][i]) == r;
          assert ReportOf(entries[i + 1]) == r;
        }
        if r in counted && exists i | 0 <= i < |entries| :: ReportOf(entries[i]) == r {
          var i :| 0 <= i < |entries| && ReportOf(entries[i]) == r;
          if 0 < i {
            assert ReportOf(entries[1..][i - 1]) == r;
          }
        }
      }
    }
  }

  ghost predicate DistinctSeqs(a: seq<Report>) {
    forall i, j | 0 <= i < j < |a| :: a[i].seq_ != a[j].seq_
  }

  lemma {:induction false} CountedEntriesDistinct(entries: seq<Entry>, counted: seq<Report>)
    requires forall i, j | 0 <= i < j < |entries| :: entries[i].seq_ != entries[j].seq_
    ensures DistinctSeqs(CountedEntries(entries, counted))
    decreases |entries|
  {
    if entries != [] {
      var tail := CountedEntries(entries[1..], counted);
      CountedEntriesDistinct(entries[1..], counted);
      CountedEntriesMembers(entries[1..], counted);
      forall k | 0 <= k < |tail|
        ensures tail[k].seq_ != entries[0].seq_
      {
        assert tail[k] in tail;
        var i :| 0 <= i < |entries[1..]| && ReportOf(entries[1..][i]) == tail[k];
        assert entries[1..][i] == entries[i + 1];
      }
    }
  }

  /** The order in which reports are listed does not change what they add up to. */
  lemma {:induction false} TotalSameMembers(a: seq<Report>, b: seq<Report>, side: Side)
    requires DistinctSeqs(a) && DistinctSeqs(b) && forall r :: r in a <==> r in b
    ensures Total(a, side) == Total(b, side)
    decreases |a|
  {
    if b != [] {
      MembersMeanNonempty(a, b);
    }
    if a == [] {
    } else {
      assert a[0] in a;
      var i :| 0 <= i < |b| && b[i] == a[0];
      var b' := b[..i] + b[i + 1..];
      assert b == b[..i] + ([b[i]] + b[i + 1..]);
      TotalAppend(b[..i], [b[i]] + b[i + 1..], side);
      TotalAppend(b[..i], b[i + 1..], side);
      assert ([b[i]] + b[i + 1..])[1..] == b[i + 1..];
      RemovedMembers(a, b, i);
      TotalSameMembers(a[1..], b', side);
    }
  }

  lemma MembersMeanNonempty(a: seq<Report>, b: seq<Report>)
    requires b != [] && forall r :: r in a <==> r in b
    ensures a != []
  {
    assert b[0] in a;
  }

  lemma RemovedMembers(a: seq<Report>, b: seq<Report>, i: nat)
    requires DistinctSeqs(a) && DistinctSeqs(b) && forall r :: r in a <==> r in b
    requires a != [] && i < |b| && b[i] == a[0]
    ensures var b' := b[..i] + b[i + 1..];
            DistinctSeqs(a[1..]) && DistinctSeqs(b') && forall r :: r in a[1..] <==> r in b'
  {
    var b' := b[..i] + b[i + 1..];
    assert forall k | 0 <= k < |b'| :: b'[k] == b[if k < i then k else k + 1];
    forall r
      ensures r in a[1..] <==> r in b'
    {
      if r in a[1..] {
        var k :| 0 <= k < |a[1..]| && a[1..][k] == r;
        assert a[k + 1] == r && r in a;
        var m :| 0 <= m < |b| && b[m] == r;
        assert b'[if m < i then m else m - 1] == r;
      }
      if r in b' {
        var k :| 0 <= k < |b'| && b'[k] == r;
        assert b[if k < i then k else k + 1] == r && r in b;
        var m :| 0 <= m < |a| && a[m] == r;
        assert a[1..][m - 1] == r;
      }
    }
  }

  /** What the server counted is what the disk has settled, plus the pending reports it has received. */
  lemma CountedMembers(s: State)
    requires Inv(s) && s.disk.Some?
    ensures var all := s.disk.value.settled + CountedEntries(s.disk.value.ledger.entries, s.counted);
            DistinctSeqs(all) && forall r :: r in s.counted <==> r in all
  {
    var b := s.disk.value;
    var entries := b.ledger.entries;
    var waiting := CountedEntries(entries, s.counted);
    CountedEntriesMembers(entries, s.counted);
    CountedEntriesDistinct(entries, s.counted);
    forall k, m | 0 <= k < |b.settled| && 0 <= m < |waiting|
      ensures b.settled[k].seq_ != waiting[m].seq_
    {
      assert waiting[m] in waiting;
      var i :| 0 <= i < |entries| && ReportOf(entries[i]) == waiting[m];
      assert b.settled[k].seq_ != entries[i].seq_;
    }
    forall r | r in s.counted
      ensures r in b.settled + waiting
    {
      assert Keeps(b, r);
      if r !in b.settled {
        var i :| 0 <= i < |entries| && Matches(entries[i], r);
      }
    }
  }

  /**
   Conservation, for each plan and session and for all of them: in every run, what the server has counted
   plus what is still to be counted is the sum of the rises of the readings behind the ledger on disk that
   were measured under it. Nothing is lost, counted twice, or billed to another.
   */
  lemma BilledPlusUnbilledIsMeasured(events: seq<Event>, side: Side)
    requires Run(events).disk.Some?
    ensures var s := Run(events); var b := s.disk.value;
            && Total(s.counted, side) + Unbilled(b.ledger.entries, s.counted, side) == Rises(b.readings, side)
            && Subsequence(b.readings, Readings(events))
  {
    RunInv(events);
    RunReadings(events);
    var s := Run(events);
    var b := s.disk.value;
    var waiting := CountedEntries(b.ledger.entries, s.counted);
    CountedMembers(s);
    TotalSameMembers(s.counted, b.settled + waiting, side);
    TotalAppend(b.settled, waiting, side);
    PendingSplits(b.ledger.entries, s.counted, side);
    assert Balanced(b, side);
  }

  // ----- the readings of a run

  /** The readings given to measurements, in order. */
  function Readings(events: seq<Event>): seq<Reading> {
    if events == [] then []
    else
      var e := events[|events| - 1];
      Readings(events[..|events| - 1]) + if e.Measure? && e.reading.Some? then [Reading(e.reading.value, e.context)] else []
  }

  predicate Subsequence(a: seq<Reading>, b: seq<Reading>)
    decreases |b|
  {
    || a == []
    || (b != []
        && (|| Subsequence(a, b[..|b| - 1])
            || (a[|a| - 1] == b[|b| - 1] && Subsequence(a[..|a| - 1], b[..|b| - 1]))))
  }

  lemma SubsequenceNext(a: seq<Reading>, b: seq<Reading>, c: Reading)
    requires Subsequence(a, b)
    ensures Subsequence(a, b + [c]) && Subsequence(a + [c], b + [c])
  {
    assert (a + [c])[..|a|] == a && (b + [c])[..|b|] == b;
  }

  /** What is on disk begins what is in memory, and both come from the readings of the run, in order. */
  ghost predicate ReadingsInv(s: State, all: seq<Reading>) {
    && (s.mem.Some? ==> Subsequence(s.mem.value.readings, all))
    && (s.disk.Some? ==> Subsequence(s.disk.value.readings, all))
    && (s.mem.Some? && s.disk.Some? ==> s.disk.value.readings <= s.mem.value.readings)
  }

  lemma ReadingsStep(s: State, e: Event, all: seq<Reading>)
    requires ReadingsInv(s, all)
    ensures ReadingsInv(Step(s, e), all + if e.Measure? && e.reading.Some? then [Reading(e.reading.value, e.context)] else [])
    ensures s.disk.Some? ==> Step(s, e).disk.Some? && s.disk.value.readings <= Step(s, e).disk.value.readings
  {
    hide Accumulate, Anchor, Loaded, NextReport, Settle, DeferReport, Subsequence;
    NoReadings(all);
    if e.Measure? && e.reading.Some? {
      if s.disk.Some? {
        SubsequenceNext(s.disk.value.readings, all, Reading(e.reading.value, e.context));
      }
      if s.mem.Some? {
        SubsequenceNext(s.mem.value.readings, all, Reading(e.reading.value, e.context));
      }
      SubsequenceNext([], all, Reading(e.reading.value, e.context));
    } else {
      assert all + [] == all;
    }
  }

  lemma NoReadings(all: seq<Reading>)
    ensures Subsequence([], all)
  {
  }

  lemma {:induction false} RunReadings(events: seq<Event>)
    ensures ReadingsInv(Run(events), Readings(events))
    decreases |events|
  {
    hide Step;
    if events != [] {
      RunReadings(events[..|events| - 1]);
      ReadingsStep(Run(events[..|events| - 1]), events[|events| - 1], Readings(events[..|events| - 1]));
    }
  }

  /** A reading that is measured and saved is the last of those on disk. */
  lemma SavedReadingIsLast(events: seq<Event>, c: Counters, context: Context, next: Option<Context>)
    requires Run(events).phase.Idle?
    ensures var d := Run(events + [Measure(Some(c), context, next)] + [SaveDone]).disk;
            d.Some? && d.value.readings != [] && d.value.readings[|d.value.readings| - 1] == Reading(c, context)
  {
    hide Accumulate, Anchor, Loaded, IsFresh;
    var measured := events + [Measure(Some(c), context, next)];
    assert measured[..|events|] == events && (measured + [SaveDone])[..|measured|] == measured;
  }

  /** Once on disk the readings are never rewritten, the anchoring one included: later ones only follow. */
  lemma {:induction false} AnchorIsFixed(before: seq<Event>, events: seq<Event>)
    requires before <= events && Run(before).disk.Some?
    ensures Run(events).disk.Some? && Run(before).disk.value.readings <= Run(events).disk.value.readings
    decreases |events|
  {
    hide Step;
    if |before| < |events| {
      var prefix := events[..|events| - 1];
      AnchorIsFixed(before, prefix);
      RunReadings(prefix);
      ReadingsStep(Run(prefix), events[|events| - 1], Readings(prefix));
    } else {
      assert before == events;
    }
  }

  // ----- rises, falls and the distance between two readings

  /** The rises exceed the distance from the anchor by exactly the falls: a fall bills nothing and takes nothing back. */
  lemma {:induction false} RisesAreDistancePlusFalls(readings: seq<Reading>, up: bool)
    requires readings != []
    ensures Rises(readings, All(up)) == Level(readings, up) - ReadingOf(readings[0], up) + Falls(readings, up)
    decreases |readings|
  {
    if |readings| > 1 {
      RisesAreDistancePlusFalls(readings[..|readings| - 1], up);
    }
  }

  predicate NeverFalls(readings: seq<Reading>, up: bool) {
    forall i, j | 0 <= i < j < |readings| :: ReadingOf(readings[i], up) <= ReadingOf(readings[j], up)
  }

  lemma {:induction false} SteadyLevel(readings: seq<Reading>, up: bool)
    requires readings != [] && NeverFalls(readings, up)
    ensures Level(readings, up) == ReadingOf(readings[|readings| - 1], up) && Falls(readings, up) == 0
    decreases |readings|
  {
    var n := |readings| - 1;
    if n > 0 {
      SteadyLevel(readings[..n], up);
      assert ReadingOf(readings[n - 1], up) <= ReadingOf(readings[n], up);
    }
  }

  lemma {:induction false} SubsequenceMembers(a: seq<Reading>, b: seq<Reading>)
    requires Subsequence(a, b)
    ensures forall c | c in a :: c in b
    decreases |b|
  {
    if a != [] {
      if Subsequence(a, b[..|b| - 1]) {
        SubsequenceMembers(a, b[..|b| - 1]);
      } else {
        SubsequenceMembers(a[..|a| - 1], b[..|b| - 1]);
        assert a == a[..|a| - 1] + [a[|a| - 1]];
      }
    }
  }

  lemma {:induction false} SubsequenceNeverFalls(a: seq<Reading>, b: seq<Reading>, up: bool)
    requires Subsequence(a, b) && NeverFalls(b, up)
    ensures NeverFalls(a, up)
    decreases |b|
  {
    if a != [] {
      var m, n := |a| - 1, |b| - 1;
      if Subsequence(a, b[..n]) {
        SubsequenceNeverFalls(a, b[..n], up);
      } else {
        SubsequenceNeverFalls(a[..m], b[..n], up);
        SubsequenceMembers(a[..m], b[..n]);
        forall i | 0 <= i < m
          ensures ReadingOf(a[i], up) <= ReadingOf(a[m], up)
        {
          assert a[..m][i] in b[..n];
          var k :| 0 <= k < n && b[..n][k] == a[i];
          assert ReadingOf(b[k], up) <= ReadingOf(b[n], up);
        }
      }
    }
  }

  /**
   When the readings of the run never fall, the bytes counted and those still to be counted are the last
   reading saved minus the reading that anchored the ledger.
   */
  lemma BilledPlusUnbilledIsTheDistance(events: seq<Event>, up: bool)
    requires Run(events).disk.Some? && Run(events).disk.value.readings != [] && NeverFalls(Readings(events), up)
    ensures var s := Run(events); var b := s.disk.value;
            Total(s.counted, All(up)) + Unbilled(b.ledger.entries, s.counted, All(up))
            == ReadingOf(b.readings[|b.readings| - 1], up) - ReadingOf(b.readings[0], up)
  {
    hide Run, Rises, Level, Falls;
    BilledPlusUnbilledIsMeasured(events, All(up));
    var readings := Run(events).disk.value.readings;
    SubsequenceNeverFalls(readings, Readings(events), up);
    SteadyLevel(readings, up);
    RisesAreDistancePlusFalls(readings, up);
  }
}
