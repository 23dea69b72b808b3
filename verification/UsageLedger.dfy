/**
 The ledger of app-mobile/services/usageLedger.ts: measured bytes waiting to be reported, in entries
 that are frozen once they have been prepared for sending.
 */
module UsageLedger {
  import opened Wrappers

  const MAX_REPORT_BYTES: nat := 0x100000000

  datatype Context = Context(
    subscriptionId: Option<string>, configId: Option<string>, unlinked: bool, sessionId: string)

  /** `retryAfter` is 0 when the entry may be sent at any time. */
  datatype Entry = Entry(context: Context, seq_: nat, up: nat, down: nat, frozen: bool, retryAfter: nat)

  datatype Ledger = Ledger(
    initialized: bool, counterUp: nat, counterDown: nat, nextSeq: nat, entries: seq<Entry>, context: Option<Context>)

  datatype Report = Report(context: Context, seq_: nat, up: nat, down: nat)

  datatype Counters = Counters(up: nat, down: nat)

  const EMPTY: Ledger := Ledger(false, 0, 0, 0, [], None)

  predicate IsFresh(l: Ledger) {
    !l.initialized && l.counterUp == 0 && l.counterDown == 0 && l.nextSeq == 0 && l.entries == []
  }

  /** Takes the reading as the starting point, billing nothing. */
  function Anchor(l: Ledger, c: Counters): Ledger {
    l.(initialized := true, counterUp := c.up, counterDown := c.down)
  }

  /** The step between two readings of a counter that restarts from zero. */
  function CounterStep(previous: nat, current: nat): nat {
    if current == 0 then 0 else if current < previous then current else current - previous
  }

  /** What a reading of the odometer adds: nothing when it fell. */
  function Rise(previous: nat, current: nat): nat {
    if current < previous then 0 else CounterStep(previous, current)
  }

  /** A reading of zero proves nothing and leaves the counter where it was. */
  function Advance(previous: nat, current: nat): nat {
    if current > 0 then current else previous
  }

  function Accumulate(l: Ledger, c: Counters, context: Context): Ledger {
    var up, down := Rise(l.counterUp, c.up), Rise(l.counterDown, c.down);
    var advanced := l.(initialized := true, context := Some(context),
                       counterUp := Advance(l.counterUp, c.up), counterDown := Advance(l.counterDown, c.down));
    if up == 0 && down == 0 then advanced
    else if l.entries != [] && MayJoin(l.entries[|l.entries| - 1], context) then
      var n, last := |l.entries| - 1, l.entries[|l.entries| - 1];
      advanced.(entries := l.entries[n := last.(up := last.up + up, down := last.down + down)])
    else
      advanced.(entries := l.entries + [Entry(context, l.nextSeq, up, down, false, 0)], nextSeq := l.nextSeq + 1)
  }

  /** Only an entry that is still open takes more bytes, and only of its own plan and session. */
  predicate MayJoin(e: Entry, context: Context) { !e.frozen && e.context == context }

  predicate Ready(e: Entry, now: nat) { e.retryAfter == 0 || e.retryAfter <= now }

  /** findIndex: the first entry that may be sent now. */
  function FirstReady(entries: seq<Entry>, now: nat): (i: nat)
    ensures i <= |entries|
    ensures i < |entries| ==> Ready(entries[i], now)
    ensures forall k | 0 <= k < i :: !Ready(entries[k], now)
  {
    if entries == [] then 0
    else if Ready(entries[0], now) then 0
    else 1 + FirstReady(entries[1..], now)
  }

  function Min(a: nat, b: nat): nat { if a < b then a else b }

  function CutUp(e: Entry): nat {
    if e.up + e.down > MAX_REPORT_BYTES then Min(e.up, MAX_REPORT_BYTES) else e.up
  }

  function CutDown(e: Entry): nat {
    if e.up + e.down > MAX_REPORT_BYTES then Min(e.down, MAX_REPORT_BYTES - CutUp(e)) else e.down
  }

  function ReportOf(e: Entry): Report { Report(e.context, e.seq_, e.up, e.down) }

  /** Freezes the head, cutting off what exceeds the limit into a new open entry just after it. */
  function NextReport(l: Ledger, now: nat): Option<(Ledger, Report)> {
    var i := FirstReady(l.entries, now);
    if i == |l.entries| then None
    else
      var head := l.entries[i];
      if head.up + head.down == 0 then None
      else
        var up, down := CutUp(head), CutDown(head);
        var cut := head.(up := up, down := down, frozen := true);
        if head.up - up > 0 || head.down - down > 0 then
          var rest := Entry(head.context, l.nextSeq, head.up - up, head.down - down, false, 0);
          Some((l.(entries := l.entries[..i] + [cut, rest] + l.entries[i + 1..], nextSeq := l.nextSeq + 1),
                Report(head.context, head.seq_, up, down)))
        else
          Some((l.(entries := l.entries[i := cut]), Report(head.context, head.seq_, up, down)))
  }

  predicate SameKey(e: Entry, r: Report) { e.context.sessionId == r.context.sessionId && e.seq_ == r.seq_ }

  function Without(entries: seq<Entry>, r: Report): seq<Entry> {
    if entries == [] then []
    else (if SameKey(entries[0], r) then [] else [entries[0]]) + Without(entries[1..], r)
  }

  /** Removes the entry that the server took, or recognised as already taken. */
  function Settle(l: Ledger, r: Report): Ledger { l.(entries := Without(l.entries, r)) }

  /** A refusal is not a receipt: the entry stays, to be sent later. */
  function DeferReport(l: Ledger, r: Report, retryAfter: nat): Ledger {
    l.(entries := seq(|l.entries|, i requires 0 <= i < |l.entries| =>
      if SameKey(l.entries[i], r) then l.entries[i].(retryAfter := retryAfter) else l.entries[i]))
  }

  function Max(a: nat, b: nat): nat { if a < b then b else a }

  function HighestSeq(entries: seq<Entry>): (n: nat)
    ensures forall k | 0 <= k < |entries| :: entries[k].seq_ < n
    ensures entries != [] ==> exists k | 0 <= k < |entries| :: n == entries[k].seq_ + 1
    ensures entries == [] ==> n == 0
  {
    if entries == [] then 0
    else
      var rest := HighestSeq(entries[1..]);
      assert entries[1..] != [] ==> exists k | 0 <= k < |entries[1..]| :: rest == entries[1..][k].seq_ + 1;
      Max(entries[0].seq_ + 1, rest)
  }

  /** Reading the stored ledger: what was pending may have been received, so it comes back frozen. */
  function Loaded(l: Ledger): Ledger {
    l.(entries := seq(|l.entries|, i requires 0 <= i < |l.entries| => l.entries[i].(frozen := true)),
       nextSeq := Max(l.nextSeq, HighestSeq(l.entries)))
  }

  // ----- what an operation does to the entries

  predicate Open(e: Entry) { !e.frozen }

  /**
   A reading opens a new entry exactly when a counter rose and the last entry is not an open one of the same
   plan and session. It changes no entry but that last one, and never a frozen one.
   */
  lemma OpensAnEntryExactly(l: Ledger, c: Counters, context: Context)
    ensures var before, after := l.entries, Accumulate(l, c, context).entries; var n := |before|;
            var rose := c.up > l.counterUp || c.down > l.counterDown;
            && (|after| == n + 1 <==> rose && !(n > 0 && Open(before[n - 1]) && before[n - 1].context == context))
            && (|after| != n + 1 ==> |after| == n)
            && (forall k | 0 <= k < n && (k < n - 1 || before[k].frozen || before[k].context != context || !rose) :: after[k] == before[k])
            && (|after| == n + 1 ==> after[n] == Entry(context, l.nextSeq, after[n].up, after[n].down, false, 0))
  {
  }

  predicate Waits(e: Entry, now: nat) { e.retryAfter > now && e.retryAfter != 0 }

  /**
   A report is cut from the first entry that need not wait, exactly when there is one and it has bytes. It takes
   the upward bytes first and as many as the limit allows; what is left is an open entry just after it.
   */
  lemma ReportsTheFirstReadyExactly(l: Ledger, now: nat, i: nat)
    requires i <= |l.entries| && (forall k | 0 <= k < i :: Waits(l.entries[k], now)) && (i < |l.entries| ==> !Waits(l.entries[i], now))
    ensures NextReport(l, now).Some? <==> i < |l.entries| && l.entries[i].up + l.entries[i].down > 0
    ensures NextReport(l, now).Some? ==>
              var (next, r) := NextReport(l, now).value; var e := l.entries[i];
              && r.context == e.context && r.seq_ == e.seq_
              && r.up == (if e.up < MAX_REPORT_BYTES then e.up else MAX_REPORT_BYTES)
              && r.down == (if r.up + e.down < MAX_REPORT_BYTES then e.down else MAX_REPORT_BYTES - r.up)
              && next.entries[..i + 1] == l.entries[..i] + [Entry(e.context, e.seq_, r.up, r.down, true, e.retryAfter)]
              && (if r.up == e.up && r.down == e.down then next.entries[i + 1..] == l.entries[i + 1..]
                  else next.entries[i + 1..] == [Entry(e.context, l.nextSeq, e.up - r.up, e.down - r.down, false, 0)] + l.entries[i + 1..])
  {
    assert FirstReady(l.entries, now) == i;
  }

  /** A refusal delays the entries of its key and changes nothing else. */
  lemma DefersOnlyItsKey(l: Ledger, r: Report, retryAfter: nat, k: nat)
    requires k < |l.entries|
    ensures var after := DeferReport(l, r, retryAfter); var e := l.entries[k];
            && |after.entries| == |l.entries| && after == l.(entries := after.entries)
            && after.entries[k] == if e.context.sessionId == r.context.sessionId && e.seq_ == r.seq_ then e.(retryAfter := retryAfter) else e
  {
  }

  /** What comes back from disk may have been received: every entry is frozen, and new numbers are above theirs. */
  lemma LoadedIsFrozen(l: Ledger, k: nat)
    requires k < |l.entries|
    ensures var after := Loaded(l);
            && |after.entries| == |l.entries| && after.entries[k] == l.entries[k].(frozen := true)
            && after.nextSeq >= l.nextSeq && l.entries[k].seq_ < after.nextSeq
  {
  }
}
