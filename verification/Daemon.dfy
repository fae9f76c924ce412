/**
  The live daemon of `scripts/run_live.py`: the run loop with its failure count, the metrics
  it updates and the progress records it emits.

  The stop event, which signals set from outside, appears as the number of loop tests that
  find it unset: the loop sees one outcome for each.
 */
module Daemon {
  import opened Wrappers
  import opened Seqs
  import opened Streams

  // What one run comes to. A completed run may report a monitor status; a missing or unknown
  // one counts as active. An exception that is no `Exception`, such as SystemExit, is not caught
  // by the loop.
  datatype Outcome = Completed(reported: Option<MonitorStatus>) | Raised(message: string) | Escapes

  function Resolved(reported: Option<MonitorStatus>): MonitorStatus {
    if reported.Some? then reported.value else Active
  }

  datatype ProgressStatus = Running | DegradedRun | Failed

  datatype LastError = NoError | StreamReconnecting | StreamDegraded | ReconnectingAfterError | RuntimeException | ShutdownSignal | Message(text: string)

  datatype Progress = Progress(status: ProgressStatus, lastError: LastError, monitor: MonitorStatus, reconnectCount: nat)

  class ProgressLog {
    var records: seq<Progress>

    constructor ()
      ensures records == []
    {
      records := [];
    }

    method Emit(record: Progress)
      modifies this
      ensures records == old(records) + [record]
    {
      records := records + [record];
    }
  }

  class Metrics {
    var runLoopTotal: nat
    var failuresTotal: nat
    var monitor: MonitorStatus

    constructor ()
      ensures runLoopTotal == 0 && failuresTotal == 0 && monitor == Active
    {
      runLoopTotal, failuresTotal, monitor := 0, 0, Active;
    }
  }

  function Failures(outcomes: seq<Outcome>): nat {
    if outcomes == [] then 0
    else Failures(outcomes[..|outcomes| - 1]) + if outcomes[|outcomes| - 1].Raised? then 1 else 0
  }

  // The records of one run, after n failures.
  function RecordsOf(outcome: Outcome, n: nat, maxRetries: int): seq<Progress> {
    match outcome
    case Completed(reported) =>
      (match Resolved(reported)
       case Reconnecting => [Progress(Running, StreamReconnecting, Reconnecting, n)]
       case Degraded => [Progress(DegradedRun, StreamDegraded, Degraded, n)]
       case Active => if n > 0 then [Progress(Running, NoError, Active, n)] else [])
    case Raised(message) =>
      [Progress(DegradedRun, ReconnectingAfterError, Reconnecting, n + 1)]
      + if n + 1 > maxRetries then [Progress(Failed, Message(message), Degraded, n + 1)] else []
    case Escapes => []
  }

  function Records(outcomes: seq<Outcome>, maxRetries: int): seq<Progress> {
    if outcomes == [] then [] else
    var before := outcomes[..|outcomes| - 1];
    Records(before, maxRetries) + RecordsOf(outcomes[|outcomes| - 1], Failures(before), maxRetries)
  }

  function MonitorAfter(outcomes: seq<Outcome>, maxRetries: int, initial: MonitorStatus): MonitorStatus {
    if outcomes == [] then initial else
    match outcomes[|outcomes| - 1]
    case Completed(reported) => Resolved(reported)
    case Raised(_) => if Failures(outcomes) > maxRetries then Degraded else Reconnecting
    case Escapes => MonitorAfter(outcomes[..|outcomes| - 1], maxRetries, initial)
  }

  // Does the daemon give up after the last of these runs?
  predicate Ends(outcomes: seq<Outcome>, maxRetries: int) {
    outcomes != [] && outcomes[|outcomes| - 1].Raised? && Failures(outcomes) > maxRetries
  }

  predicate Escaped(outcomes: seq<Outcome>) {
    outcomes != [] && outcomes[|outcomes| - 1].Escapes?
  }

  predicate Stops(outcomes: seq<Outcome>, maxRetries: int) {
    Ends(outcomes, maxRetries) || Escaped(outcomes)
  }

  // `ran` runs were executed: up to the first that stops the loop, or all of them.
  ghost predicate Executed(outcomes: seq<Outcome>, ran: nat, maxRetries: int) {
    && ran <= |outcomes|
    && (forall i | 0 <= i < ran :: !Stops(outcomes[..i], maxRetries))
    && (Stops(outcomes[..ran], maxRetries) || ran == |outcomes|)
  }

  // The body of the loop for a run that escapes no handler: its metrics and its records.
  method RunOnce(outcome: Outcome, n: nat, maxRetries: int, metrics: Metrics, log: ProgressLog)
    returns (reconnectCount: nat, ends: bool)
    requires !outcome.Escapes?
    modifies metrics`failuresTotal, metrics`monitor, log
    ensures reconnectCount == n + (if outcome.Raised? then 1 else 0)
    ensures ends <==> outcome.Raised? && reconnectCount > maxRetries
    ensures metrics.failuresTotal == old(metrics.failuresTotal) + reconnectCount - n
    ensures metrics.monitor == if outcome.Completed? then Resolved(outcome.reported) else if ends then Degraded else Reconnecting
    ensures log.records == old(log.records) + RecordsOf(outcome, n, maxRetries)
    ensures outcome == Completed(None) ==> metrics.monitor == Active
    ensures outcome.Completed? && outcome.reported.Some? ==> metrics.monitor == outcome.reported.value
  {
    reconnectCount, ends := n, false;
    if outcome.Completed? {
      var status := Resolved(outcome.reported);
      metrics.monitor := status;
      if status == Reconnecting {
        log.Emit(Progress(Running, StreamReconnecting, Reconnecting, reconnectCount));
      } else if status == Degraded {
        log.Emit(Progress(DegradedRun, StreamDegraded, Degraded, reconnectCount));
      } else if reconnectCount > 0 {
        log.Emit(Progress(Running, NoError, status, reconnectCount));
      }
    } else {
      reconnectCount := reconnectCount + 1;
      metrics.failuresTotal := metrics.failuresTotal + 1;
      metrics.monitor := Reconnecting;
      log.Emit(Progress(DegradedRun, ReconnectingAfterError, Reconnecting, reconnectCount));
      if reconnectCount > maxRetries {
        metrics.monitor := Degraded;
        log.Emit(Progress(Failed, Message(outcome.message), Degraded, reconnectCount));
        ends := true;
      }
    }
  }

  // What the loop leaves behind after these runs.
  twostate predicate LoopEffects(outcomes: seq<Outcome>, maxRetries: int, metrics: Metrics, log: ProgressLog)
    reads metrics, log
  {
    && metrics.runLoopTotal == old(metrics.runLoopTotal) + |outcomes|
    && metrics.failuresTotal == old(metrics.failuresTotal) + Failures(outcomes)
    && metrics.monitor == MonitorAfter(outcomes, maxRetries, old(metrics.monitor))
    && log.records == old(log.records) + Records(outcomes, maxRetries)
  }

  // Exit code and failure count; None when an exception escapes.
  method RunDaemonLoop(outcomes: seq<Outcome>, maxRetries: int, metrics: Metrics, log: ProgressLog)
    returns (r: Option<(int, nat)>, ghost ran: nat)
    modifies metrics, log
    ensures Executed(outcomes, ran, maxRetries)
    ensures r == if Escaped(outcomes[..ran]) then None
                 else Some((if Ends(outcomes[..ran], maxRetries) then 1 else 0, Failures(outcomes[..ran])))
    ensures LoopEffects(outcomes[..ran], maxRetries, metrics, log)
  {
    var exitCode, reconnectCount := 0, 0;
    ran := 0;
    var i := 0;
    while i < |outcomes|
      invariant ran == i <= |outcomes| && exitCode == 0
      invariant forall j | 0 <= j <= i :: !Stops(outcomes[..j], maxRetries)
      invariant reconnectCount == Failures(outcomes[..i])
      invariant LoopEffects(outcomes[..i], maxRetries, metrics, log)
    {
      assert outcomes[..i + 1][..i] == outcomes[..i];
      Assoc(old(log.records), Records(outcomes[..i], maxRetries), RecordsOf(outcomes[i], reconnectCount, maxRetries));
      metrics.runLoopTotal := metrics.runLoopTotal + 1;
      ran := i + 1;
      if outcomes[i].Escapes? {
        return None, ran;
      }
      var ends;
      reconnectCount, ends := RunOnce(outcomes[i], reconnectCount, maxRetries, metrics, log);
      i := i + 1;
      if ends {
        exitCode := 1;
        break;
      }
    }
    r := Some((exitCode, reconnectCount));
  }

  // `main`: start-up validation, the loop, and the record written on the way out, which knows
  // the failure count only of a loop that returned. None when an exception escapes.
  method RunMain(fatalErrors: seq<string>, warnings: seq<string>, outcomes: seq<Outcome>, maxRetries: int, log: ProgressLog)
    returns (exitCode: Option<int>, ghost ran: nat)
    modifies log
    ensures fatalErrors != [] ==>
              exitCode == Some(1) && log.records == old(log.records) + [Progress(Failed, Message(fatalErrors[0]), Degraded, 0)]
    ensures fatalErrors == [] ==>
              && Executed(outcomes, ran, maxRetries)
              && exitCode == (if Escaped(outcomes[..ran]) then None else Some(if Ends(outcomes[..ran], maxRetries) then 1 else 0))
              && log.records == old(log.records) + Warned(warnings) + Records(outcomes[..ran], maxRetries)
                                + [if exitCode.None? then LastRecord(1, 0) else LastRecord(exitCode.value, Failures(outcomes[..ran]))]
    ensures fatalErrors == [] && warnings != [] ==>
              && |log.records| > |old(log.records)|
              && log.records[|old(log.records)|] == Progress(Running, Message(warnings[0]), Active, 0)
    ensures fatalErrors == [] ==>
              && exitCode == (if GivesUp(outcomes, maxRetries) then Some(1) else if Caught(outcomes) < |outcomes| then None else Some(0))
              && |log.records| > |old(log.records)|
              && log.records[|log.records| - 1] ==
                 if GivesUp(outcomes, maxRetries) then Progress(Failed, RuntimeException, Degraded, Allowed(maxRetries) + 1)
                 else if Caught(outcomes) < |outcomes| then Progress(Failed, RuntimeException, Degraded, 0)
                 else Progress(DegradedRun, ShutdownSignal, Degraded, CaughtFailures(outcomes))
  {
    ran := 0;
    if fatalErrors != [] {
      log.Emit(Progress(Failed, Message(fatalErrors[0]), Degraded, 0));
      return Some(1), 0;
    }
    if warnings != [] {
      log.Emit(Progress(Running, Message(warnings[0]), Active, 0));
    }
    var metrics := new Metrics();
    var code, reconnectCount := 1, 0;
    var returned;
    returned, ran := RunDaemonLoop(outcomes, maxRetries, metrics, log);
    if returned.Some? {
      code, reconnectCount := returned.value.0, returned.value.1;
      exitCode := Some(code);
    } else {
      exitCode := None;
    }
    log.Emit(LastRecord(code, reconnectCount));
    ExitExactlyWhen(outcomes, ran, maxRetries);
  }

  function Warned(warnings: seq<string>): seq<Progress> {
    if warnings == [] then [] else [Progress(Running, Message(warnings[0]), Active, 0)]
  }

  function LastRecord(exitCode: int, reconnectCount: nat): Progress {
    if exitCode != 0 then Progress(Failed, RuntimeException, Degraded, reconnectCount)
    else Progress(DegradedRun, ShutdownSignal, Degraded, reconnectCount)
  }

  // ---- Every run of the daemon

  // Failures tolerated: a negative setting works like zero.
  function Allowed(maxRetries: int): nat {
    if maxRetries > 0 then maxRetries else 0
  }

  lemma {:induction false} FailuresGrow(outcomes: seq<Outcome>, k: nat)
    requires k <= |outcomes|
    ensures Failures(outcomes[..k]) <= Failures(outcomes)
    ensures Failures(outcomes) <= Failures(outcomes[..k]) + |outcomes| - k
    decreases |outcomes|
  {
    if k < |outcomes| {
      var init := outcomes[..|outcomes| - 1];
      FailuresGrow(init, k);
      assert init[..k] == outcomes[..k];
    } else {
      assert outcomes[..k] == outcomes;
    }
  }

  lemma {:induction false} NotEnded(outcomes: seq<Outcome>, k: nat, maxRetries: int)
    requires k <= |outcomes| && forall i | 0 <= i <= k :: !Stops(outcomes[..i], maxRetries)
    ensures Failures(outcomes[..k]) <= Allowed(maxRetries)
    ensures forall i | 0 <= i < k :: !outcomes[i].Escapes?
  {
    if k > 0 {
      NotEnded(outcomes, k - 1, maxRetries);
      assert outcomes[..k][..k - 1] == outcomes[..k - 1];
      assert !Stops(outcomes[..k], maxRetries);
    }
  }

  // The runs before the first exception that escapes.
  function Caught(outcomes: seq<Outcome>): (n: nat)
    ensures n <= |outcomes| && forall i | 0 <= i < n :: !outcomes[i].Escapes?
    ensures n < |outcomes| ==> outcomes[n].Escapes?
  {
    if outcomes == [] || outcomes[0].Escapes? then 0 else 1 + Caught(outcomes[1..])
  }

  lemma CaughtAt(outcomes: seq<Outcome>, k: nat)
    requires k <= |outcomes| && forall i | 0 <= i < k :: !outcomes[i].Escapes?
    ensures k <= Caught(outcomes)
    ensures k == |outcomes| || outcomes[k].Escapes? ==> Caught(outcomes) == k
  {
  }

  // The failures that count: all those before an exception escapes.
  function CaughtFailures(outcomes: seq<Outcome>): nat {
    Failures(outcomes[..Caught(outcomes)])
  }

  // More runs fail, in all, than are tolerated.
  predicate GivesUp(outcomes: seq<Outcome>, maxRetries: int) {
    CaughtFailures(outcomes) > Allowed(maxRetries)
  }

  lemma GaveUp(outcomes: seq<Outcome>, ran: nat, maxRetries: int)
    requires Executed(outcomes, ran, maxRetries) && Ends(outcomes[..ran], maxRetries)
    ensures Failures(outcomes[..ran]) == Allowed(maxRetries) + 1 <= CaughtFailures(outcomes)
  {
    NotEnded(outcomes, ran - 1, maxRetries);
    assert outcomes[..ran][..ran - 1] == outcomes[..ran - 1];
    CaughtAt(outcomes, ran);
    assert outcomes[..Caught(outcomes)][..ran] == outcomes[..ran];
    FailuresGrow(outcomes[..Caught(outcomes)], ran);
  }

  lemma RanOut(outcomes: seq<Outcome>, ran: nat, maxRetries: int)
    requires Executed(outcomes, ran, maxRetries) && !Ends(outcomes[..ran], maxRetries)
    ensures Failures(outcomes[..ran]) == CaughtFailures(outcomes) <= Allowed(maxRetries)
    ensures Escaped(outcomes[..ran]) <==> Caught(outcomes) < |outcomes|
  {
    if Escaped(outcomes[..ran]) {
      NotEnded(outcomes, ran - 1, maxRetries);
      assert outcomes[..ran][..ran - 1] == outcomes[..ran - 1];
      CaughtAt(outcomes, ran - 1);
    } else {
      NotEnded(outcomes, ran, maxRetries);
      CaughtAt(outcomes, ran);
    }
  }

  // Exit code and count depend on one number: how many of the runs raise in all before an
  // exception escapes. The daemon gives up exactly when there are more of them than allowed,
  // having run up to the one that is too many; successes in between neither reset nor delay
  // anything.
  lemma ExitExactlyWhen(outcomes: seq<Outcome>, ran: nat, maxRetries: int)
    requires Executed(outcomes, ran, maxRetries)
    ensures Ends(outcomes[..ran], maxRetries) <==> CaughtFailures(outcomes) > Allowed(maxRetries)
    ensures Escaped(outcomes[..ran]) <==> CaughtFailures(outcomes) <= Allowed(maxRetries) && Caught(outcomes) < |outcomes|
    ensures Failures(outcomes[..ran]) == if CaughtFailures(outcomes) > Allowed(maxRetries) then Allowed(maxRetries) + 1 else CaughtFailures(outcomes)
  {
    if Ends(outcomes[..ran], maxRetries) {
      GaveUp(outcomes, ran, maxRetries);
    } else {
      RanOut(outcomes, ran, maxRetries);
    }
  }

  // There is one number of runs to execute, so what the daemon does is a function of the
  // outcomes and the allowance.
  lemma ExecutedUnique(outcomes: seq<Outcome>, a: nat, b: nat, maxRetries: int)
    requires Executed(outcomes, a, maxRetries) && Executed(outcomes, b, maxRetries)
    ensures a == b
  {
    var p, q := Stops(outcomes[..a], maxRetries), Stops(outcomes[..b], maxRetries);
    if a != b {
      assert false;
    }
  }

  // When it gives up, the last two records are the reconnect attempt and the failure, both
  // with the final count.
  lemma LastRecordsOnExit(outcomes: seq<Outcome>, ran: nat, maxRetries: int)
    requires Executed(outcomes, ran, maxRetries) && Ends(outcomes[..ran], maxRetries)
    ensures var records, n := Records(outcomes[..ran], maxRetries), Allowed(maxRetries) + 1;
            && ran > 0 && outcomes[ran - 1].Raised?
            && |records| >= 2
            && records[|records| - 2] == Progress(DegradedRun, ReconnectingAfterError, Reconnecting, n)
            && records[|records| - 1] == Progress(Failed, Message(outcomes[ran - 1].message), Degraded, n)
  {
    ExitExactlyWhen(outcomes, ran, maxRetries);
  }

  // The metrics gauge and the progress records agree: the last run's last record carries the
  // status the gauge shows, and only an active run before any failure leaves no record.
  lemma GaugeMatchesRecords(outcomes: seq<Outcome>, maxRetries: int, initial: MonitorStatus)
    requires outcomes != []
    ensures var last, n := outcomes[|outcomes| - 1], Failures(outcomes);
            var records, own := Records(outcomes, maxRetries), RecordsOf(last, Failures(outcomes[..|outcomes| - 1]), maxRetries);
            && (own != [] ==>
                  var record := records[|records| - 1];
                  && record.monitor == MonitorAfter(outcomes, maxRetries, initial) && record.reconnectCount == n
                  && (record.status == Failed <==> last.Raised? && n > maxRetries)
                  && (record.status == Running <==> last.Completed? && record.monitor != Degraded)
                  && (record.lastError == NoError <==> last.Completed? && record.monitor == Active)
                  && (last.Raised? ==> record.lastError == if n > maxRetries then Message(last.message) else ReconnectingAfterError)
                  && (last.Completed? && record.monitor == Reconnecting ==> record.lastError == StreamReconnecting)
                  && (last.Completed? && record.monitor == Degraded ==> record.lastError == StreamDegraded))
            && (own == [] <==> last.Escapes? || (last.Completed? && MonitorAfter(outcomes, maxRetries, initial) == Active && n == 0))
  {
  }

  function ReconnectRecords(records: seq<Progress>): nat {
    if records == [] then 0
    else ReconnectRecords(records[..|records| - 1]) + if records[|records| - 1].lastError == ReconnectingAfterError then 1 else 0
  }

  lemma {:induction false} ReconnectRecordsConcat(a: seq<Progress>, b: seq<Progress>)
    ensures ReconnectRecords(a + b) == ReconnectRecords(a) + ReconnectRecords(b)
    decreases |b|
  {
    if b == [] {
      assert a + b == a;
    } else {
      var init := b[..|b| - 1];
      ReconnectRecordsConcat(a, init);
      assert (a + b)[..|a + b| - 1] == a + init;
    }
  }

  lemma ReconnectRecordsOfRun(outcome: Outcome, n: nat, maxRetries: int)
    ensures ReconnectRecords(RecordsOf(outcome, n, maxRetries)) == if outcome.Raised? then 1 else 0
  {
    var records := RecordsOf(outcome, n, maxRetries);
    if |records| == 2 {
      assert records == [records[0]] + [records[1]];
      ReconnectRecordsConcat([records[0]], [records[1]]);
      OneRecord(records[0]);
      OneRecord(records[1]);
    } else if |records| == 1 {
      assert records == [records[0]];
      OneRecord(records[0]);
    }
  }

  lemma OneRecord(record: Progress)
    ensures ReconnectRecords([record]) == if record.lastError == ReconnectingAfterError then 1 else 0
  {
    assert [record][..0] == [];
  }

  // Every failure is recorded once.
  lemma {:induction false} FailuresRecorded(outcomes: seq<Outcome>, maxRetries: int)
    ensures ReconnectRecords(Records(outcomes, maxRetries)) == Failures(outcomes)
    decreases |outcomes|
  {
    if outcomes != [] {
      var before, last := outcomes[..|outcomes| - 1], outcomes[|outcomes| - 1];
      FailuresRecorded(before, maxRetries);
      ReconnectRecordsConcat(Records(before, maxRetries), RecordsOf(last, Failures(before), maxRetries));
      ReconnectRecordsOfRun(last, Failures(before), maxRetries);
    }
  }

  predicate CountsRise(records: seq<Progress>, most: nat) {
    && (forall i, j | 0 <= i <= j < |records| :: records[i].reconnectCount <= records[j].reconnectCount)
    && (forall i | 0 <= i < |records| :: records[i].reconnectCount <= most)
  }

  // The counts recorded never fall: a success does not reset them.
  lemma {:induction false} CountsNeverFall(outcomes: seq<Outcome>, maxRetries: int)
    ensures CountsRise(Records(outcomes, maxRetries), Failures(outcomes))
    decreases |outcomes|
  {
    if outcomes != [] {
      var before, last := outcomes[..|outcomes| - 1], outcomes[|outcomes| - 1];
      CountsNeverFall(before, maxRetries);
      CountsRiseConcat(Records(before, maxRetries), RecordsOf(last, Failures(before), maxRetries), Failures(before), Failures(outcomes));
    }
  }

  lemma CountsRiseConcat(a: seq<Progress>, b: seq<Progress>, m: nat, n: nat)
    requires CountsRise(a, m) && m <= n && forall i | 0 <= i < |b| :: b[i].reconnectCount == n
    ensures CountsRise(a + b, n)
  {
  }
}
