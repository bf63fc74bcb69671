/** At-least-once metrics reporting (src/node.ts): task counters, one outstanding
    batch, and any number of overlapping heartbeats over a lossy network. */
module Heartbeat {
  import opened Optional

  type Id = int   // a random UUID: only freshness matters

  datatype Batch = Batch(id: Id, ok: nat, fail: nat, latencyTotalMs: nat)

  /** An OK reply: its body may be unreadable, or may or may not name a batch. */
  datatype Reply = Unreadable | Body(accepted: Option<Id>)

  /** The node's counters. */
  datatype Node = Node(batch: Option<Batch>, ok: nat, fail: nat, latency: nat)

  function Finish(n: Node, succeeded: bool, latencyMs: int): Node {
    n.(ok := if succeeded then n.ok + 1 else n.ok,
       fail := if succeeded then n.fail else n.fail + 1,
       latency := if latencyMs > 0 then n.latency + latencyMs else n.latency)
  }

  /** The first synchronous stretch of `heartbeat`: open a batch if none is
      outstanding and there is something to report. */
  function Begin(n: Node, uuid: Id): Node {
    if n.batch.None? && (n.ok > 0 || n.fail > 0)
    then Node(Some(Batch(uuid, n.ok, n.fail, n.latency)), 0, 0, 0)
    else n
  }

  /** The last stretch, for the heartbeat that carried `carried`. */
  function Acknowledge(n: Node, carried: Option<Batch>, reply: Reply): Node {
    if carried.Some? && (reply.Unreadable? || reply.accepted.None? || reply.accepted == Some(carried.value.id))
       && n.batch.Some? && n.batch.value.id == carried.value.id
    then n.(batch := None)
    else n
  }

  class Metrics {
    var pendingBatch: Option<Batch>
    var successPending: nat
    var failedPending: nat
    var latencyPending: nat

    function View(): Node
      reads this
    {
      Node(pendingBatch, successPending, failedPending, latencyPending)
    }

    constructor ()
      ensures View() == Node(None, 0, 0, 0)
    {
      pendingBatch, successPending, failedPending, latencyPending := None, 0, 0, 0;
    }

    method TaskFinished(succeeded: bool, latencyMs: int)
      modifies this
      ensures View() == Finish(old(View()), succeeded, latencyMs)
    {
      if succeeded {
        successPending := successPending + 1;
      } else {
        failedPending := failedPending + 1;
      }
      if latencyMs > 0 {
        latencyPending := latencyPending + latencyMs;
      }
    }

    method BeginHeartbeat(uuid: Id) returns (carried: Option<Batch>)
      modifies this
      ensures View() == Begin(old(View()), uuid) && carried == View().batch
    {
      if pendingBatch == None && (successPending > 0 || failedPending > 0) {
        pendingBatch := Some(Batch(uuid, successPending, failedPending, latencyPending));
        successPending, failedPending, latencyPending := 0, 0, 0;
      }
      carried := pendingBatch;
    }

    method ReplyReceived(carried: Option<Batch>, reply: Reply)
      modifies this
      ensures View() == Acknowledge(old(View()), carried, reply)
    {
      if carried.Some? {
        if reply.Unreadable? || reply.accepted == None || reply.accepted == Some(carried.value.id) {
          if pendingBatch.Some? && pendingBatch.value.id == carried.value.id {
            pendingBatch := None;
          }
        }
      }
    }
  }

  // ---- The node, the network and the directory together ----

  /** What a request tells the directory about a batch. */
  datatype Report = Report(id: Id, ok: nat, fail: nat)

  function ReportOf(b: Batch): Report { Report(b.id, b.ok, b.fail) }

  predicate Known(directory: seq<Report>, id: Id) {
    exists i :: 0 <= i < |directory| && directory[i].id == id
  }

  /** Keyed by batch id: a batch id already known changes nothing. */
  function Record(directory: seq<Report>, r: Report): seq<Report> {
    if Known(directory, r.id) then directory else directory + [r]
  }

  function TotalOk(directory: seq<Report>): nat {
    if directory == [] then 0 else TotalOk(directory[..|directory| - 1]) + directory[|directory| - 1].ok
  }

  function TotalFail(directory: seq<Report>): nat {
    if directory == [] then 0 else TotalFail(directory[..|directory| - 1]) + directory[|directory| - 1].fail
  }

  /** `sent`: every batch some heartbeat has carried. A request may be lost,
      delayed or delivered repeatedly, so a sent batch may arrive any number of
      times from then on; the same holds for the replies. The counts of
      finished tasks are history. */
  datatype System = System(node: Node, sent: set<Batch>, directory: seq<Report>, finishedOk: nat, finishedFail: nat)

  const INITIAL := System(Node(None, 0, 0, 0), {}, [], 0, 0)

  datatype Step =
    | TaskDone(succeeded: bool, latencyMs: int)
    | Start(uuid: Id)
    | Arrive(batch: Batch)
    | Answer(batch: Batch, reply: Reply)

  /** A uuid is new; only sent batches arrive; an OK reply to a request is
      sent after its batch was recorded. */
  predicate Enabled(s: System, t: Step) {
    match t
    case TaskDone(_, _) => true
    case Start(uuid) => forall b <- s.sent :: b.id != uuid
    case Arrive(b) => b in s.sent
    case Answer(b, _) => b in s.sent && ReportOf(b) in s.directory
  }

  function Next(s: System, t: Step): System {
    match t
    case TaskDone(succeeded, ms) =>
      s.(node := Finish(s.node, succeeded, ms),
         finishedOk := if succeeded then s.finishedOk + 1 else s.finishedOk,
         finishedFail := if succeeded then s.finishedFail else s.finishedFail + 1)
    case Start(uuid) =>
      var n := Begin(s.node, uuid);
      s.(node := n, sent := if n.batch.Some? then s.sent + {n.batch.value} else s.sent)
    case Arrive(b) => s.(directory := Record(s.directory, ReportOf(b)))
    case Answer(b, reply) => s.(node := Acknowledge(s.node, Some(b), reply))
  }

  /** The state after a run; None when a step was not enabled. */
  function Run(s: System, steps: seq<Step>): Option<System>
    decreases |steps|
  {
    if steps == [] then Some(s)
    else if Enabled(s, steps[0]) then Run(Next(s, steps[0]), steps[1..])
    else None
  }

  /** The outstanding batch, as long as the directory has not recorded it. */
  function Unrecorded(s: System): Report {
    if s.node.batch.Some? && !Known(s.directory, s.node.batch.value.id)
    then ReportOf(s.node.batch.value) else Report(0, 0, 0)
  }

  /** Nothing is lost and nothing is counted twice. */
  predicate Conserved(s: System) {
    && TotalOk(s.directory) + Unrecorded(s).ok + s.node.ok == s.finishedOk
    && TotalFail(s.directory) + Unrecorded(s).fail + s.node.fail == s.finishedFail
  }

  ghost predicate Inv(s: System) {
    && (forall a, b :: a in s.sent && b in s.sent && a.id == b.id ==> a == b)
    && (forall b <- s.sent :: b.ok + b.fail > 0)
    && (s.node.batch.Some? ==> s.node.batch.value in s.sent)
    && (forall b <- s.sent :: ReportOf(b) in s.directory || s.node.batch == Some(b))
    && (forall r <- s.directory :: exists b :: b in s.sent && ReportOf(b) == r)
    && (forall i, j :: 0 <= i < j < |s.directory| ==> s.directory[i].id != s.directory[j].id)
    && Conserved(s)
  }

  lemma RecordTotals(d: seq<Report>, r: Report)
    ensures TotalOk(Record(d, r)) == TotalOk(d) + if Known(d, r.id) then 0 else r.ok
    ensures TotalFail(Record(d, r)) == TotalFail(d) + if Known(d, r.id) then 0 else r.fail
  {
    assert (d + [r])[..|d|] == d;
  }

  /** Within the invariant, an id is known exactly when its batch is recorded. */
  lemma KnownMeansRecorded(s: System, b: Batch)
    requires Inv(s) && b in s.sent
    ensures Known(s.directory, b.id) <==> ReportOf(b) in s.directory
  {
    if Known(s.directory, b.id) {
      var i :| 0 <= i < |s.directory| && s.directory[i].id == b.id;
      assert s.directory[i] in s.directory;
    }
    if ReportOf(b) in s.directory {
      var i :| 0 <= i < |s.directory| && s.directory[i] == ReportOf(b);
    }
  }

  lemma KnownMeansSent(s: System, id: Id)
    requires Inv(s)
    ensures Known(s.directory, id) ==> exists b :: b in s.sent && b.id == id
  {
    if Known(s.directory, id) {
      var i :| 0 <= i < |s.directory| && s.directory[i].id == id;
      assert s.directory[i] in s.directory;
    }
  }

  /** Recording a batch leaves the rest of the books alone. */
  lemma ArriveRecords(s: System, b: Batch)
    requires Inv(s) && b in s.sent
    ensures var d := Record(s.directory, ReportOf(b));
            && s.directory <= d && ReportOf(b) in d
            && (forall r <- d :: r in s.directory || r == ReportOf(b))
            && (forall i, j :: 0 <= i < j < |d| ==> d[i].id != d[j].id)
            && (forall id :: Known(d, id) <==> Known(s.directory, id) || id == b.id)
  {
    KnownMeansRecorded(s, b);
    var d := Record(s.directory, ReportOf(b));
    if !Known(s.directory, b.id) {
      assert d == s.directory + [ReportOf(b)] && d[|s.directory|] == ReportOf(b);
      assert forall i :: 0 <= i < |s.directory| ==> d[i] == s.directory[i];
    }
    forall id ensures Known(d, id) <==> Known(s.directory, id) || id == b.id {
      if Known(s.directory, id) {
        var i :| 0 <= i < |s.directory| && s.directory[i].id == id;
        assert d[i].id == id;
      }
    }
  }

  lemma InvArrive(s: System, b: Batch)
    requires Inv(s) && b in s.sent
    ensures Inv(Next(s, Arrive(b)))
    ensures ReportOf(b) in Next(s, Arrive(b)).directory
  {
    KnownMeansRecorded(s, b);
    RecordTotals(s.directory, ReportOf(b));
    ArriveRecords(s, b);
    assert !Known(s.directory, b.id) ==> s.node.batch == Some(b);
    hide Known, Record, TotalOk, TotalFail;
  }

  lemma InvNext(s: System, t: Step)
    requires Inv(s) && Enabled(s, t)
    ensures Inv(Next(s, t))
  {
    match t
    case TaskDone(_, _) =>
    case Start(uuid) => KnownMeansSent(s, uuid);
    case Arrive(b) => InvArrive(s, b);
    case Answer(b, _) => KnownMeansRecorded(s, b);
  }

  /** Over every run from the start: the directory's distinct batches, the
      outstanding batch if not yet recorded and the pending counters add up to
      all finished tasks. */
  lemma {:induction false} Conservation(s: System, steps: seq<Step>)
    requires Inv(s) && Run(s, steps).Some?
    ensures Inv(Run(s, steps).value) && Conserved(Run(s, steps).value)
    decreases |steps|
  {
    if steps != [] {
      InvNext(s, steps[0]);
      Conservation(Next(s, steps[0]), steps[1..]);
    }
  }

  lemma InitialInv()
    ensures Inv(INITIAL)
  {
  }

  /** A batch id stands for the same contents at every two points of a run, and
      recorded reports are never changed or dropped. */
  lemma {:induction false} ContentsNeverChange(s: System, steps: seq<Step>, a: Batch, b: Batch)
    requires Inv(s) && Run(s, steps).Some?
    ensures s.sent <= Run(s, steps).value.sent && s.directory <= Run(s, steps).value.directory
    ensures a in s.sent && b in Run(s, steps).value.sent && a.id == b.id ==> a == b
    decreases |steps|
  {
    if steps != [] {
      InvNext(s, steps[0]);
      ContentsNeverChange(Next(s, steps[0]), steps[1..], a, b);
    }
  }

  // ---- Latency ----

  /** The batches opened along a run, in order. */
  function Opened(s: System, steps: seq<Step>): seq<Batch>
    decreases |steps|
  {
    if steps == [] then []
    else
      var n := Next(s, steps[0]);
      var later := Opened(n, steps[1..]);
      if s.node.batch.None? && n.node.batch.Some? then [n.node.batch.value] + later else later
  }

  /** The time measured along a run; a clock that went back measures nothing. */
  function Measured(steps: seq<Step>): nat {
    if steps == [] then 0
    else
      (if steps[0].TaskDone? && steps[0].latencyMs > 0 then steps[0].latencyMs else 0) + Measured(steps[1..])
  }

  function Carried(bs: seq<Batch>): nat {
    if bs == [] then 0 else bs[0].latencyTotalMs + Carried(bs[1..])
  }

  lemma CarriedCons(b: Batch, bs: seq<Batch>)
    ensures Carried([b] + bs) == b.latencyTotalMs + Carried(bs)
  {
    assert ([b] + bs)[1..] == bs;
  }

  /** Over every run, the time measured is what the batches opened since carry,
      each opened once and under an id of its own, plus what is still pending. */
  lemma {:induction false} LatencyConserved(s: System, steps: seq<Step>)
    requires Run(s, steps).Some?
    ensures s.node.latency + Measured(steps) == Carried(Opened(s, steps)) + Run(s, steps).value.node.latency
    decreases |steps|
  {
    if steps != [] {
      var n := Next(s, steps[0]);
      LatencyConserved(n, steps[1..]);
      if s.node.batch.None? && n.node.batch.Some? {
        CarriedCons(n.node.batch.value, Opened(n, steps[1..]));
      }
      hide Known, Record;
    }
  }

  /** What a heartbeat has carried is what was opened, and nothing is opened twice. */
  lemma {:induction false} OpenedOnce(s: System, steps: seq<Step>)
    requires Inv(s) && Run(s, steps).Some?
    ensures forall b :: b in Run(s, steps).value.sent <==> b in s.sent || b in Opened(s, steps)
    ensures forall a, b :: a in s.sent && b in Opened(s, steps) ==> a.id != b.id
    ensures Apart(Opened(s, steps))
    decreases |steps|
  {
    if steps != [] {
      var n := Next(s, steps[0]);
      InvNext(s, steps[0]);
      OpenedOnce(n, steps[1..]);
      StartSends(s, steps[0]);
      hide Inv, Next, Enabled, Apart;
      if s.node.batch.None? && n.node.batch.Some? {
        assert n.node.batch.value in n.sent;
        ApartCons(n.node.batch.value, Opened(n, steps[1..]));
      }
    }
  }

  predicate Apart(bs: seq<Batch>) {
    forall i, j :: 0 <= i < j < |bs| ==> bs[i].id != bs[j].id
  }

  lemma ApartCons(b: Batch, bs: seq<Batch>)
    requires Apart(bs) && forall c <- bs :: c.id != b.id
    ensures Apart([b] + bs)
  {
    assert forall i :: 0 <= i < |bs| ==> bs[i] in bs;
  }

  lemma StartSends(s: System, t: Step)
    requires Inv(s) && Enabled(s, t)
    ensures var n := Next(s, t);
            if s.node.batch.None? && n.node.batch.Some?
            then n.sent == s.sent + {n.node.batch.value} && forall a <- s.sent :: a.id != n.node.batch.value.id
            else n.sent == s.sent
  {
    if t.Start? && s.node.batch.Some? {
      assert s.sent + {s.node.batch.value} == s.sent;
    }
    hide Known, Record;
  }

  /** An acknowledgement clears the outstanding batch only if it answers that
      very batch, and then the directory has it; so a late acknowledgement of an
      old batch leaves a newer one alone. */
  lemma AcknowledgementIsPrecise(s: System, b: Batch, reply: Reply)
    requires Inv(s) && Enabled(s, Answer(b, reply))
    ensures var s' := Next(s, Answer(b, reply));
            s'.node.batch != s.node.batch ==>
              s'.node.batch == None && s.node.batch == Some(b) && ReportOf(b) in s.directory
    ensures s.node.batch == Some(b) && (reply == Unreadable || reply.accepted in {None, Some(b.id)}) ==>
              Next(s, Answer(b, reply)).node.batch == None
  {
  }

  /** One heartbeat whose request and reply both get through. */
  function Exchange(s: System, uuid: Id): System {
    var s1 := Next(s, Start(uuid));
    if s1.node.batch.None? then s1 else Delivered(s1, s1.node.batch.value)
  }

  function Delivered(s: System, b: Batch): System {
    Next(Next(s, Arrive(b)), Answer(b, Body(Some(b.id))))
  }

  lemma DeliveredClears(s: System, b: Batch)
    requires Inv(s) && s.node.batch == Some(b)
    ensures Inv(Delivered(s, b))
    ensures Delivered(s, b) ==
            System(s.node.(batch := None), s.sent, Delivered(s, b).directory, s.finishedOk, s.finishedFail)
  {
    InvArrive(s, b);
    InvNext(Next(s, Arrive(b)), Answer(b, Body(Some(b.id))));
    hide Inv;
  }

  lemma ExchangeDelivers(s: System, uuid: Id)
    requires Inv(s) && Enabled(s, Start(uuid))
    ensures var t := Exchange(s, uuid);
            && Inv(t) && t.node.batch == None
            && t.finishedOk == s.finishedOk && t.finishedFail == s.finishedFail
            && (s.node.batch.None? ==> t.node.ok == t.node.fail == 0)
            && (s.node.batch.Some? ==> t.sent == s.sent)
  {
    InvNext(s, Start(uuid));
    var s1 := Next(s, Start(uuid));
    if s1.node.batch.Some? {
      DeliveredClears(s1, s1.node.batch.value);
      hide Inv, Enabled, Delivered;
    }
  }

  /** That heartbeat as steps of a run. */
  function ExchangeSteps(s: System, uuid: Id): seq<Step> {
    var n := Begin(s.node, uuid);
    [Start(uuid)] +
    if n.batch.None? then [] else [Arrive(n.batch.value)] + [Answer(n.batch.value, Body(Some(n.batch.value.id)))]
  }

  lemma RunCons(s: System, t: Step, rest: seq<Step>)
    ensures Run(s, []) == Some(s)
    ensures Run(s, [t] + rest) == if Enabled(s, t) then Run(Next(s, t), rest) else None
  {
    hide Enabled, Next;
    assert ([t] + rest)[1..] == rest;
  }

  /** A task can always finish, and is counted once. */
  lemma TaskCounts(s: System, succeeded: bool, ms: int)
    ensures var t := TaskDone(succeeded, ms);
            && Enabled(s, t) && Next(s, t).finishedOk == s.finishedOk + (if succeeded then 1 else 0)
            && Next(s, t).finishedFail == s.finishedFail + (if succeeded then 0 else 1)
  {
  }

  /** Such a heartbeat is always possible, under any new id. */
  lemma ExchangeRuns(s: System, uuid: Id)
    requires Inv(s) && forall b <- s.sent :: b.id != uuid
    ensures Run(s, ExchangeSteps(s, uuid)) == Some(Exchange(s, uuid))
  {
    InvNext(s, Start(uuid));
    var s1 := Next(s, Start(uuid));
    RunCons(s1, Start(uuid), []);
    if s1.node.batch.Some? {
      var b := s1.node.batch.value;
      var (arrive, answer) := (Arrive(b), Answer(b, Body(Some(b.id))));
      InvArrive(s1, b);
      hide Run, Inv, Record, Known, Delivered;
      RunCons(s, Start(uuid), [arrive] + [answer]);
      RunCons(s1, arrive, [answer]);
      RunCons(Next(s1, arrive), answer, []);
      assert [answer] + [] == [answer];
      assert Delivered(s1, b) == Next(Next(s1, arrive), answer) by { DeliveredMeans(s1, b); }
      RunCons(Delivered(s1, b), answer, []);
    } else {
      hide Run, Inv;
      RunCons(s, Start(uuid), []);
    }
  }

  lemma DeliveredMeans(s: System, b: Batch)
    ensures Delivered(s, b) == Next(Next(s, Arrive(b)), Answer(b, Body(Some(b.id))))
  {
  }

  /** However many messages were lost before, two heartbeats that get through
      bring the directory's totals up to all finished tasks. */
  lemma TwoExchangesCatchUp(s: System, f1: Id, f2: Id)
    requires Inv(s) && f1 != f2 && Enabled(s, Start(f1)) && Enabled(s, Start(f2))
    ensures var t := Exchange(Exchange(s, f1), f2);
            TotalOk(t.directory) == s.finishedOk && TotalFail(t.directory) == s.finishedFail
  {
    ExchangeDelivers(s, f1);
    var s1 := Exchange(s, f1);
    assert Enabled(s1, Start(f2));
    ExchangeDelivers(s1, f2);
    hide Exchange, Record, Inv, TotalOk, TotalFail;
  }
}
