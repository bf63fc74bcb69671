/** Calls through a relay session (src/relay_session.ts): the poll queue of a
    long-poll worker, frames written to a socket worker, and the worker that
    answers (src/relay_worker_client.ts). */
module RelayCalls {
  import opened Optional
  import opened RelayStream

  /** A call id is a random UUID; here the number of the call, a fresh name. */
  datatype Call<+T> = Call(id: nat, task: T, stream: bool)

  datatype Settled<+R> = Answered(result: R) | CallTimedOut

  datatype Hand<+T> = Hand(poll: nat, call: Call<T>)

  /** `calls`, `settled`, `handed` and `empty` are history: every call made,
      how each `forwardTask` ended, which poll got which call, and which polls
      ran out. */
  datatype Session<+T, +R> = Session(
    queue: seq<Call<T>>, waiters: seq<nat>, pending: set<nat>, polls: nat,
    calls: seq<Call<T>>, settled: map<nat, Settled<R>>, handed: seq<Hand<T>>, empty: set<nat>)

  function Start<T, R>(): Session<T, R> { Session([], [], {}, 0, [], map[], [], {}) }

  function Made<T, R>(s: Session<T, R>, task: T, stream: bool): Session<T, R> {
    var n := |s.calls|;
    s.(calls := s.calls + [Call(n, task, stream)], pending := if stream then s.pending else s.pending + {n})
  }

  /** A call queued for the long-poll worker, or handed to the oldest poll. */
  function Forward<T, R>(s: Session<T, R>, task: T, stream: bool): Session<T, R> {
    var (t, c) := (Made(s, task, stream), Call(|s.calls|, task, stream));
    if s.waiters != [] then t.(waiters := s.waiters[1..], handed := s.handed + [Hand(s.waiters[0], c)])
    else t.(queue := s.queue + [c])
  }

  function NextCall<T, R>(s: Session<T, R>): Session<T, R> {
    var t := s.(polls := s.polls + 1);
    if s.queue != [] then t.(queue := s.queue[1..], handed := s.handed + [Hand(s.polls, s.queue[0])])
    else t.(waiters := s.waiters + [s.polls])
  }

  function PollTimeout<T, R>(s: Session<T, R>, poll: nat): Session<T, R> {
    if poll in s.waiters then s.(waiters := Without(s.waiters, poll), empty := s.empty + {poll}) else s
  }

  function Settle<T, R>(s: Session<T, R>, id: nat, o: Settled<R>): Session<T, R> {
    if id in s.pending then s.(pending := s.pending - {id}, settled := s.settled[id := o]) else s
  }

  /** Over a socket every call is its own frame, written at once. If the frame
      is too large or the write throws, the caller gets that error and nothing
      is left behind. */
  function Send<T, R>(s: Session<T, R>, task: T, stream: bool, written: bool): Session<T, R> {
    if !written then s
    else
      Made(s, task, stream).(polls := s.polls + 1,
                             handed := s.handed + [Hand(s.polls, Call(|s.calls|, task, stream))])
  }

  class HttpPollWorkerSession<T, R> {
    var queue: seq<Call<T>>
    var waiters: seq<nat>
    var pending: set<nat>
    var polls: nat
    var made: nat
    ghost var calls: seq<Call<T>>
    ghost var settled: map<nat, Settled<R>>
    ghost var handed: seq<Hand<T>>
    ghost var empty: set<nat>

    constructor ()
      ensures Valid() && View() == Start()
    {
      queue, waiters, pending, polls, made := [], [], {}, 0, 0;
      calls, settled, handed, empty := [], map[], [], {};
    }

    ghost predicate Valid()
      reads this
    {
      made == |calls|
    }

    ghost function View(): Session<T, R>
      reads this
    {
      Session(queue, waiters, pending, polls, calls, settled, handed, empty)
    }

    method ForwardTask(task: T, stream: bool) returns (id: nat)
      requires Valid()
      modifies this
      ensures Valid() && View() == Forward(old(View()), task, stream) && id == |old(calls)|
    {
      id := made;
      var call := Call(id, task, stream);
      made, calls := made + 1, calls + [call];
      if !stream {
        pending := pending + {id};
      }
      if waiters != [] {
        handed := handed + [Hand(waiters[0], call)];
        waiters := waiters[1..];
      } else {
        queue := queue + [call];
      }
    }

    method Poll() returns (poll: nat, call: Option<Call<T>>)
      requires Valid()
      modifies this
      ensures Valid() && View() == NextCall(old(View())) && poll == old(polls)
      ensures call == if old(queue) == [] then None else Some(old(queue)[0])
      ensures handed == if call.Some? then old(handed) + [Hand(poll, call.value)] else old(handed)
    {
      poll, polls := polls, polls + 1;
      if queue != [] {
        call := Some(queue[0]);
        handed := handed + [Hand(poll, queue[0])];
        queue := queue[1..];
      } else {
        call := None;
        waiters := waiters + [poll];
      }
    }

    method PollTimerFired(poll: nat)
      requires Valid()
      modifies this
      ensures Valid() && View() == PollTimeout(old(View()), poll)
    {
      if poll in waiters {
        waiters, empty := Without(waiters, poll), empty + {poll};
      }
    }

    method CallTimerFired(id: nat)
      requires Valid()
      modifies this
      ensures Valid() && View() == Settle(old(View()), id, CallTimedOut)
    {
      if id in pending {
        pending, settled := pending - {id}, settled[id := CallTimedOut];
      }
    }

    method OnResponse(id: nat, result: R)
      requires Valid()
      modifies this
      ensures Valid() && View() == Settle(old(View()), id, Answered(result))
    {
      if id in pending {
        pending, settled := pending - {id}, settled[id := Answered(result)];
      }
    }
  }

  class RelayWorkerSession<T, R> {
    var pending: set<nat>
    var made: nat
    /** The calls written to the socket, in order. */
    ghost var calls: seq<Call<T>>
    ghost var settled: map<nat, Settled<R>>

    constructor ()
      ensures Valid() && View() == Start()
    {
      pending, made, calls, settled := {}, 0, [], map[];
    }

    ghost predicate Valid()
      reads this
    {
      made == |calls| && forall id <- pending :: id < made
    }

    /** Each written frame is a poll of its own, answered at once. */
    ghost function View(): Session<T, R>
      reads this
    {
      Session([], [], pending, |calls|, calls, settled, Written(calls), {})
    }

    /** `written` says whether framing and writing went through. */
    method ForwardTask(task: T, stream: bool, written: bool) returns (id: Option<nat>)
      requires Valid()
      modifies this
      ensures Valid() && View() == Send(old(View()), task, stream, written)
      ensures id == if written then Some(|old(calls)|) else None
    {
      if !stream {
        pending := pending + {made};
      }
      if !written {
        pending := pending - {made};
        return None;
      }
      id := Some(made);
      made, calls := made + 1, calls + [Call(made, task, stream)];
      assert calls[..|calls| - 1] == old(calls);
    }

    method CallTimerFired(id: nat)
      requires Valid()
      modifies this
      ensures Valid() && View() == Settle(old(View()), id, CallTimedOut)
    {
      if id in pending {
        pending, settled := pending - {id}, settled[id := CallTimedOut];
      }
    }

    method OnResponse(id: nat, result: R)
      requires Valid()
      modifies this
      ensures Valid() && View() == Settle(old(View()), id, Answered(result))
    {
      if id in pending {
        pending, settled := pending - {id}, settled[id := Answered(result)];
      }
    }
  }

  ghost function Written<T>(calls: seq<Call<T>>): seq<Hand<T>> {
    if calls == [] then [] else Written(calls[..|calls| - 1]) + [Hand(|calls| - 1, calls[|calls| - 1])]
  }

  // ---- Who got what ----

  /** Calls go out first in, first out, each to exactly one poll; nothing waits
      on both sides. */
  ghost predicate Handing<T, R>(s: Session<T, R>) {
    && (s.queue == [] || s.waiters == [])
    && (forall i :: 0 <= i < |s.calls| ==> s.calls[i].id == i)
    && |s.handed| <= |s.calls| && s.queue == s.calls[|s.handed|..]
    && (forall i :: 0 <= i < |s.handed| ==> s.handed[i].call == s.calls[i])
  }

  /** Polls are served in order of arrival, and each ends at most once. */
  ghost predicate Polling<T, R>(s: Session<T, R>) {
    && Increasing(s.waiters)
    && (forall w <- s.waiters :: w < s.polls && w !in s.empty)
    && (forall p <- s.empty :: p < s.polls)
    && (forall i :: 0 <= i < |s.handed| ==>
          s.handed[i].poll < s.polls && s.handed[i].poll !in s.waiters && s.handed[i].poll !in s.empty)
    && (forall i, j :: 0 <= i < j < |s.handed| ==> s.handed[i].poll != s.handed[j].poll)
  }

  /** Every plain call is waiting for its answer or settled, never both. */
  ghost predicate Settling<T, R>(s: Session<T, R>) {
    && (forall id <- s.pending :: id < |s.calls| && !s.calls[id].stream && id !in s.settled)
    && (forall id <- s.settled :: id < |s.calls| && !s.calls[id].stream)
    && (forall i :: 0 <= i < |s.calls| && !s.calls[i].stream ==> i in s.pending || i in s.settled)
  }

  /** `computes(t, r)`: the worker's handler may answer task `t` with `r`. */
  ghost predicate OwnAnswers<T(!new), R(!new)>(s: Session<T, R>, computes: (T, R) -> bool) {
    forall id <- s.settled :: s.settled[id].Answered? ==>
      id < |s.handed| && id < |s.calls| && computes(s.calls[id].task, s.settled[id].result)
  }

  // ---- The session together with its worker ----

  /** Answers travel on their own, in any order, and may arrive twice or never.
      An answer to an unreadable call carries no id: None. */
  datatype Answer<+R> = Answer(id: Option<nat>, result: R)

  datatype World<T, R(==)> = World(socket: bool, session: Session<T, R>, flying: set<Answer<R>>)

  datatype Step<+T, +R> =
    | DoForward(task: T, stream: bool)
    | DoSend(task: T, stream: bool, written: bool)
    | DoPoll
    | DoPollTimeout(poll: nat)
    | DoCallTimeout(id: nat)
    | DoHandle(index: nat, result: R)
    | DoGarble(result: R)
    | DoArrive(answer: Answer<R>)

  predicate Enabled<T, R(==)>(w: World<T, R>, step: Step<T, R>, computes: (T, R) -> bool) {
    match step
    case DoSend(_, _, _) => w.socket
    case DoForward(_, _) => !w.socket
    case DoPoll => !w.socket
    case DoHandle(i, r) => i < |w.session.handed| && computes(w.session.handed[i].call.task, r)
    case DoArrive(a) => a in w.flying
    case _ => true
  }

  function After<T, R(==)>(w: World<T, R>, step: Step<T, R>): World<T, R> {
    var s := w.session;
    match step
    case DoForward(task, stream) => w.(session := Forward(s, task, stream))
    case DoSend(task, stream, written) => w.(session := Send(s, task, stream, written))
    case DoPoll => w.(session := NextCall(s))
    case DoPollTimeout(p) => w.(session := PollTimeout(s, p))
    case DoCallTimeout(id) => w.(session := Settle(s, id, CallTimedOut))
    case DoHandle(i, r) =>
      if i < |s.handed| then w.(flying := w.flying + {Answer(Some(s.handed[i].call.id), r)}) else w
    case DoGarble(r) => w.(flying := w.flying + {Answer(None, r)})
    case DoArrive(a) => if a.id.Some? then w.(session := Settle(s, a.id.value, Answered(a.result))) else w
  }

  /** What is on its way was computed for the call it names. */
  ghost predicate Honest<T(!new), R(!new)>(w: World<T, R>, computes: (T, R) -> bool) {
    forall a <- w.flying :: a.id.Some? ==>
      a.id.value < |w.session.handed| && computes(w.session.handed[a.id.value].call.task, a.result)
  }

  ghost predicate Inv<T(!new), R(!new)>(w: World<T, R>, computes: (T, R) -> bool) {
    && (w.socket ==> w.session.queue == [] && w.session.waiters == [])
    && Handing(w.session) && Polling(w.session) && Settling(w.session) && OwnAnswers(w.session, computes)
    && Honest(w, computes)
  }

  lemma QueueGrows<T>(calls: seq<Call<T>>, n: nat, c: Call<T>)
    requires n <= |calls|
    ensures (calls + [c])[n..] == calls[n..] + [c]
    ensures n == |calls| ==> calls[n..] == [] && (calls + [c])[n + 1..] == []
  {
  }

  lemma ForwardHands<T, R>(s: Session<T, R>, task: T, stream: bool)
    requires Handing(s)
    ensures Handing(Forward(s, task, stream))
    ensures s.handed <= Forward(s, task, stream).handed
  {
    QueueGrows(s.calls, |s.handed|, Call(|s.calls|, task, stream));
    assert s.waiters != [] ==> |s.queue| == 0 && |s.handed| == |s.calls|;
  }

  lemma PollHands<T, R>(s: Session<T, R>)
    requires Handing(s)
    ensures Handing(NextCall(s))
    ensures s.handed <= NextCall(s).handed
  {
  }

  lemma SendHands<T, R>(s: Session<T, R>, task: T, stream: bool, written: bool)
    requires Handing(s) && s.queue == [] && s.waiters == []
    ensures Handing(Send(s, task, stream, written))
    ensures s.handed <= Send(s, task, stream, written).handed
  {
  }

  lemma ForwardPolls<T, R>(s: Session<T, R>, task: T, stream: bool)
    requires Polling(s)
    ensures Polling(Forward(s, task, stream))
  {
    if s.waiters != [] {
      assert s.waiters == [s.waiters[0]] + s.waiters[1..];
      assert s.waiters[0] in s.waiters && s.waiters[0] !in s.waiters[1..];
      assert forall i :: 0 <= i < |s.handed| ==> s.handed[i].poll !in s.waiters[1..];
    }
  }

  lemma NextPolls<T, R>(s: Session<T, R>)
    requires Polling(s)
    ensures Polling(NextCall(s))
  {
    assert forall i :: 0 <= i < |s.waiters| ==> s.waiters[i] in s.waiters;
  }

  lemma TimeoutPolls<T, R>(s: Session<T, R>, poll: nat)
    requires Polling(s)
    ensures Polling(PollTimeout(s, poll))
  {
    WithoutIncreasing(s.waiters, poll);
    WithoutMeans(s.waiters, poll);
    hide Without, Increasing;
  }

  lemma MadeSettles<T, R>(s: Session<T, R>, task: T, stream: bool)
    requires Settling(s)
    ensures Settling(Made(s, task, stream))
  {
  }

  lemma SettleSettles<T, R>(s: Session<T, R>, id: nat, o: Settled<R>)
    requires Settling(s)
    ensures Settling(Settle(s, id, o))
  {
  }

  /** The queue and the waiters, the order of hand-over and the polls are kept
      by every step. */
  lemma HandingAfter<T(!new), R(!new)>(w: World<T, R>, step: Step<T, R>, computes: (T, R) -> bool)
    requires Handing(w.session) && (w.socket ==> w.session.queue == [] && w.session.waiters == [])
    requires Enabled(w, step, computes)
    ensures var t := After(w, step).session;
            Handing(t) && w.session.handed <= t.handed && (w.socket ==> t.queue == [] && t.waiters == [])
  {
    var s := w.session;
    hide Without;
    match step
    case DoForward(task, stream) => ForwardHands(s, task, stream); hide Handing;
    case DoSend(task, stream, written) => SendHands(s, task, stream, written); hide Handing;
    case DoPoll => PollHands(s); hide Handing;
    case _ =>
  }

  lemma PollingAfter<T(!new), R(!new)>(w: World<T, R>, step: Step<T, R>, computes: (T, R) -> bool)
    requires Polling(w.session) && Enabled(w, step, computes) && (w.socket ==> w.session.waiters == [])
    ensures Polling(After(w, step).session)
  {
    var s := w.session;
    hide Increasing, Without;
    match step
    case DoForward(task, stream) => ForwardPolls(s, task, stream); hide Polling;
    case DoPoll => NextPolls(s); hide Polling;
    case DoPollTimeout(p) => TimeoutPolls(s, p); hide Polling;
    case _ =>
  }

  lemma SettlingAfter<T(!new), R(!new)>(w: World<T, R>, step: Step<T, R>)
    requires Settling(w.session)
    ensures Settling(After(w, step).session)
  {
    var s := w.session;
    match step
    case DoForward(task, stream) => MadeSettles(s, task, stream);
    case DoSend(task, stream, written) => MadeSettles(s, task, stream);
    case DoCallTimeout(id) => SettleSettles(s, id, CallTimedOut);
    case DoArrive(a) => if a.id.Some? { SettleSettles(s, a.id.value, Answered(a.result)); }
    case _ =>
  }

  lemma CallsGrow<T, R>(w: World<T, R>, step: Step<T, R>)
    ensures w.session.calls <= After(w, step).session.calls
  {
  }

  lemma OwnGrows<T(!new), R(!new)>(s: Session<T, R>, t: Session<T, R>, computes: (T, R) -> bool)
    requires OwnAnswers(s, computes) && t.settled == s.settled && s.handed <= t.handed && s.calls <= t.calls
    ensures OwnAnswers(t, computes)
  {
  }

  lemma OwnSettles<T(!new), R(!new)>(s: Session<T, R>, id: nat, o: Settled<R>, computes: (T, R) -> bool)
    requires OwnAnswers(s, computes)
    requires o.Answered? ==> id < |s.handed| && id < |s.calls| && computes(s.calls[id].task, o.result)
    ensures OwnAnswers(Settle(s, id, o), computes)
  {
  }

  lemma OwnAfter<T(!new), R(!new)>(w: World<T, R>, step: Step<T, R>, computes: (T, R) -> bool)
    requires Inv(w, computes) && Enabled(w, step, computes)
    ensures OwnAnswers(After(w, step).session, computes)
  {
    HandingAfter(w, step, computes);
    CallsGrow(w, step);
    hide OwnAnswers, Polling, Settling, Without;
    match step
    case DoCallTimeout(id) => OwnSettles(w.session, id, CallTimedOut, computes);
    case DoArrive(a) => if a.id.Some? { OwnSettles(w.session, a.id.value, Answered(a.result), computes); }
    case _ => OwnGrows(w.session, After(w, step).session, computes);
  }

  lemma HonestAfter<T(!new), R(!new)>(w: World<T, R>, step: Step<T, R>, computes: (T, R) -> bool)
    requires Inv(w, computes) && Enabled(w, step, computes)
    ensures Honest(After(w, step), computes)
  {
    HandingAfter(w, step, computes);
    var w' := After(w, step);
    hide Polling, Settling, OwnAnswers, Without;
    if step.DoHandle? {
      assert w.session.calls[step.index].id == step.index;
    } else {
      assert forall a <- w'.flying :: a.id.Some? ==> a in w.flying;
      hide After, Handing;
    }
  }

  lemma InvAfter<T(!new), R(!new)>(w: World<T, R>, step: Step<T, R>, computes: (T, R) -> bool)
    requires Inv(w, computes) && Enabled(w, step, computes)
    ensures Inv(After(w, step), computes)
  {
    HandingAfter(w, step, computes);
    PollingAfter(w, step, computes);
    SettlingAfter(w, step);
    OwnAfter(w, step, computes);
    HonestAfter(w, step, computes);
    hide Handing, Polling, Settling, OwnAnswers, Honest;
  }

  function Runs<T, R(==)>(w: World<T, R>, steps: seq<Step<T, R>>): World<T, R>
    decreases |steps|
  {
    if steps == [] then w else Runs(After(w, steps[0]), steps[1..])
  }

  predicate Legal<T, R(==)>(w: World<T, R>, steps: seq<Step<T, R>>, computes: (T, R) -> bool)
    decreases |steps|
  {
    steps == [] || (Enabled(w, steps[0], computes) && Legal(After(w, steps[0]), steps[1..], computes))
  }

  lemma {:induction false} InvRuns<T(!new), R(!new)>(w: World<T, R>, steps: seq<Step<T, R>>, computes: (T, R) -> bool)
    requires Inv(w, computes) && Legal(w, steps, computes)
    ensures Inv(Runs(w, steps), computes)
    decreases |steps|
  {
    hide Inv, After, Enabled;
    if steps != [] {
      InvAfter(w, steps[0], computes);
      InvRuns(After(w, steps[0]), steps[1..], computes);
    }
  }

  /** In every run of either kind of session: calls go out in the order they
      were made, each to one poll of its own; queue and waiting polls are never
      both in use; and whatever a call was answered with, the worker computed
      for that call's own task, after it was handed out. */
  lemma Correlation<T(!new), R(!new)>(socket: bool, steps: seq<Step<T, R>>, computes: (T, R) -> bool)
    requires Legal(World(socket, Start(), {}), steps, computes)
    ensures var s := Runs(World(socket, Start(), {}), steps).session;
            && (s.queue == [] || s.waiters == []) && |s.handed| + |s.queue| == |s.calls|
            && (forall i :: 0 <= i < |s.handed| ==> s.handed[i].call == s.calls[i])
            && (forall i, j :: 0 <= i < j < |s.handed| ==> s.handed[i].poll != s.handed[j].poll)
            && (forall i :: 0 <= i < |s.handed| ==> s.handed[i].poll !in s.empty && s.handed[i].poll !in s.waiters)
            && (forall id <- s.settled :: s.settled[id].Answered? ==>
                  id < |s.handed| && id < |s.calls| && computes(s.calls[id].task, s.settled[id].result))
  {
    InvRuns(World(socket, Start<T, R>(), {}), steps, computes);
  }

  lemma SettledStays<T, R>(w: World<T, R>, step: Step<T, R>, id: nat)
    requires Settling(w.session) && id in w.session.settled
    ensures id in After(w, step).session.settled && After(w, step).session.settled[id] == w.session.settled[id]
  {
    assert id !in w.session.pending;
    hide Settling, Without;
  }

  /** A pending call is settled by the first answer that names it, with that
      answer's result, or by its timer, and by nothing else. */
  lemma SettledExactly<T(!new), R(!new)>(w: World<T, R>, step: Step<T, R>, computes: (T, R) -> bool, id: nat)
    requires Inv(w, computes) && Enabled(w, step, computes)
    ensures var (s, t) := (w.session, After(w, step).session);
            var answered := step.DoArrive? && step.answer.id == Some(id);
            && (id !in s.settled && id in t.settled <==> id in s.pending && (answered || step == DoCallTimeout(id)))
            && (id !in s.settled && id in t.settled ==>
                  id < |s.calls| && !s.calls[id].stream && id !in t.pending
                  && t.settled[id] == if answered then Answered(step.answer.result) else CallTimedOut)
  {
    hide Handing, Polling, OwnAnswers, Honest, Without;
  }

  /** What every other step does: who is called, what is handed over and to whom,
      who waits, whose wait ends, and what the worker sends. */
  lemma EveryStepActs<T(!new), R(!new)>(w: World<T, R>, step: Step<T, R>, computes: (T, R) -> bool)
    requires Inv(w, computes) && Enabled(w, step, computes)
    ensures var (w', s, t) := (After(w, step), w.session, After(w, step).session);
            var made := step.DoForward? || (step.DoSend? && step.written);
            var hands :=
              (step.DoForward? && s.waiters != []) || (step.DoPoll? && s.queue != []) || (step.DoSend? && made);
            && (if made then
                  && t.calls == s.calls + [Call(|s.calls|, step.task, step.stream)]
                  && t.pending == if step.stream then s.pending else s.pending + {|s.calls|}
                else t.calls == s.calls && t.pending <= s.pending)
            && |t.handed| == |s.handed| + (if hands then 1 else 0)
            && (hands ==> t.handed[|s.handed|].poll == if step.DoForward? then s.waiters[0] else s.polls)
            && (step.DoPoll? && !hands ==> t.waiters == s.waiters + [s.polls])
            && (step.DoPollTimeout? && step.poll in s.waiters ==> step.poll in t.empty && step.poll !in t.waiters)
            && (step.DoHandle? ==> Answer(Some(step.index), step.result) in w'.flying)
            && (step.DoGarble? ==> Answer(None, step.result) in w'.flying)
            && w.flying <= w'.flying
  {
    hide Polling, OwnAnswers, Honest, Without;
    if step.DoPollTimeout? {
      TimeoutLeaves(w.session, step.poll) by {
        assert Polling(w.session);
      }
    }
    hide Settling;
  }

  /** Timers may fire at any time; a pending call then ends as timed out. */
  lemma TimersFire<T(!new), R(!new)>(w: World<T, R>, computes: (T, R) -> bool, id: nat, poll: nat, r: R)
    ensures Enabled(w, DoPollTimeout(poll), computes) && Enabled(w, DoGarble(r), computes)
    ensures Enabled(w, DoCallTimeout(id), computes)
    ensures var t := After(w, DoCallTimeout(id)).session;
            id in w.session.pending ==> id in t.settled && t.settled[id] == CallTimedOut && id !in t.pending
  {
  }

  lemma TimeoutLeaves<T, R>(s: Session<T, R>, poll: nat)
    requires Polling(s)
    ensures poll in s.waiters ==> poll !in PollTimeout(s, poll).waiters
  {
    WithoutMeans(s.waiters, poll);
    hide Without;
  }

  /** No pending call is out of reach: the worker can always poll until it has
      the call, compute a result of its own and have it settle the call. */
  lemma {:induction false} CanAnswer<T(!new), R(!new)>(
    w: World<T, R>, computes: (T, R) -> bool, id: nat, r: R) returns (steps: seq<Step<T, R>>)
    requires Inv(w, computes) && id in w.session.pending && id < |w.session.calls|
    requires computes(w.session.calls[id].task, r)
    ensures Legal(w, steps, computes)
    ensures id in Runs(w, steps).session.settled && Runs(w, steps).session.settled[id] == Answered(r)
    decreases |w.session.queue|
  {
    var s := w.session;
    hide Polling, Settling, OwnAnswers, Honest, Without;
    if id < |s.handed| {
      var (handle, arrive) := (DoHandle(id, r), DoArrive(Answer(Some(id), r)));
      assert s.handed[id].call == s.calls[id] && s.calls[id].id == id;
      var w' := After(w, handle);
      steps := [handle] + ([arrive] + []);
      LegalStep(w', arrive, [], computes);
      LegalStep(w, handle, [arrive] + [], computes);
      RunsNone(After(w', arrive), computes);
    } else {
      InvAfter(w, DoPoll, computes);
      var rest := CanAnswer(After(w, DoPoll), computes, id, r);
      steps := [DoPoll] + rest;
      LegalStep(w, DoPoll, rest, computes);
    }
  }

  lemma LegalStep<T(!new), R(!new)>(
    w: World<T, R>, step: Step<T, R>, rest: seq<Step<T, R>>, computes: (T, R) -> bool)
    ensures Legal(w, [step] + rest, computes) <==>
            Enabled(w, step, computes) && Legal(After(w, step), rest, computes)
    ensures Runs(w, [step] + rest) == Runs(After(w, step), rest)
  {
    hide Enabled, After;
    assert ([step] + rest)[1..] == rest;
  }

  lemma RunsNone<T(!new), R(!new)>(w: World<T, R>, computes: (T, R) -> bool)
    ensures Runs(w, []) == w && Legal(w, [], computes)
  {
  }

  /** A call, once settled, stays settled the same way: late and repeated
      answers and timers change nothing. */
  lemma {:induction false} SettledOnce<T(!new), R(!new)>(
    w: World<T, R>, steps: seq<Step<T, R>>, computes: (T, R) -> bool, id: nat)
    requires Inv(w, computes) && Legal(w, steps, computes) && id in w.session.settled
    ensures id in Runs(w, steps).session.settled && Runs(w, steps).session.settled[id] == w.session.settled[id]
    decreases |steps|
  {
    if steps != [] {
      hide After, Handing, Polling, Settling, OwnAnswers, Honest;
      InvAfter(w, steps[0], computes);
      SettledStays(w, steps[0], id);
      SettledOnce(After(w, steps[0]), steps[1..], computes, id);
    }
  }

  /** No call is lost: one that is neither settled nor pending is a stream, and
      a pending one is still queued or has been handed out. */
  lemma NoneLost<T(!new), R(!new)>(w: World<T, R>, computes: (T, R) -> bool, id: nat)
    requires Inv(w, computes) && id < |w.session.calls|
    ensures w.session.calls[id].stream || id in w.session.pending || id in w.session.settled
    ensures w.session.calls[id] in w.session.queue || (id < |w.session.handed| && w.session.handed[id].call.id == id)
  {
    hide Polling, OwnAnswers, Honest;
    var s := w.session;
    if id >= |s.handed| {
      assert s.queue[id - |s.handed|] == s.calls[id];
    }
  }
}
