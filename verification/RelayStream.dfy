/** One relayed response stream (src/relay_session.ts, PendingRelayStream):
    hand-off between a producer and waiting consumers, with bounded backpressure. */
module RelayStream {
  import opened Optional
  import opened ResponseSequence

  const MAX_EVENTS: nat := 32

  datatype Failure = Refused(code: Code) | BackpressureExceeded | Other

  /** How a call of `next` was settled. */
  datatype Outcome<+T> = Got(event: Response<T>) | Failed(failure: Failure) | TimedOut

  /** Calls of `next` are numbered; `waiters` are the unsettled ones in order of
      arrival. `accepted` and `delivered` are history: every frame the sequence
      check let through, and every frame handed to a consumer, in order. */
  datatype Stream<+T> = Stream(
    seqState: SeqState, events: seq<Response<T>>, waiters: seq<nat>, error: Option<Failure>,
    calls: nat, outcomes: map<nat, Outcome<T>>, accepted: seq<Response<T>>, delivered: seq<Response<T>>)

  /** What consumers hold: the events `next` returned, call by call. */
  function Received<T>(outcomes: map<nat, Outcome<T>>, calls: nat): seq<Response<T>> {
    if calls == 0 then []
    else
      Received(outcomes, calls - 1)
      + if calls - 1 in outcomes && outcomes[calls - 1].Got? then [outcomes[calls - 1].event] else []
  }

  function Empty<T>(): Stream<T> { Stream(START, [], [], None, 0, map[], [], []) }

  function SettleAll<T>(m: map<nat, Outcome<T>>, ws: seq<nat>, o: Outcome<T>): map<nat, Outcome<T>>
    decreases |ws|
  {
    if ws == [] then m else SettleAll(m[ws[0] := o], ws[1..], o)
  }

  function Fail<T>(s: Stream<T>, e: Failure): Stream<T> {
    s.(error := Some(e), events := [], waiters := [], outcomes := SettleAll(s.outcomes, s.waiters, Failed(e)))
  }

  function Push<T>(ids: Ids, s: Stream<T>, f: Response<T>): Stream<T> {
    if s.error.Some? then s
    else
      var o := Objection(ids, s.seqState, f);
      if o.Some? then Fail(s, Refused(o.value))
      else
        var t := s.(seqState := Advance(s.seqState, f), accepted := s.accepted + [f]);
        if t.waiters != [] then
          t.(waiters := t.waiters[1..], outcomes := t.outcomes[t.waiters[0] := Got(f)], delivered := t.delivered + [f])
        else if |t.events| >= MAX_EVENTS then Fail(t, BackpressureExceeded)
        else t.(events := t.events + [f])
  }

  /** The call `s.calls`: settled at once, or the newest waiter. */
  function Next<T>(s: Stream<T>): Stream<T> {
    var (n, t) := (s.calls, s.(calls := s.calls + 1));
    if s.error.Some? then t.(outcomes := t.outcomes[n := Failed(s.error.value)])
    else if s.events != [] then
      t.(events := s.events[1..], outcomes := t.outcomes[n := Got(s.events[0])],
         delivered := s.delivered + [s.events[0]])
    else t.(waiters := s.waiters + [n])
  }

  function Without(ws: seq<nat>, w: nat): seq<nat> {
    if ws == [] then [] else if ws[0] == w then ws[1..] else [ws[0]] + Without(ws[1..], w)
  }

  /** The timer of a call that still waits. A settled call has no timer. */
  function Timeout<T>(s: Stream<T>, w: nat): Stream<T> {
    if w in s.waiters then s.(waiters := Without(s.waiters, w), outcomes := s.outcomes[w := TimedOut]) else s
  }

  class PendingRelayStream<T> {
    const sequence: NativeResponseSequence
    var events: seq<Response<T>>
    var waiters: seq<nat>
    var error: Option<Failure>
    var calls: nat
    ghost var outcomes: map<nat, Outcome<T>>
    ghost var accepted: seq<Response<T>>
    ghost var delivered: seq<Response<T>>

    constructor (ids: Ids)
      ensures View() == Empty() && sequence.ids == ids && fresh(sequence)
    {
      sequence := new NativeResponseSequence(ids);
      events, waiters, error, calls := [], [], None, 0;
      outcomes, accepted, delivered := map[], [], [];
    }

    ghost function View(): Stream<T>
      reads this, sequence
    {
      Stream(sequence.State(), events, waiters, error, calls, outcomes, accepted, delivered)
    }

    method FailStream(e: Failure)
      modifies this
      ensures View() == Fail(old(View()), e)
    {
      error := Some(e);
      events := [];
      while waiters != []
        invariant View() == old(View()).(error := Some(e), events := [], waiters := waiters, outcomes := outcomes)
        invariant SettleAll(outcomes, waiters, Failed(e)) == SettleAll(old(outcomes), old(waiters), Failed(e))
        decreases |waiters|
      {
        outcomes := outcomes[waiters[0] := Failed(e)];
        waiters := waiters[1..];
      }
    }

    method PushEvent(f: Response<T>)
      modifies this, sequence
      ensures View() == Push(sequence.ids, old(View()), f)
    {
      if error.Some? {
        return;
      }
      var objection := sequence.Accept(f);
      if objection.Some? {
        FailStream(Refused(objection.value));
        return;
      }
      accepted := accepted + [f];
      if waiters != [] {
        outcomes, delivered := outcomes[waiters[0] := Got(f)], delivered + [f];
        waiters := waiters[1..];
      } else if |events| >= MAX_EVENTS {
        FailStream(BackpressureExceeded);
      } else {
        events := events + [f];
      }
    }

    method NextEvent() returns (settled: Option<Outcome<T>>)
      modifies this
      ensures View() == Next(old(View()))
      ensures settled.Some? <==> old(calls) !in waiters || old(error).Some? || old(events) != []
      ensures settled.Some? ==> old(calls) in outcomes && settled.value == outcomes[old(calls)]
    {
      var n := calls;
      calls := calls + 1;
      if error.Some? {
        settled := Some(Failed(error.value));
        outcomes := outcomes[n := settled.value];
      } else if events != [] {
        settled := Some(Got(events[0]));
        outcomes, delivered := outcomes[n := settled.value], delivered + [events[0]];
        events := events[1..];
      } else {
        waiters := waiters + [n];
        settled := None;
      }
    }

    method TimerFired(w: nat)
      modifies this
      ensures View() == Timeout(old(View()), w)
    {
      if w in waiters {
        waiters, outcomes := Without(waiters, w), outcomes[w := TimedOut];
      }
    }
  }

  // ---- Runs ----

  datatype Step<+T> = DoPush(f: Response<T>) | DoNext | DoTimeout(call: nat) | DoFail(failure: Failure)

  function After<T>(ids: Ids, s: Stream<T>, step: Step<T>): Stream<T> {
    match step
    case DoPush(f) => Push(ids, s, f)
    case DoNext => Next(s)
    case DoTimeout(w) => Timeout(s, w)
    case DoFail(e) => Fail(s, e)
  }

  predicate Distinct(ws: seq<nat>) {
    forall i, j :: 0 <= i < j < |ws| ==> ws[i] != ws[j]
  }

  predicate Increasing(ws: seq<nat>) {
    forall i, j :: 0 <= i < j < |ws| ==> ws[i] < ws[j]
  }

  /** Every call is waiting or settled, never both; the settled ones are the
      domain of `outcomes`. */
  ghost predicate CallsAccounted<T>(s: Stream<T>) {
    && Distinct(s.waiters)
    && (forall w <- s.waiters :: w < s.calls && w !in s.outcomes)
    && (forall n :: n in s.outcomes ==> n < s.calls)
    && (forall n: nat :: n < s.calls ==> n in s.outcomes || n in s.waiters)
  }

  ghost predicate Inv<T>(ids: Ids, s: Stream<T>) {
    && (s.events == [] || s.waiters == [])
    && |s.events| <= MAX_EVENTS
    && s.delivered <= s.accepted
    && (if s.error.None? then s.delivered + s.events == s.accepted else s.events == [] && s.waiters == [])
    && Run(ids, START, s.accepted) == Some(s.seqState)
    && CallsAccounted(s)
  }

  lemma {:induction false} RunSnoc<T>(ids: Ids, st: SeqState, fs: seq<Response<T>>, f: Response<T>)
    requires Run(ids, st, fs).Some? && Objection(ids, Run(ids, st, fs).value, f).None?
    ensures Run(ids, st, fs + [f]) == Some(Advance(Run(ids, st, fs).value, f))
    decreases |fs|
  {
    hide Objection;
    if fs == [] {
      assert [f][1..] == [];
    } else {
      RunSnoc(ids, Advance(st, fs[0]), fs[1..], f);
      assert (fs + [f])[1..] == fs[1..] + [f];
    }
  }

  lemma {:induction false} SettleAllMeans<T>(m: map<nat, Outcome<T>>, ws: seq<nat>, o: Outcome<T>)
    ensures forall n: nat :: n in SettleAll(m, ws, o) <==> n in m || n in ws
    ensures forall n: nat :: n in m && n !in ws ==> SettleAll(m, ws, o)[n] == m[n]
    ensures forall n <- ws :: SettleAll(m, ws, o)[n] == o
    decreases |ws|
  {
    if ws != [] {
      SettleAllMeans(m[ws[0] := o], ws[1..], o);
      assert ws == [ws[0]] + ws[1..];
    }
  }

  lemma {:induction false} WithoutMeans(ws: seq<nat>, w: nat)
    requires Distinct(ws)
    ensures Distinct(Without(ws, w)) && forall n :: n in Without(ws, w) <==> n in ws && n != w
    decreases |ws|
  {
    if ws != [] {
      var tail := ws[1..];
      assert Distinct(tail) && ws[0] !in tail;
      WithoutMeans(tail, w);
      assert ws == [ws[0]] + tail;
    }
  }

  lemma ConsIncreasing(x: nat, ws: seq<nat>)
    requires Increasing(ws) && forall n <- ws :: x < n
    ensures Increasing([x] + ws)
  {
    assert forall k :: 0 <= k < |ws| ==> ws[k] in ws;
  }

  lemma {:induction false} WithoutIncreasing(ws: seq<nat>, w: nat)
    requires Increasing(ws)
    ensures Increasing(Without(ws, w))
    decreases |ws|
  {
    if ws != [] && ws[0] != w {
      var tail := ws[1..];
      WithoutIncreasing(tail, w);
      WithoutMeans(tail, w);
      assert forall n <- tail :: ws[0] < n;
      ConsIncreasing(ws[0], Without(tail, w));
    }
  }

  lemma FailInv<T>(ids: Ids, s: Stream<T>, e: Failure)
    requires s.delivered <= s.accepted && Run(ids, START, s.accepted) == Some(s.seqState) && CallsAccounted(s)
    ensures Inv(ids, Fail(s, e))
  {
    SettleAllMeans(s.outcomes, s.waiters, Failed(e));
  }

  lemma PopAccounted<T>(s: Stream<T>, o: Outcome<T>)
    requires CallsAccounted(s) && s.waiters != []
    ensures CallsAccounted(s.(waiters := s.waiters[1..], outcomes := s.outcomes[s.waiters[0] := o]))
  {
    var (w, tail) := (s.waiters[0], s.waiters[1..]);
    WithoutMeans(s.waiters, w);
    assert Without(s.waiters, w) == tail;
    assert w in s.waiters;
    hide Distinct, Without;
    assert Distinct(tail);
  }

  lemma JoinAccounted<T>(s: Stream<T>)
    requires CallsAccounted(s)
    ensures CallsAccounted(s.(calls := s.calls + 1, waiters := s.waiters + [s.calls]))
  {
    var ws := s.waiters + [s.calls];
    assert forall i :: 0 <= i < |s.waiters| ==> s.waiters[i] in s.waiters;
    assert Distinct(ws);
    assert s.calls in ws && forall w :: w in s.waiters ==> w in ws;
  }

  lemma SettleAccounted<T>(s: Stream<T>, o: Outcome<T>)
    requires CallsAccounted(s)
    ensures CallsAccounted(s.(calls := s.calls + 1, outcomes := s.outcomes[s.calls := o]))
  {
  }

  /** Accounts look at the calls and nothing else. */
  lemma SameAccounts<T>(s: Stream<T>, t: Stream<T>)
    requires CallsAccounted(s) && t.waiters == s.waiters && t.calls == s.calls && t.outcomes == s.outcomes
    ensures CallsAccounted(t)
  {
  }

  lemma PushInv<T>(ids: Ids, s: Stream<T>, f: Response<T>)
    requires Inv(ids, s)
    ensures Inv(ids, Push(ids, s, f))
  {
    var o := Objection(ids, s.seqState, f);
    hide Objection, Advance, Fail, CallsAccounted;
    if s.error.None? {
      if o.Some? {
        FailInv(ids, s, Refused(o.value));
      } else {
        RunSnoc(ids, START, s.accepted, f);
        var t := s.(seqState := Advance(s.seqState, f), accepted := s.accepted + [f]);
        hide Run;
        assert t.delivered <= t.accepted && s.delivered + (s.events + [f]) == t.accepted;
        SameAccounts(s, t);
        if s.waiters != [] {
          assert s.delivered == s.accepted && (s.delivered + [f]) + [] == t.accepted;
          PopAccounted(t, Got(f));
          SameAccounts(t.(waiters := t.waiters[1..], outcomes := t.outcomes[t.waiters[0] := Got(f)]), Push(ids, s, f));
        } else if |s.events| >= MAX_EVENTS {
          FailInv(ids, t, BackpressureExceeded);
        } else {
          SameAccounts(t, Push(ids, s, f));
        }
      }
    }
  }

  lemma NextInv<T>(ids: Ids, s: Stream<T>)
    requires Inv(ids, s)
    ensures Inv(ids, Next(s))
  {
    hide CallsAccounted, Run;
    if s.error.Some? {
      SettleAccounted(s, Failed(s.error.value));
    } else if s.events != [] {
      var d := s.delivered + [s.events[0]];
      assert d + s.events[1..] == s.accepted && d <= s.accepted;
      var t := s.(calls := s.calls + 1, outcomes := s.outcomes[s.calls := Got(s.events[0])]);
      SettleAccounted(s, Got(s.events[0]));
      SameAccounts(t, Next(s));
    } else {
      JoinAccounted(s);
    }
  }

  lemma InvAfter<T>(ids: Ids, s: Stream<T>, step: Step<T>)
    requires Inv(ids, s)
    ensures Inv(ids, After(ids, s, step))
  {
    match step
    case DoPush(f) => PushInv(ids, s, f);
    case DoNext => NextInv(ids, s);
    case DoTimeout(w) => WithoutMeans(s.waiters, w);
    case DoFail(e) => FailInv(ids, s, e);
  }

  // ---- What the consumers hold ----

  /** Waiters stand in order of their calls, no call that got an event is as
      late as a waiter, and the events got, call by call, are the delivered ones. */
  ghost predicate InOrder<T>(s: Stream<T>) {
    && Increasing(s.waiters)
    && (forall n, w :: n in s.outcomes && s.outcomes[n].Got? && w in s.waiters ==> n < w)
    && Received(s.outcomes, s.calls) == s.delivered
  }

  lemma {:induction false} ReceivedAlike<T>(m: map<nat, Outcome<T>>, m': map<nat, Outcome<T>>, n: nat)
    requires forall k: nat :: k < n && k in m && m[k].Got? ==> k in m' && m'[k] == m[k]
    requires forall k: nat :: k < n && k in m' && m'[k].Got? ==> k in m && m[k] == m'[k]
    ensures Received(m', n) == Received(m, n)
  {
    if n > 0 {
      ReceivedAlike(m, m', n - 1);
    }
  }

  /** An event for a call later than every call that got one comes last. */
  lemma {:induction false} ReceivedLast<T>(m: map<nat, Outcome<T>>, w: nat, f: Response<T>, n: nat)
    requires w < n && forall k: nat :: k in m && m[k].Got? ==> k < w
    ensures Received(m[w := Got(f)], n) == Received(m, n) + [f]
  {
    if w == n - 1 {
      ReceivedAlike(m, m[w := Got(f)], n - 1);
    } else {
      ReceivedLast(m, w, f, n - 1);
    }
  }

  lemma FailOrder<T>(s: Stream<T>, e: Failure)
    requires CallsAccounted(s) && InOrder(s)
    ensures InOrder(Fail(s, e))
  {
    SettleAllMeans(s.outcomes, s.waiters, Failed(e));
    ReceivedAlike(s.outcomes, Fail(s, e).outcomes, s.calls);
    hide SettleAll;
  }

  lemma PopOrder<T>(s: Stream<T>, f: Response<T>)
    requires CallsAccounted(s) && InOrder(s) && s.waiters != []
    ensures InOrder(s.(waiters := s.waiters[1..], outcomes := s.outcomes[s.waiters[0] := Got(f)],
                       delivered := s.delivered + [f]))
  {
    var w := s.waiters[0];
    assert w in s.waiters;
    assert forall v <- s.waiters[1..] :: v in s.waiters && w < v;
    ReceivedLast(s.outcomes, w, f, s.calls);
  }

  lemma PushOrder<T>(ids: Ids, s: Stream<T>, f: Response<T>)
    requires Inv(ids, s) && InOrder(s)
    ensures InOrder(Push(ids, s, f))
  {
    var o := Objection(ids, s.seqState, f);
    var t := s.(seqState := Advance(s.seqState, f), accepted := s.accepted + [f]);
    assert CallsAccounted(t) && InOrder(t);
    hide Objection, Advance, Run, Fail, CallsAccounted;
    if s.error.None? {
      if o.Some? {
        FailOrder(s, Refused(o.value));
      } else if s.waiters != [] {
        PopOrder(t, f);
      } else if |s.events| >= MAX_EVENTS {
        FailOrder(t, BackpressureExceeded);
      }
    }
  }

  lemma JoinOrder<T>(s: Stream<T>)
    requires CallsAccounted(s) && InOrder(s)
    ensures InOrder(s.(calls := s.calls + 1, waiters := s.waiters + [s.calls]))
  {
    assert forall i :: 0 <= i < |s.waiters| ==> s.waiters[i] in s.waiters;
  }

  lemma FailedOrder<T>(s: Stream<T>, e: Failure)
    requires CallsAccounted(s) && InOrder(s)
    ensures InOrder(s.(calls := s.calls + 1, outcomes := s.outcomes[s.calls := Failed(e)]))
  {
    ReceivedAlike(s.outcomes, s.outcomes[s.calls := Failed(e)], s.calls);
    hide Distinct, Increasing;
  }

  lemma ServedOrder<T>(s: Stream<T>, f: Response<T>)
    requires CallsAccounted(s) && InOrder(s) && s.waiters == []
    ensures InOrder(s.(calls := s.calls + 1, outcomes := s.outcomes[s.calls := Got(f)], delivered := s.delivered + [f]))
  {
    ReceivedAlike(s.outcomes, s.outcomes[s.calls := Got(f)], s.calls);
  }

  lemma NextOrder<T>(ids: Ids, s: Stream<T>)
    requires Inv(ids, s) && InOrder(s)
    ensures InOrder(Next(s))
  {
    hide Run, CallsAccounted;
    if s.error.Some? {
      FailedOrder(s, s.error.value);
    } else if s.events != [] {
      ServedOrder(s, s.events[0]);
    } else {
      JoinOrder(s);
    }
    hide Received, Increasing;
  }

  lemma TimeoutOrder<T>(s: Stream<T>, w: nat)
    requires CallsAccounted(s) && InOrder(s)
    ensures InOrder(Timeout(s, w))
  {
    WithoutMeans(s.waiters, w);
    WithoutIncreasing(s.waiters, w);
    ReceivedAlike(s.outcomes, Timeout(s, w).outcomes, s.calls);
    hide Without, Increasing, Distinct;
  }

  lemma OrderAfter<T>(ids: Ids, s: Stream<T>, step: Step<T>)
    requires Inv(ids, s) && InOrder(s)
    ensures InOrder(After(ids, s, step))
  {
    hide InOrder, Push, Next, Timeout, Fail;
    match step
    case DoPush(f) => PushOrder(ids, s, f);
    case DoNext => NextOrder(ids, s);
    case DoTimeout(w) => TimeoutOrder(s, w);
    case DoFail(e) => FailOrder(s, e);
  }

  function RunSteps<T>(ids: Ids, s: Stream<T>, steps: seq<Step<T>>): Stream<T>
    decreases |steps|
  {
    if steps == [] then s else RunSteps(ids, After(ids, s, steps[0]), steps[1..])
  }

  lemma {:induction false} RunKeeps<T>(ids: Ids, s: Stream<T>, steps: seq<Step<T>>)
    requires Inv(ids, s) && InOrder(s)
    ensures Inv(ids, RunSteps(ids, s, steps)) && InOrder(RunSteps(ids, s, steps))
    decreases |steps|
  {
    if steps != [] {
      hide Inv, InOrder, After;
      InvAfter(ids, s, steps[0]);
      OrderAfter(ids, s, steps[0]);
      RunKeeps(ids, After(ids, s, steps[0]), steps[1..]);
    }
  }

  /** Over every run: buffer and waiters are never both in use, the buffer holds
      at most 32 events, and the events the calls of `next` returned are, in
      call order, a prefix of the accepted frames - all of them but the buffered
      ones, unless something failed. */
  lemma HandOff<T>(ids: Ids, steps: seq<Step<T>>)
    ensures var s := RunSteps(ids, Empty<T>(), steps);
            var got := Received(s.outcomes, s.calls);
            && (s.events == [] || s.waiters == []) && |s.events| <= MAX_EVENTS
            && got <= s.accepted && (s.error.None? ==> got + s.events == s.accepted)
            && Run(ids, START, s.accepted) == Some(s.seqState)
            && (forall n: nat :: n < s.calls ==> (n in s.outcomes) != (n in s.waiters))
  {
    EmptyInv<T>(ids);
    RunKeeps(ids, Empty<T>(), steps);
    hide RunSteps, Run, Received, Distinct;
  }

  /** A frame that nothing stands against is accepted, and is either the answer
      of the oldest waiting call or the newest in the buffer. */
  lemma PushAccepts<T>(ids: Ids, s: Stream<T>, f: Response<T>)
    requires s.error.None? && Objection(ids, s.seqState, f).None? && (s.waiters == [] ==> |s.events| < 32)
    ensures var t := After(ids, s, DoPush(f));
            && t.accepted == s.accepted + [f] && t.error.None?
            && (s.waiters == [] ==> t.events == s.events + [f] && t.outcomes == s.outcomes)
            && (s.waiters != [] ==>
                  && t.waiters == s.waiters[1..] && t.events == s.events
                  && t.outcomes == s.outcomes[s.waiters[0] := Got(f)])
  {
    hide Objection, Advance;
  }

  function Calls<T>(n: nat): (steps: seq<Step<T>>)
    ensures |steps| == n && forall step <- steps :: step == DoNext
  {
    if n == 0 then [] else [DoNext] + Calls<T>(n - 1)
  }

  /** Nothing buffered is withheld: as many calls as there are buffered events
      get them all, in order, and then everything accepted has been received. */
  lemma {:induction false} Drains<T>(ids: Ids, s: Stream<T>)
    requires Inv(ids, s) && InOrder(s) && s.error.None?
    ensures var t := RunSteps(ids, s, Calls<T>(|s.events|));
            t.events == [] && t.error.None? && Received(t.outcomes, t.calls) == s.accepted
    decreases |s.events|
  {
    hide Run;
    if s.events != [] {
      var t := Next(s);
      NextInv(ids, s);
      NextOrder(ids, s);
      hide Inv, InOrder;
      Drains(ids, t);
      assert Calls<T>(|s.events|)[1..] == Calls<T>(|t.events|);
      assert After(ids, s, DoNext) == t;
    }
  }

  lemma EmptyInv<T>(ids: Ids)
    ensures Inv(ids, Empty<T>()) && InOrder(Empty<T>())
  {
  }

  /** A stream fails exactly at a frame the sequence check refuses, at a frame
      too many that nobody waits for, or when it is failed from outside; then
      everything buffered is gone and every waiting call fails the same way. */
  lemma FailsExactly<T>(ids: Ids, s: Stream<T>, step: Step<T>)
    requires s.error.None?
    ensures var (t, refused) := (After(ids, s, step), step.DoPush? && Objection(ids, s.seqState, step.f).Some?);
            var tooMany := step.DoPush? && !refused && s.waiters == [] && |s.events| >= 32;
            && (t.error.Some? <==> refused || tooMany || step.DoFail?)
            && (refused ==> t.error == Some(Refused(Objection(ids, s.seqState, step.f).value)))
            && (tooMany ==> t.error == Some(BackpressureExceeded))
            && (step.DoFail? ==> t.error == Some(step.failure))
            && (t.error.Some? ==>
                  && t.events == [] && t.waiters == []
                  && forall w <- s.waiters :: w in t.outcomes && t.outcomes[w] == Failed(t.error.value))
  {
    hide Objection, Advance, SettleAll, Without;
    var t := After(ids, s, step);
    if t.error.Some? {
      SettleAllMeans(s.outcomes, s.waiters, Failed(t.error.value));
    }
  }

  /** After a failure nothing is delivered, nothing waits, and every further
      call fails. */
  lemma NothingAfterFailure<T>(ids: Ids, s: Stream<T>, step: Step<T>)
    requires Inv(ids, s) && s.error.Some?
    ensures var t := After(ids, s, step);
            && t.error.Some? && t.delivered == s.delivered && t.accepted == s.accepted
            && t.events == [] && t.waiters == []
            && (step.DoNext? ==> t.outcomes[s.calls] == Failed(s.error.value))
  {
  }

  /** A call, once settled, stays settled the same way. */
  lemma SettledOnce<T>(ids: Ids, s: Stream<T>, step: Step<T>, call: nat)
    requires Inv(ids, s) && call in s.outcomes
    ensures call in After(ids, s, step).outcomes && After(ids, s, step).outcomes[call] == s.outcomes[call]
  {
    match step
    case DoPush(f) =>
      SettleAllMeans(s.outcomes, s.waiters, Failed(BackpressureExceeded));
      if Objection(ids, s.seqState, f).Some? {
        SettleAllMeans(s.outcomes, s.waiters, Failed(Refused(Objection(ids, s.seqState, f).value)));
      }
    case DoNext =>
    case DoTimeout(w) =>
    case DoFail(e) => SettleAllMeans(s.outcomes, s.waiters, Failed(e));
  }

  /** What consumers have got is the beginning of one correctly numbered answer. */
  lemma {:induction false} RunNumbers<T>(ids: Ids, n: nat, fs: seq<Response<T>>)
    requires Run(ids, SeqState(n, false), fs).Some?
    ensures forall i :: 0 <= i < |fs| ==>
              && fs[i].session_id == ids.session_id && fs[i].call_id == ids.call_id
              && fs[i].lifecycle.Some? && fs[i].lifecycle.value.sequence == Some(n + i)
              && (fs[i].is_final ==> i == |fs| - 1)
    decreases |fs|
  {
    if fs != [] {
      var f := fs[0];
      if f.is_final {
        assert Run(ids, SeqState(n + 1, true), fs[1..]).Some?;
      } else {
        RunNumbers(ids, n + 1, fs[1..]);
        assert forall i :: 1 <= i < |fs| ==> fs[i] == fs[1..][i - 1];
      }
    }
  }
}
