/** The acceptor for one call's RESPONSE sequence (src/native_response_sequence.ts). */
module ResponseSequence {
  import opened Optional

  /** `sequence` is None when the wire value was not a number (NaN). */
  datatype Lifecycle = Lifecycle(task_id: string, sequence: Option<int>, event: string, is_final: bool)

  /** The part of a response frame the acceptor looks at; `body` is the rest
      (result, error, token count). */
  datatype Response<+T> = Response(
    session_id: string, call_id: string, status: string, is_final: bool, lifecycle: Option<Lifecycle>, body: T)

  datatype Ids = Ids(session_id: string, call_id: string, task_id: string)

  datatype Code =
    | ResponseAfterTerminal | MissingLifecycle | SessionIdDrift | CallIdDrift | TaskIdDrift | SequenceDrift
    | FinalityDisagreement | StatusEventDisagreement | TerminalFlagMismatch | MissingTerminalResponse
    | StatusLookupFailed   // a TypeError, not one of the acceptor's own codes

  datatype SeqState = SeqState(next: nat, terminal: bool)

  const START := SeqState(0, false)

  predicate EventFits(status: string, event: string) {
    || (status == "partial" && event == "partial")
    || (status == "success" && event == "completed")
    || (status == "error" && event in {"failed", "cancelled"})
    || (status == "timeout" && event in {"timed_out", "expired"})
  }

  /** The labels that fit, pair by pair. */
  lemma LabelsThatFit(status: string, event: string)
    ensures EventFits(status, event) <==>
            (status, event) in {("partial", "partial"), ("success", "completed"), ("error", "failed"),
                                ("error", "cancelled"), ("timeout", "timed_out"), ("timeout", "expired")}
  {
  }

  /** What every JavaScript object inherits: the table of expected events has an
      entry under these names, and it is not a set. */
  const INHERITED: set<string> := {
    "constructor", "hasOwnProperty", "isPrototypeOf", "propertyIsEnumerable", "toLocaleString", "toString", "valueOf",
    "__proto__", "__defineGetter__", "__defineSetter__", "__lookupGetter__", "__lookupSetter__"}

  lemma OwnStatus(status: string, event: string)
    requires EventFits(status, event) || status == "partial"
    ensures status !in INHERITED
  {
  }

  /** The first check that fails, in the source's order. */
  function Objection<T>(ids: Ids, st: SeqState, f: Response<T>): Option<Code> {
    if st.terminal then Some(ResponseAfterTerminal)
    else if f.lifecycle.None? then Some(MissingLifecycle)
    else if f.session_id != ids.session_id then Some(SessionIdDrift)
    else if f.call_id != ids.call_id then Some(CallIdDrift)
    else if f.lifecycle.value.task_id != ids.task_id then Some(TaskIdDrift)
    else if f.lifecycle.value.sequence != Some(st.next) then Some(SequenceDrift)
    else if f.is_final != f.lifecycle.value.is_final then Some(FinalityDisagreement)
    else if f.status in INHERITED then Some(StatusLookupFailed)
    else if !EventFits(f.status, f.lifecycle.value.event) then Some(StatusEventDisagreement)
    else if (f.status == "partial" && f.is_final) || (f.status != "partial" && !f.is_final) then
      Some(TerminalFlagMismatch)
    else None
  }

  function Advance<T>(st: SeqState, f: Response<T>): SeqState {
    SeqState(st.next + 1, f.is_final)
  }

  class NativeResponseSequence {
    const ids: Ids
    var nextSequence: nat
    var terminalSeen: bool

    constructor (ids: Ids)
      ensures State() == START && this.ids == ids
    {
      this.ids, nextSequence, terminalSeen := ids, 0, false;
    }

    function State(): SeqState
      reads this
    {
      SeqState(nextSequence, terminalSeen)
    }

    /** A refused frame leaves the state as it was. */
    method Accept<T>(f: Response<T>) returns (objection: Option<Code>)
      modifies this
      ensures objection == Objection(ids, old(State()), f)
      ensures State() == if objection.None? then Advance(old(State()), f) else old(State())
    {
      if terminalSeen { return Some(ResponseAfterTerminal); }
      if f.lifecycle.None? { return Some(MissingLifecycle); }
      var lc := f.lifecycle.value;
      if f.session_id != ids.session_id { return Some(SessionIdDrift); }
      if f.call_id != ids.call_id { return Some(CallIdDrift); }
      if lc.task_id != ids.task_id { return Some(TaskIdDrift); }
      if lc.sequence != Some(nextSequence) { return Some(SequenceDrift); }
      if f.is_final != lc.is_final { return Some(FinalityDisagreement); }
      if f.status in INHERITED { return Some(StatusLookupFailed); }
      if !EventFits(f.status, lc.event) { return Some(StatusEventDisagreement); }
      if (f.status == "partial" && f.is_final) || (f.status != "partial" && !f.is_final) {
        return Some(TerminalFlagMismatch);
      }
      nextSequence, terminalSeen := nextSequence + 1, f.is_final;
      objection := None;
    }

    method Finish() returns (objection: Option<Code>)
      ensures objection == if State().terminal then None else Some(MissingTerminalResponse)
    {
      objection := if terminalSeen then None else Some(MissingTerminalResponse);
    }
  }

  // ---- What the acceptor accepts ----

  /** The state after a run of frames, or None as soon as one is refused. */
  function Run<T>(ids: Ids, st: SeqState, fs: seq<Response<T>>): Option<SeqState>
    decreases |fs|
  {
    if fs == [] then Some(st)
    else if Objection(ids, st, fs[0]).Some? then None
    else Run(ids, Advance(st, fs[0]), fs[1..])
  }

  predicate Finished(r: Option<SeqState>) { r.Some? && r.value.terminal }

  /** `f` is the frame number `n` of the call, final exactly when `last`. */
  predicate Numbered<T>(ids: Ids, f: Response<T>, n: nat, last: bool) {
    && f.session_id == ids.session_id && f.call_id == ids.call_id
    && f.lifecycle.Some? && f.lifecycle.value.task_id == ids.task_id
    && f.lifecycle.value.sequence == Some(n)
    && f.is_final == f.lifecycle.value.is_final == last
    && (f.status == "partial" <==> !last)
    && EventFits(f.status, f.lifecycle.value.event)
  }

  /** A complete answer: frames numbered 0..n-1, all of this call, every label
      matching its status, and exactly one final frame, which is the last. */
  ghost predicate CompleteAnswer<T>(ids: Ids, fs: seq<Response<T>>) {
    fs != [] && forall i :: 0 <= i < |fs| ==> Numbered(ids, fs[i], i, i == |fs| - 1)
  }

  /** The same, walking down the list. */
  predicate AnswerFrom<T>(ids: Ids, n: nat, fs: seq<Response<T>>)
    decreases |fs|
  {
    fs != [] && Numbered(ids, fs[0], n, |fs| == 1) && (|fs| > 1 ==> AnswerFrom(ids, n + 1, fs[1..]))
  }

  lemma {:induction false} AnswerFromMeans<T>(ids: Ids, n: nat, fs: seq<Response<T>>)
    ensures AnswerFrom(ids, n, fs) <==>
            fs != [] && forall i :: 0 <= i < |fs| ==> Numbered(ids, fs[i], n + i, i == |fs| - 1)
    decreases |fs|
  {
    hide Numbered;
    if |fs| > 1 {
      var tail := fs[1..];
      AnswerFromMeans(ids, n + 1, tail);
      forall i | 0 <= i < |tail|
        ensures Numbered(ids, tail[i], n + 1 + i, i == |tail| - 1) <==>
                Numbered(ids, fs[i + 1], n + (i + 1), i + 1 == |fs| - 1)
      {
      }
      if forall i :: 0 <= i < |tail| ==> Numbered(ids, tail[i], n + 1 + i, i == |tail| - 1) {
        forall i | 1 <= i < |fs| ensures Numbered(ids, fs[i], n + i, i == |fs| - 1) {
          assert Numbered(ids, tail[i - 1], n + 1 + (i - 1), i - 1 == |tail| - 1);
        }
      }
    }
  }

  lemma {:induction false} RunIsAnswer<T>(ids: Ids, n: nat, fs: seq<Response<T>>)
    ensures Finished(Run(ids, SeqState(n, false), fs)) <==> AnswerFrom(ids, n, fs)
    ensures Finished(Run(ids, SeqState(n, false), fs)) ==> Run(ids, SeqState(n, false), fs).value.next == n + |fs|
    decreases |fs|
  {
    if fs != [] {
      RunIsAnswer(ids, n + 1, fs[1..]);
    }
  }

  /** Accepting every frame and then finishing succeeds exactly on complete answers. */
  lemma AcceptsCompleteAnswers<T>(ids: Ids, fs: seq<Response<T>>)
    ensures Finished(Run(ids, START, fs)) <==> CompleteAnswer(ids, fs)
  {
    RunIsAnswer(ids, 0, fs);
    AnswerFromMeans(ids, 0, fs);
  }
}
