/** The accounting decision of the lifecycle profile (src/service_lifecycle_accounting.ts)
    and a ledger driven by it. */
module Accounting {
  datatype Operation = Submit | Status | Observe | Resume | Cancel | Terminal | BadOperation
  datatype Binding = Same | Conflicting | Fresh | BadBinding
  datatype Delivery = NoDelivery | PartialDelivery | CompleteDelivery | BadDelivery
  datatype Outcome = Completed | Failed | Cancelled | Expired | BadOutcome

  /** A field of arbitrary JavaScript type: the text `String` makes of it, and
      whether it is that very string. `["submit"]` has the text of `"submit"`. */
  datatype Field<+T> = Field(text: T, literal: bool)

  /** `field === "..."`. */
  predicate Is<T(==)>(f: Field<T>, value: T) { f.literal && f.text == value }

  /** The flags are true only for the literal `true`; the Bad... values stand for
      any other text, a missing field included. */
  datatype Input = Input(
    operation: Field<Operation>, binding: Field<Binding>, delivery: Field<Delivery>, terminalState: Outcome,
    reservationExists: bool, settlementExists: bool, accepted: bool,
    resumeAvailable: bool, explicitNewTask: bool, freshTaskId: bool, freshIdempotencyKey: bool)

  datatype Code =
    | RejectInvalidInput | RejectConflict | ReturnStatus | ReplayEvents | ExplicitNewTaskRequired
    | RejectIdentifierReuse | StartNewTask | ReuseExecution | RejectMissingReservation | StartExecution
    | ReturnExistingSettlement
    | CancelWithoutAccounting | CancelBeforeAcceptance | CancelAfterPartialDelivery | CancelAfterAcceptance
    | Settle(outcome: Outcome, partial: bool)

  datatype ReservationAction = RNone | RCreate | RReuse | RRelease
  datatype SettlementAction = SNone | SCreate | SReuse

  datatype Decision = Decision(
    code: Code, reservation: ReservationAction, settlement: SettlementAction, newExecution: bool)

  function Just(code: Code): Decision { Decision(code, RNone, SNone, false) }

  /** The operations that ask about an existing task. */
  predicate Asks(o: Operation) { o.Status? || o.Observe? || o.Cancel? || o.Terminal? }

  /** The fields are validated by their text and then compared as they are. */
  function Decide(i: Input): Decision {
    if i.operation.text.BadOperation? || i.binding.text.BadBinding? || i.delivery.text.BadDelivery?
    then Just(RejectInvalidInput)
    else if Asks(i.operation.text) && !Is(i.binding, Same) then Just(RejectConflict)
    else if Is(i.operation, Status) then Just(ReturnStatus)
    else if Is(i.operation, Observe) then Just(ReplayEvents)
    else if Is(i.operation, Resume) then
      if i.resumeAvailable then Just(ReplayEvents)
      else if !i.explicitNewTask then Just(ExplicitNewTaskRequired)
      else if !Is(i.binding, Fresh) || !i.freshTaskId || !i.freshIdempotencyKey then Just(RejectIdentifierReuse)
      else Decision(StartNewTask, RCreate, SNone, true)
    else if Is(i.operation, Submit) then
      if Is(i.binding, Conflicting) then Just(RejectConflict)
      else if Is(i.binding, Same) && i.reservationExists then Decision(ReuseExecution, RReuse, SNone, false)
      else if Is(i.binding, Same) then Just(RejectMissingReservation)
      else if i.reservationExists then Just(RejectConflict)
      else Decision(StartExecution, RCreate, SNone, true)
    else if Is(i.operation, Cancel) then
      if i.settlementExists then Decision(ReturnExistingSettlement, RReuse, SReuse, false)
      else if !i.reservationExists then Just(CancelWithoutAccounting)
      else if !i.accepted then Decision(CancelBeforeAcceptance, RRelease, SNone, false)
      else
        Decision(if Is(i.delivery, PartialDelivery) then CancelAfterPartialDelivery else CancelAfterAcceptance,
                 RReuse, SCreate, false)
    else
      if i.settlementExists then Decision(ReturnExistingSettlement, RReuse, SReuse, false)
      else if !i.reservationExists then Just(RejectMissingReservation)
      else if i.terminalState.BadOutcome? then Just(RejectInvalidInput)
      else Decision(Settle(i.terminalState, Is(i.delivery, PartialDelivery)), RReuse, SCreate, false)
  }

  predicate WellFormed(i: Input) {
    !i.operation.text.BadOperation? && !i.binding.text.BadBinding? && !i.delivery.text.BadDelivery?
  }

  /** Operation and binding are strings. */
  predicate Plain(i: Input) { i.operation.literal && i.binding.literal }

  predicate Resumes(i: Input) {
    Is(i.operation, Resume) && !i.resumeAvailable && i.explicitNewTask && i.freshTaskId && i.freshIdempotencyKey
    && Is(i.binding, Fresh)
  }

  /** A submission starts an execution when its binding is neither of the two
      strings that are looked for. */
  predicate Submits(i: Input) {
    Is(i.operation, Submit) && !i.reservationExists && !Is(i.binding, Same) && !Is(i.binding, Conflicting)
  }

  /** What ends up in the last branch: a terminal report, or any operation that
      only reads like one of the listed words. */
  predicate Reports(i: Input) {
    && (Is(i.operation, Terminal) || !i.operation.literal)
    && (Asks(i.operation.text) ==> Is(i.binding, Same))
  }

  /** The table read backwards, for every input: when each effect happens. */
  lemma EffectsOfAnything(i: Input)
    ensures var d := Decide(i);
            var open := WellFormed(i) && i.reservationExists && !i.settlementExists;
            && (d.newExecution <==> d.reservation.RCreate?)
            && (d.reservation.RCreate? <==> WellFormed(i) && (Submits(i) || Resumes(i)))
            && (d.reservation.RRelease? <==> open && Is(i.operation, Cancel) && Is(i.binding, Same) && !i.accepted)
            && (d.settlement.SCreate? <==>
                  open && ((Is(i.operation, Cancel) && Is(i.binding, Same) && i.accepted)
                           || (Reports(i) && !i.terminalState.BadOutcome?)))
  {
  }

  /** The exact circumstances of every answer, for every input. */
  lemma CodesOfAnything(i: Input)
    ensures var (d, ok) := (Decide(i), WellFormed(i));
            var bound := ok && (Asks(i.operation.text) ==> Is(i.binding, Same));
            var submits := ok && Is(i.operation, Submit);
            var resumes := ok && Is(i.operation, Resume) && !i.resumeAvailable;
            var ends := bound && Is(i.operation, Cancel);
            var reports := bound && Reports(i);
            var open := i.reservationExists && !i.settlementExists;
            var allNew := Is(i.binding, Fresh) && i.freshTaskId && i.freshIdempotencyKey;
            && (d.code == RejectInvalidInput <==> !ok || (reports && open && i.terminalState.BadOutcome?))
            && (d.code == RejectConflict <==>
                  || (ok && !bound) || (submits && Is(i.binding, Conflicting))
                  || (submits && !Is(i.binding, Same) && i.reservationExists))
            && (d.code == ReturnStatus <==> bound && Is(i.operation, Status))
            && (d.code == ReplayEvents <==>
                  bound && (Is(i.operation, Observe) || (Is(i.operation, Resume) && i.resumeAvailable)))
            && (d.code == ExplicitNewTaskRequired <==> resumes && !i.explicitNewTask)
            && (d.code == RejectIdentifierReuse <==> resumes && i.explicitNewTask && !allNew)
            && (d.code == StartNewTask <==> resumes && i.explicitNewTask && allNew)
            && (d.code == ReuseExecution <==> submits && Is(i.binding, Same) && i.reservationExists)
            && (d.code == StartExecution <==> submits && Submits(i))
            && (d.code == RejectMissingReservation <==>
                  !i.reservationExists && ((submits && Is(i.binding, Same)) || (reports && !i.settlementExists)))
            && (d.code == ReturnExistingSettlement <==> (ends || reports) && i.settlementExists)
            && (d.code == CancelWithoutAccounting <==> ends && !i.settlementExists && !i.reservationExists)
            && (d.code == CancelBeforeAcceptance <==> ends && open && !i.accepted)
            && (d.code == CancelAfterPartialDelivery <==> ends && open && i.accepted && Is(i.delivery, PartialDelivery))
            && (d.code == CancelAfterAcceptance <==> ends && open && i.accepted && !Is(i.delivery, PartialDelivery))
            && (d.code.Settle? <==> reports && open && !i.terminalState.BadOutcome?)
            && (d.code.Settle? ==> d.code == Settle(i.terminalState, Is(i.delivery, PartialDelivery)))
  {
  }

  /** Which answers refer to an existing reservation or settlement, and what a
      well-formed question about a task is. */
  lemma Reuses(i: Input)
    ensures var d := Decide(i);
            && (d.settlement.SReuse? <==> d.code == ReturnExistingSettlement)
            && (d.reservation.RReuse? <==>
                  || d.code in {ReuseExecution, ReturnExistingSettlement, CancelAfterPartialDelivery,
                                CancelAfterAcceptance}
                  || d.code.Settle?)
    ensures Asks(i.operation.text) <==>
            i.operation.text !in {Submit, Resume, BadOperation}
  {
  }

  /** The same for strings: a reservation is created only for a fresh binding, a
      settlement only for the same one. */
  lemma EffectsExactly(i: Input)
    requires Plain(i)
    ensures var d := Decide(i);
            var starts := (i.operation.text.Submit? && !i.reservationExists) || Resumes(i);
            var ends := (i.operation.text.Cancel? && i.accepted)
              || (i.operation.text.Terminal? && !i.terminalState.BadOutcome?);
            var open := WellFormed(i) && i.binding.text.Same? && i.reservationExists && !i.settlementExists;
            && (d.newExecution <==> d.reservation.RCreate?)
            && (d.reservation.RCreate? <==> (WellFormed(i) && i.binding.text.Fresh? && starts))
            && (d.reservation.RRelease? <==> (open && i.operation.text.Cancel? && !i.accepted))
            && (d.settlement.SCreate? <==> (open && ends))
  {
    EffectsOfAnything(i);
    hide Decide;
  }

  /** Two look-alikes: a binding `["conflict"]` starts an execution, and an
      operation `["submit"]` with a conflicting binding settles. */
  lemma LookAlikes(terminalState: Outcome, settlementExists: bool, accepted: bool)
    requires !terminalState.BadOutcome?
    ensures var i := Input(Field(Submit, true), Field(Conflicting, false), Field(NoDelivery, true), terminalState,
                           false, settlementExists, accepted, false, false, false, false);
            Decide(i) == Decision(StartExecution, RCreate, SNone, true)
            && Decide(i.(binding := Field(Conflicting, true))) == Just(RejectConflict)
    ensures var i := Input(Field(Submit, false), Field(Conflicting, true), Field(NoDelivery, true), terminalState,
                           true, false, accepted, false, false, false, false);
            Decide(i) == Decision(Settle(terminalState, false), RReuse, SCreate, false)
            && Decide(i.(operation := Field(Submit, true))) == Just(RejectConflict)
  {
  }

  // ---- A ledger of many tasks ----

  type Task = int

  /** What happened to one task so far. */
  datatype Account = Account(created: nat, released: nat, settled: nat, executions: nat) {
    predicate Live() { created > 0 && released == 0 && settled == 0 }
  }

  const NOTHING := Account(0, 0, 0, 0)

  /** `live`: the tasks holding a reservation; the counters are totals. */
  datatype Ledger = Ledger(
    accounts: map<Task, Account>, live: set<Task>, created: nat, released: nat, settled: nat, executions: nat)

  const EMPTY := Ledger(map[], {}, 0, 0, 0, 0)

  function AccountOf(l: Ledger, t: Task): Account {
    if t in l.accounts then l.accounts[t] else NOTHING
  }

  /** The flags of the request are read from the ledger (`keep`: whether a
      settled reservation still reads as existing), and only a task never seen
      is fresh. A resume asks about another task than the one it may start, so
      its flags are arbitrary. */
  predicate Truthful(l: Ledger, t: Task, i: Input, keep: bool) {
    && (i.binding.text.Fresh? ==> t !in l.accounts)
    && (!i.operation.text.Resume? ==>
          var a := AccountOf(l, t);
          && (i.settlementExists <==> a.settled > 0)
          && (i.reservationExists <==> a.Live() || (keep && a.settled > 0)))
  }

  function Booked(a: Account, d: Decision): Account {
    Account(
      a.created + if d.reservation.RCreate? then 1 else 0,
      a.released + if d.reservation.RRelease? then 1 else 0,
      a.settled + if d.settlement.SCreate? then 1 else 0,
      a.executions + if d.newExecution then 1 else 0)
  }

  function Next(l: Ledger, t: Task, i: Input): Ledger {
    var d := Decide(i);
    var a := Booked(AccountOf(l, t), d);
    Ledger(
      if a == AccountOf(l, t) then l.accounts else l.accounts[t := a],
      if a.Live() then l.live + {t} else l.live - {t},
      l.created + if d.reservation.RCreate? then 1 else 0,
      l.released + if d.reservation.RRelease? then 1 else 0,
      l.settled + if d.settlement.SCreate? then 1 else 0,
      l.executions + if d.newExecution then 1 else 0)
  }

  /** What each answer adds to the totals. */
  lemma NextTotals(l: Ledger, t: Task, i: Input)
    ensures var (n, code) := (Next(l, t, i), Decide(i).code);
            && n.created == l.created + (if code in {StartExecution, StartNewTask} then 1 else 0)
            && n.executions == l.executions + (if code in {StartExecution, StartNewTask} then 1 else 0)
            && n.released == l.released + (if code == CancelBeforeAcceptance then 1 else 0)
            && n.settled == l.settled +
                 if code in {CancelAfterPartialDelivery, CancelAfterAcceptance} || code.Settle? then 1 else 0
  {
    CodeEffects(i);
    hide Decide, AccountOf, Booked;
  }

  lemma CodeEffects(i: Input)
    ensures var d := Decide(i);
            && d.newExecution == d.reservation.RCreate?
            && (d.reservation.RCreate? <==> d.code in {StartExecution, StartNewTask})
            && (d.reservation.RRelease? <==> d.code == CancelBeforeAcceptance)
            && (d.settlement.SCreate? <==>
                  d.code in {CancelAfterPartialDelivery, CancelAfterAcceptance} || d.code.Settle?)
  {
  }

  /** A task is reserved and executed once, and then at most one of released
      and settled happens to it, once. */
  predicate Sane(a: Account) {
    a.created == 1 && a.executions == 1 && a.released + a.settled <= 1
  }

  ghost predicate Inv(l: Ledger) {
    && (forall t :: t in l.accounts ==> Sane(l.accounts[t]))
    && (forall t :: t in l.live <==> t in l.accounts && l.accounts[t].Live())
    && l.created == |l.live| + l.released + l.settled
    && l.executions == l.created
  }

  /** Reads `["conflict"]` for a task that was seen before, or like a resume for
      a task without a reservation. */
  predicate Unsafe(l: Ledger, t: Task, i: Input) {
    && WellFormed(i)
    && ((Submits(i) && t in l.accounts)
        || (Reports(i) && i.operation.text.Resume? && t !in l.live
            && i.reservationExists && !i.settlementExists && !i.terminalState.BadOutcome?))
  }

  /** A safe decision creates only for a new task, and releases or settles only
      a live one, not both. */
  lemma SafeEffects(l: Ledger, t: Task, i: Input, keep: bool)
    requires Inv(l) && Truthful(l, t, i, keep) && !Unsafe(l, t, i)
    ensures var d := Decide(i);
            && (d.reservation.RCreate? ==> t !in l.accounts) && (d.newExecution <==> d.reservation.RCreate?)
            && (d.reservation.RRelease? || d.settlement.SCreate? ==> t in l.live)
            && !(d.settlement.SCreate? && (d.reservation.RCreate? || d.reservation.RRelease?))
  {
    EffectsOfAnything(i);
    hide Decide;
  }

  lemma SafeKeeps(l: Ledger, t: Task, i: Input, keep: bool)
    requires Inv(l) && Truthful(l, t, i, keep) && !Unsafe(l, t, i)
    ensures Inv(Next(l, t, i))
  {
    SafeEffects(l, t, i, keep);
    hide Decide, Truthful, Unsafe;
    assert AccountOf(l, t).Live() <==> t in l.live;
    Resized(l.live, t);
  }

  lemma UnsafeBreaks(l: Ledger, t: Task, i: Input, keep: bool)
    requires Inv(l) && Truthful(l, t, i, keep) && Unsafe(l, t, i)
    ensures !Inv(Next(l, t, i))
  {
    EffectsOfAnything(i);
    hide Decide;
    assert !Sane(Next(l, t, i).accounts[t]);
  }

  /** One decision keeps the books, for every input, exactly unless it is one of
      the unsafe look-alikes. */
  lemma InvNextExactly(l: Ledger, t: Task, i: Input, keep: bool)
    requires Inv(l) && Truthful(l, t, i, keep)
    ensures Inv(Next(l, t, i)) <==> !Unsafe(l, t, i)
  {
    hide Inv, Next, Truthful, Unsafe;
    if Unsafe(l, t, i) {
      UnsafeBreaks(l, t, i, keep);
    } else {
      SafeKeeps(l, t, i, keep);
    }
  }

  lemma Resized(s: set<Task>, t: Task)
    ensures t in s ==> |s - {t}| == |s| - 1 && s + {t} == s
    ensures t !in s ==> |s + {t}| == |s| + 1 && s - {t} == s
  {
  }

  /** Strings are never unsafe. */
  lemma InvNext(l: Ledger, t: Task, i: Input, keep: bool)
    requires Inv(l) && Truthful(l, t, i, keep) && Plain(i)
    ensures Inv(Next(l, t, i))
  {
    InvNextExactly(l, t, i, keep);
    hide Inv, Next;
  }

  datatype Event = Event(task: Task, input: Input)

  predicate AllTruthful(l: Ledger, es: seq<Event>, keep: bool)
    decreases |es|
  {
    || es == []
    || (Truthful(l, es[0].task, es[0].input, keep)
        && AllTruthful(Next(l, es[0].task, es[0].input), es[1..], keep))
  }

  function Run(l: Ledger, es: seq<Event>): Ledger
    decreases |es|
  {
    if es == [] then l else Run(Next(l, es[0].task, es[0].input), es[1..])
  }

  /** What the books say: the totals add up, the live tasks are those reserved
      and neither released nor settled, and nothing happens twice to a task. */
  ghost predicate Balanced(l: Ledger) {
    && l.created == l.executions == |l.live| + l.released + l.settled
    && forall t :: t in l.accounts ==>
         var a := l.accounts[t];
         && a.created == 1 && a.executions == 1 && a.released + a.settled <= 1
         && (t in l.live <==> a.released + a.settled == 0)
  }

  lemma InvBalances(l: Ledger)
    requires Inv(l)
    ensures Balanced(l)
  {
  }

  /** Over every run of string inputs: reservations created = live + released +
      settled; a task is settled at most once, never without a reservation, never
      after a release; executions start exactly with reservations. */
  lemma {:induction false} Conservation(l: Ledger, es: seq<Event>, keep: bool)
    requires Inv(l) && AllTruthful(l, es, keep) && forall i :: 0 <= i < |es| ==> Plain(es[i].input)
    ensures Inv(Run(l, es)) && Balanced(Run(l, es))
    decreases |es|
  {
    if es == [] {
      InvBalances(l);
    } else {
      hide Next, Inv, Balanced, Truthful, Plain;
      InvNext(l, es[0].task, es[0].input, keep);
      Conservation(Next(l, es[0].task, es[0].input), es[1..], keep);
    }
  }

  /** The books balance after every prefix of the run. */
  ghost predicate AlwaysBalanced(l: Ledger, es: seq<Event>)
    decreases |es|
  {
    Inv(l) && (es == [] || AlwaysBalanced(Next(l, es[0].task, es[0].input), es[1..]))
  }

  predicate NoneUnsafe(l: Ledger, es: seq<Event>)
    decreases |es|
  {
    es == [] || (!Unsafe(l, es[0].task, es[0].input) && NoneUnsafe(Next(l, es[0].task, es[0].input), es[1..]))
  }

  /** The same for inputs of any type: the books stay balanced throughout a run
      if and only if no step of it is an unsafe look-alike. */
  lemma {:induction false} ConservationExactly(l: Ledger, es: seq<Event>, keep: bool)
    requires Inv(l) && AllTruthful(l, es, keep)
    ensures AlwaysBalanced(l, es) <==> NoneUnsafe(l, es)
    decreases |es|
  {
    if es != [] {
      hide Next, Inv, Truthful, Unsafe;
      InvNextExactly(l, es[0].task, es[0].input, keep);
      var l' := Next(l, es[0].task, es[0].input);
      if Inv(l') {
        ConservationExactly(l', es[1..], keep);
      }
    }
  }

  lemma EmptyInv()
    ensures Inv(EMPTY)
  {
  }

  /** Submit, cancel before acceptance, and submit again with the binding
      `["conflict"]`: one task gets a second reservation. */
  lemma LookAlikeBreaksBooks(t: Task) returns (es: seq<Event>)
    ensures AllTruthful(EMPTY, es, false) && |es| == 3 && Plain(es[0].input) && Plain(es[1].input)
    ensures t in Run(EMPTY, es).accounts && Run(EMPTY, es).accounts[t].created == 2 && !Inv(Run(EMPTY, es))
  {
    var submit := Input(Field(Submit, true), Field(Fresh, true), Field(NoDelivery, true), BadOutcome,
                        false, false, false, false, false, false, false);
    var cancel := submit.(operation := Field(Cancel, true), binding := Field(Same, true), reservationExists := true);
    var again := submit.(binding := Field(Conflicting, false));
    es := [Event(t, submit), Event(t, cancel), Event(t, again)];
    var l1 := Next(EMPTY, t, submit);
    var l2 := Next(l1, t, cancel);
    var l3 := Next(l2, t, again);
    assert AccountOf(l1, t) == Account(1, 0, 0, 1);
    assert AccountOf(l2, t) == Account(1, 1, 0, 1);
    assert AccountOf(l3, t) == Account(2, 1, 0, 2);
    assert es[1..] == [Event(t, cancel), Event(t, again)] && es[1..][1..] == [Event(t, again)];
    hide Next;
    assert [Event(t, again)][1..] == [];
    assert Run(l2, [Event(t, again)]) == l3 && AllTruthful(l2, [Event(t, again)], false);
    assert Run(l1, es[1..]) == l3 && AllTruthful(l1, es[1..], false);
    assert !Sane(l3.accounts[t]);
  }
}
