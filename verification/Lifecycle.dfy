/** The lifecycle store for tasks (src/service_lifecycle.ts): a state machine per task
    with a trimmed event log, next to the full history each log stands for. */
module Lifecycle {
  import opened Optional
  import opened Picking

  /** A task id, idempotency key or digest: only equality matters. */
  type Name = int

  datatype State =
    | Submitted | Accepted | Queued | Running | Waiting | Streaming
    | Rejected | Completed | Failed | Cancelled | Expired

  predicate Terminal(s: State) {
    s.Rejected? || s.Completed? || s.Failed? || s.Cancelled? || s.Expired?
  }

  /** The transition table. */
  predicate Edge(a: State, b: State) {
    match a
    case Submitted => b.Accepted? || b.Rejected? || b.Expired?
    case Accepted => b.Queued? || b.Running? || b.Completed? || b.Cancelled? || b.Failed? || b.Expired?
    case Queued => b.Running? || b.Waiting? || b.Cancelled? || b.Failed? || b.Expired?
    case Running => b.Waiting? || b.Streaming? || b.Completed? || b.Cancelled? || b.Failed? || b.Expired?
    case Waiting => b.Queued? || b.Running? || b.Cancelled? || b.Failed? || b.Expired?
    case Streaming => b.Streaming? || b.Waiting? || b.Completed? || b.Cancelled? || b.Failed? || b.Expired?
    case _ => false
  }

  /** A requested state: one of the profile's, "timed_out", or any other text. */
  datatype Request = To(state: State) | TimedOut | Unsupported

  datatype Event = Event(sequence: int, state: State, isFinal: bool, observedAt: int)

  datatype Record = Record(key: Name, digest: Name, state: State, events: seq<Event>, updatedAt: int)

  type Records = map<Name, Record>

  /** Every log holds at least one event. */
  predicate Logged(m: Records) {
    forall id :: id in m ==> m[id].events != []
  }

  datatype Config = Config(maxEvents: int, ttl: int) {
    function Bound(): int { if maxEvents < 2 then 2 else maxEvents }
  }

  datatype Reply =
    | Created(record: Record) | Existing(record: Record) | Found(record: Record)
    | Moved(event: Event) | Page(events: seq<Event>)
    | Conflict | UnknownTask | ResumeUnavailable(record: Record)

  // ---- The operations as functions ----

  predicate KeyTaken(m: Records, key: Name) {
    exists id :: id in m && m[id].key == key
  }

  function Submit(m: Records, id: Name, key: Name, digest: Name, now: int): (Reply, Records) {
    if id in m then
      if m[id].key != key || m[id].digest != digest then (Conflict, m) else (Existing(m[id]), m)
    else if KeyTaken(m, key) then (Conflict, m)
    else
      var r := Record(key, digest, Accepted, [Event(0, Accepted, false, now)], now);
      (Created(r), m[id := r])
  }

  predicate Gone(cfg: Config, r: Record, now: int) {
    Terminal(r.state) && now - r.updatedAt > cfg.ttl
  }

  /** A terminal record past its time to live is dropped when looked at. */
  function Status(cfg: Config, m: Records, id: Name, now: int): (Reply, Records) {
    if id !in m || Gone(cfg, m[id], now) then (UnknownTask, m - {id}) else (Found(m[id]), m)
  }

  function Target(q: Request): Option<State> {
    match q case To(s) => Some(s) case TimedOut => Some(Expired) case Unsupported => None
  }

  function Trim<T>(es: seq<T>, bound: int): seq<T> {
    if 0 <= bound < |es| then es[|es| - bound..] else es
  }

  function NextEvent(r: Record, s: State, now: int): Event
    requires r.events != []
  {
    Event(r.events[|r.events| - 1].sequence + 1, s, Terminal(s), now)
  }

  function Move(cfg: Config, m: Records, id: Name, q: Request, now: int): (Reply, Records)
    requires Logged(m)
  {
    if id !in m then (UnknownTask, m)
    else if Target(q).None? || !Edge(m[id].state, Target(q).value) then (Conflict, m)
    else
      var (r, s) := (m[id], Target(q).value);
      var e := NextEvent(r, s, now);
      (Moved(e), m[id := r.(events := Trim(r.events + [e], cfg.Bound()), state := s, updatedAt := now)])
  }

  /** Status, a move to cancelled unless already terminal, and status again, at
      three readings of the clock. */
  function Cancel(cfg: Config, m: Records, id: Name, t1: int, t2: int, t3: int): (Reply, Records)
    requires Logged(m)
  {
    var (r1, m1) := Status(cfg, m, id, t1);
    if r1.UnknownTask? then (r1, m1)
    else if Terminal(r1.record.state) then Status(cfg, m1, id, t3)
    else
      var (r2, m2) := Move(cfg, m1, id, To(Cancelled), t2);
      if r2.Conflict? then (r2, m2) else Status(cfg, m2, id, t3)
  }

  function After(es: seq<Event>, cursor: int): seq<Event> {
    if es == [] then []
    else (if es[0].sequence > cursor then [es[0]] else []) + After(es[1..], cursor)
  }

  function Take<T>(es: seq<T>, limit: int): seq<T> {
    var n := if limit < 1 then 1 else limit;
    if n < |es| then es[..n] else es
  }

  function EventsAfter(cfg: Config, m: Records, id: Name, cursor: int, limit: int, now: int): (Reply, Records)
    requires Logged(m)
  {
    var (r, m') := Status(cfg, m, id, now);
    if r.UnknownTask? then (r, m')
    else if cursor >= 0 && cursor + 1 < r.record.events[0].sequence then (ResumeUnavailable(r.record), m')
    else (Page(Take(After(r.record.events, cursor), limit)), m')
  }

  // ---- Full histories ----

  type Histories = map<Name, seq<Event>>

  /** The event number `i` follows its predecessor along an edge of the table. */
  predicate Linked(h: seq<Event>, i: int) {
    0 < i < |h| ==> Edge(h[i - 1].state, h[i].state)
  }

  ghost predicate EventsWellFormed(h: seq<Event>) {
    && h != [] && h[0].state == Accepted
    && (forall i :: 0 <= i < |h| ==> h[i].sequence == i && h[i].isFinal == Terminal(h[i].state))
    && (forall i :: Linked(h, i))
  }

  /** The record is its history, cut to the newest events. */
  ghost predicate Represents(cfg: Config, r: Record, h: seq<Event>) {
    && EventsWellFormed(h)
    && r.events == Trim(h, cfg.Bound())
    && r.state == h[|h| - 1].state && r.updatedAt == h[|h| - 1].observedAt
  }

  predicate DistinctKeys(m: Records) {
    forall a, b :: a in m && b in m && m[a].key == m[b].key ==> a == b
  }

  ghost predicate Inv(cfg: Config, m: Records, hs: Histories) {
    && m.Keys == hs.Keys
    && (forall id :: id in m ==> Represents(cfg, m[id], hs[id]))
    && DistinctKeys(m)
  }

  datatype Step =
    | DoSubmit(id: Name, key: Name, digest: Name, now: int)
    | DoStatus(id: Name, now: int)
    | DoMove(id: Name, request: Request, now: int)

  function Result(cfg: Config, m: Records, s: Step): (r: (Reply, Records))
    requires Logged(m)
    ensures Logged(r.1)
  {
    match s
    case DoSubmit(id, key, digest, now) => Submit(m, id, key, digest, now)
    case DoStatus(id, now) => Status(cfg, m, id, now)
    case DoMove(id, q, now) => Move(cfg, m, id, q, now)
  }

  /** A life starts with a creation, grows by each move, and ends when the record
      is dropped; nothing is ever trimmed here. */
  function Recorded(hs: Histories, id: Name, reply: Reply): Histories {
    match reply
    case Created(r) => hs[id := r.events]
    case Moved(e) => if id in hs then hs[id := hs[id] + [e]] else hs
    case UnknownTask => hs - {id}
    case _ => hs
  }

  lemma NonEmpty(cfg: Config, m: Records, hs: Histories)
    requires Inv(cfg, m, hs)
    ensures Logged(m)
  {
  }

  /** Cutting before or after adding one event comes to the same. */
  lemma TrimSnoc<T>(h: seq<T>, e: T, bound: int)
    requires bound >= 1 && h != []
    ensures Trim(h, bound) != [] && Trim(h, bound)[|Trim(h, bound)| - 1] == h[|h| - 1]
    ensures Trim(Trim(h, bound) + [e], bound) == Trim(h + [e], bound)
  {
  }

  lemma WellFormedSnoc(h: seq<Event>, e: Event)
    requires EventsWellFormed(h) && e.sequence == |h|
    requires e.isFinal == Terminal(e.state) && Edge(h[|h| - 1].state, e.state)
    ensures EventsWellFormed(h + [e])
  {
    forall i ensures Linked(h + [e], i) {
      assert Linked(h, i);
    }
  }

  lemma MoveRepresents(cfg: Config, r: Record, h: seq<Event>, s: State, now: int)
    requires Represents(cfg, r, h) && Edge(r.state, s)
    ensures r.events != []
    ensures var e := NextEvent(r, s, now);
            Represents(cfg, r.(events := Trim(r.events + [e], cfg.Bound()), state := s, updatedAt := now), h + [e])
  {
    assert h[|h| - 1].sequence == |h| - 1;
    hide EventsWellFormed, Edge, Trim, Linked;
    TrimSnoc(h, NextEvent(r, s, now), cfg.Bound());
    WellFormedSnoc(h, NextEvent(r, s, now));
  }

  lemma FreshRepresents(cfg: Config, key: Name, digest: Name, now: int)
    ensures var es := [Event(0, Accepted, false, now)]; Represents(cfg, Record(key, digest, Accepted, es, now), es)
  {
  }

  /** Replacing one record by another that represents its history, under a key
      nobody else has, keeps the invariant. */
  lemma InvUpdate(cfg: Config, m: Records, hs: Histories, id: Name, r: Record, h: seq<Event>)
    requires Inv(cfg, m, hs) && Represents(cfg, r, h)
    requires forall other :: other in m && other != id ==> m[other].key != r.key
    ensures Inv(cfg, m[id := r], hs[id := h])
  {
    hide Represents;
  }

  lemma InvRemove(cfg: Config, m: Records, hs: Histories, id: Name)
    requires Inv(cfg, m, hs)
    ensures Inv(cfg, m - {id}, hs - {id})
  {
    hide Represents;
  }

  lemma InvSubmit(cfg: Config, m: Records, hs: Histories, id: Name, key: Name, digest: Name, now: int)
    requires Inv(cfg, m, hs)
    ensures var (reply, m') := Submit(m, id, key, digest, now); Inv(cfg, m', Recorded(hs, id, reply))
  {
    if id !in m && !KeyTaken(m, key) {
      FreshRepresents(cfg, key, digest, now);
      var es := [Event(0, Accepted, false, now)];
      hide Represents;
      InvUpdate(cfg, m, hs, id, Record(key, digest, Accepted, es, now), es);
      hide Inv;
    }
  }

  lemma InvMove(cfg: Config, m: Records, hs: Histories, id: Name, q: Request, now: int)
    requires Inv(cfg, m, hs)
    ensures Logged(m)
    ensures var (reply, m') := Move(cfg, m, id, q, now); Inv(cfg, m', Recorded(hs, id, reply))
  {
    NonEmpty(cfg, m, hs);
    InvRemove(cfg, m, hs, id);
    hide Represents, NextEvent, Trim, Logged, Edge;
    if id in m && Target(q).Some? && Edge(m[id].state, Target(q).value) {
      var (r, st) := (m[id], Target(q).value);
      MoveRepresents(cfg, r, hs[id], st, now);
      var e := NextEvent(r, st, now);
      var r' := r.(events := Trim(r.events + [e], cfg.Bound()), state := st, updatedAt := now);
      InvUpdate(cfg, m, hs, id, r', hs[id] + [e]);
      hide Inv, DistinctKeys;
    }
  }

  lemma InvStep(cfg: Config, m: Records, hs: Histories, s: Step)
    requires Inv(cfg, m, hs)
    ensures Logged(m)
    ensures var (reply, m') := Result(cfg, m, s); Inv(cfg, m', Recorded(hs, s.id, reply))
  {
    NonEmpty(cfg, m, hs);
    InvRemove(cfg, m, hs, s.id);
    hide Inv;
    match s
    case DoSubmit(id, key, digest, now) => InvSubmit(cfg, m, hs, id, key, digest, now);
    case DoStatus(id, now) =>
    case DoMove(id, q, now) => InvMove(cfg, m, hs, id, q, now);
  }

  function Run(cfg: Config, m: Records, hs: Histories, steps: seq<Step>): (Records, Histories)
    requires Logged(m)
    decreases |steps|
  {
    if steps == [] then (m, hs)
    else
      var (reply, m') := Result(cfg, m, steps[0]);
      Run(cfg, m', Recorded(hs, steps[0].id, reply), steps[1..])
  }

  /** A run, step by step. */
  lemma {:induction false} RunSnoc(cfg: Config, m: Records, hs: Histories, steps: seq<Step>, s: Step)
    requires Logged(m)
    ensures Logged(Run(cfg, m, hs, steps).0) && Run(cfg, m, hs, []) == (m, hs)
    ensures var (m', hs') := Run(cfg, m, hs, steps);
            var (reply, m'') := Result(cfg, m', s);
            Run(cfg, m, hs, steps + [s]) == (m'', Recorded(hs', s.id, reply))
    decreases |steps|
  {
    hide Result, Recorded, Logged;
    if steps == [] {
      assert [s][1..] == [];
    } else {
      var (reply, m') := Result(cfg, m, steps[0]);
      RunSnoc(cfg, m', Recorded(hs, steps[0].id, reply), steps[1..], s);
      assert (steps + [s])[1..] == steps[1..] + [s];
    }
  }

  /** Every run keeps every record in agreement with its full history and the
      idempotency keys distinct; it holds in a fresh store. */
  lemma {:induction false} RunInv(cfg: Config, m: Records, hs: Histories, steps: seq<Step>)
    requires Inv(cfg, m, hs)
    ensures Logged(m)
    ensures var (m', hs') := Run(cfg, m, hs, steps); Inv(cfg, m', hs')
    decreases |steps|
  {
    NonEmpty(cfg, m, hs);
    if steps != [] {
      InvStep(cfg, m, hs, steps[0]);
      var (reply, m') := Result(cfg, m, steps[0]);
      RunInv(cfg, m', Recorded(hs, steps[0].id, reply), steps[1..]);
    }
  }

  /** The transition table read backwards: from where each state is reached. */
  lemma Sources(a: State, b: State)
    ensures Edge(a, b) <==>
            a in match b
                 case Submitted => {}
                 case Accepted => {Submitted}
                 case Rejected => {Submitted}
                 case Queued => {Accepted, Waiting}
                 case Running => {Accepted, Queued, Waiting}
                 case Waiting => {Queued, Running, Streaming}
                 case Streaming => {Running, Streaming}
                 case Completed => {Accepted, Running, Streaming}
                 case Cancelled => {Accepted, Queued, Running, Waiting, Streaming}
                 case Failed => {Accepted, Queued, Running, Waiting, Streaming}
                 case Expired => {Submitted, Accepted, Queued, Running, Waiting, Streaming}
    ensures Terminal(a) <==> forall s :: !Edge(a, s)
  {
    assert Edge(Submitted, Expired) && Edge(Accepted, Expired) && Edge(Queued, Expired);
    assert Edge(Running, Expired) && Edge(Waiting, Expired) && Edge(Streaming, Expired);
  }

  /** A task is created exactly if neither its id nor its key is known, and
      otherwise nothing changes. */
  lemma SubmitExactly(m: Records, id: Name, key: Name, digest: Name, now: int)
    ensures var (reply, m') := Submit(m, id, key, digest, now);
            && (reply.Created? <==> id !in m && forall other :: other in m ==> m[other].key != key)
            && (reply.Created? ==> m' - {id} == m && id in m' && m'[id] == reply.record)
            && (reply.Existing? <==> id in m && m[id].key == key && m[id].digest == digest)
            && (reply.Existing? ==> reply.record == m[id])
            && (!reply.Created? ==> m' == m && (reply.Existing? || reply.Conflict?))
  {
  }

  /** A record moves exactly along the table, "timed_out" being a request for
      expiry; the move is stamped, and anything else changes nothing. */
  lemma MoveExactly(cfg: Config, m: Records, id: Name, q: Request, now: int)
    requires Logged(m)
    ensures var (reply, m') := Move(cfg, m, id, q, now);
            && (reply.UnknownTask? <==> id !in m)
            && (reply.Moved? <==>
                  id in m && match q
                    case To(s) => Edge(m[id].state, s) case TimedOut => Edge(m[id].state, Expired)
                    case Unsupported => false)
            && (reply.Moved? ==>
                  && m' - {id} == m - {id} && id in m' && m'[id].state == reply.event.state
                  && reply.event.state == (if q.TimedOut? then Expired else q.state)
                  && m'[id].updatedAt == reply.event.observedAt == now
                  && m'[id].key == m[id].key && m'[id].digest == m[id].digest)
            && (!reply.Moved? ==> m' == m && (reply.UnknownTask? || reply.Conflict?))
  {
    hide Edge, Trim;
  }

  /** What any reachable record looks like: contiguous events, as many as the
      store keeps, neighbours joined by edges of the table, the last event
      carrying the record's state, and a final event only at the very end. */
  lemma RecordShape(cfg: Config, r: Record, h: seq<Event>)
    requires Represents(cfg, r, h)
    ensures r.events != [] && r.state == r.events[|r.events| - 1].state && r.state != Submitted
    ensures r.updatedAt == r.events[|r.events| - 1].observedAt
    ensures var most := if cfg.maxEvents < 2 then 2 else cfg.maxEvents; |r.events| == if |h| < most then |h| else most
    ensures forall i :: 0 <= i < |r.events| ==> r.events[i].sequence == r.events[0].sequence + i
    ensures forall i :: Linked(r.events, i)
    ensures forall i :: 0 <= i < |r.events| ==> r.events[i].isFinal == Terminal(r.events[i].state)
    ensures forall i :: 0 <= i < |r.events| - 1 ==> !r.events[i].isFinal
  {
    var first := |h| - |r.events|;
    assert r.events == h[first..];
    forall i ensures Linked(r.events, i) {
      assert Linked(h, first + i);
    }
    forall i | 0 <= i < |r.events| - 1 ensures !r.events[i].isFinal {
      assert Linked(h, first + i + 1);
    }
    assert Linked(h, |h| - 1);
  }

  // ---- Reading ----

  lemma {:induction false} AfterContiguous(es: seq<Event>, first: int, cursor: int)
    requires forall i :: 0 <= i < |es| ==> es[i].sequence == first + i
    ensures var k := cursor + 1 - first;
            After(es, cursor) == if k <= 0 then es else if k <= |es| then es[k..] else []
    decreases |es|
  {
    if es != [] {
      AfterContiguous(es[1..], first + 1, cursor);
      assert es == [es[0]] + es[1..];
    }
  }

  /** The kept events are the newest ones, and every event carries its place. */
  lemma KeptEvents(cfg: Config, r: Record, h: seq<Event>)
    requires Represents(cfg, r, h)
    ensures 0 < |r.events| <= |h| && r.events == h[|h| - |r.events|..]
    ensures forall i :: 0 <= i < |h| ==> h[i].sequence == i
  {
    hide Linked;
  }

  /** Every event carries its place. */
  predicate Placed(h: seq<Event>) { forall i :: 0 <= i < |h| ==> h[i].sequence == i }

  lemma HistoryPlaced(cfg: Config, r: Record, h: seq<Event>)
    requires Represents(cfg, r, h)
    ensures Placed(h)
  {
  }

  /** Where the page after `cursor` begins, if of `n` events those from `first`
      on are kept. */
  function Place(cursor: int, first: nat, n: nat): (place: nat)
    requires first <= n
    ensures place <= n
  {
    if cursor + 1 <= first then first else if cursor < n then cursor + 1 else n
  }

  lemma DropDrop<T>(h: seq<T>, a: nat, k: nat)
    requires a + k <= |h|
    ensures h[a..][k..] == h[a + k..]
  {
  }

  lemma AfterKept(cfg: Config, r: Record, h: seq<Event>, cursor: int)
    requires Represents(cfg, r, h)
    ensures 0 < |r.events| <= |h|
    ensures After(r.events, cursor) == h[Place(cursor, |h| - |r.events|, |h|)..]
  {
    KeptEvents(cfg, r, h);
    hide Represents, After;
    var first := |h| - |r.events|;
    AfterContiguous(r.events, first, cursor);
    if first < cursor + 1 <= |h| {
      DropDrop(h, first, cursor + 1 - first);
    }
  }

  /** The next `max(1, limit)` events from place `from`, or all that are left. */
  function Next<T>(h: seq<T>, from: nat, limit: int): (page: seq<T>)
    requires from <= |h|
  {
    var (most, left) := (if limit < 1 then 1 else limit, |h| - from);
    h[from..from + if most < left then most else left]
  }

  lemma TakePiece<T>(h: seq<T>, from: nat, limit: int)
    requires from <= |h|
    ensures Take(h[from..], limit) == Next(h, from, limit)
  {
    var most := if limit < 1 then 1 else limit;
    if most < |h| - from {
      assert h[from..][..most] == h[from..from + most];
    }
  }

  /** The page after a cursor, as a piece of the full history. */
  lemma PagePiece(cfg: Config, r: Record, h: seq<Event>, cursor: int, limit: int)
    requires Represents(cfg, r, h)
    ensures 0 < |r.events| <= |h|
    ensures var first := |h| - |r.events|;
            Take(After(r.events, cursor), limit) == Next(h, Place(cursor, first, |h|), limit)
  {
    AfterKept(cfg, r, h, cursor);
    hide Represents, Take, After, Next, Place;
    TakePiece(h, Place(cursor, |h| - |r.events|, |h|), limit);
  }

  /** What a read of a record that lives answers. */
  lemma ReadReply(cfg: Config, m: Records, hs: Histories, id: Name, cursor: int, limit: int, now: int)
    requires Inv(cfg, m, hs) && id in m && !Gone(cfg, m[id], now)
    ensures Logged(m) && 0 < |m[id].events| <= |hs[id]| && Placed(hs[id])
    ensures var (h, first) := (hs[id], |hs[id]| - |m[id].events|);
            EventsAfter(cfg, m, id, cursor, limit, now) ==
            (if 0 <= cursor < first - 1 then ResumeUnavailable(m[id])
             else Page(Next(h, Place(cursor, first, |h|), limit)), m)
  {
    NonEmpty(cfg, m, hs);
    FirstKept(cfg, m[id], hs[id]);
    HistoryPlaced(cfg, m[id], hs[id]);
    PagePiece(cfg, m[id], hs[id], cursor, limit);
    hide Inv, Represents, Next, Take, After, Logged, Placed, Place;
  }

  lemma FirstKept(cfg: Config, r: Record, h: seq<Event>)
    requires Represents(cfg, r, h)
    ensures 0 < |r.events| <= |h| && r.events[0].sequence == |h| - |r.events|
  {
    KeptEvents(cfg, r, h);
  }

  predicate Piece(h: seq<Event>, page: seq<Event>, from: nat) {
    from + |page| <= |h| && page == h[from..from + |page|]
  }

  /** What a page is made of. */
  lemma NextShape(h: seq<Event>, from: nat, limit: int)
    requires from <= |h| && Placed(h)
    ensures var page := Next(h, from, limit);
            && Piece(h, page, from) && (page == [] <==> from == |h|)
            && (page != [] ==> page[0].sequence == from)
  {
  }

  /** Reading after a cursor gives exactly the next events of the untrimmed
      history, `max(1, limit)` of them or all that are left, or says that
      resuming is impossible. A negative cursor is exempt from that test in the
      code, so there the page is exact precisely when nothing has been trimmed. */
  lemma PageIsExact(cfg: Config, m: Records, hs: Histories, id: Name, cursor: int, limit: int, now: int)
    requires Inv(cfg, m, hs) && id in m && !Gone(cfg, m[id], now)
    ensures Logged(m)
    ensures var (reply, h, first) := (EventsAfter(cfg, m, id, cursor, limit, now).0, hs[id], |hs[id]| - |m[id].events|);
            var from := if cursor < 0 then 0 else if cursor < |h| then cursor + 1 else |h|;
            && (reply.ResumeUnavailable? <==> 0 <= cursor < first - 1)
            && (reply == Page(Next(h, from, limit)) <==> first == 0 || cursor + 1 >= first)
  {
    ReadReply(cfg, m, hs, id, cursor, limit, now);
    hide Inv, Next, EventsAfter, Logged, Placed, Piece;
    var (h, first) := (hs[id], |hs[id]| - |m[id].events|);
    NextShape(h, first, limit);
    NextShape(h, Place(cursor, 0, |h|), limit);
  }

  /** Within one life a history only grows. */
  lemma HistoryGrows(cfg: Config, m: Records, hs: Histories, s: Step, id: Name)
    requires Inv(cfg, m, hs) && id in m
    ensures Logged(m)
    ensures var (reply, m') := Result(cfg, m, s);
            id in m' ==> hs[id] <= Recorded(hs, s.id, reply)[id] && (s.id != id ==> m'[id] == m[id])
  {
    NonEmpty(cfg, m, hs);
    hide Represents, NextEvent, Trim, Edge, Logged, DistinctKeys, KeyTaken;
  }

  // ---- A reader paging through a changing record ----

  /** A reader moves its cursor to the last event it got. It stops when it is
      told that resuming is impossible, or when the record's life is over. */
  datatype Reader = Reader(cursor: int, got: seq<Event>, told: bool, alive: bool)

  datatype Action = DoStep(step: Step) | DoRead(limit: int, now: int)

  datatype Scene = Scene(records: Records, histories: Histories, reader: Reader)

  function Turned(rd: Reader, reply: Reply): Reader {
    match reply
    case Page(es) => if es == [] then rd else rd.(cursor := es[|es| - 1].sequence, got := rd.got + es)
    case ResumeUnavailable(_) => rd.(told := true)
    case _ => rd.(alive := false)
  }

  /** Anything may happen to the store between two reads of record `id`. */
  function Play(cfg: Config, sc: Scene, id: Name, a: Action): Scene
    requires Logged(sc.records)
  {
    match a
    case DoStep(s) =>
      var (reply, m) := Result(cfg, sc.records, s);
      Scene(m, Recorded(sc.histories, s.id, reply), sc.reader.(alive := sc.reader.alive && id in m))
    case DoRead(limit, now) =>
      if sc.reader.told || !sc.reader.alive then sc
      else
        var (reply, m) := EventsAfter(cfg, sc.records, id, sc.reader.cursor, limit, now);
        Scene(m, Recorded(sc.histories, id, reply), Turned(sc.reader, reply))
  }

  /** `got` is one piece of the history, without gap or repetition, up to the
      cursor. It begins right behind the starting cursor if that was not negative. */
  predicate Segment(h: seq<Event>, got: seq<Event>, start: int, cursor: int) {
    if got == [] then cursor == start
    else
      var from := got[0].sequence;
      0 <= from <= cursor < |h| && got == h[from..cursor + 1] && (start >= 0 ==> from == start + 1)
  }

  ghost predicate Reading(cfg: Config, sc: Scene, id: Name, start: int) {
    && Inv(cfg, sc.records, sc.histories)
    && (sc.reader.alive ==> id in sc.records && Segment(sc.histories[id], sc.reader.got, start, sc.reader.cursor))
  }

  lemma SegmentGrows(h: seq<Event>, h': seq<Event>, got: seq<Event>, start: int, cursor: int)
    requires Segment(h, got, start, cursor) && h <= h'
    ensures Segment(h', got, start, cursor)
  {
    if got != [] {
      assert h'[got[0].sequence..cursor + 1] == h[got[0].sequence..cursor + 1];
    }
  }

  lemma SegmentExtends(h: seq<Event>, got: seq<Event>, start: int, cursor: int, page: seq<Event>, from: nat)
    requires Segment(h, got, start, cursor) && Placed(h)
    requires page != [] && Piece(h, page, from)
    requires got != [] || start >= 0 ==> from == cursor + 1
    ensures Segment(h, got + page, start, page[|page| - 1].sequence)
  {
    assert page[0] == h[from] && page[|page| - 1] == h[from + |page| - 1];
    if got == [] {
      assert got + page == page;
    } else {
      var first := got[0].sequence;
      assert (got + page)[0] == got[0];
      assert h[first..from] + h[from..from + |page|] == h[first..from + |page|];
    }
  }

  /** A page that begins right behind what the reader has. */
  lemma PageKeeps(h: seq<Event>, rd: Reader, start: int, page: seq<Event>, from: nat)
    requires Segment(h, rd.got, start, rd.cursor) && Placed(h) && Piece(h, page, from)
    requires page != [] && (rd.got != [] || start >= 0) ==> from == rd.cursor + 1
    ensures Segment(h, Turned(rd, Page(page)).got, start, Turned(rd, Page(page)).cursor)
  {
    hide Segment, Placed, Piece;
    if page != [] {
      SegmentExtends(h, rd.got, start, rd.cursor, page, from);
    }
  }

  lemma SegmentCursor(h: seq<Event>, got: seq<Event>, start: int, cursor: int)
    requires Segment(h, got, start, cursor)
    ensures got != [] || start >= 0 ==> cursor >= 0
  {
  }

  lemma ReadKeeps(cfg: Config, sc: Scene, id: Name, start: int, limit: int, now: int)
    requires Reading(cfg, sc, id, start) && Logged(sc.records)
    ensures Reading(cfg, Play(cfg, sc, id, DoRead(limit, now)), id, start)
  {
    var (m, hs, rd) := (sc.records, sc.histories, sc.reader);
    if !rd.told && rd.alive {
      InvRemove(cfg, m, hs, id);
      if !Gone(cfg, m[id], now) {
        ReadReply(cfg, m, hs, id, rd.cursor, limit, now);
        hide Inv, Segment, Next, EventsAfter, Logged, Placed, Piece;
        var (h, first) := (hs[id], |hs[id]| - |m[id].events|);
        var from := Place(rd.cursor, first, |h|);
        SegmentCursor(h, rd.got, start, rd.cursor);
        NextShape(h, from, limit);
        if !(0 <= rd.cursor < first - 1) {
          PageKeeps(h, rd, start, Next(h, from, limit), from);
        }
      }
    }
    hide Inv, Segment;
  }

  lemma StepKeeps(cfg: Config, sc: Scene, id: Name, start: int, s: Step)
    requires Reading(cfg, sc, id, start) && Logged(sc.records)
    ensures Reading(cfg, Play(cfg, sc, id, DoStep(s)), id, start)
  {
    InvStep(cfg, sc.records, sc.histories, s);
    if sc.reader.alive {
      HistoryGrows(cfg, sc.records, sc.histories, s, id);
      var sc' := Play(cfg, sc, id, DoStep(s));
      if id in sc'.records {
        assert id in sc'.histories;
        SegmentGrows(sc.histories[id], sc'.histories[id], sc.reader.got, start, sc.reader.cursor);
      }
    }
    hide Inv, Segment, Result, Recorded;
  }

  function PlayAll(cfg: Config, sc: Scene, id: Name, acts: seq<Action>): Scene
    requires Logged(sc.records)
    decreases |acts|
  {
    if acts == [] then sc else PlayAll(cfg, Play(cfg, sc, id, acts[0]), id, acts[1..])
  }

  /** What is played, action by action. */
  lemma {:induction false} PlaySnoc(cfg: Config, sc: Scene, id: Name, acts: seq<Action>, a: Action)
    requires Logged(sc.records)
    ensures Logged(PlayAll(cfg, sc, id, acts).records) && PlayAll(cfg, sc, id, []) == sc
    ensures PlayAll(cfg, sc, id, acts + [a]) == Play(cfg, PlayAll(cfg, sc, id, acts), id, a)
    decreases |acts|
  {
    PlayLogs(cfg, sc, id, if acts == [] then a else acts[0]);
    hide Play, Logged;
    if acts == [] {
      assert [a][1..] == [];
    } else {
      PlaySnoc(cfg, Play(cfg, sc, id, acts[0]), id, acts[1..], a);
      assert (acts + [a])[1..] == acts[1..] + [a];
    }
  }

  lemma PlayLogs(cfg: Config, sc: Scene, id: Name, a: Action)
    requires Logged(sc.records)
    ensures Logged(Play(cfg, sc, id, a).records)
  {
    hide Result, After, Take, Recorded;
  }

  lemma {:induction false} ReadingAll(cfg: Config, sc: Scene, id: Name, start: int, acts: seq<Action>)
    requires Reading(cfg, sc, id, start) && Logged(sc.records)
    ensures Reading(cfg, PlayAll(cfg, sc, id, acts), id, start)
    decreases |acts|
  {
    if acts != [] {
      match acts[0] {
        case DoStep(s) => StepKeeps(cfg, sc, id, start, s);
        case DoRead(limit, now) => ReadKeeps(cfg, sc, id, start, limit, now);
      }
      hide Reading, Play;
      ReadingAll(cfg, Play(cfg, sc, id, acts[0]), id, start, acts[1..]);
    }
  }

  /** A reader that pages from `start` while any steps happen in between: as
      long as the record lives, what it holds is a gap-free, duplicate-free
      piece of the untrimmed history up to its cursor, beginning right behind a
      non-negative start, even if it was then told that it cannot resume. */
  lemma PagingIsGapFree(cfg: Config, m: Records, hs: Histories, id: Name, start: int, acts: seq<Action>)
    requires Inv(cfg, m, hs) && id in m
    ensures Logged(m)
    ensures var sc := PlayAll(cfg, Scene(m, hs, Reader(start, [], false, true)), id, acts);
            var (got, cursor) := (sc.reader.got, sc.reader.cursor);
            sc.reader.alive ==>
              && id in sc.histories && (got == [] ==> cursor == start)
              && (got != [] ==>
                    var (h, from) := (sc.histories[id], got[0].sequence);
                    0 <= from <= cursor < |h| && got == h[from..cursor + 1] && (start >= 0 ==> from == start + 1))
  {
    NonEmpty(cfg, m, hs);
    ReadingAll(cfg, Scene(m, hs, Reader(start, [], false, true)), id, start, acts);
  }

  /** A reader is told so only when the event behind its cursor is gone, and an
      empty page means that it has everything. */
  lemma ReaderAnswers(cfg: Config, sc: Scene, id: Name, start: int, limit: int, now: int)
    requires Reading(cfg, sc, id, start) && Logged(sc.records) && sc.reader.alive && !sc.reader.told
    requires !Gone(cfg, sc.records[id], now)
    ensures var (rd, rd') := (sc.reader, Play(cfg, sc, id, DoRead(limit, now)).reader);
            var (h, first) := (sc.histories[id], |sc.histories[id]| - |sc.records[id].events|);
            && (rd'.told <==> 0 <= rd.cursor < first - 1)
            && (!rd'.told ==> (rd'.got == rd.got <==> rd.cursor + 1 >= |h|)) && rd'.alive
  {
    var rd := sc.reader;
    ReadReply(cfg, sc.records, sc.histories, id, rd.cursor, limit, now);
    hide Inv, Segment, Next, EventsAfter, Placed, Piece;
    var (h, first) := (sc.histories[id], |sc.histories[id]| - |sc.records[id].events|);
    NextShape(h, Place(rd.cursor, first, |h|), limit);
  }

  // ---- Submitting again ----

  /** The record is there in every state of the run. */
  predicate Lives(cfg: Config, m: Records, steps: seq<Step>, id: Name)
    requires Logged(m)
    decreases |steps|
  {
    id in m && (steps != [] ==> Lives(cfg, Result(cfg, m, steps[0]).1, steps[1..], id))
  }

  lemma BindingStays(cfg: Config, m: Records, s: Step, id: Name)
    requires Logged(m) && id in m && id in Result(cfg, m, s).1
    ensures var m' := Result(cfg, m, s).1; m'[id].key == m[id].key && m'[id].digest == m[id].digest
  {
    hide Edge, Trim, NextEvent;
  }

  lemma {:induction false} BindingLives(cfg: Config, m: Records, hs: Histories, steps: seq<Step>, id: Name)
    requires Logged(m) && Lives(cfg, m, steps, id)
    ensures var m' := Run(cfg, m, hs, steps).0; id in m' && m'[id].key == m[id].key && m'[id].digest == m[id].digest
    decreases |steps|
  {
    if steps != [] {
      hide Result;
      var (reply, m') := Result(cfg, m, steps[0]);
      BindingStays(cfg, m, steps[0], id);
      BindingLives(cfg, m', Recorded(hs, steps[0].id, reply), steps[1..], id);
    }
  }

  /** Submission is idempotent within one life of a record, whatever happens in
      between: the same content gets the stored record back, other content or
      the same key under another id conflicts, and neither changes anything. */
  lemma SubmitIsIdempotent(
    cfg: Config, m: Records, hs: Histories, id: Name, key: Name, digest: Name, now: int, steps: seq<Step>,
    other: Name, key': Name, digest': Name, later: int)
    requires Inv(cfg, m, hs) && !Submit(m, id, key, digest, now).0.Conflict?
    ensures Logged(Submit(m, id, key, digest, now).1)
    ensures var (reply, m1) := Submit(m, id, key, digest, now);
            Lives(cfg, m1, steps, id) ==>
              var m2 := Run(cfg, m1, Recorded(hs, id, reply), steps).0;
              && id in m2
              && Submit(m2, id, key', digest', later) ==
                 (if key' == key && digest' == digest then Existing(m2[id]) else Conflict, m2)
              && (other != id ==> Submit(m2, other, key, digest', later) == (Conflict, m2))
  {
    var (reply, m1) := Submit(m, id, key, digest, now);
    assert m1[id].key == key && m1[id].digest == digest;
    InvStep(cfg, m, hs, DoSubmit(id, key, digest, now));
    var hs1 := Recorded(hs, id, reply);
    NonEmpty(cfg, m1, hs1);
    if Lives(cfg, m1, steps, id) {
      RunInv(cfg, m1, hs1, steps);
      BindingLives(cfg, m1, hs1, steps, id);
    }
    hide Run, Lives, Recorded, Represents;
  }

  // ---- Cancelling ----

  /** Cancelling a task that is not expired never conflicts. It returns a
      terminal record unless the clock moved past the time to live before the
      final look, and in particular whenever the call sees one instant and the
      time to live is not negative. */
  lemma CancelEnds(cfg: Config, m: Records, hs: Histories, id: Name, t1: int, t2: int, t3: int)
    requires Inv(cfg, m, hs) && id in m && !Gone(cfg, m[id], t1)
    ensures Logged(m)
    ensures var reply := Cancel(cfg, m, id, t1, t2, t3).0;
            var since := if Terminal(m[id].state) then m[id].updatedAt else t2;
            && !reply.Conflict?
            && (reply.Found? <==> t3 - since <= cfg.ttl)
            && (reply.Found? ==>
                  Terminal(reply.record.state)
                  && reply.record.state == if Terminal(m[id].state) then m[id].state else Cancelled)
  {
    RecordShape(cfg, m[id], hs[id]);
    assert !Terminal(m[id].state) ==> Edge(m[id].state, Cancelled);
    hide Trim, NextEvent;
  }

  lemma CancelIdempotent(cfg: Config, m: Records, hs: Histories, id: Name, t: int, u: int)
    requires Inv(cfg, m, hs) && id in m && !Gone(cfg, m[id], t)
    requires t <= u && Logged(m) && Cancel(cfg, m, id, t, t, t).0.Found?
    ensures var (reply, m') := Cancel(cfg, m, id, t, t, t);
            && id in m' && m'[id] == reply.record && Logged(m')
            && (!Gone(cfg, m'[id], u) ==> Cancel(cfg, m', id, u, u, u) == (reply, m'))
  {
    CancelEnds(cfg, m, hs, id, t, t, t);
    RecordShape(cfg, m[id], hs[id]);
    if !Terminal(m[id].state) {
      MoveRepresents(cfg, m[id], hs[id], Cancelled, t);
    }
    hide Trim, NextEvent, Edge, Represents;
  }

  // ---- Snapshot and restore ----

  type Snapshot = seq<(Name, Record)>

  predicate Contiguous(es: seq<Event>) {
    es != [] && forall i :: 0 <= i < |es| ==> es[i].sequence == es[0].sequence + i
  }

  /** Each event's number is one more than its predecessor's. */
  lemma {:induction false} ContiguousExactly(es: seq<Event>)
    ensures Contiguous(es) <==> |es| > 0 && forall i :: 1 <= i < |es| ==> es[i].sequence == es[i - 1].sequence + 1
    decreases |es|
  {
    if |es| > 1 {
      var (prev, n) := (es[..|es| - 1], |es| - 1);
      ContiguousExactly(prev);
      assert Contiguous(es) <==> Contiguous(prev) && es[n].sequence == prev[0].sequence + n;
      assert Contiguous(prev) ==> prev[n - 1].sequence == prev[0].sequence + n - 1;
    }
  }

  /** Writing the entries one after the other. */
  function Collect(m: Records, snap: Snapshot): Records
    decreases |snap|
  {
    if snap == [] then m else Collect(m[snap[0].0 := snap[0].1], snap[1..])
  }

  /** The records of `m`, each once, in some order. */
  ghost predicate IsSnapshot(m: Records, snap: Snapshot) {
    && Collect(map[], snap) == m && |snap| == |m|
    && (forall i :: 0 <= i < |snap| ==> snap[i].0 in m && snap[i].1 == m[snap[i].0])
  }

  lemma {:induction false} CollectSnoc(m: Records, snap: Snapshot, id: Name, r: Record)
    ensures Collect(m, snap + [(id, r)]) == Collect(m, snap)[id := r]
    decreases |snap|
  {
    if snap != [] {
      CollectSnoc(m[snap[0].0 := snap[0].1], snap[1..], id, r);
      assert (snap + [(id, r)])[1..] == snap[1..] + [(id, r)];
    } else {
      assert [(id, r)][1..] == [];
    }
  }

  /** The store after restoring, and whether every record was acceptable; the
      records before the first unacceptable one are restored. */
  function Restore(m: Records, snap: Snapshot): (bool, Records)
    decreases |snap|
  {
    if snap == [] then (true, m)
    else if !Contiguous(snap[0].1.events) then (false, m)
    else Restore(m[snap[0].0 := snap[0].1], snap[1..])
  }

  lemma {:induction false} RestoreCollects(m: Records, snap: Snapshot)
    ensures Restore(m, snap).0 <==> forall i :: 0 <= i < |snap| ==> Contiguous(snap[i].1.events)
    ensures Restore(m, snap).0 ==> Restore(m, snap).1 == Collect(m, snap)
    decreases |snap|
  {
    hide Contiguous;
    if snap != [] {
      RestoreCollects(m[snap[0].0 := snap[0].1], snap[1..]);
      assert forall i :: 0 < i < |snap| ==> snap[i] == snap[1..][i - 1];
    }
  }

  lemma ContiguousRecord(cfg: Config, m: Records, hs: Histories, id: Name)
    requires Inv(cfg, m, hs) && id in m
    ensures Contiguous(m[id].events)
  {
    RecordShape(cfg, m[id], hs[id]);
  }

  /** Every snapshot of a reachable store is accepted by a fresh store, which is
      then the same store: all later calls get the same answers. */
  lemma RestoreOfSnapshot(cfg: Config, m: Records, hs: Histories, snap: Snapshot)
    requires Inv(cfg, m, hs) && IsSnapshot(m, snap)
    ensures Restore(map[], snap) == (true, m)
  {
    forall i | 0 <= i < |snap| ensures Contiguous(snap[i].1.events) {
      ContiguousRecord(cfg, m, hs, snap[i].0);
    }
    RestoreCollects(map[], snap);
  }

  // ---- The store ----

  class LifecycleStore {
    const cfg: Config
    var records: Records
    ghost var histories: Histories

    ghost predicate Valid()
      reads this
    {
      Inv(cfg, records, histories)
    }

    constructor (maxEvents: int, ttl: int)
      ensures Valid() && records == map[] && cfg == Config(maxEvents, ttl)
    {
      cfg, records, histories := Config(maxEvents, ttl), map[], map[];
    }

    method SubmitTask(id: Name, key: Name, digest: Name, now: int) returns (reply: Reply)
      requires Valid()
      modifies this
      ensures Logged(old(records)) && (reply, records) == Result(cfg, old(records), DoSubmit(id, key, digest, now))
      ensures Valid() && (reply, records) == Submit(old(records), id, key, digest, now)
      ensures histories == Recorded(old(histories), id, reply)
    {
      InvStep(cfg, records, histories, DoSubmit(id, key, digest, now));
      hide Inv;
      if id in records {
        var r := records[id];
        return if r.key != key || r.digest != digest then Conflict else Existing(r);
      }
      if KeyTaken(records, key) {
        return Conflict;
      }
      var r := Record(key, digest, Accepted, [Event(0, Accepted, false, now)], now);
      records, histories := records[id := r], Recorded(histories, id, Created(r));
      reply := Created(r);
    }

    method GetStatus(id: Name, now: int) returns (reply: Reply)
      requires Valid()
      modifies this
      ensures Logged(old(records)) && (reply, records) == Result(cfg, old(records), DoStatus(id, now))
      ensures Valid() && (reply, records) == Status(cfg, old(records), id, now)
      ensures histories == Recorded(old(histories), id, reply)
    {
      InvStep(cfg, records, histories, DoStatus(id, now));
      if id !in records || (Terminal(records[id].state) && now - records[id].updatedAt > cfg.ttl) {
        records, histories := records - {id}, Recorded(histories, id, UnknownTask);
        return UnknownTask;
      }
      reply := Found(records[id]);
    }

    method Transition(id: Name, q: Request, now: int) returns (reply: Reply)
      requires Valid()
      modifies this
      ensures Logged(old(records)) && (reply, records) == Result(cfg, old(records), DoMove(id, q, now))
      ensures Valid() && (reply, records) == Move(cfg, old(records), id, q, now)
      ensures histories == Recorded(old(histories), id, reply)
    {
      InvStep(cfg, records, histories, DoMove(id, q, now));
      hide Inv;
      if id !in records {
        histories := Recorded(histories, id, UnknownTask);
        return UnknownTask;
      }
      var r := records[id];
      var s := Target(q);
      if s.None? || !Edge(r.state, s.value) {
        return Conflict;
      }
      var e := NextEvent(r, s.value, now);
      var events := r.events + [e];
      if |events| > cfg.Bound() {
        events := events[|events| - cfg.Bound()..];
      }
      records := records[id := r.(events := events, state := s.value, updatedAt := now)];
      histories := Recorded(histories, id, Moved(e));
      reply := Moved(e);
    }

    method CancelTask(id: Name, t1: int, t2: int, t3: int) returns (reply: Reply)
      requires Valid()
      modifies this
      ensures Valid()
      ensures Logged(old(records))
      ensures (reply, records) == Cancel(cfg, old(records), id, t1, t2, t3)
    {
      NonEmpty(cfg, records, histories);
      hide Inv, Edge, Trim, NextEvent;
      reply := GetStatus(id, t1);
      if reply.UnknownTask? {
        return;
      }
      if !Terminal(reply.record.state) {
        reply := Transition(id, To(Cancelled), t2);
        if reply.Conflict? {
          return;
        }
      }
      reply := GetStatus(id, t3);
    }

    method ReadAfter(id: Name, cursor: int, limit: int, now: int) returns (reply: Reply)
      requires Valid()
      modifies this
      ensures Valid()
      ensures Logged(old(records))
      ensures (reply, records) == EventsAfter(cfg, old(records), id, cursor, limit, now)
    {
      NonEmpty(cfg, records, histories);
      hide Inv;
      reply := GetStatus(id, now);
      if reply.Found? {
        var r := reply.record;
        if cursor >= 0 && cursor + 1 < r.events[0].sequence {
          return ResumeUnavailable(r);
        }
        reply := Page(Take(After(r.events, cursor), limit));
      }
    }

    method TakeSnapshot() returns (snap: Snapshot)
      ensures IsSnapshot(records, snap) && |snap| == |records|
    {
      snap := [];
      var left := records.Keys;
      assert records - left == map[];
      while left != {}
        invariant left <= records.Keys && |snap| + |left| == |records|
        invariant Collect(map[], snap) == records - left
        invariant forall i :: 0 <= i < |snap| ==> snap[i].0 in records && snap[i].1 == records[snap[i].0]
        decreases |left|
      {
        var id := AnyOf(left);
        CollectSnoc(map[], snap, id, records[id]);
        snap, left := snap + [(id, records[id])], left - {id};
      }
      assert records - {} == records;
    }

    /** `source` and `hs` are the records and the histories the snapshot was
        taken of: a fresh store becomes a valid one with the same contents. */
    method RestoreFrom(snap: Snapshot, ghost source: Records, ghost hs: Histories) returns (ok: bool)
      modifies this
      ensures (ok, records) == Restore(old(records), snap) && histories == hs
      ensures old(records) == map[] && IsSnapshot(source, snap) && Inv(cfg, source, hs) ==>
                ok && records == source && Valid()
    {
      if records == map[] && IsSnapshot(source, snap) && Inv(cfg, source, hs) {
        RestoreOfSnapshot(cfg, source, hs, snap);
      }
      hide Inv, IsSnapshot;
      var k := 0;
      while k < |snap|
        invariant 0 <= k <= |snap|
        invariant Restore(old(records), snap) == Restore(records, snap[k..])
      {
        if !Contiguous(snap[k].1.events) {
          histories := hs;
          return false;
        }
        records := records[snap[k].0 := snap[k].1];
        k := k + 1;
      }
      histories := hs;
      ok := true;
    }
  }
}
