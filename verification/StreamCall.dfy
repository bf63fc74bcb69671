/** One streamed call, end to end (src/iicp_tcp.ts): the server's emitter, the
    lifecycle payload, and the client's `streamCall`. */
module StreamCall {
  import opened Optional
  import opened Framing
  import opened FrameSession
  import opened ResponseSequence

  // ---- CBOR values ----

  datatype Cbor =
    | Null
    | Flag(b: bool)
    | Num(i: int)
    | Text(s: string)
    | Bytes(bs: seq<byte>)
    | Items(es: seq<Cbor>)
    | Fields(m: map<int, Cbor>)

  /** The CBOR library, and JavaScript's `String`/`Number` on values that are
      not already text or a number, as uninterpreted functions. */
  datatype Codec = Codec(
    enc: Cbor -> seq<byte>, dec: seq<byte> -> Option<Cbor>, show: Cbor -> string, num: Cbor -> Option<int>)
  {
    ghost predicate Inverse() { forall v :: dec(enc(v)) == Some(v) }

    function ToText(v: Option<Cbor>, default: string): string {
      if v.None? || v.value.Null? then default else if v.value.Text? then v.value.s else show(v.value)
    }

    function ToNumber(v: Option<Cbor>): Option<int> {
      if v.None? then None else if v.value.Num? then Some(v.value.i) else num(v.value)
    }
  }

  /** `numericField`: None is JavaScript's undefined. */
  function Field(v: Cbor, key: int): Option<Cbor> {
    match v
    case Fields(m) => if key in m then Some(m[key]) else None
    case Items(es) => if 0 <= key < |es| then Some(es[key]) else None
    case Bytes(bs) => if 0 <= key < |bs| then Some(Num(bs[key])) else None
    case _ => None
  }

  predicate IsObject(v: Option<Cbor>) {
    v.Some? && (v.value.Fields? || v.value.Items? || v.value.Bytes?)
  }

  // ---- What a streaming handler yields, and the payload made from it ----

  datatype Status = Partial | Success | Error | Timeout

  function StatusText(s: Status): string {
    match s case Partial => "partial" case Success => "success" case Error => "error" case Timeout => "timeout"
  }

  lemma StatusTextPartial(s: Status)
    ensures StatusText(s) == "partial" <==> s.Partial?
    ensures StatusText(s) !in INHERITED
  {
    OwnStatus(StatusText(s), DefaultEvent(s));
    assert "success"[0] == 's' && "error"[0] == 'e' && "timeout"[0] == 't' && "partial"[0] == 'p';
  }

  function DefaultEvent(s: Status): string {
    match s case Partial => "partial" case Success => "completed" case Error => "failed" case Timeout => "timed_out"
  }

  datatype Item = Item(
    status: Status, result: Option<Cbor>, error_code: Option<string>, error_message: Option<string>,
    tokens_used: Option<int>, event: Option<string>)
  {
    predicate Final() { !status.Partial? }
    function Event(): string { if event.Some? then event.value else DefaultEvent(status) }
    predicate LabelFits() { EventFits(StatusText(status), Event()) }
    predicate HasError() { error_code.Some? || error_message.Some? }
    function Code(): string { if error_code.Some? then error_code.value else "stream_error" }
    function Message(): string { if error_message.Some? then error_message.value else "stream failed" }
  }

  function ErrorItem(code: string, message: string): (i: Item)
    ensures i.LabelFits() && i.Final()
  {
    Item(Error, None, Some(code), Some(message), None, None)
  }

  const INCOMPLETE := ErrorItem("stream_incomplete", "stream ended without a terminal response")
  const BACKEND_ERROR := ErrorItem("backend_error", "streaming handler raised exception")

  function ErrorPart(i: Item): Cbor {
    Fields(map[1 := Text(i.Code()), 2 := Text(i.Message())])
  }

  function LifecyclePart(ids: Ids, i: Item, n: nat): Cbor {
    Fields(map[1 := Text(ids.task_id), 2 := Num(n), 3 := Text(i.Event()), 4 := Flag(i.Final())])
  }

  /** `encodeLifecycleResponse`, before CBOR encoding. */
  function Payload(ids: Ids, i: Item, n: nat): Cbor {
    var m := map[1 := Num(FRAMING_VERSION as int), 2 := Text(ids.session_id), 3 := Text(ids.call_id),
                 4 := Text(StatusText(i.status)), 12 := Flag(i.Final()), 13 := LifecyclePart(ids, i, n)];
    var m := if i.result.Some? then m[5 := i.result.value] else m;
    var m := if i.HasError() then m[6 := ErrorPart(i)] else m;
    Fields(if i.tokens_used.Some? then m[7 := Num(i.tokens_used.value)] else m)
  }

  /** The parts of a response the acceptor does not look at. `tokens` is
      `Some(None)` when present but not a number. */
  datatype Body = Body(
    result: Option<Cbor>, error: Option<(Option<Cbor>, Option<Cbor>)>, tokens: Option<Option<int>>)

  /** `decodeLifecycleResponse`; None is the thrown "missing_lifecycle". */
  function DecodeLifecycle(c: Codec, v: Cbor): Option<Response<Body>> {
    var lc := Field(v, 13);
    if !IsObject(lc) then None
    else
      var err := Field(v, 6);
      Some(Response(
        c.ToText(Field(v, 2), ""), c.ToText(Field(v, 3), ""), c.ToText(Field(v, 4), ""),
        Field(v, 12) == Some(Flag(true)),
        Some(Lifecycle(
          c.ToText(Field(lc.value, 1), ""), c.ToNumber(Field(lc.value, 2)), c.ToText(Field(lc.value, 3), ""),
          Field(lc.value, 4) == Some(Flag(true)))),
        Body(
          Field(v, 5),
          if IsObject(err) then Some((Field(err.value, 1), Field(err.value, 2))) else None,
          if Field(v, 7).None? then None else Some(c.ToNumber(Field(v, 7))))))
  }

  /** What the handler's item number `n` is supposed to look like at the client. */
  function Meant(ids: Ids, i: Item, n: nat): Response<Body> {
    Response(
      ids.session_id, ids.call_id, StatusText(i.status), i.Final(),
      Some(Lifecycle(ids.task_id, Some(n), i.Event(), i.Final())),
      Body(
        i.result,
        if i.HasError() then Some((Some(Text(i.Code())), Some(Text(i.Message())))) else None,
        if i.tokens_used.Some? then Some(i.tokens_used) else None))
  }

  lemma PayloadFields(ids: Ids, i: Item, n: nat)
    ensures var p := Payload(ids, i, n);
            && Field(p, 1) == Some(Num(1))
            && Field(p, 2) == Some(Text(ids.session_id)) && Field(p, 3) == Some(Text(ids.call_id))
            && Field(p, 4) == Some(Text(StatusText(i.status))) && Field(p, 12) == Some(Flag(i.Final()))
            && Field(p, 13) == Some(LifecyclePart(ids, i, n))
            && Field(p, 5) == i.result
            && Field(p, 6) == (if i.HasError() then Some(ErrorPart(i)) else None)
            && Field(p, 7) == if i.tokens_used.Some? then Some(Num(i.tokens_used.value)) else None
  {
    hide StatusText, DefaultEvent;
  }

  /** Payload encoding loses nothing: ids, number, label, flags, result, error
      and token count all come back. */
  lemma PayloadRoundTrip(c: Codec, ids: Ids, i: Item, n: nat)
    ensures DecodeLifecycle(c, Payload(ids, i, n)) == Some(Meant(ids, i, n))
  {
    PayloadFields(ids, i, n);
    hide Payload, StatusText, DefaultEvent;
  }

  /** What an item looks like at the client, field by field: the label defaults
      by status, and an error has both parts as soon as the handler gives one. */
  lemma SeenAtClient(c: Codec, ids: Ids, i: Item, n: nat)
    ensures DecodeLifecycle(c, Payload(ids, i, n)).Some?
    ensures var f := DecodeLifecycle(c, Payload(ids, i, n)).value;
            var usual := match i.status
              case Partial => "partial" case Success => "completed" case Error => "failed" case Timeout => "timed_out";
            var error := f.body.error;
            && f.session_id == ids.session_id && f.call_id == ids.call_id && f.is_final == (i.status != Partial)
            && f.status == (match i.status
                 case Partial => "partial" case Success => "success" case Error => "error" case Timeout => "timeout")
            && f.lifecycle == Some(Lifecycle(
                 ids.task_id, Some(n), if i.event.Some? then i.event.value else usual, i.status != Partial))
            && f.body.result == i.result
            && (error.None? <==> i.error_code.None? && i.error_message.None?)
            && (error.Some? ==>
                  && error.value.0 == Some(Text(if i.error_code.Some? then i.error_code.value else "stream_error"))
                  && error.value.1 ==
                     Some(Text(if i.error_message.Some? then i.error_message.value else "stream failed")))
            && f.body.tokens == if i.tokens_used.Some? then Some(i.tokens_used) else None
  {
    PayloadRoundTrip(c, ids, i, n);
    hide Payload, DecodeLifecycle;
  }

  /** What the emitter itself says when the handler ends early or fails. */
  lemma ClosingErrors()
    ensures INCOMPLETE == Item(Error, None, Some("stream_incomplete"),
                               Some("stream ended without a terminal response"), None, None)
    ensures BACKEND_ERROR == Item(Error, None, Some("backend_error"),
                                  Some("streaming handler raised exception"), None, None)
  {
  }

  /** What the client can read at all: any object with an object in field 13;
      text defaults when absent or null. */
  lemma Readable(c: Codec, v: Cbor, default: string)
    ensures DecodeLifecycle(c, v).Some? <==>
            match v
            case Fields(m) => 13 in m && (m[13].Fields? || m[13].Items? || m[13].Bytes?)
            case Items(es) => |es| > 13 && (es[13].Fields? || es[13].Items? || es[13].Bytes?)
            case _ => false
    ensures c.ToText(Some(v), default) == if v == Null then default else if v.Text? then v.s else c.show(v)
    ensures c.ToText(None, default) == default
    ensures v.Bytes? ==> forall k :: Field(v, k) == if 0 <= k < |v.bs| then Some(Num(v.bs[k])) else None
    ensures v.Items? ==> forall k :: Field(v, k) == if 0 <= k < |v.es| then Some(v.es[k]) else None
  {
  }

  /** The acceptor's verdict on an emitted frame depends on its label only. */
  lemma MeantIsAccepted(ids: Ids, i: Item, n: nat)
    ensures Objection(ids, SeqState(n, false), Meant(ids, i, n)) ==
            if i.LabelFits() then None else Some(StatusEventDisagreement)
    ensures Advance(SeqState(n, false), Meant(ids, i, n)) == SeqState(n + 1, i.Final())
  {
    StatusTextPartial(i.status);
    hide StatusText, EventFits;
  }

  // ---- The call itself: client ids to server arguments ----

  function CallPayload(ids: Ids, intent: string, body: seq<byte>): Cbor {
    Fields(map[2 := Text(ids.session_id), 3 := Text(intent), 5 := Bytes(body),
               15 := Text(ids.call_id), 24 := Text(ids.task_id)])
  }

  /** The stream arguments `_onCall` extracts; None when the call is not streamed. */
  function StreamArgs(c: Codec, v: Cbor): Option<Ids> {
    var task, call := Field(v, 24), Field(v, 15);
    if task.Some? && task.value.Text? && task.value.s != "" then
      Some(Ids(c.ToText(Field(v, 2), "unknown"),
               if call.Some? && call.value.Text? then call.value.s else "", task.value.s))
    else None
  }

  lemma CallRoundTrip(c: Codec, ids: Ids, intent: string, body: seq<byte>)
    ensures StreamArgs(c, CallPayload(ids, intent, body)) == if ids.task_id == "" then None else Some(ids)
    ensures var v := CallPayload(ids, intent, body);
            Field(v, 3) == Some(Text(intent)) && Field(v, 5) == Some(Bytes(body))
  {
    var v := CallPayload(ids, intent, body);
    assert Field(v, 24) == Some(Text(ids.task_id)) && Field(v, 15) == Some(Text(ids.call_id));
    assert Field(v, 2) == Some(Text(ids.session_id)) && Field(v, 3) == Some(Text(intent));
  }

  // ---- The server's emitter ----

  /** Everything a handler can do: the gate may be full, it yields some items,
      and it either returns or throws. */
  datatype Behaviour = Behaviour(gateFull: bool, items: seq<Item>, throws: bool)

  function FrameOf(c: Codec, ids: Ids, i: Item, n: nat): Frame {
    Frame(RESPONSE, 0, c.enc(Payload(ids, i, n)))
  }

  lemma FrameOfBytes(c: Codec, ids: Ids, i: Item, n: nat)
    ensures var f := FrameOf(c, ids, i, n); f.msgType == 6 && f.flags == 0 && f.payload == c.enc(Payload(ids, i, n))
  {
    hide Payload;
  }

  /** The items put on the wire, in order; `ended` is false when even the
      closing error did not fit into a frame and the connection is dropped. */
  datatype Emission = Emission(items: seq<Item>, ended: bool) {
    function After(i: Item): Emission { Emission([i] + items, ended) }
    function Behind(sent: seq<Item>): Emission { Emission(sent + items, ended) }
  }

  lemma EmissionAfter(e: Emission, sent: seq<Item>, i: Item)
    ensures e.After(i).Behind(sent) == e.Behind(sent + [i])
  {
    assert sent + ([i] + e.items) == (sent + [i]) + e.items;
  }

  function Closing(c: Codec, ids: Ids, n: nat): Emission {
    if FrameOf(c, ids, BACKEND_ERROR, n).Fits() then Emission([BACKEND_ERROR], true) else Emission([], false)
  }

  function EmissionFrom(c: Codec, ids: Ids, n: nat, items: seq<Item>, throws: bool): Emission
    decreases |items|
  {
    if items == [] then
      if !throws && FrameOf(c, ids, INCOMPLETE, n).Fits() then Emission([INCOMPLETE], true)
      else Closing(c, ids, n)
    else if !FrameOf(c, ids, items[0], n).Fits() then Closing(c, ids, n)
    else if items[0].Final() then Emission([items[0]], true)
    else EmissionFrom(c, ids, n + 1, items[1..], throws).After(items[0])
  }

  function EmissionOf(c: Codec, ids: Ids, b: Behaviour): Emission {
    if b.gateFull then Closing(c, ids, 0) else EmissionFrom(c, ids, 0, b.items, b.throws)
  }

  /** The bytes of items numbered from `n`. */
  function WireFrom(c: Codec, ids: Ids, n: nat, items: seq<Item>): seq<byte>
    decreases |items|
  {
    if items == [] then []
    else
      var f := FrameOf(c, ids, items[0], n);
      (if f.Fits() then Encoded(f) else []) + WireFrom(c, ids, n + 1, items[1..])
  }

  lemma {:induction false} WireSnoc(c: Codec, ids: Ids, n: nat, items: seq<Item>, i: Item)
    requires FrameOf(c, ids, i, n + |items|).Fits()
    ensures WireFrom(c, ids, n, items + [i]) == WireFrom(c, ids, n, items) + Encoded(FrameOf(c, ids, i, n + |items|))
    decreases |items|
  {
    hide Encoded, FrameOf, Frame.Fits;
    if items == [] {
      assert [i][1..] == [];
    } else {
      WireSnoc(c, ids, n + 1, items[1..], i);
      assert (items + [i])[1..] == items[1..] + [i];
    }
  }

  class StreamEmitter {
    const codec: Codec
    const ids: Ids
    var sequence: nat
    var terminalSent: bool
    var socket: seq<byte>       // everything written so far
    ghost var sent: seq<Item>   // the items it stands for

    ghost predicate Valid()
      reads this
    {
      && sequence == |sent|
      && socket == WireFrom(codec, ids, 0, sent)
      && (terminalSent <==> sent != [] && sent[|sent| - 1].Final())
    }

    constructor (codec: Codec, ids: Ids)
      ensures Valid() && sent == [] && this.codec == codec && this.ids == ids
    {
      this.codec, this.ids := codec, ids;
      sequence, terminalSent, socket, sent := 0, false, [], [];
    }

    /** False is a throw: after a terminal item, or an oversized payload. */
    method Emit(i: Item) returns (ok: bool)
      requires Valid()
      modifies this
      ensures Valid()
      ensures ok <==> !old(terminalSent) && FrameOf(codec, ids, i, |old(sent)|).Fits()
      ensures sent == if ok then old(sent) + [i] else old(sent)
      ensures terminalSent == if ok then i.Final() else old(terminalSent)
    {
      if terminalSent {
        return false;
      }
      var frame := FrameOf(codec, ids, i, sequence);
      var encoded := EncodeFrame(frame);
      if encoded.None? {
        return false;
      }
      WireSnoc(codec, ids, 0, sent, i);
      socket, sent := socket + encoded.value, sent + [i];
      sequence, terminalSent := sequence + 1, i.Final();
      ok := true;
    }

    /** The handler loop inside `run`; false when an emission or the handler threw. */
    method RunHandler(items: seq<Item>, throws: bool) returns (ok: bool)
      requires Valid() && sent == []
      modifies this
      ensures Valid() && (ok ==> terminalSent)
      ensures EmissionFrom(codec, ids, 0, items, throws) ==
              if terminalSent then Emission(sent, true) else Closing(codec, ids, |sent|).Behind(sent)
    {
      hide WireFrom, FrameOf, Frame.Fits, Closing;
      ghost var e := EmissionFrom(codec, ids, 0, items, throws);
      assert items[0..] == items && e == e.Behind([]);
      var k := 0;
      while k < |items|
        invariant 0 <= k <= |items| && Valid()
        invariant if terminalSent then e == Emission(sent, true)
                  else |sent| == k && e == EmissionFrom(codec, ids, k, items[k..], throws).Behind(sent)
      {
        var item := items[k];
        assert items[k..][0] == item && items[k..][1..] == items[k + 1..];
        EmissionAfter(EmissionFrom(codec, ids, k + 1, items[k + 1..], throws), sent, item);
        ok := Emit(item);
        if !ok {
          return;
        }
        k := k + 1;
      }
      if throws {
        return false;
      }
      ok := true;
      if !terminalSent {
        ok := Emit(INCOMPLETE);
      }
    }

    /** `_onStreamCall`: what ends up on the wire, for every behaviour. */
    method OnStreamCall(b: Behaviour) returns (ended: bool)
      requires Valid() && sent == []
      modifies this
      ensures Valid()
      ensures Emission(sent, ended) == EmissionOf(codec, ids, b)
    {
      hide WireFrom, FrameOf, Frame.Fits;
      var ok := false;
      if !b.gateFull {
        ok := RunHandler(b.items, b.throws);
      }
      ended := true;
      if !terminalSent {
        ended := Emit(BACKEND_ERROR);
        assert sent == sent + [];
      }
    }
  }

  // ---- The client ----

  datatype Result = Done | WrongType | Undecodable | BadStream(fault: Fault) | Objected(code: Code)

  datatype Received = Received(yielded: seq<Response<Body>>, result: Result, rest: seq<byte>) {
    function After(f: Response<Body>): Received { Received([f] + yielded, result, rest) }
    function Behind(fs: seq<Response<Body>>): Received { Received(fs + yielded, result, rest) }
  }

  /** `streamCall` as a function of the bytes still to come. A failed read is
      reported by `finish` as a missing terminal response. */
  function Receive(c: Codec, ids: Ids, st: SeqState, s: seq<byte>): Received
    decreases |s|
  {
    if st.terminal then Received([], Done, s)
    else match Peek(s)
      case Need => Received([], Objected(MissingTerminalResponse), s)
      case Bad(_) => Received([], Objected(MissingTerminalResponse), s)
      case Ready(frame, size) =>
        var rest := s[size..];
        if frame.msgType != RESPONSE then Received([], WrongType, rest)
        else
          var v := c.dec(frame.payload);
          var f := if v.None? then None else DecodeLifecycle(c, v.value);
          if f.None? then Received([], Undecodable, rest)
          else
            var o := Objection(ids, st, f.value);
            if o.Some? then Received([], Objected(o.value), rest)
            else Receive(c, ids, Advance(st, f.value), rest).After(f.value)
  }

  lemma ReceivedAfter(r: Received, fs: seq<Response<Body>>, f: Response<Body>)
    ensures r.After(f).Behind(fs) == r.Behind(fs + [f])
  {
    assert fs + ([f] + r.yielded) == (fs + [f]) + r.yielded;
  }

  method StreamCall(c: Codec, ids: Ids, reader: FrameReader) returns (yielded: seq<Response<Body>>, result: Result)
    modifies reader
    ensures Received(yielded, result, reader.Stream()) == Receive(c, ids, START, old(reader.Stream()))
  {
    var acceptor := new NativeResponseSequence(ids);
    yielded := [];
    var terminal := false;
    while !terminal
      invariant acceptor.ids == ids && terminal == acceptor.State().terminal
      invariant Receive(c, ids, START, old(reader.Stream())) ==
                Receive(c, ids, acceptor.State(), reader.Stream()).Behind(yielded)
      decreases if terminal then 0 else 1 + |reader.Stream()|
    {
      hide Peek;
      PeekSize(reader.Stream());
      var wire := reader.ReadFrame();
      if !wire.Got? {
        var e := acceptor.Finish();
        return yielded, Objected(MissingTerminalResponse);
      }
      if wire.frame.msgType != RESPONSE {
        return yielded, WrongType;
      }
      var v := c.dec(wire.frame.payload);
      if v.None? {
        return yielded, Undecodable;
      }
      var f := DecodeLifecycle(c, v.value);
      if f.None? {
        return yielded, Undecodable;
      }
      var objection := acceptor.Accept(f.value);
      if objection.Some? {
        return yielded, Objected(objection.value);
      }
      ReceivedAfter(Receive(c, ids, acceptor.State(), reader.Stream()), yielded, f.value);
      yielded, terminal := yielded + [f.value], f.value.is_final;
    }
    result := Done;
  }

  // ---- End to end ----

  function MeantAll(ids: Ids, n: nat, items: seq<Item>): seq<Response<Body>>
    decreases |items|
  {
    if items == [] then [] else [Meant(ids, items[0], n)] + MeantAll(ids, n + 1, items[1..])
  }

  /** Everything before the last item of an emission is partial; the last one
      is terminal exactly when the emission ended; every frame fits. */
  predicate Sendable(c: Codec, ids: Ids, n: nat, e: Emission)
    decreases |e.items|
  {
    if e.items == [] then !e.ended
    else
      && FrameOf(c, ids, e.items[0], n).Fits()
      && (e.items[0].Final() ==> e.ended && e.items[1..] == [])
      && (!e.items[0].Final() ==> Sendable(c, ids, n + 1, Emission(e.items[1..], e.ended)))
  }

  lemma {:induction false} EmissionSendable(c: Codec, ids: Ids, n: nat, items: seq<Item>, throws: bool)
    ensures Sendable(c, ids, n, EmissionFrom(c, ids, n, items, throws))
    decreases |items|
  {
    hide FrameOf, Frame.Fits;
    if items != [] {
      EmissionSendable(c, ids, n + 1, items[1..], throws);
      var e := EmissionFrom(c, ids, n + 1, items[1..], throws);
      assert ([items[0]] + e.items)[1..] == e.items;
    }
  }

  /** The outcome the client must reach: it stops at the first label that does
      not fit its status, otherwise it gets everything. */
  function Expected(ids: Ids, n: nat, items: seq<Item>): (seq<Response<Body>>, Result)
    decreases |items|
  {
    if items == [] then ([], Objected(MissingTerminalResponse))
    else if !items[0].LabelFits() then ([], Objected(StatusEventDisagreement))
    else if items[0].Final() then ([Meant(ids, items[0], n)], Done)
    else
      var (fs, r) := Expected(ids, n + 1, items[1..]);
      ([Meant(ids, items[0], n)] + fs, r)
  }

  lemma ReceiveOne(c: Codec, ids: Ids, n: nat, i: Item, tail: seq<byte>)
    requires c.Inverse() && FrameOf(c, ids, i, n).Fits()
    ensures Receive(c, ids, SeqState(n, false), Encoded(FrameOf(c, ids, i, n)) + tail) ==
            if i.LabelFits() then Receive(c, ids, SeqState(n + 1, i.Final()), tail).After(Meant(ids, i, n))
            else Received([], Objected(StatusEventDisagreement), tail)
  {
    var f := FrameOf(c, ids, i, n);
    PeekEncoded(f, tail);
    PayloadRoundTrip(c, ids, i, n);
    MeantIsAccepted(ids, i, n);
    hide Peek, Encoded, DecodeLifecycle, Payload, Objection, Advance, Meant, EventFits, StatusText, DefaultEvent;
    assert (Encoded(f) + tail)[|Encoded(f)|..] == tail;
  }

  lemma ReceiveNothing(c: Codec, ids: Ids, n: nat)
    ensures Receive(c, ids, SeqState(n, false), []) == Received([], Objected(MissingTerminalResponse), [])
  {
  }

  /** The client's reading of an emission's bytes, whatever follows them. */
  lemma {:induction false} ReceiveWire(c: Codec, ids: Ids, n: nat, e: Emission, rest: seq<byte>)
    requires c.Inverse() && Sendable(c, ids, n, e) && (e.ended || rest == [])
    ensures var r := Receive(c, ids, SeqState(n, false), WireFrom(c, ids, n, e.items) + rest);
            (r.yielded, r.result) == Expected(ids, n, e.items) && (r.result.Done? ==> r.rest == rest)
    decreases |e.items|
  {
    hide Encoded, FrameOf, Frame.Fits, Peek, Meant, EventFits, StatusText, DefaultEvent, DecodeLifecycle, Objection;
    if e.items == [] {
      ReceiveNothing(c, ids, n);
    } else {
      var i, tail := e.items[0], WireFrom(c, ids, n + 1, e.items[1..]) + rest;
      ReceiveOne(c, ids, n, i, tail);
      assert WireFrom(c, ids, n, e.items) + rest == Encoded(FrameOf(c, ids, i, n)) + tail;
      if i.Final() {
        assert tail == [] + rest == rest;
        assert Receive(c, ids, SeqState(n + 1, true), rest) == Received([], Done, rest);
        assert [Meant(ids, i, n)] + [] == [Meant(ids, i, n)];
      } else {
        ReceiveWire(c, ids, n + 1, Emission(e.items[1..], e.ended), rest);
      }
    }
  }

  predicate LabelsFit(items: seq<Item>) {
    forall i <- items :: i.LabelFits()
  }

  lemma {:induction false} ExpectedDone(ids: Ids, n: nat, c: Codec, e: Emission)
    requires Sendable(c, ids, n, e)
    ensures Expected(ids, n, e.items).1.Done? <==> e.ended && LabelsFit(e.items)
    ensures Expected(ids, n, e.items).1.Done? ==> Expected(ids, n, e.items).0 == MeantAll(ids, n, e.items)
    decreases |e.items|
  {
    hide FrameOf, Frame.Fits, Item.LabelFits, Meant;
    if e.items != [] {
      assert e.items == [e.items[0]] + e.items[1..];
      if !e.items[0].Final() {
        ExpectedDone(ids, n + 1, c, Emission(e.items[1..], e.ended));
      }
    }
  }

  lemma {:induction false} MeantAnswers(c: Codec, ids: Ids, n: nat, e: Emission)
    requires Sendable(c, ids, n, e) && e.ended && LabelsFit(e.items)
    ensures AnswerFrom(ids, n, MeantAll(ids, n, e.items))
    decreases |e.items|
  {
    hide FrameOf, Frame.Fits, EventFits, StatusText, DefaultEvent;
    var fs := MeantAll(ids, n, e.items);
    assert fs[1..] == MeantAll(ids, n + 1, e.items[1..]);
    assert e.items[0].LabelFits() && forall i <- e.items[1..] :: i in e.items;
    StatusTextPartial(e.items[0].status);
    if !e.items[0].Final() {
      MeantAnswers(c, ids, n + 1, Emission(e.items[1..], e.ended));
    } else {
      assert |fs| == 1;
    }
  }

  lemma EmissionOfSendable(c: Codec, ids: Ids, b: Behaviour)
    ensures Sendable(c, ids, 0, EmissionOf(c, ids, b))
  {
    if !b.gateFull {
      EmissionSendable(c, ids, 0, b.items, b.throws);
    } else {
      hide FrameOf, Frame.Fits;
      assert [BACKEND_ERROR][1..] == [];
    }
  }

  lemma CallArrives(c: Codec, ids: Ids, intent: string, body: seq<byte>)
    requires c.Inverse() && ids.task_id != ""
    ensures c.dec(c.enc(CallPayload(ids, intent, body))) == Some(CallPayload(ids, intent, body))
    ensures StreamArgs(c, CallPayload(ids, intent, body)) == Some(ids)
  {
    CallRoundTrip(c, ids, intent, body);
  }

  lemma AnswersAreComplete<T>(ids: Ids, fs: seq<Response<T>>)
    requires AnswerFrom(ids, 0, fs)
    ensures CompleteAnswer(ids, fs)
  {
    AnswerFromMeans(ids, 0, fs);
  }

  /** The whole call. The server works on the ids it decoded from the client's
      CALL payload; whatever its handler does, the client finishes normally
      exactly when the labels fit and the closing frame could be sent, and then
      it has every emitted frame, numbered 0..n-1 with the one final frame
      last, and has consumed exactly those bytes. */
  lemma EndToEnd(c: Codec, ids: Ids, intent: string, body: seq<byte>, b: Behaviour, rest: seq<byte>)
    requires c.Inverse() && ids.task_id != ""
    requires EmissionOf(c, ids, b).ended || rest == []
    ensures StreamArgs(c, c.dec(c.enc(CallPayload(ids, intent, body))).value) == Some(ids)
    ensures var e := EmissionOf(c, ids, b);
            var r := Receive(c, ids, START, WireFrom(c, ids, 0, e.items) + rest);
            && (r.result.Done? <==> e.ended && LabelsFit(e.items))
            && (r.result.Done? ==>
                  r.yielded == MeantAll(ids, 0, e.items) && r.rest == rest && CompleteAnswer(ids, r.yielded))
  {
    CallArrives(c, ids, intent, body);
    var e := EmissionOf(c, ids, b);
    EmissionOfSendable(c, ids, b);
    hide *;
    ReceiveWire(c, ids, 0, e, rest);
    ExpectedDone(ids, 0, c, e);
    if e.ended && LabelsFit(e.items) {
      MeantAnswers(c, ids, 0, e);
      AnswersAreComplete(ids, MeantAll(ids, 0, e.items));
    }
  }

  /** Both ends running, with the server's bytes cut into chunks arbitrarily. */
  method RunCall(c: Codec, ids: Ids, b: Behaviour, cut: seq<byte> -> seq<seq<byte>>)
    returns (yielded: seq<Response<Body>>, result: Result)
    requires c.Inverse() && ids.task_id != ""
    requires forall s :: Flatten(cut(s)) == s
    ensures var e := EmissionOf(c, ids, b);
            && (result.Done? <==> e.ended && LabelsFit(e.items))
            && (result.Done? ==> yielded == MeantAll(ids, 0, e.items) && CompleteAnswer(ids, yielded))
  {
    hide EmissionOf, WireFrom, Receive;
    var server := new StreamEmitter(c, ids);
    var ended := server.OnStreamCall(b);
    assert Flatten(cut(server.socket)) == server.socket;
    var reader := new FrameReader(cut(server.socket));
    yielded, result := StreamCall(c, ids, reader);
    EndToEnd(c, ids, "", [], b, []);
    assert server.socket + [] == server.socket;
  }

  /** The first `k` items went out unchanged, all partial except possibly the
      last of them, followed by `closing`, which is a closing error exactly
      when no terminal item went out. */
  predicate PassedThrough(c: Codec, ids: Ids, n: nat, items: seq<Item>, throws: bool, k: nat, closing: seq<Item>) {
    && k <= |items|
    && (forall j :: 0 <= j < k - 1 ==> !items[j].Final())
    && (k > 0 && items[k - 1].Final() ==> closing == [])
    && (k == 0 || !items[k - 1].Final() ==>
          if k < |items| then !FrameOf(c, ids, items[k], n + k).Fits() && closing == Closing(c, ids, n + k).items
          else if !throws && FrameOf(c, ids, INCOMPLETE, n + k).Fits() then closing == [INCOMPLETE]
          else closing == Closing(c, ids, n + k).items)
  }

  /** What is emitted, against the handler's own list of items. */
  lemma {:induction false} EmissionPassesThrough(c: Codec, ids: Ids, n: nat, items: seq<Item>, throws: bool)
    returns (k: nat, closing: seq<Item>)
    ensures PassedThrough(c, ids, n, items, throws, k, closing)
    ensures EmissionFrom(c, ids, n, items, throws).items == items[..k] + closing
    decreases |items|
  {
    hide FrameOf, Frame.Fits, Closing;
    var e := EmissionFrom(c, ids, n, items, throws).items;
    if items == [] || !FrameOf(c, ids, items[0], n).Fits() {
      k, closing := 0, e;
    } else if items[0].Final() {
      k, closing := 1, [];
    } else {
      k, closing := EmissionPassesThrough(c, ids, n + 1, items[1..], throws);
      assert items[..k + 1] == [items[0]] + items[1..][..k];
      k := k + 1;
    }
  }
}
