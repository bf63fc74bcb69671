/** Reassembly of frames from TCP chunks: the server's session loop and the
    client's frame reader (src/iicp_tcp.ts). A socket is the list of chunks it
    will deliver before it closes. */
module FrameSession {
  import opened Optional
  import opened Framing

  function Flatten(chunks: seq<seq<byte>>): seq<byte> {
    if chunks == [] then [] else chunks[0] + Flatten(chunks[1..])
  }

  datatype Fault = FaultMagic | FaultVersion | FaultType | FaultLength

  /** What can be said about the frame at the front of a byte stream. */
  datatype Head = Need | Bad(fault: Fault) | Ready(frame: Frame, size: nat)

  function HeaderFault(s: seq<byte>): Option<Fault>
    requires |s| >= HEADER_LEN
  {
    if s[..4] != MAGIC then Some(FaultMagic)
    else if s[4] != FRAMING_VERSION then Some(FaultVersion)
    else if StableTypeError(s[5]).Some? then Some(FaultType)
    else if ReadU32(s, 8) > MAX_PAYLOAD then Some(FaultLength)
    else None
  }

  function Peek(s: seq<byte>): (h: Head)
    ensures h.Ready? ==> HEADER_LEN <= h.size <= |s|
  {
    if |s| < HEADER_LEN then Need
    else if HeaderFault(s).Some? then Bad(HeaderFault(s).value)
    else
      var n := ReadU32(s, 8);
      if |s| < HEADER_LEN + n then Need
      else Ready(Frame(s[5], s[6], s[HEADER_LEN..HEADER_LEN + n]), HEADER_LEN + n)
  }

  /** The exact circumstances of every fault of a header. */
  lemma FaultsExactly(s: seq<byte>)
    requires |s| >= 12
    ensures var (e, magic) := (HeaderFault(s), s[..4] == [0x49, 0x49, 0x43, 0x50]);
            var bytes: seq<int> := s;
            var announced := ((bytes[8] * 256 + bytes[9]) * 256 + bytes[10]) * 256 + bytes[11];
            && (e == Some(FaultMagic) <==> !magic)
            && (e == Some(FaultVersion) <==> magic && s[4] != 1)
            && (e == Some(FaultType) <==> magic && s[4] == 1 && !(1 <= s[5] <= 10 || s[5] in {13, 14}))
            && (e == Some(FaultLength) <==>
                  magic && s[4] == 1 && (1 <= s[5] <= 10 || s[5] in {13, 14}) && announced > 16_777_216)
  {
  }

  /** Bytes that arrive later never change what was already decided. */
  lemma PeekStable(s: seq<byte>, t: seq<byte>)
    ensures !Peek(s).Need? ==> Peek(s + t) == Peek(s)
    ensures |s| >= HEADER_LEN ==> HeaderFault(s + t) == HeaderFault(s) && ReadU32(s + t, 8) == ReadU32(s, 8)
  {
    if |s| >= HEADER_LEN {
      assert (s + t)[..4] == s[..4];
      var n := ReadU32(s, 8);
      if |s| >= HEADER_LEN + n {
        assert (s + t)[HEADER_LEN..HEADER_LEN + n] == s[HEADER_LEN..HEADER_LEN + n];
      }
    }
  }

  lemma PeekShort(s: seq<byte>)
    ensures |s| < HEADER_LEN ==> Peek(s).Need?
  {
  }

  lemma PeekBad(s: seq<byte>)
    requires |s| >= HEADER_LEN && (s[..4] != MAGIC || HeaderFault(s).Some?)
    ensures Peek(s).Bad?
  {
  }

  lemma PeekSize(s: seq<byte>)
    ensures Peek(s).Ready? ==>
              var Ready(f, n) := Peek(s);
              n >= HEADER_LEN && f.Fits() && n == |Encoded(f)| <= |s| && f.msgType in STABLE_TYPES
  {
  }

  lemma PeekEncoded(f: Frame, rest: seq<byte>)
    requires f.Fits() && f.msgType in STABLE_TYPES
    ensures Peek(Encoded(f) + rest) == Ready(f, |Encoded(f)|)
  {
    DecodeEncoded(f, rest);
  }

  /** Once the loop has the whole announced frame, decoding it cannot fail. */
  lemma DecodeAfterPeek(s: seq<byte>)
    requires |s| >= HEADER_LEN && HeaderFault(s).None? && |s| >= HEADER_LEN + ReadU32(s, 8)
    ensures Decode(s).Ok? && Peek(s) == Ready(Decode(s).frame, Decode(s).consumed)
  {
  }

  // ---- The server session ----

  datatype Verdict = Keep | Stop | Throw

  /** How a session ended: input ran out, a frame was refused, a dispatch
      returned false, or a dispatch threw. */
  datatype End = Starved | Rejected | Stopped | Threw

  /** `at` is the offset of the first byte not belonging to a dispatched frame. */
  datatype Outcome = Outcome(frames: seq<Frame>, end: End, at: nat) {
    function After(f: Frame, size: nat): Outcome { Outcome([f] + frames, end, size + at) }
    function Behind(fs: seq<Frame>, size: nat): Outcome { Outcome(fs + frames, end, size + at) }
  }

  const PING: byte := 0x09
  const DISCOVER: byte := 0x03

  /** CLOSE ends the session; types without a handler are ignored; everything
      else is up to the application (`k` counts frames dispatched before). */
  function Dispatch(app: (nat, Frame) -> Verdict, k: nat, f: Frame): Verdict {
    if f.msgType == CLOSE then Stop
    else if f.msgType in {INIT, PING, DISCOVER, CALL} then app(k, f)
    else Keep
  }

  /** The session as a function of the whole byte stream. */
  function Session(s: seq<byte>, k: nat, app: (nat, Frame) -> Verdict): Outcome
    decreases |s|
  {
    match Peek(s)
    case Need => Outcome([], Starved, 0)
    case Bad(_) => Outcome([], Rejected, 0)
    case Ready(f, n) =>
      if (k == 0) != (f.msgType == INIT) then Outcome([], Rejected, 0)
      else match Dispatch(app, k, f)
        case Throw => Outcome([f], Threw, n)
        case Stop => Outcome([f], Stopped, n)
        case Keep => Session(s[n..], k + 1, app).After(f, n)
  }

  /** Appends chunks until `n` bytes are there or the socket has closed. */
  method Fill(buf: seq<byte>, queue: seq<seq<byte>>, n: nat) returns (b: seq<byte>, q: seq<seq<byte>>)
    ensures b + Flatten(q) == buf + Flatten(queue) && buf <= b
    ensures |b| >= n || q == []
  {
    b, q := buf, queue;
    while |b| < n && q != []
      invariant b + Flatten(q) == buf + Flatten(queue) && buf <= b
      decreases |q|
    {
      b, q := b + q[0], q[1..];
    }
  }

  /** Stages 1 and 2 of the loop: complete the header, check it, complete the
      announced payload, decode. `b` keeps the undecoded bytes. */
  method NextFrame(buf: seq<byte>, queue: seq<seq<byte>>) returns (h: Head, b: seq<byte>, q: seq<seq<byte>>)
    ensures h == Peek(buf + Flatten(queue))
    ensures b + Flatten(q) == if h.Ready? then (buf + Flatten(queue))[h.size..] else buf + Flatten(queue)
  {
    ghost var rest := buf + Flatten(queue);
    b, q := Fill(buf, queue, HEADER_LEN);
    if |b| < HEADER_LEN {
      assert b == rest;
      return Need, b, q;
    }
    PeekStable(b, Flatten(q));
    if HeaderFault(b).Some? {
      return Bad(HeaderFault(b).value), b, q;
    }
    var total := HEADER_LEN + ReadU32(b, 8);
    ghost var before := b;
    b, q := Fill(b, q, total);
    PeekStable(before, b[|before|..]);
    assert before + b[|before|..] == b;
    if |b| < total {
      assert b == rest;
      return Need, b, q;
    }
    DecodeAfterPeek(b);
    PeekStable(b, Flatten(q));
    var Ok(frame, consumed) := Decode(b);
    assert rest[consumed..] == b[consumed..] + Flatten(q);
    h, b := Ready(frame, consumed), b[consumed..];
  }

  /** The session loop over a chunk queue: its frames and its end are those of
      the concatenated stream, so they do not depend on the chunking. */
  method HandleConnection(chunks: seq<seq<byte>>, app: (nat, Frame) -> Verdict) returns (out: Outcome)
    ensures out == Session(Flatten(chunks), 0, app)
  {
    hide Peek, Dispatch, HeaderFault, Session, Flatten;
    ghost var all := Flatten(chunks);
    var buf, queue := Fill([], chunks, HEADER_LEN);
    assert [] + Flatten(chunks) == all;
    PeekShort(buf);
    SessionStep(all, 0, app);
    if |buf| < HEADER_LEN {
      FlattenNone();
      assert buf + [] == buf;
      return Outcome([], Starved, 0);
    }
    PeekStable(buf, Flatten(queue));
    if buf[..4] != MAGIC {
      PeekBad(buf);
      return Outcome([], Rejected, 0);
    }
    out := Serve(buf, queue, app);
  }

  /** The loop itself, with `buf` read and `queue` still to come. */
  method Serve(buf0: seq<byte>, queue0: seq<seq<byte>>, app: (nat, Frame) -> Verdict) returns (out: Outcome)
    ensures out == Session(buf0 + Flatten(queue0), 0, app)
  {
    hide Peek, Dispatch, HeaderFault, Session, Flatten;
    var buf, queue := buf0, queue0;
    var frames, at, initialized := [], 0, false;
    BehindAll(frames, at);
    hide Outcome.After, Outcome.Behind;
    while true
      invariant initialized == (|frames| > 0)
      invariant Session(buf0 + Flatten(queue0), 0, app) ==
                Session(buf + Flatten(queue), |frames|, app).Behind(frames, at)
      decreases |buf + Flatten(queue)|
    {
      PeekSize(buf + Flatten(queue));
      SessionStep(buf + Flatten(queue), |frames|, app);
      BehindAll(frames, at);
      var head;
      head, buf, queue := NextFrame(buf, queue);
      if head.Need? {
        return Outcome(frames, Starved, at);
      }
      if head.Bad? {
        return Outcome(frames, Rejected, at);
      }
      var Ready(frame, consumed) := head;
      if (!initialized && frame.msgType != INIT) || (initialized && frame.msgType == INIT) {
        return Outcome(frames, Rejected, at);
      }
      var verdict := Dispatch(app, |frames|, frame);
      BehindAfter(Session(buf + Flatten(queue), |frames| + 1, app), frames, at, frame, consumed);
      frames, at, initialized := frames + [frame], at + consumed, true;
      if verdict == Throw {
        return Outcome(frames, Threw, at);
      }
      if verdict == Stop {
        return Outcome(frames, Stopped, at);
      }
    }
  }

  lemma FlattenNone()
    ensures Flatten([]) == []
  {
  }

  /** One turn of the session. */
  lemma SessionStep(s: seq<byte>, k: nat, app: (nat, Frame) -> Verdict)
    ensures Peek(s).Need? ==> Session(s, k, app) == Outcome([], Starved, 0)
    ensures Peek(s).Bad? ==> Session(s, k, app) == Outcome([], Rejected, 0)
    ensures Peek(s).Ready? ==>
              var (f, n) := (Peek(s).frame, Peek(s).size);
              n <= |s|
              && Session(s, k, app) ==
                 if (k == 0) != (f.msgType == INIT) then Outcome([], Rejected, 0)
                 else match Dispatch(app, k, f)
                   case Throw => Outcome([f], Threw, n)
                   case Stop => Outcome([f], Stopped, n)
                   case Keep => Session(s[n..], k + 1, app).After(f, n)
  {
    PeekSize(s);
    hide Peek, Dispatch;
  }

  /** Ends right after `fs`, or one frame later. */
  lemma BehindAll(fs: seq<Frame>, at: nat)
    ensures forall e :: Outcome([], e, 0).Behind(fs, at) == Outcome(fs, e, at)
    ensures forall f, e, n :: Outcome([f], e, n).Behind(fs, at) == Outcome(fs + [f], e, at + n)
    ensures fs == [] && at == 0 ==> forall o: Outcome :: o.Behind(fs, at) == o
  {
    assert fs + [] == fs;
    assert forall o: Outcome :: [] + o.frames == o.frames;
  }

  lemma BehindAfter(o: Outcome, fs: seq<Frame>, at: nat, f: Frame, n: nat)
    ensures o.After(f, n).Behind(fs, at) == o.Behind(fs + [f], at + n)
  {
    assert fs + ([f] + o.frames) == (fs + [f]) + o.frames;
  }

  /** The first dispatched frame is INIT, no later one is, each has a stable
      type and a bounded payload, and nothing is dispatched after a CLOSE. */
  lemma {:induction false} SessionShape(s: seq<byte>, k: nat, app: (nat, Frame) -> Verdict)
    ensures var o := Session(s, k, app);
            && (forall i :: 0 <= i < |o.frames| ==>
                  && (o.frames[i].msgType == INIT <==> k + i == 0)
                  && o.frames[i].msgType in STABLE_TYPES && o.frames[i].Fits()
                  && (o.frames[i].msgType == CLOSE ==> i == |o.frames| - 1 && o.end == Stopped))
            && (o.end in {Stopped, Threw} ==> o.frames != [])
    decreases |s|
  {
    PeekSize(s);
    hide Peek;
    if Peek(s).Ready? && (k == 0) == (Peek(s).frame.msgType == INIT) && Dispatch(app, k, Peek(s).frame) == Keep {
      var Ready(f, n) := Peek(s);
      SessionShape(s[n..], k + 1, app);
      assert Session(s, k, app) == Session(s[n..], k + 1, app).After(f, n);
    }
  }

  /** INIT, DISCOVER, CALL and PING are the application's to decide. */
  predicate Asks(f: Frame) { f.msgType in {0x01, 0x03, 0x05, 0x09} }

  /** The session goes on after a frame exactly if the application keeps it
      open or is not asked, and otherwise ends with that frame: by a CLOSE, a
      refusal or an exception, and by nothing else. */
  lemma {:induction false} SessionObeys(s: seq<byte>, k: nat, app: (nat, Frame) -> Verdict)
    ensures var (fs, end) := (Session(s, k, app).frames, Session(s, k, app).end);
            && (forall i :: 0 <= i < |fs| - 1 ==> fs[i].msgType != 0x07 && (Asks(fs[i]) ==> app(k + i, fs[i]) == Keep))
            && (end == Stopped <==>
                  fs != [] && var (n, f) := (|fs| - 1, fs[|fs| - 1]);
                              f.msgType == 0x07 || (Asks(f) && app(k + n, f) == Stop))
            && (end == Threw <==>
                  fs != [] && var (n, f) := (|fs| - 1, fs[|fs| - 1]); Asks(f) && app(k + n, f) == Throw)
    decreases |s|
  {
    PeekSize(s);
    SessionStep(s, k, app);
    hide Peek, Session;
    if Peek(s).Ready? && (k == 0) == (Peek(s).frame.msgType == INIT) && Dispatch(app, k, Peek(s).frame) == Keep {
      var Ready(f, n) := Peek(s);
      SessionObeys(s[n..], k + 1, app);
      var rest := Session(s[n..], k + 1, app);
      assert forall i :: 0 < i < |rest.frames| + 1 ==> ([f] + rest.frames)[i] == rest.frames[i - 1];
    }
  }

  function EncodeAll(fs: seq<Frame>): seq<byte>
    requires forall f <- fs :: f.Fits()
  {
    if fs == [] then [] else Encoded(fs[0]) + EncodeAll(fs[1..])
  }

  lemma EncodeAllCons(f: Frame, fs: seq<Frame>)
    requires f.Fits() && forall g <- fs :: g.Fits()
    ensures EncodeAll([f] + fs) == Encoded(f) + EncodeAll(fs)
  {
    assert ([f] + fs)[1..] == fs;
  }

  /** Exactly the bytes of the dispatched frames are consumed, and what follows
      them explains the end: no whole frame there, or one that is refused. */
  lemma {:induction false} SessionConsumes(s: seq<byte>, k: nat, app: (nat, Frame) -> Verdict)
    ensures var o := Session(s, k, app);
            && (forall f <- o.frames :: f.Fits())
            && o.at == |EncodeAll(o.frames)| <= |s|
            && (o.end == Starved ==> Peek(s[o.at..]).Need?)
            && (o.end == Rejected ==>
                  || Peek(s[o.at..]).Bad?
                  || (Peek(s[o.at..]).Ready? && (Peek(s[o.at..]).frame.msgType == INIT) != (k + |o.frames| == 0)))
    decreases |s|
  {
    hide Peek, Encoded, Dispatch;
    assert s[0..] == s;
    if Peek(s).Ready? && (k == 0) == (Peek(s).frame.msgType == INIT) {
      var Ready(f, n) := Peek(s);
      PeekSize(s);
      if Dispatch(app, k, f) == Keep {
        SessionConsumes(s[n..], k + 1, app);
        var tail := Session(s[n..], k + 1, app);
        EncodeAllCons(f, tail.frames);
        assert s[n..][tail.at..] == s[n + tail.at..];
      } else {
        EncodeAllCons(f, []);
        assert [f] + [] == [f];
      }
    }
  }

  /** Where the frames come from: number `i` is what stands in the stream right
      behind the encodings of those before it. */
  lemma {:induction false} SessionReads(s: seq<byte>, k: nat, app: (nat, Frame) -> Verdict, i: nat)
    requires i < |Session(s, k, app).frames|
    ensures forall f <- Session(s, k, app).frames[..i] :: f.Fits()
    ensures var (f, at) := (Session(s, k, app).frames[i], |EncodeAll(Session(s, k, app).frames[..i])|);
            at <= |s| && f.Fits() && Peek(s[at..]) == Ready(f, |Encoded(f)|)
    decreases i
  {
    PeekSize(s);
    SessionStep(s, k, app);
    SessionConsumes(s, k, app);
    hide Peek, Encoded, Dispatch, Session;
    var o := Session(s, k, app);
    var Ready(f, n) := Peek(s);
    if i == 0 {
      assert o.frames[..0] == [] && s[0..] == s;
    } else {
      var rest := Session(s[n..], k + 1, app);
      assert o == rest.After(f, n);
      SessionReads(s[n..], k + 1, app, i - 1);
      assert o.frames[..i] == [f] + rest.frames[..i - 1];
      EncodeAllCons(f, rest.frames[..i - 1]);
      var m := |EncodeAll(rest.frames[..i - 1])|;
      assert s[n..][m..] == s[n + m..];
    }
  }

  /** More input only ever adds frames, and a session that ended for any other
      reason than lack of input has ended whatever follows. */
  lemma {:induction false} SessionMonotone(s: seq<byte>, t: seq<byte>, k: nat, app: (nat, Frame) -> Verdict)
    ensures var (o, p) := (Session(s, k, app), Session(s + t, k, app));
            if o.end == Starved then o.frames <= p.frames && o.at <= p.at else p == o
    decreases |s|
  {
    PeekStable(s, t);
    PeekSize(s);
    hide Peek, Dispatch;
    if Peek(s).Ready? && (k == 0) == (Peek(s).frame.msgType == INIT) && Dispatch(app, k, Peek(s).frame) == Keep {
      var Ready(f, n) := Peek(s);
      SessionMonotone(s[n..], t, k + 1, app);
      assert (s + t)[n..] == s[n..] + t;
      assert Session(s, k, app) == Session(s[n..], k + 1, app).After(f, n);
      assert Session(s + t, k, app) == Session(s[n..] + t, k + 1, app).After(f, n);
    }
  }

  /** A sender's frame sequence the receiver takes whole: stable types, bounded
      payloads, INIT exactly at the start, CLOSE at most at the end. */
  predicate Orderly(fs: seq<Frame>, k: nat) {
    fs == [] ||
    (&& fs[0].Fits() && fs[0].msgType in STABLE_TYPES
     && (fs[0].msgType == INIT <==> k == 0)
     && (fs[0].msgType == CLOSE ==> fs[1..] == [])
     && Orderly(fs[1..], k + 1))
  }

  /** Orderliness, frame by frame. */
  lemma {:induction false} OrderlyExactly(fs: seq<Frame>, k: nat)
    ensures Orderly(fs, k) <==>
            forall i :: 0 <= i < |fs| ==>
              && fs[i].Fits() && fs[i].msgType in STABLE_TYPES && (fs[i].msgType == INIT <==> k + i == 0)
              && (fs[i].msgType == CLOSE ==> i == |fs| - 1)
  {
    if fs != [] {
      OrderlyExactly(fs[1..], k + 1);
      assert forall i :: 0 < i < |fs| ==> fs[i] == fs[1..][i - 1];
      assert fs == [fs[0]] + fs[1..];
    }
  }

  function EndOf(fs: seq<Frame>): End {
    if fs != [] && fs[|fs| - 1].msgType == CLOSE then Stopped else Starved
  }

  lemma {:induction false} OrderlyFits(fs: seq<Frame>, k: nat)
    requires Orderly(fs, k)
    ensures forall f <- fs :: f.Fits()
  {
    if fs != [] {
      OrderlyFits(fs[1..], k + 1);
      assert fs == [fs[0]] + fs[1..];
    }
  }

  ghost predicate AlwaysKeeps(app: (nat, Frame) -> Verdict) {
    forall i, f :: app(i, f) == Keep
  }

  /** One more encoded frame in front of a stream already understood. */
  lemma SessionOfOne(f: Frame, tail: seq<Frame>, rest: seq<byte>, k: nat, app: (nat, Frame) -> Verdict)
    requires f.Fits() && f.msgType in STABLE_TYPES && (f.msgType == INIT <==> k == 0) && AlwaysKeeps(app)
    requires f.msgType == CLOSE ==> tail == []
    requires Session(rest, k + 1, app) == Outcome(tail, EndOf(tail), |rest|)
    ensures Session(Encoded(f) + rest, k, app) == Outcome([f] + tail, EndOf([f] + tail), |Encoded(f) + rest|)
  {
    PeekEncoded(f, rest);
    hide Peek, Encoded;
    assert (Encoded(f) + rest)[|Encoded(f)|..] == rest;
    if tail == [] {
      assert [f] + tail == [f];
    } else {
      assert ([f] + tail)[|tail|] == tail[|tail| - 1];
    }
  }

  /** Parsing a concatenation of encodings gives back exactly those frames. */
  lemma {:induction false} SessionOfEncoded(fs: seq<Frame>, k: nat, app: (nat, Frame) -> Verdict)
    requires Orderly(fs, k) && AlwaysKeeps(app)
    ensures forall f <- fs :: f.Fits()
    ensures Session(EncodeAll(fs), k, app) == Outcome(fs, EndOf(fs), |EncodeAll(fs)|)
    decreases |fs|
  {
    OrderlyFits(fs, k);
    if fs != [] {
      SessionOfEncoded(fs[1..], k + 1, app);
      assert EncodeAll(fs) == Encoded(fs[0]) + EncodeAll(fs[1..]);
      if fs[0].msgType == CLOSE {
        assert Session([], k + 1, app) == Outcome([], Starved, 0);
      }
      SessionOfOne(fs[0], fs[1..], EncodeAll(fs[1..]), k, app);
      assert fs == [fs[0]] + fs[1..];
    }
  }

  // ---- The client's frame reader ----

  datatype ReadResult =
    | Got(frame: Frame)
    | Refused(fault: Fault)
    | ConnectionClosed

  /** One read on the stream still to come, and the stream left after it. */
  function ReadSpec(s: seq<byte>): (ReadResult, seq<byte>) {
    match Peek(s)
    case Need => (ConnectionClosed, s)
    case Bad(e) => (Refused(e), s)
    case Ready(f, n) => (Got(f), s[n..])
  }

  class FrameReader {
    var buf: seq<byte>
    var queue: seq<seq<byte>>

    constructor (chunks: seq<seq<byte>>)
      ensures Stream() == Flatten(chunks)
    {
      buf, queue := [], chunks;
    }

    /** The bytes not yet handed to a caller of `ReadFrame`. */
    function Stream(): seq<byte>
      reads this
    {
      buf + Flatten(queue)
    }

    /** The next chunk is appended; nothing is parsed here. */
    method OnData()
      requires queue != []
      modifies this
      ensures Stream() == old(Stream()) && queue == old(queue)[1..] && buf == old(buf + queue[0])
    {
      buf, queue := buf + queue[0], queue[1..];
    }

    method ReadFrame() returns (r: ReadResult)
      modifies this
      ensures (r, Stream()) == ReadSpec(old(Stream()))
    {
      PeekSize(Stream());
      var head;
      head, buf, queue := NextFrame(buf, queue);
      match head
      case Need => r := ConnectionClosed;
      case Bad(fault) => r := Refused(fault);
      case Ready(frame, _) => r := Got(frame);
    }
  }
}
