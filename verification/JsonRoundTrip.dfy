/** What `losslessParse` and `canonicalJson` (src/cli.ts) promise together. */
module JsonRoundTrip {
  import opened Optional
  import opened Sorting
  import opened JsonText
  import opened CanonicalJson

  // ---- Written text is text the reader understands ----

  lemma DigitsMean(c: unit16)
    ensures LegalPiece(Hex(Digits(c))) && FourHex(Digits(c)) == c
  {
    assert c / 256 == (c / 4096) * 16 + c / 256 % 16;
    assert c / 16 == (c / 256) * 16 + c / 16 % 16;
    assert c == (c / 16) * 16 + c % 16;
    forall n: nat | n < 16 ensures HexDigit(HexLower(n)) && Digit(HexLower(n)) == n {
    }
  }

  lemma EscapeMeans(c: unit16)
    ensures LegalPiece(Escape(c)) && Unit(Escape(c)) == c
  {
    DigitsMean(c);
    hide Digits, FourHex;
  }

  lemma PieceThen(p: Piece, ps: seq<Piece>)
    ensures Meaning([p] + ps) == [Unit(p)] + Meaning(ps)
    ensures LegalPieces([p] + ps) <==> LegalPiece(p) && LegalPieces(ps)
  {
    assert ([p] + ps)[1..] == ps;
  }

  predicate Paired(s: text) { |s| > 1 && High(s[0]) && Low(s[1]) }

  function OnlyPiece(c: unit16): Piece { if High(c) || Low(c) then Hex(Digits(c)) else Escape(c) }

  lemma EscapesShape(s: text)
    requires s != []
    ensures Escapes(s) == if Paired(s) then [Raw(s[0])] + ([Raw(s[1])] + Escapes(s[2..]))
                          else [OnlyPiece(s[0])] + Escapes(s[1..])
  {
  }

  lemma OnlyPieceMeans(c: unit16)
    ensures LegalPiece(OnlyPiece(c)) && Unit(OnlyPiece(c)) == c
  {
    DigitsMean(c);
    EscapeMeans(c);
    hide Digits, FourHex, Escape;
  }

  lemma {:induction false} EscapesMean(s: text)
    ensures LegalPieces(Escapes(s)) && Meaning(Escapes(s)) == s
    decreases |s|
  {
    hide Meaning, LegalPieces, OnlyPiece, Escapes;
    if s == [] {
      EscapesNone();
    } else if Paired(s) {
      EscapesShape(s);
      EscapesMean(s[2..]);
      PieceThen(Raw(s[1]), Escapes(s[2..]));
      PieceThen(Raw(s[0]), [Raw(s[1])] + Escapes(s[2..]));
      assert s == [s[0]] + ([s[1]] + s[2..]);
    } else {
      EscapesShape(s);
      EscapesMean(s[1..]);
      OnlyPieceMeans(s[0]);
      PieceThen(OnlyPiece(s[0]), Escapes(s[1..]));
      assert s == [s[0]] + s[1..];
    }
  }

  lemma EscapesNone()
    ensures Escapes([]) == [] && LegalPieces([]) && Meaning([]) == []
  {
  }

  /** The way `Write` spells a tree. */
  function Layout(t: Json): Cst
    decreases t
  {
    match t
    case Null => CNull
    case Bool(b) => CBool(b)
    case Str(s) => CStr(Escapes(s))
    case Num(lit) => CNum(lit)
    case Arr(items) => CBox(false, [], LayoutItems(items))
    case Obj(ms) => CBox(true, [], LayoutMembers(ms))
  }

  function LayoutItems(items: seq<Json>): seq<Item>
    decreases items
  {
    if items == [] then [] else [Item([], None, Layout(items[0]), [])] + LayoutItems(items[1..])
  }

  function LayoutMembers(ms: seq<Member>): seq<Item>
    decreases ms
  {
    if ms == [] then []
    else [Item([], LayoutKey(ms[0].key), Layout(ms[0].value), [])] + LayoutMembers(ms[1..])
  }

  function LayoutKey(key: text): Option<Key> { Some(Key(Escapes(key), [], [])) }

  lemma {:induction false} PiecesThen(ps: seq<Piece>, k: text)
    ensures ShowPieces(ps, []) + k == ShowPieces(ps, k)
  {
    hide ShowPiece;
    if ps != [] {
      PiecesThen(ps[1..], k);
      assert ShowPieces(ps, []) + k == ShowPiece(ps[0]) + (ShowPieces(ps[1..], []) + k);
    }
  }

  lemma StringifyThen(s: text, k: text)
    ensures Stringify(s) + k == [QUOTE] + ShowPieces(Escapes(s), k)
  {
    hide Escapes;
    PiecesThen(Escapes(s), k);
    assert Stringify(s) + k == [QUOTE] + (ShowPieces(Escapes(s), []) + k);
  }

  lemma Assoc(a: text, b: text, c: text)
    ensures (a + b) + c == a + (b + c)
  {
  }

  lemma JoinStep(l: text, ls: seq<text>, k: text)
    ensures Join([l] + ls) + k == l + if ls == [] then k else [COMMA] + (Join(ls) + k)
  {
    assert ([l] + ls)[1..] == ls;
    if ls != [] {
      assert Join([l] + ls) == l + ([COMMA] + Join(ls));
    }
  }

  lemma {:induction false} WriteShows(t: Json, k: text)
    ensures Write(t) + k == Show(Layout(t), k)
    decreases t, 1
  {
    match t
    case Str(s) => StringifyThen(s, k);
    case Arr(items) =>
      ItemsShow(items, k);
      Assoc([Open(false)], Join(WriteItems(items)) + [Close(false)], k);
      Assoc(Join(WriteItems(items)), [Close(false)], k);
    case Obj(ms) =>
      MembersShow(ms, k);
      Assoc([Open(true)], Join(WriteMembers(ms)) + [Close(true)], k);
      Assoc(Join(WriteMembers(ms)), [Close(true)], k);
    case _ =>
  }

  lemma MoreIsInside(obj: bool, items: seq<Item>, k: text)
    ensures ShowMore(obj, items, k) ==
            if items == [] then [Close(obj)] + k else [COMMA] + Inside(obj, [], items, k)
  {
  }

  lemma InsideOne(obj: bool, key: Option<Key>, value: Cst, tail: seq<Item>, k: text)
    ensures Inside(obj, [], [Item([], key, value, [])] + tail, k) == ShowKey(key, Show(value, ShowMore(obj, tail, k)))
  {
    hide Show, ShowMore, ShowKey;
    var it := Item([], key, value, []);
    assert ([it] + tail)[1..] == tail;
    assert [] + ShowMore(obj, tail, k) == ShowMore(obj, tail, k);
    assert [] + ShowItem(it, ShowMore(obj, tail, k)) == ShowItem(it, ShowMore(obj, tail, k));
  }

  lemma InsideNone(obj: bool, k: text)
    ensures Inside(obj, [], [], k) == [Close(obj)] + k
  {
  }

  /** The elements and the closing bracket. */
  lemma {:induction false} ItemsShow(items: seq<Json>, k: text)
    ensures Join(WriteItems(items)) + ([Close(false)] + k) == Inside(false, [], LayoutItems(items), k)
    decreases items, 0
  {
    hide Show, ShowMore, Inside, Write, Layout;
    if items == [] {
      InsideNone(false, k);
    } else {
      var tail := items[1..];
      ItemsShow(tail, k);
      JoinStep(Write(items[0]), WriteItems(tail), [Close(false)] + k);
      MoreIsInside(false, LayoutItems(tail), k);
      WriteShows(items[0], ShowMore(false, LayoutItems(tail), k));
      InsideOne(false, None, Layout(items[0]), LayoutItems(tail), k);
      hide Join;
    }
  }

  lemma {:induction false} MembersShow(ms: seq<Member>, k: text)
    ensures Join(WriteMembers(ms)) + ([Close(true)] + k) == Inside(true, [], LayoutMembers(ms), k)
    decreases ms, 0
  {
    hide Show, ShowMore, Inside, Write, Layout, Stringify;
    if ms == [] {
      InsideNone(true, k);
    } else {
      var tail := ms[1..];
      var more := ShowMore(true, LayoutMembers(tail), k);
      MembersShow(tail, k);
      JoinStep(Stringify(ms[0].key) + ([COLON] + Write(ms[0].value)), WriteMembers(tail), [Close(true)] + k);
      MoreIsInside(true, LayoutMembers(tail), k);
      MemberShows(ms[0], more);
      InsideOne(true, LayoutKey(ms[0].key), Layout(ms[0].value), LayoutMembers(tail), k);
      hide Join, ShowKey;
    }
  }

  lemma {:induction false} MemberShows(m: Member, k: text)
    ensures Stringify(m.key) + ([COLON] + Write(m.value)) + k ==
            ShowKey(LayoutKey(m.key), Show(Layout(m.value), k))
    decreases m, 0
  {
    hide Show, Write, Layout, Escapes;
    var value := Show(Layout(m.value), k);
    WriteShows(m.value, k);
    StringifyThen(m.key, [COLON] + value);
    Assoc(Stringify(m.key), [COLON] + Write(m.value), k);
    Assoc([COLON], Write(m.value), k);
    hide Stringify;
    assert [] + ([COLON] + ([] + value)) == [COLON] + value;
  }

  // ---- The layout of a proper tree is a legal text of that tree ----

  lemma PutNew(ms: seq<Member>, key: text, value: Json)
    requires key !in Keys(ms)
    ensures Put(ms, key, value) == ms + [Member(key, value)]
  {
    if ms != [] {
      assert ms[0].key == Keys(ms)[0];
      PutNew(ms[1..], key, value);
      assert ms + [Member(key, value)] == [ms[0]] + (ms[1..] + [Member(key, value)]);
    }
  }

  lemma KeysConcat(ms: seq<Member>, ns: seq<Member>)
    ensures Keys(ms + ns) == Keys(ms) + Keys(ns)
  {
  }

  predicate Apart(ms: seq<Member>, ns: seq<Member>) { forall k <- Keys(ns) :: k !in Keys(ms) }

  lemma {:induction false} LayoutLegal(t: Json)
    requires Proper(t)
    ensures Legal(Layout(t)) && Tree(Layout(t)) == t
    decreases t, 1
  {
    match t
    case Str(s) => EscapesMean(s);
    case Arr(items) => ItemsLegal(items);
    case Obj(ms) => MembersLegal([], ms);
    case _ =>
  }

  lemma {:induction false} ItemsLegal(items: seq<Json>)
    requires forall i :: 0 <= i < |items| ==> Proper(items[i])
    ensures LegalItems(false, LayoutItems(items)) && Values(LayoutItems(items)) == items
    decreases items, 0
  {
    if items != [] {
      LayoutLegal(items[0]);
      assert forall i :: 0 <= i < |items| - 1 ==> items[1..][i] == items[i + 1];
      ItemsLegal(items[1..]);
      assert LayoutItems(items)[1..] == LayoutItems(items[1..]);
    }
  }

  lemma ItemThen(it: Item, items: seq<Item>, ms: seq<Member>)
    requires Framed(true, it) && Legal(it.value) && LegalItems(true, items)
    ensures LegalItems(true, [it] + items)
    ensures Fields(ms, [it] + items) == Fields(Put(ms, KeyOf(it), Tree(it.value)), items)
  {
    assert ([it] + items)[1..] == items;
  }

  lemma KeyLegal(m: Member)
    requires PlainKey(m.key)
    ensures var it := Item([], LayoutKey(m.key), Layout(m.value), []);
            Framed(true, it) && KeyOf(it) == m.key
  {
    EscapesMean(m.key);
    hide Escapes, LegalPieces, Meaning;
  }

  lemma ApartStep(done: seq<Member>, ms: seq<Member>)
    requires ms != [] && DistinctKeys(ms) && Apart(done, ms)
    ensures ms[0].key !in Keys(done) && Apart(done + [ms[0]], ms[1..])
  {
    assert Keys(ms) == [ms[0].key] + Keys(ms[1..]);
    KeysConcat(done, [ms[0]]);
  }

  lemma {:induction false} MembersLegal(done: seq<Member>, ms: seq<Member>)
    requires DistinctKeys(ms) && Apart(done, ms)
    requires forall i :: 0 <= i < |ms| ==> PlainKey(ms[i].key) && Proper(ms[i].value)
    ensures LegalItems(true, LayoutMembers(ms)) && Fields(done, LayoutMembers(ms)) == done + ms
    decreases ms, 0
  {
    hide Apart, Keys, Layout, Legal, Proper, PlainKey, LayoutKey, Framed, KeyOf, Tree;
    if ms == [] {
    } else {
      var m, tail := ms[0], ms[1..];
      assert forall i :: 0 <= i < |ms| - 1 ==> tail[i] == ms[i + 1];
      ApartStep(done, ms);
      MembersLegal(done + [m], tail);
      LayoutLegal(m.value);
      KeyLegal(m);
      PutNew(done, m.key, m.value);
      ItemThen(Item([], LayoutKey(m.key), Layout(m.value), []), LayoutMembers(tail), done);
      assert done + [m] + tail == done + ms;
      hide LegalItems, Fields;
    }
  }

  // ---- A text has one reading at most ----

  lemma {:induction false} BlanksThen(v: text, x: text, w: text, y: text)
    requires Blank(v) && Blank(w) && Solid(x) && Solid(y) && v + x == w + y
    ensures x == y
    decreases |v|
  {
    assert v != [] ==> v[0] in v && (v + x)[0] == v[0];
    assert w != [] ==> w[0] in w && (w + y)[0] == w[0];
    if v != [] && w != [] {
      assert v == [v[0]] + v[1..] && w == [w[0]] + w[1..];
      assert (v + x)[1..] == v[1..] + x && (w + y)[1..] == w[1..] + y;
      BlanksThen(v[1..], x, w[1..], y);
    } else {
      assert v == [] ==> v + x == x;
      assert w == [] ==> w + y == y;
    }
  }

  lemma {:induction false} LiteralsThen(v: text, x: text, w: text, y: text)
    requires (forall c <- v :: NumChar(c)) && (forall c <- w :: NumChar(c)) && Stops(x) && Stops(y) && v + x == w + y
    ensures v == w && x == y
    decreases |v|
  {
    assert v != [] ==> v[0] in v && (v + x)[0] == v[0];
    assert w != [] ==> w[0] in w && (w + y)[0] == w[0];
    if v != [] && w != [] {
      assert v == [v[0]] + v[1..] && w == [w[0]] + w[1..];
      assert (v + x)[1..] == v[1..] + x && (w + y)[1..] == w[1..] + y;
      LiteralsThen(v[1..], x, w[1..], y);
    } else {
      assert v == [] ==> v + x == x;
      assert w == [] ==> w + y == y;
    }
  }

  lemma Cancel(a: text, x: text, b: text, y: text)
    requires |a| == |b| && a + x == b + y
    ensures a == b && x == y
  {
    assert a == (a + x)[..|a|] && b == (b + y)[..|a|];
    assert x == (a + x)[|a|..] && y == (b + y)[|a|..];
  }

  lemma PieceAlone(p: Piece, x: text, q: Piece, y: text)
    requires LegalPiece(p) && LegalPiece(q) && ShowPiece(p) + x == ShowPiece(q) + y
    ensures Unit(p) == Unit(q) && x == y
  {
    var s := ShowPiece(p) + x;
    assert s[0] == ShowPiece(p)[0] == ShowPiece(q)[0];
    assert s[0] == BACKSLASH ==> s[1] == ShowPiece(p)[1] == ShowPiece(q)[1];
    Cancel(ShowPiece(p), x, ShowPiece(q), y);
    if p.Hex? {
      assert p.digits == ShowPiece(p)[2..] && q.digits == ShowPiece(q)[2..];
    }
  }

  lemma {:induction false} StringsThen(ps: seq<Piece>, x: text, qs: seq<Piece>, y: text)
    requires LegalPieces(ps) && LegalPieces(qs) && ShowPieces(ps, x) == ShowPieces(qs, y)
    ensures Meaning(ps) == Meaning(qs) && x == y
    decreases |ps|
  {
    EndsAtQuote(ps, x);
    EndsAtQuote(qs, y);
    hide ShowPiece, LegalPiece, Unit;
    if ps == [] {
      Cancel([QUOTE], x, [QUOTE], y);
    } else {
      PieceAlone(ps[0], ShowPieces(ps[1..], x), qs[0], ShowPieces(qs[1..], y));
      StringsThen(ps[1..], x, qs[1..], y);
    }
  }

  /** Two readings of one text, and of what follows it, agree. */
  lemma {:induction false} Unambiguous(c: Cst, k: text, d: Cst, l: text)
    requires Legal(c) && Legal(d) && Stops(k) && Stops(l) && Show(c, k) == Show(d, l)
    ensures Tree(c) == Tree(d) && k == l
    decreases c, 2
  {
    ShowStarts(c, k);
    ShowStarts(d, l);
    match c
    case CStr(ps) =>
      Cancel([QUOTE], ShowPieces(ps, k), [QUOTE], ShowPieces(d.pieces, l));
      StringsThen(ps, k, d.pieces, l);
    case CNum(lit) => LiteralsThen(lit, k, d.lit, l);
    case CBox(obj, pad, items) =>
      Cancel([Open(obj)], Inside(obj, pad, items, k), [Open(obj)], Inside(obj, d.pad, d.items, l));
      BoxesThen(obj, pad, items, k, d.pad, d.items, l);
    case CNull => Cancel(NULL, k, NULL, l);
    case CBool(b) => Cancel(if b then TRUE else FALSE, k, if b then TRUE else FALSE, l);
  }

  lemma {:induction false} BoxesThen(
    obj: bool, pad: text, items: seq<Item>, k: text, dap: text, jtems: seq<Item>, l: text)
    requires Blank(pad) && Blank(dap) && LegalItems(obj, items) && LegalItems(obj, jtems)
    requires Inside(obj, pad, items, k) == Inside(obj, dap, jtems, l)
    ensures k == l && (if obj then Fields([], items) == Fields([], jtems) else Values(items) == Values(jtems))
    decreases items, 2
  {
    AfterBlankStarts(obj, items, k);
    AfterBlankStarts(obj, jtems, l);
    BlanksThen(FirstBlank(pad, items), AfterBlank(obj, items, k), FirstBlank(dap, jtems), AfterBlank(obj, jtems, l));
    if items == [] {
      Cancel([Close(obj)], k, [Close(obj)], l);
    } else {
      ItemsThen(obj, items, k, jtems, l, []);
    }
  }

  lemma {:induction false} ItemsThen(
    obj: bool, items: seq<Item>, k: text, jtems: seq<Item>, l: text, ms: seq<Member>)
    requires items != [] && jtems != [] && LegalItems(obj, items) && LegalItems(obj, jtems)
    requires ShowItems(obj, items, k) == ShowItems(obj, jtems, l)
    ensures k == l && (if obj then Fields(ms, items) == Fields(ms, jtems) else Values(items) == Values(jtems))
    decreases items, 1
  {
    var (more, rome) := (ShowMore(obj, items[1..], k), ShowMore(obj, jtems[1..], l));
    MoreStarts(obj, items[1..], k);
    MoreStarts(obj, jtems[1..], l);
    ItemAlone(obj, items[0], more, jtems[0], rome);
    if items[1..] == [] {
      Cancel([Close(obj)], k, [Close(obj)], l);
    } else {
      var (t, u) := (items[1..], jtems[1..]);
      Cancel([COMMA], t[0].lead + ShowItems(obj, t, k), [COMMA], u[0].lead + ShowItems(obj, u, l));
      AfterBlankStarts(obj, t, k);
      AfterBlankStarts(obj, u, l);
      BlanksThen(t[0].lead, ShowItems(obj, t, k), u[0].lead, ShowItems(obj, u, l));
      ItemsThen(obj, t, k, u, l, if obj then Put(ms, KeyOf(items[0]), Tree(items[0].value)) else ms);
    }
  }

  lemma {:induction false} ItemAlone(obj: bool, it: Item, k: text, jt: Item, l: text)
    requires Framed(obj, it) && Framed(obj, jt) && Legal(it.value) && Legal(jt.value)
    requires Stops(k) && Stops(l) && Solid(k) && Solid(l) && ShowItem(it, k) == ShowItem(jt, l)
    ensures k == l && KeyOf(it) == KeyOf(jt) && Tree(it.value) == Tree(jt.value)
    decreases it, 0
  {
    StopsAfter(it.after, k);
    StopsAfter(jt.after, l);
    var (v, w) := (Show(it.value, it.after + k), Show(jt.value, jt.after + l));
    ShowStarts(it.value, it.after + k);
    ShowStarts(jt.value, jt.after + l);
    hide Show, Legal;
    if obj {
      KeysThen(it.key.value, v, jt.key.value, w);
    }
    Unambiguous(it.value, it.after + k, jt.value, jt.after + l);
    BlanksThen(it.after, k, jt.after, l);
  }

  lemma KeysThen(g: Key, x: text, h: Key, y: text)
    requires LegalPieces(g.pieces) && LegalPieces(h.pieces) && Solid(x) && Solid(y)
    requires Blank(g.after) && Blank(g.before) && Blank(h.after) && Blank(h.before)
    requires ShowKey(Some(g), x) == ShowKey(Some(h), y)
    ensures Meaning(g.pieces) == Meaning(h.pieces) && x == y
  {
    var (a, b) := ([COLON] + (g.before + x), [COLON] + (h.before + y));
    Cancel([QUOTE], ShowPieces(g.pieces, g.after + a), [QUOTE], ShowPieces(h.pieces, h.after + b));
    StringsThen(g.pieces, g.after + a, h.pieces, h.after + b);
    BlanksThen(g.after, a, h.after, b);
    Cancel([COLON], g.before + x, [COLON], h.before + y);
    BlanksThen(g.before, x, h.before, y);
  }
}
