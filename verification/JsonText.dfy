/** `losslessParse` (src/cli.ts): a recursive-descent JSON reader that keeps
    every number as its source literal. Text is a sequence of UTF-16 units. */
module JsonText {
  import opened Optional
  import opened Sorting

  /** Members stand in order of first assignment. JavaScript lists integer-like
      keys first; nothing here depends on the order, since the printer sorts. */
  datatype Json =
    | Null
    | Bool(b: bool)
    | Str(s: text)
    | Num(lit: text)
    | Arr(items: seq<Json>)
    | Obj(members: seq<Member>)

  datatype Member = Member(key: text, value: Json)

  /** `o[key] = value`. */
  function Put(ms: seq<Member>, key: text, value: Json): seq<Member> {
    if ms == [] then [Member(key, value)]
    else if ms[0].key == key then [Member(key, value)] + ms[1..]
    else [ms[0]] + Put(ms[1..], key, value)
  }

  function Keys(ms: seq<Member>): (r: seq<text>)
    ensures |r| == |ms| && forall i :: 0 <= i < |ms| ==> r[i] == ms[i].key
  {
    if ms == [] then [] else [ms[0].key] + Keys(ms[1..])
  }

  /** `o[key]`. */
  function Get(ms: seq<Member>, key: text): Json {
    if ms == [] then Null else if ms[0].key == key then ms[0].value else Get(ms[1..], key)
  }

  const QUOTE: unit16 := 34
  const COMMA: unit16 := 44
  const COLON: unit16 := 58
  const BACKSLASH: unit16 := 92
  const LETTER_U: unit16 := 117
  const NULL: text := [110, 117, 108, 108]
  const TRUE: text := [116, 114, 117, 101]
  const FALSE: text := [102, 97, 108, 115, 101]

  function Open(obj: bool): unit16 { if obj then 123 else 91 }

  function Close(obj: bool): unit16 { if obj then 125 else 93 }

  predicate Space(c: unit16) { c == 32 || c == 9 || c == 10 || c == 13 }

  predicate Blank(w: text) { forall c <- w :: Space(c) }

  predicate NumChar(c: unit16) { 48 <= c <= 57 || c == 43 || c == 45 || c == 46 || c == 101 || c == 69 }

  predicate HexDigit(c: unit16) { 48 <= c <= 57 || 65 <= c <= 70 || 97 <= c <= 102 }

  function Digit(c: unit16): (d: nat)
    requires HexDigit(c)
    ensures d < 16
  {
    if c <= 57 then c - 48 else if c <= 70 then c - 55 else c - 87
  }

  function FourHex(d: text): unit16
    requires |d| == 4 && forall c <- d :: HexDigit(c)
  {
    ((Digit(d[0]) * 16 + Digit(d[1])) * 16 + Digit(d[2])) * 16 + Digit(d[3])
  }

  /** The unit a short escape stands for; an unknown one stands for itself. */
  function Unescaped(e: unit16): unit16 {
    match e
    case 98 => 8
    case 102 => 12
    case 110 => 10
    case 114 => 13
    case 116 => 9
    case _ => e
  }

  // ---- Concrete syntax: every way to write a tree down ----

  datatype Piece = Raw(c: unit16) | Short(e: unit16) | Hex(digits: text)

  datatype Key = Key(pieces: seq<Piece>, after: text, before: text)

  /** `lead` and `after` are the blanks around an element; a member has a key,
      blanks around whose colon are its own. */
  datatype Item = Item(lead: text, key: Option<Key>, value: Cst, after: text)

  datatype Cst =
    | CNull
    | CBool(b: bool)
    | CStr(pieces: seq<Piece>)
    | CNum(lit: text)
    | CBox(obj: bool, pad: text, items: seq<Item>)

  predicate LegalPiece(p: Piece) {
    match p
    case Raw(c) => c != QUOTE && c != BACKSLASH
    case Short(e) => e != LETTER_U
    case Hex(d) => |d| == 4 && forall c <- d :: HexDigit(c)
  }

  predicate LegalPieces(ps: seq<Piece>) {
    ps == [] || (LegalPiece(ps[0]) && LegalPieces(ps[1..]))
  }

  function Unit(p: Piece): unit16 {
    match p
    case Raw(c) => c
    case Short(e) => Unescaped(e)
    case Hex(d) => if LegalPiece(p) then FourHex(d) else 0
  }

  function Meaning(ps: seq<Piece>): text {
    if ps == [] then [] else [Unit(ps[0])] + Meaning(ps[1..])
  }

  const NUM_KEY: text := [95, 95, 110, 117, 109]
  const PROTO_KEY: text := [95, 95, 112, 114, 111, 116, 111, 95, 95]

  /** Keys that JavaScript objects treat like any other, and that are not the
      mark of a number node. */
  predicate PlainKey(key: text) { key != NUM_KEY && key != PROTO_KEY }

  predicate Literal(lit: text) { lit != [] && forall c <- lit :: NumChar(c) }

  predicate Legal(c: Cst)
    decreases c
  {
    match c
    case CStr(ps) => LegalPieces(ps)
    case CNum(lit) => Literal(lit)
    case CBox(obj, pad, items) => Blank(pad) && LegalItems(obj, items)
    case _ => true
  }

  predicate LegalItems(obj: bool, items: seq<Item>)
    decreases items
  {
    items == [] || (Framed(obj, items[0]) && Legal(items[0].value) && LegalItems(obj, items[1..]))
  }

  /** Everything about an element but its value. */
  predicate Framed(obj: bool, it: Item) {
    && Blank(it.lead) && Blank(it.after) && obj == it.key.Some?
    && (it.key.Some? ==> Blank(it.key.value.after) && Blank(it.key.value.before)
                         && LegalPieces(it.key.value.pieces) && PlainKey(Meaning(it.key.value.pieces)))
  }

  // Each `Show` writes its argument in front of the text `k` that follows.

  function ShowPiece(p: Piece): text {
    match p
    case Raw(c) => [c]
    case Short(e) => [BACKSLASH, e]
    case Hex(d) => [BACKSLASH, LETTER_U] + d
  }

  function ShowPieces(ps: seq<Piece>, k: text): text {
    if ps == [] then [QUOTE] + k else ShowPiece(ps[0]) + ShowPieces(ps[1..], k)
  }

  function ShowKey(key: Option<Key>, k: text): text {
    if key.None? then k
    else [QUOTE] + ShowPieces(key.value.pieces, key.value.after + ([COLON] + (key.value.before + k)))
  }

  function Show(c: Cst, k: text): text
    decreases c
  {
    match c
    case CNull => NULL + k
    case CBool(b) => (if b then TRUE else FALSE) + k
    case CStr(ps) => [QUOTE] + ShowPieces(ps, k)
    case CNum(lit) => lit + k
    case CBox(obj, pad, items) =>
      [Open(obj)] + if items == [] then pad + ([Close(obj)] + k) else items[0].lead + ShowItems(obj, items, k)
  }

  /** From the first element's blank on, which is left out. */
  function ShowItems(obj: bool, items: seq<Item>, k: text): text
    requires items != []
    decreases items, 1
  {
    ShowItem(items[0], ShowMore(obj, items[1..], k))
  }

  function ShowItem(it: Item, k: text): text
    decreases it
  {
    ShowKey(it.key, Show(it.value, it.after + k))
  }

  function ShowMore(obj: bool, items: seq<Item>, k: text): text
    decreases items, 2
  {
    if items == [] then [Close(obj)] + k else [COMMA] + (items[0].lead + ShowItems(obj, items, k))
  }

  /** The tree a text stands for: of several members with one key the last. */
  function Tree(c: Cst): Json
    decreases c
  {
    match c
    case CNull => Null
    case CBool(b) => Bool(b)
    case CStr(ps) => Str(Meaning(ps))
    case CNum(lit) => Num(lit)
    case CBox(obj, _, items) => if obj then Obj(Fields([], items)) else Arr(Values(items))
  }

  function KeyOf(it: Item): text { if it.key.Some? then Meaning(it.key.value.pieces) else [] }

  function Fields(ms: seq<Member>, items: seq<Item>): seq<Member>
    decreases items
  {
    if items == [] then ms
    else Fields(Put(ms, KeyOf(items[0]), Tree(items[0].value)), items[1..])
  }

  function Values(items: seq<Item>): seq<Json>
    decreases items
  {
    if items == [] then [] else [Tree(items[0].value)] + Values(items[1..])
  }

  /** What follows a value cannot be taken for more of a number. */
  predicate Stops(k: text) { k == [] || !NumChar(k[0]) }

  predicate Solid(k: text) { k == [] || !Space(k[0]) }

  /** The unit by which the reader tells values apart. */
  function Mark(c: Cst): unit16
    requires Legal(c)
  {
    match c
    case CNull => NULL[0]
    case CBool(b) => if b then TRUE[0] else FALSE[0]
    case CStr(_) => QUOTE
    case CNum(lit) => lit[0]
    case CBox(obj, _, _) => Open(obj)
  }

  lemma ShowStarts(c: Cst, k: text)
    requires Legal(c)
    ensures Show(c, k) != [] && Show(c, k)[0] == Mark(c) && (c.CNum? ==> NumChar(Mark(c)))
    ensures Solid(Show(c, k)) && !(Mark(c) in [Close(true), Close(false)])
  {
    if c.CNum? {
      assert c.lit[0] in c.lit;
    }
  }

  lemma ItemSolid(obj: bool, it: Item, k: text)
    requires Framed(obj, it) && Legal(it.value)
    ensures Solid(ShowItem(it, k)) && ShowItem(it, k) != [] && ShowItem(it, k)[0] != Close(obj)
  {
    ShowStarts(it.value, it.after + k);
    hide Legal, Show;
  }

  // ---- The reader ----

  predicate Stands(source: text, i: nat, k: text) { i <= |source| && source[i..] == k }

  /** Reading `a` takes the cursor from `a + k` to `k`. */
  lemma Reads(source: text, i: nat, a: text, k: text)
    requires Stands(source, i, a + k)
    ensures i + |a| <= |source| && Stands(source, i + |a|, k) && source[i..i + |a|] == a
    ensures forall j :: 0 <= j < |a| ==> source[i + j] == a[j]
  {
    var rest := source[i..];
    assert rest[|a|..] == k && rest[..|a|] == a;
    assert forall j :: 0 <= j < |a| ==> source[i + j] == rest[j];
  }

  lemma EndsAtQuote(ps: seq<Piece>, k: text)
    requires LegalPieces(ps)
    ensures ShowPieces(ps, k) != [] && (ShowPieces(ps, k)[0] == QUOTE <==> ps == [])
  {
  }

  lemma First(source: text, i: nat, k: text)
    requires Stands(source, i, k)
    ensures i < |source| <==> k != []
    ensures k != [] ==> source[i] == k[0]
  {
  }

  class LosslessParser {
    const source: text
    var i: nat

    constructor (source: text)
      ensures this.source == source && At(source) && i == 0
    {
      this.source, i := source, 0;
    }

    /** The cursor stands before `k`. */
    predicate At(k: text)
      reads this
    {
      Stands(source, i, k)
    }

    method SkipSpace(ghost w: text, ghost k: text)
      requires At(w + k) && Blank(w) && Solid(k)
      modifies this
      ensures At(k)
    {
      ghost var j := 0;
      assert w[0..] == w;
      First(source, i, w + k);
      while i < |source| && Space(source[i])
        invariant 0 <= j <= |w| && At(w[j..] + k)
        invariant i < |source| ==> source[i] == (w[j..] + k)[0]
        invariant j < |w| ==> i < |source| && Space(source[i])
        decreases |source| - i
      {
        assert j < |w|;
        assert w[j..] + k == [w[j]] + (w[j + 1..] + k);
        Reads(source, i, [w[j]], w[j + 1..] + k);
        i, j := i + 1, j + 1;
        First(source, i, w[j..] + k);
      }
      assert w[j..] + k == k;
    }

    /** One unit of a string: the body of the string loop. */
    method ParseUnit(ghost p: Piece, ghost k: text) returns (c: unit16)
      requires At(ShowPiece(p) + k) && LegalPiece(p)
      modifies this
      ensures At(k) && c == Unit(p)
    {
      hide FourHex, Unescaped;
      Reads(source, i, ShowPiece(p), k);
      c := source[i];
      if c == BACKSLASH {
        i := i + 1;
        var e := source[i];
        assert e == ShowPiece(p)[1];
        if e == LETTER_U {
          assert source[i + 1..i + 5] == p.digits;
          c := FourHex(source[i + 1..i + 5]);
          i := i + 5;
        } else {
          c := Unescaped(e);
          i := i + 1;
        }
      } else {
        i := i + 1;
      }
    }

    method ParseStr(ghost ps: seq<Piece>, ghost k: text) returns (s: text)
      requires At([QUOTE] + ShowPieces(ps, k)) && LegalPieces(ps)
      modifies this
      ensures s == Meaning(ps) && At(k)
    {
      hide Unit, Stands, ShowPiece, LegalPiece;
      Reads(source, i, [QUOTE], ShowPieces(ps, k));
      i := i + 1;
      s := [];
      ghost var rest := ps;
      First(source, i, ShowPieces(rest, k));
      EndsAtQuote(rest, k);
      while source[i] != QUOTE
        invariant At(ShowPieces(rest, k)) && LegalPieces(rest) && s + Meaning(rest) == Meaning(ps)
        invariant i < |source| && (source[i] == QUOTE <==> rest == [])
        decreases |rest|
      {
        var c := ParseUnit(rest[0], ShowPieces(rest[1..], k));
        assert Meaning(rest) == [c] + Meaning(rest[1..]);
        s := s + [c];
        rest := rest[1..];
        First(source, i, ShowPieces(rest, k));
        EndsAtQuote(rest, k);
      }
      Reads(source, i, [QUOTE], k);
      i := i + 1;
    }

    method ParseNum(ghost lit: text, ghost k: text) returns (v: Json)
      requires At(lit + k) && Literal(lit) && Stops(k)
      modifies this
      ensures v == Num(lit) && At(k)
    {
      Reads(source, i, lit, k);
      First(source, i + |lit|, k);
      var start := i;
      while i < |source| && NumChar(source[i])
        invariant start <= i <= start + |lit|
        invariant i < start + |lit| ==> i < |source| && NumChar(source[i])
      {
        i := i + 1;
        assert i < start + |lit| ==> source[i] == lit[i - start] && lit[i - start] in lit;
      }
      v := Num(source[start..i]);
    }

    method ParseMember(ghost lead: text, ghost it: Item, ghost k: text) returns (key: text, val: Json)
      requires At(lead + ShowItem(it, k)) && Blank(lead) && Framed(true, it) && Legal(it.value) && Stops(k) && Solid(k)
      modifies this
      ensures key == KeyOf(it) && val == Tree(it.value) && At(k)
      decreases it
    {
      hide Legal, Show, ShowPieces, Tree, Meaning, LegalPieces;
      ghost var h := it.key.value;
      ghost var value := Show(it.value, it.after + k);
      SkipSpace(lead, ShowItem(it, k));
      key := ParseStr(h.pieces, h.after + ([COLON] + (h.before + value)));
      SkipSpace(h.after, [COLON] + (h.before + value));
      Reads(source, i, [COLON], h.before + value);
      i := i + 1;
      StopsAfter(it.after, k);
      val := ParseVal(h.before, it.value, it.after + k);
      SkipSpace(it.after, k);
    }

    /** What follows an element: a comma and the next one, or the end. */
    method EndElement(obj: bool, ghost tail: seq<Item>, ghost k: text) returns (more: bool)
      requires At(ShowMore(obj, tail, k)) && LegalItems(obj, tail)
      modifies this
      ensures more <==> tail != []
      ensures more ==> Blank(tail[0].lead) && At(tail[0].lead + ShowItems(obj, tail, k))
      ensures !more ==> At(k)
    {
      MoreStarts(obj, tail, k);
      hide ShowItems, ShowMore, LegalItems, Blank, Stands;
      First(source, i, ShowMore(obj, tail, k));
      more := source[i] == COMMA;
      if more {
        Reads(source, i, [COMMA], tail[0].lead + ShowItems(obj, tail, k));
      } else {
        Reads(source, i, [Close(obj)], k);
      }
      i := i + 1;
    }

    method NextMember(ghost lead: text, ghost items: seq<Item>, ghost n: nat, ghost k: text)
      returns (key: text, val: Json, more: bool)
      requires n < |items| && LegalItems(true, items[n..])
      requires At(lead + ShowItems(true, items[n..], k)) && Blank(lead)
      modifies this
      ensures key == KeyOf(items[n]) && val == Tree(items[n].value) && (more <==> n + 1 < |items|)
      ensures more ==> Blank(items[n + 1].lead) && At(items[n + 1].lead + ShowItems(true, items[n + 1..], k))
      ensures !more ==> At(k)
      decreases items, 0
    {
      hide ShowItem, ShowItems, ShowMore, Legal, LegalItems, Tree, Stands, Solid, Stops, Framed, Blank, KeyOf;
      OneMore(true, items, n, k);
      MoreStarts(true, items[n + 1..], k);
      key, val := ParseMember(lead, items[n], ShowMore(true, items[n + 1..], k));
      more := EndElement(true, items[n + 1..], k);
    }

    method NextElement(ghost lead: text, ghost items: seq<Item>, ghost n: nat, ghost k: text)
      returns (val: Json, more: bool)
      requires n < |items| && LegalItems(false, items[n..])
      requires At(lead + ShowItems(false, items[n..], k)) && Blank(lead)
      modifies this
      ensures val == Tree(items[n].value) && (more <==> n + 1 < |items|)
      ensures more ==> Blank(items[n + 1].lead) && At(items[n + 1].lead + ShowItems(false, items[n + 1..], k))
      ensures !more ==> At(k)
      decreases items, 0
    {
      hide ShowItem, Show, ShowItems, ShowMore, Legal, LegalItems, Tree, Stands, Solid, Stops, Framed, Blank;
      ghost var rest := ShowMore(false, items[n + 1..], k);
      OneMore(false, items, n, k);
      MoreStarts(false, items[n + 1..], k);
      StopsAfter(items[n].after, rest);
      val := ParseVal(lead, items[n].value, items[n].after + rest);
      SkipSpace(items[n].after, rest);
      more := EndElement(false, items[n + 1..], k);
    }

    /** The member loop, up to and including the closing brace. */
    method ParseMembers(ghost items: seq<Item>, ghost k: text) returns (o: seq<Member>)
      requires items != [] && At(ShowItems(true, items, k)) && LegalItems(true, items)
      modifies this
      ensures o == Fields([], items) && At(k)
      decreases items, 1
    {
      hide ShowItems, LegalItems, Fields, Stands, Blank, Legal, Framed, Put, ShowItem, ShowMore, Tree, KeyOf;
      o := [];
      ghost var n := 0;
      NoBlank();
      assert items[0..] == items && [] + ShowItems(true, items, k) == ShowItems(true, items, k);
      ghost var lead := [];
      var more := true;
      while more
        invariant n <= |items| && LegalItems(true, items[n..]) && Fields(o, items[n..]) == Fields([], items)
        invariant more ==> n < |items| && Blank(lead) && At(lead + ShowItems(true, items[n..], k))
        invariant !more ==> n == |items| && At(k)
        decreases |items| - n
      {
        var key, val;
        key, val, more := NextMember(lead, items, n, k);
        OneMore(true, items, n, k);
        FieldsStep(o, items, n);
        o := Put(o, key, val);
        n := n + 1;
        lead := if more then items[n].lead else [];
      }
      assert items[n..] == [];
      FieldsNone(o);
    }

    /** The element loop, up to and including the closing bracket. */
    method ParseElements(ghost items: seq<Item>, ghost k: text) returns (a: seq<Json>)
      requires items != [] && At(ShowItems(false, items, k)) && LegalItems(false, items)
      modifies this
      ensures a == Values(items) && At(k)
      decreases items, 1
    {
      hide ShowItems, LegalItems, Values, Stands, Blank, Legal, Framed, ShowItem, ShowMore, Tree, Show;
      a := [];
      ghost var n := 0;
      NoBlank();
      assert items[0..] == items && [] + ShowItems(false, items, k) == ShowItems(false, items, k);
      ghost var lead := [];
      var more := true;
      while more
        invariant n <= |items| && LegalItems(false, items[n..]) && a + Values(items[n..]) == Values(items)
        invariant more ==> n < |items| && Blank(lead) && At(lead + ShowItems(false, items[n..], k))
        invariant !more ==> n == |items| && At(k)
        decreases |items| - n
      {
        var val;
        val, more := NextElement(lead, items, n, k);
        OneMore(false, items, n, k);
        ValuesStep(items, n);
        Regroup(a, val, Values(items[n + 1..]));
        a := a + [val];
        n := n + 1;
        lead := if more then items[n].lead else [];
      }
      assert items[n..] == [];
      ValuesNone();
      assert a + [] == a;
    }

    method ParseObject(ghost pad: text, ghost items: seq<Item>, ghost k: text) returns (v: Json)
      requires At([Open(true)] + Inside(true, pad, items, k))
      requires Blank(FirstBlank(pad, items)) && LegalItems(true, items)
      modifies this
      ensures v == Obj(Fields([], items)) && At(k)
      decreases items, 2
    {
      AfterBlankStarts(true, items, k);
      FieldsNone([]);
      hide ShowItems, LegalItems, Fields, Stands, Solid, Blank;
      Reads(source, i, [Open(true)], Inside(true, pad, items, k));
      i := i + 1;
      SkipSpace(FirstBlank(pad, items), AfterBlank(true, items, k));
      First(source, i, AfterBlank(true, items, k));
      if source[i] == Close(true) {
        Reads(source, i, [Close(true)], k);
        i := i + 1;
        return Obj([]);
      }
      var o := ParseMembers(items, k);
      v := Obj(o);
    }

    method ParseArray(ghost pad: text, ghost items: seq<Item>, ghost k: text) returns (v: Json)
      requires At([Open(false)] + Inside(false, pad, items, k))
      requires Blank(FirstBlank(pad, items)) && LegalItems(false, items)
      modifies this
      ensures v == Arr(Values(items)) && At(k)
      decreases items, 2
    {
      AfterBlankStarts(false, items, k);
      ValuesNone();
      hide ShowItems, LegalItems, Values, Stands, Solid, Blank;
      Reads(source, i, [Open(false)], Inside(false, pad, items, k));
      i := i + 1;
      SkipSpace(FirstBlank(pad, items), AfterBlank(false, items, k));
      First(source, i, AfterBlank(false, items, k));
      if source[i] == Close(false) {
        Reads(source, i, [Close(false)], k);
        i := i + 1;
        return Arr([]);
      }
      var a := ParseElements(items, k);
      v := Arr(a);
    }

    /** Reads whatever tree the text ahead stands for, and stops right after. */
    method ParseVal(ghost w: text, ghost c: Cst, ghost k: text) returns (v: Json)
      requires At(w + Show(c, k)) && Blank(w) && Legal(c) && Stops(k)
      modifies this
      ensures v == Tree(c) && At(k)
      decreases c
    {
      ShowStarts(c, k);
      SkipSpace(w, Show(c, k));
      First(source, i, Show(c, k));
      hide Stands, ShowPieces, Meaning, LegalItems, LegalPieces;
      var first := source[i];
      if first == Open(true) {
        v := ParseObject(c.pad, c.items, k);
      } else if first == Open(false) {
        v := ParseArray(c.pad, c.items, k);
      } else if first == QUOTE {
        var s := ParseStr(c.pieces, k);
        v := Str(s);
      } else if first == TRUE[0] {
        Reads(source, i, TRUE, k);
        i := i + 4;
        v := Bool(true);
      } else if first == FALSE[0] {
        Reads(source, i, FALSE, k);
        i := i + 5;
        v := Bool(false);
      } else if first == NULL[0] {
        Reads(source, i, NULL, k);
        i := i + 4;
        v := Null;
      } else {
        v := ParseNum(c.lit, k);
      }
    }
  }

  // ---- The alphabet, as characters ----

  predicate Spells(t: text, s: string) { |t| == |s| && forall i :: 0 <= i < |t| ==> t[i] == s[i] as int }

  lemma Words()
    ensures Spells(NULL, "null") && Spells(TRUE, "true") && Spells(FALSE, "false")
    ensures Spells(NUM_KEY, "__num") && Spells(PROTO_KEY, "__proto__")
    ensures forall key :: PlainKey(key) <==> !(Spells(key, "__num") || Spells(key, "__proto__"))
    ensures Spells([Open(true), Close(true), Open(false), Close(false)], "{}[]")
    ensures Spells([QUOTE, COMMA, COLON, BACKSLASH, LETTER_U], "\",:\\u")
  {
    assert "null" == ['n', 'u', 'l', 'l'] && "true" == ['t', 'r', 'u', 'e'] && "false" == ['f', 'a', 'l', 's', 'e'];
    assert "__num" == ['_', '_', 'n', 'u', 'm'] && "{}[]" == ['{', '}', '[', ']'];
    assert "__proto__" == ['_', '_', 'p', 'r', 'o', 't', 'o', '_', '_'];
    assert "\",:\\u" == ['\"', ',', ':', '\\', 'u'];
    forall key ensures Spells(key, "__num") ==> key == NUM_KEY {
    }
    forall key ensures Spells(key, "__proto__") ==> key == PROTO_KEY {
    }
  }

  /** Blanks, the characters of numbers, the digits of either case, and the short
      escapes: those of JSON, and any other character for itself. */
  lemma Letters(u: unit16, c: char)
    requires u < 128 ==> c as int == u
    ensures Space(u) <==> u < 128 && c in " \t\n\r"
    ensures NumChar(u) <==> u < 128 && c in "0123456789+-.eE"
    ensures HexDigit(u) <==> u < 128 && (c in "0123456789abcdef" || c in "0123456789ABCDEF")
    ensures HexDigit(u) ==> c in ["0123456789abcdef"[Digit(u)], "0123456789ABCDEF"[Digit(u)]]
    ensures Unescaped(u) == if u >= 128 then u
                            else match c
                              case 'b' => 8
                              case 'f' => 12
                              case 'n' => '\n' as int
                              case 'r' => '\r' as int
                              case 't' => '\t' as int
                              case _ => u
  {
  }

  // ---- What an object holds ----

  lemma {:induction false} PutMeans(ms: seq<Member>, key: text, value: Json, k: text)
    ensures Keys(Put(ms, key, value)) == if key in Keys(ms) then Keys(ms) else Keys(ms) + [key]
    ensures Get(Put(ms, key, value), k) == if k == key then value else Get(ms, k)
    decreases |ms|
  {
    if ms != [] {
      var tail := ms[1..];
      assert ms == [ms[0]] + tail && Keys(ms) == [ms[0].key] + Keys(tail);
      if ms[0].key == key {
        assert ([Member(key, value)] + tail)[1..] == tail;
      } else {
        PutMeans(tail, key, value, k);
        assert ([ms[0]] + Put(tail, key, value))[1..] == Put(tail, key, value);
      }
    }
  }

  /** Item `j` is the last one with key `k`. */
  predicate LastOf(items: seq<Item>, k: text, j: int) {
    0 <= j < |items| && KeyOf(items[j]) == k && forall i :: j < i < |items| ==> KeyOf(items[i]) != k
  }

  predicate Mentions(items: seq<Item>, k: text) {
    exists j :: 0 <= j < |items| && KeyOf(items[j]) == k
  }

  lemma MentionsCons(items: seq<Item>, k: text)
    requires items != []
    ensures Mentions(items, k) <==> KeyOf(items[0]) == k || Mentions(items[1..], k)
  {
    if Mentions(items[1..], k) {
      var j :| 0 <= j < |items| - 1 && KeyOf(items[1..][j]) == k;
      assert items[j + 1] == items[1..][j];
    }
    if Mentions(items, k) && KeyOf(items[0]) != k {
      var j :| 0 <= j < |items| && KeyOf(items[j]) == k;
      assert items[1..][j - 1] == items[j];
    }
  }

  lemma LastOfTail(items: seq<Item>, k: text, j: int)
    requires LastOf(items, k, j)
    ensures j == 0 ==> KeyOf(items[0]) == k && !Mentions(items[1..], k)
    ensures j > 0 ==> LastOf(items[1..], k, j - 1) && items[1..][j - 1] == items[j]
  {
    var tail := items[1..];
    assert forall i :: 0 <= i < |tail| ==> tail[i] == items[i + 1];
  }

  /** Of several members with one key the last one counts; the keys are those
      mentioned. */
  lemma {:induction false} LastWins(ms: seq<Member>, items: seq<Item>, k: text, j: int)
    ensures k in Keys(Fields(ms, items)) <==> k in Keys(ms) || Mentions(items, k)
    ensures LastOf(items, k, j) ==> Get(Fields(ms, items), k) == Tree(items[j].value)
    ensures !Mentions(items, k) ==> Get(Fields(ms, items), k) == Get(ms, k)
    decreases |items|
  {
    if items != [] {
      var (key, v, tail) := (KeyOf(items[0]), Tree(items[0].value), items[1..]);
      PutMeans(ms, key, v, k);
      MentionsCons(items, k);
      if LastOf(items, k, j) {
        LastOfTail(items, k, j);
        assert j >= 0;
      }
      hide Tree, Put, Keys, Get, KeyOf, Mentions, LastOf;
      LastWins(Put(ms, key, v), tail, k, j - 1);
    }
  }

  /** What an object of the parsed text holds. */
  ghost predicate Holds(v: Json, items: seq<Item>) {
    && v.Obj? && (forall key :: key in Keys(v.members) <==> Mentions(items, key))
    && forall key, j :: LastOf(items, key, j) ==> Get(v.members, key) == Tree(items[j].value)
  }

  lemma TreeHolds(c: Cst)
    requires c.CBox? && c.obj
    ensures Holds(Tree(c), c.items)
  {
    forall key, j
      ensures key in Keys(Tree(c).members) <==> Mentions(c.items, key)
      ensures LastOf(c.items, key, j) ==> Get(Tree(c).members, key) == Tree(c.items[j].value) {
      LastWins([], c.items, key, j);
    }
  }

  /** `losslessParse(text)`: blanks may come first and last. An object holds, for
      every key the text mentions, what its last mention says. */
  method LosslessParse(source: text, ghost w: text, ghost c: Cst, ghost k: text) returns (v: Json)
    requires source == w + Show(c, k) && Blank(w) && Legal(c) && Blank(k)
    ensures v == Tree(c)
    ensures c.CBox? && c.obj ==> Holds(v, c.items)
  {
    StopsAfter(k, []);
    assert k + [] == k;
    if c.CBox? && c.obj {
      TreeHolds(c);
    }
    hide Holds;
    var parser := new LosslessParser(source);
    v := parser.ParseVal(w, c, k);
  }

  // ---- Small steps for the reader ----

  lemma Regroup(a: seq<Json>, v: Json, rest: seq<Json>)
    ensures a + ([v] + rest) == a + [v] + rest
  {
  }

  lemma FieldsNone(ms: seq<Member>)
    ensures Fields(ms, []) == ms
  {
  }

  lemma ValuesNone()
    ensures Values([]) == []
  {
  }

  lemma NoBlank()
    ensures Blank([])
  {
  }

  function FirstBlank(pad: text, items: seq<Item>): text { if items == [] then pad else items[0].lead }

  function AfterBlank(obj: bool, items: seq<Item>, k: text): text {
    if items == [] then [Close(obj)] + k else ShowItems(obj, items, k)
  }

  function Inside(obj: bool, pad: text, items: seq<Item>, k: text): text {
    FirstBlank(pad, items) + AfterBlank(obj, items, k)
  }

  lemma AfterBlankStarts(obj: bool, items: seq<Item>, k: text)
    requires LegalItems(obj, items)
    ensures Solid(AfterBlank(obj, items, k)) && AfterBlank(obj, items, k) != []
    ensures AfterBlank(obj, items, k)[0] == Close(obj) <==> items == []
  {
    if items != [] {
      ItemSolid(obj, items[0], ShowMore(obj, items[1..], k));
    }
  }

  lemma StopsAfter(w: text, k: text)
    requires Blank(w) && Stops(k)
    ensures Stops(w + k)
  {
    if w != [] {
      assert w[0] in w;
    }
  }

  /** Element `n` and what follows it. */
  lemma OneMore(obj: bool, items: seq<Item>, n: nat, k: text)
    requires n < |items| && LegalItems(obj, items[n..])
    ensures Framed(obj, items[n]) && Blank(items[n].after) && Legal(items[n].value) && LegalItems(obj, items[n + 1..])
    ensures ShowItems(obj, items[n..], k) == ShowItem(items[n], ShowMore(obj, items[n + 1..], k))
    ensures !obj ==> ShowItem(items[n], ShowMore(obj, items[n + 1..], k)) ==
                     Show(items[n].value, items[n].after + ShowMore(obj, items[n + 1..], k))
  {
    assert items[n..][0] == items[n] && items[n..][1..] == items[n + 1..];
  }

  lemma FieldsStep(ms: seq<Member>, items: seq<Item>, n: nat)
    requires n < |items|
    ensures Fields(ms, items[n..]) == Fields(Put(ms, KeyOf(items[n]), Tree(items[n].value)), items[n + 1..])
  {
    assert items[n..][0] == items[n] && items[n..][1..] == items[n + 1..];
  }

  lemma ValuesStep(items: seq<Item>, n: nat)
    requires n < |items|
    ensures Values(items[n..]) == [Tree(items[n].value)] + Values(items[n + 1..])
  {
    assert items[n..][0] == items[n] && items[n..][1..] == items[n + 1..];
  }

  lemma MoreStarts(obj: bool, items: seq<Item>, k: text)
    requires LegalItems(obj, items)
    ensures ShowMore(obj, items, k) == if items == [] then [Close(obj)] + k
                                       else [COMMA] + (items[0].lead + ShowItems(obj, items, k))
    ensures Stops(ShowMore(obj, items, k)) && Solid(ShowMore(obj, items, k))
    ensures items != [] ==> Blank(items[0].lead)
  {
  }
}
