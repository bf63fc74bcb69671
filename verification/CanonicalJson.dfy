/** `canonicalJson` (src/cli.ts): JSON with sorted keys, no blanks, and numbers
    as their source literals; and how it and `losslessParse` undo each other. */
module CanonicalJson {
  import opened Sorting
  import opened JsonText

  // ---- JSON.stringify of a string ----

  predicate High(c: unit16) { 0xD800 <= c <= 0xDBFF }

  predicate Low(c: unit16) { 0xDC00 <= c <= 0xDFFF }

  function HexLower(n: nat): unit16
    requires n < 16
  {
    if n < 10 then 48 + n else 87 + n
  }

  function Digits(c: unit16): text {
    [HexLower(c / 4096), HexLower(c / 256 % 16), HexLower(c / 16 % 16), HexLower(c % 16)]
  }

  function Escape(c: unit16): Piece {
    if c == QUOTE || c == BACKSLASH then Short(c)
    else if c == 8 then Short(98)
    else if c == 9 then Short(116)
    else if c == 10 then Short(110)
    else if c == 12 then Short(102)
    else if c == 13 then Short(114)
    else if c < 32 then Hex(Digits(c))
    else Raw(c)
  }

  /** Surrogates stay as they are in pairs and are escaped alone. */
  function Escapes(s: text): seq<Piece> {
    if s == [] then []
    else if High(s[0]) && |s| > 1 && Low(s[1]) then [Raw(s[0]), Raw(s[1])] + Escapes(s[2..])
    else if High(s[0]) || Low(s[0]) then [Hex(Digits(s[0]))] + Escapes(s[1..])
    else [Escape(s[0])] + Escapes(s[1..])
  }

  function Stringify(s: text): text { [QUOTE] + ShowPieces(Escapes(s), []) }

  /** What one unit is printed as, as JSON.stringify does it. */
  lemma EscapeExactly(c: unit16)
    ensures ShowPiece(Escape(c)) ==
            if c == '"' as int || c == '\\' as int then [92, c]
            else if c == 8 then [92, 'b' as int]
            else if c == '\t' as int then [92, 't' as int]
            else if c == '\n' as int then [92, 'n' as int]
            else if c == 12 then [92, 'f' as int]
            else if c == '\r' as int then [92, 'r' as int]
            else if c < ' ' as int then [92, 'u' as int] + Digits(c)
            else [c]
  {
  }

  lemma HexLowerExactly(n: nat)
    requires n < 16
    ensures HexLower(n) == "0123456789abcdef"[n] as int
  {
  }

  /** Unit `i` is half of a pair: a high surrogate right before a low one. */
  predicate InPair(s: text, i: nat)
    requires i < |s|
  {
    || (0xD800 <= s[i] < 0xDC00 && i + 1 < |s| && 0xDC00 <= s[i + 1] < 0xE000)
    || (0xDC00 <= s[i] < 0xE000 && i > 0 && 0xD800 <= s[i - 1] < 0xDC00)
  }

  /** Unit by unit: a lone surrogate is printed in hexadecimal, everything else
      by itself, wherever the pairs begin. */
  lemma {:induction false} EscapesExactly(s: text, i: nat)
    requires i < |s|
    ensures |Escapes(s)| == |s|
    ensures Escapes(s)[i] == if 0xD800 <= s[i] < 0xE000 && !InPair(s, i) then Hex(Digits(s[i])) else Escape(s[i])
    decreases |s|
  {
    hide Digits;
    var n := if High(s[0]) && |s| > 1 && Low(s[1]) then 2 else 1;
    if |s| > n {
      EscapesExactly(s[n..], if i < n then 0 else i - n);
    }
  }

  // ---- canonicalJson ----

  datatype Printed = Printed(key: text, value: text)

  function Join(ls: seq<text>): text {
    if ls == [] then [] else ls[0] + if |ls| == 1 then [] else [COMMA] + Join(ls[1..])
  }

  function Lookup(ps: seq<Printed>, key: text): text {
    if ps == [] then [] else if ps[0].key == key then ps[0].value else Lookup(ps[1..], key)
  }

  function Lines(keys: seq<text>, ps: seq<Printed>): seq<text> {
    if keys == [] then [] else [Stringify(keys[0]) + ([COLON] + Lookup(ps, keys[0]))] + Lines(keys[1..], ps)
  }

  function Canonical(t: Json): text
    decreases t
  {
    match t
    case Null => NULL
    case Bool(b) => if b then TRUE else FALSE
    case Str(s) => Stringify(s)
    case Num(lit) => lit
    case Arr(items) => [Open(false)] + (Join(CanonicalItems(items)) + [Close(false)])
    case Obj(ms) => [Open(true)] + (Join(Lines(Sort(Keys(ms), LexLe), CanonicalMembers(ms))) + [Close(true)])
  }

  function CanonicalItems(items: seq<Json>): seq<text>
    decreases items
  {
    if items == [] then [] else [Canonical(items[0])] + CanonicalItems(items[1..])
  }

  function CanonicalMembers(ms: seq<Member>): seq<Printed>
    decreases ms
  {
    if ms == [] then [] else [Printed(ms[0].key, Canonical(ms[0].value))] + CanonicalMembers(ms[1..])
  }

  // ---- The same in two steps: sort at every level, then write ----

  function ByKey(): (Member, Member) -> bool { (a: Member, b: Member) => LexLe(a.key, b.key) }

  function Canon(t: Json): Json
    decreases t
  {
    match t
    case Arr(items) => Arr(CanonItems(items))
    case Obj(ms) => Obj(Sort(CanonMembers(ms), ByKey()))
    case _ => t
  }

  function CanonItems(items: seq<Json>): (r: seq<Json>)
    ensures |r| == |items| && forall i :: 0 <= i < |items| ==> r[i] == Canon(items[i])
    decreases items
  {
    if items == [] then [] else [Canon(items[0])] + CanonItems(items[1..])
  }

  function CanonMembers(ms: seq<Member>): (r: seq<Member>)
    ensures |r| == |ms|
    ensures forall i :: 0 <= i < |ms| ==> r[i] == Member(ms[i].key, Canon(ms[i].value))
    decreases ms
  {
    if ms == [] then [] else [Member(ms[0].key, Canon(ms[0].value))] + CanonMembers(ms[1..])
  }

  function Write(t: Json): text
    decreases t
  {
    match t
    case Null => NULL
    case Bool(b) => if b then TRUE else FALSE
    case Str(s) => Stringify(s)
    case Num(lit) => lit
    case Arr(items) => [Open(false)] + (Join(WriteItems(items)) + [Close(false)])
    case Obj(ms) => [Open(true)] + (Join(WriteMembers(ms)) + [Close(true)])
  }

  function WriteItems(items: seq<Json>): seq<text>
    decreases items
  {
    if items == [] then [] else [Write(items[0])] + WriteItems(items[1..])
  }

  function WriteMembers(ms: seq<Member>): seq<text>
    decreases ms
  {
    if ms == [] then [] else [Stringify(ms[0].key) + ([COLON] + Write(ms[0].value))] + WriteMembers(ms[1..])
  }

  // ---- Trees that JavaScript can hold ----

  predicate DistinctKeys(ms: seq<Member>) {
    ms == [] || (ms[0].key !in Keys(ms[1..]) && DistinctKeys(ms[1..]))
  }

  /** Number literals are what the reader takes for one; keys are distinct and
      neither `__num` nor `__proto__`. */
  predicate Proper(t: Json)
    decreases t
  {
    match t
    case Num(lit) => Literal(lit)
    case Arr(items) => forall i :: 0 <= i < |items| ==> Proper(items[i])
    case Obj(ms) => DistinctKeys(ms) && forall i :: 0 <= i < |ms| ==> PlainKey(ms[i].key) && Proper(ms[i].value)
    case _ => true
  }

  lemma {:induction false} KeysInsert(x: Member, s: seq<Member>)
    ensures Keys(Insert(x, s, ByKey())) == Insert(x.key, Keys(s), LexLe)
  {
    if s != [] && !LexLe(x.key, s[0].key) {
      KeysInsert(x, s[1..]);
      var t := Insert(x, s[1..], ByKey());
      assert ([s[0]] + t)[1..] == t;
    } else {
      assert ([x] + s)[1..] == s;
    }
  }

  lemma {:induction false} KeysSort(s: seq<Member>)
    ensures Keys(Sort(s, ByKey())) == Sort(Keys(s), LexLe)
  {
    if s != [] {
      KeysSort(s[1..]);
      KeysInsert(s[0], Sort(s[1..], ByKey()));
    }
  }

  lemma {:induction false} LookupPrinted(ms: seq<Member>, i: nat)
    requires DistinctKeys(ms) && i < |ms|
    ensures Lookup(CanonicalMembers(ms), ms[i].key) == Canonical(ms[i].value)
    decreases |ms|
  {
    hide Canonical;
    if i > 0 {
      assert Keys(ms[1..])[i - 1] == ms[i].key;
      LookupPrinted(ms[1..], i - 1);
    }
  }

  /** Under every key of `s`, `ps` holds the written value. */
  ghost predicate Prints(ps: seq<Printed>, s: seq<Member>) {
    forall x <- s :: Lookup(ps, x.key) == Write(x.value)
  }

  lemma {:induction false} LinesAreWritten(s: seq<Member>, ps: seq<Printed>)
    requires Prints(ps, s)
    ensures Lines(Keys(s), ps) == WriteMembers(s)
  {
    if s != [] {
      assert s[0] in s;
      LinesAreWritten(s[1..], ps);
    }
  }

  ghost predicate Written(t: Json) { Canonical(t) == Write(Canon(t)) }

  /** Sorting while printing is sorting first and printing then. */
  lemma {:induction false} CanonicalIsWrite(t: Json)
    requires Proper(t)
    ensures Canonical(t) == Write(Canon(t))
    decreases t, 1
  {
    match t
    case Arr(items) => ItemsAreWritten(items);
    case Obj(ms) =>
      hide Canonical, Canon, Write, Sort;
      forall i | 0 <= i < |ms| ensures Written(ms[i].value) {
        CanonicalIsWrite(ms[i].value);
      }
      MembersAreWritten(t);
    case _ =>
  }

  lemma CanonKeys(ms: seq<Member>)
    ensures Keys(CanonMembers(ms)) == Keys(ms)
  {
  }

  lemma MembersAreWritten(t: Json)
    requires t.Obj? && DistinctKeys(t.members)
    requires forall i :: 0 <= i < |t.members| ==> Written(t.members[i].value)
    ensures Written(t)
  {
    var ms := t.members;
    var cs := CanonMembers(ms);
    LookupSorted(ms);
    LinesAreWritten(Sort(cs, ByKey()), CanonicalMembers(ms));
    KeysSort(cs);
    CanonKeys(ms);
  }

  lemma LookupSorted(ms: seq<Member>)
    requires DistinctKeys(ms)
    requires forall i :: 0 <= i < |ms| ==> Written(ms[i].value)
    ensures Prints(CanonicalMembers(ms), Sort(CanonMembers(ms), ByKey()))
  {
    hide Sort, Canonical, Canon, Write, DistinctKeys, CanonicalMembers, Lookup;
    var cs := CanonMembers(ms);
    forall x | x in Sort(cs, ByKey()) ensures Lookup(CanonicalMembers(ms), x.key) == Write(x.value) {
      SortMembers(cs, ByKey(), x);
      var i :| 0 <= i < |cs| && cs[i] == x;
      LookupPrinted(ms, i);
    }
  }

  lemma {:induction false} ItemsAreWritten(items: seq<Json>)
    requires forall i :: 0 <= i < |items| ==> Proper(items[i])
    ensures CanonicalItems(items) == WriteItems(CanonItems(items))
    decreases items, 0
  {
    if items != [] {
      CanonicalIsWrite(items[0]);
      assert forall i :: 0 <= i < |items| - 1 ==> items[1..][i] == items[i + 1];
      ItemsAreWritten(items[1..]);
      assert CanonItems(items) == [Canon(items[0])] + CanonItems(items[1..]);
    }
  }
}
