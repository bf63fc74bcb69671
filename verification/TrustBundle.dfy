/** Dispatch trust bundles (src/dispatch_ticket_trust.ts): the normaliser, the
    stored form, and the ticket verdict up to the replay check. */
module TrustBundle {
  import opened Optional
  import opened Framing
  import opened Sorting

  const V2: text  // "dispatch_ticket_v2"
    := [100, 105, 115, 112, 97, 116, 99, 104, 95, 116, 105, 99, 107, 101, 116, 95, 118, 50]

  datatype KeyState = Active | Retiring | Revoked

  datatype Key = Key(
    key_id: text, public_key: text, state: KeyState, valid_from: int, valid_until: int,
    profiles: Option<seq<text>>, issuers: Option<seq<text>>, audiences: Option<seq<text>>)

  datatype Bundle = Bundle(
    version: int, keys: seq<Key>, issuer: Option<text>, valid_from: Option<int>, valid_until: Option<int>)

  // ---- Normalising ----

  function Or(v: Option<seq<text>>, default: seq<text>): seq<text> {
    if v.Some? then v.value else default
  }

  function NormKey(k: Key): Key {
    k.(profiles := Some(Sort(Or(k.profiles, [V2]), LexLe)),
       issuers := Some(Sort(Or(k.issuers, []), LexLe)),
       audiences := Some(Sort(Or(k.audiences, []), LexLe)))
  }

  function NormKeys(ks: seq<Key>): (r: seq<Key>)
    ensures |r| == |ks| && forall i :: 0 <= i < |ks| ==> r[i] == NormKey(ks[i])
  {
    if ks == [] then [] else [NormKey(ks[0])] + NormKeys(ks[1..])
  }

  /** `collate(a, b)` is `a.localeCompare(b) <= 0`. */
  function ById(collate: (text, text) -> bool): (Key, Key) -> bool {
    (a: Key, b: Key) => collate(a.key_id, b.key_id)
  }

  function Normalize(b: Bundle, collate: (text, text) -> bool): Bundle {
    b.(keys := NormKeys(Sort(b.keys, ById(collate))))
  }

  lemma ByIdPreorder(collate: (text, text) -> bool)
    requires Preorder(collate)
    ensures Preorder(ById(collate))
  {
    var le := ById(collate);
    forall a, b ensures le(a, b) || le(b, a) {
      assert collate(a.key_id, b.key_id) || collate(b.key_id, a.key_id);
    }
    forall a, b, c | le(a, b) && le(b, c) ensures le(a, c) {
      assert collate(a.key_id, b.key_id) && collate(b.key_id, c.key_id);
    }
  }

  lemma NormKeyIdempotent(k: Key)
    ensures NormKey(NormKey(k)) == NormKey(k)
  {
    LexPreorder();
    forall l: seq<text> ensures Sort(Sort(l, LexLe), LexLe) == Sort(l, LexLe) {
      SortSorted(l, LexLe);
      SortIdle(Sort(l, LexLe), LexLe);
    }
  }

  lemma NormalizeIdempotent(b: Bundle, collate: (text, text) -> bool)
    requires Preorder(collate)
    ensures Normalize(Normalize(b, collate), collate) == Normalize(b, collate)
  {
    var le := ById(collate);
    ByIdPreorder(collate);
    SortSorted(b.keys, le);
    var ks := Normalize(b, collate).keys;
    assert Sorted(ks, le);
    SortIdle(ks, le);
    forall i | 0 <= i < |ks| ensures NormKey(ks[i]) == ks[i] {
      NormKeyIdempotent(Sort(b.keys, le)[i]);
    }
    assert NormKeys(ks) == ks;
  }

  // ---- The verdict on a ticket ----

  datatype Json = JText(s: text) | JInt(i: int) | JOther(tag: int)

  datatype Bindings = Bindings(issuer: text, provider: text, intent: text, constraints: text, audience: Option<text>)

  datatype TicketClaims = TicketClaims(
    profile: Option<Json>, key_id: Option<Json>, issuer: Option<Json>, audience: Option<Json>,
    provider_id: Option<Json>, intent: Option<Json>, constraints_digest: Option<Json>,
    expires_at: Option<Json>, jti: Option<Json>)

  /** `String(value)` and the Ed25519 check (which includes decoding the key and
      the canonical message) are uninterpreted. */
  datatype Oracle = Oracle(show: Option<Json> -> text, signed: (text, TicketClaims, text) -> bool)

  datatype Code =
    | RejectBundleRollback | RejectBundleNotYetValid | RejectBundleExpired | RejectProfileDowngrade | RejectUnknownKey
    | RejectKeyRevoked | RejectKeyExpired | RejectProfileNotAllowed | RejectIssuer | RejectAudience
    | RejectClaimMismatch | RejectSignature

  datatype Verdict = Reject(code: Code) | Pass(jti: text, expiresAt: int)

  const MAX_SAFE: int := 0x1F_FFFF_FFFF_FFFF

  predicate Safe(i: int) { -MAX_SAFE <= i <= MAX_SAFE }

  /** `keys.find(k => k.key_id === id)`. */
  function Find(ks: seq<Key>, id: text): Option<Key> {
    if ks == [] then None else if ks[0].key_id == id then Some(ks[0]) else Find(ks[1..], id)
  }

  /** `list?.length && !list.includes(x)`. */
  predicate Excludes(list: Option<seq<text>>, x: text) {
    list.Some? && list.value != [] && x !in list.value
  }

  function Judge(
    o: Oracle, c: TicketClaims, signature: text, b: Bundle, bind: Bindings, now: int, minimum: int): Verdict
  {
    if !Safe(b.version) || b.version < minimum then Reject(RejectBundleRollback)
    else if b.valid_from.Some? && now < b.valid_from.value then Reject(RejectBundleNotYetValid)
    else if b.valid_until.Some? && now > b.valid_until.value then Reject(RejectBundleExpired)
    else if c.profile != Some(JText(V2)) then Reject(RejectProfileDowngrade)
    else
      var key := if c.key_id.Some? && c.key_id.value.JText? && c.key_id.value.s != []
                 then Find(b.keys, c.key_id.value.s) else None;
      if key.None? then Reject(RejectUnknownKey) else JudgeKey(o, c, signature, key.value, bind, now)
  }

  function JudgeKey(o: Oracle, c: TicketClaims, signature: text, k: Key, bind: Bindings, now: int): Verdict {
    if k.state == Revoked then Reject(RejectKeyRevoked)
    else if now < k.valid_from || now > k.valid_until then Reject(RejectKeyExpired)
    else if V2 !in Or(k.profiles, [V2]) then Reject(RejectProfileNotAllowed)
    else if Excludes(k.issuers, o.show(c.issuer)) then Reject(RejectIssuer)
    else if Excludes(k.audiences, o.show(c.audience)) then Reject(RejectAudience)
    else if c.issuer != Some(JText(bind.issuer)) || c.provider_id != Some(JText(bind.provider))
            || c.intent != Some(JText(bind.intent)) || c.constraints_digest != Some(JText(bind.constraints))
    then Reject(RejectClaimMismatch)
    else if bind.audience.Some? && c.audience != Some(JText(bind.audience.value)) then Reject(RejectClaimMismatch)
    else if c.expires_at.None? || !c.expires_at.value.JInt? || !Safe(c.expires_at.value.i)
            || c.expires_at.value.i <= now
            || c.jti.None? || !c.jti.value.JText? || c.jti.value.s == []
    then Reject(RejectClaimMismatch)
    else if !o.signed(k.public_key, c, signature) then Reject(RejectSignature)
    else Pass(c.jti.value.s, c.expires_at.value.i)
  }

  lemma JudgeNormKey(o: Oracle, c: TicketClaims, signature: text, k: Key, bind: Bindings, now: int)
    ensures JudgeKey(o, c, signature, NormKey(k), bind, now) == JudgeKey(o, c, signature, k, bind, now)
  {
    SortMembers(Or(k.profiles, [V2]), LexLe, V2);
    SortMembers(Or(k.issuers, []), LexLe, o.show(c.issuer));
    SortMembers(Or(k.audiences, []), LexLe, o.show(c.audience));
    var n := NormKey(k);
    hide Sort, NormKeys;
    assert V2 in Or(n.profiles, [V2]) <==> V2 in Or(k.profiles, [V2]);
    assert Excludes(n.issuers, o.show(c.issuer)) <==> Excludes(k.issuers, o.show(c.issuer));
    assert Excludes(n.audiences, o.show(c.audience)) <==> Excludes(k.audiences, o.show(c.audience));
    assert n == k.(profiles := n.profiles, issuers := n.issuers, audiences := n.audiences);
    hide NormKey, Excludes, Or;
  }

  lemma {:induction false} FindInsert(x: Key, s: seq<Key>, id: text, collate: (text, text) -> bool)
    requires Preorder(collate)
    ensures Find(Insert(x, s, ById(collate)), id) == if x.key_id == id then Some(x) else Find(s, id)
  {
    if s != [] && !collate(x.key_id, s[0].key_id) {
      FindInsert(x, s[1..], id, collate);
    }
  }

  /** A stable sort keeps the first of several keys with the same id first. */
  lemma {:induction false} FindSort(s: seq<Key>, id: text, collate: (text, text) -> bool)
    requires Preorder(collate)
    ensures Find(Sort(s, ById(collate)), id) == Find(s, id)
  {
    if s != [] {
      FindSort(s[1..], id, collate);
      FindInsert(s[0], Sort(s[1..], ById(collate)), id, collate);
    }
  }

  lemma {:induction false} FindNorm(s: seq<Key>, id: text)
    ensures Find(NormKeys(s), id) == if Find(s, id).Some? then Some(NormKey(Find(s, id).value)) else None
  {
    if s != [] {
      FindNorm(s[1..], id);
    }
  }

  /** Normalising a bundle changes no verdict: defaulted profile lists, empty
      lists and duplicate key ids included. */
  lemma NormalizeKeepsVerdict(
    o: Oracle, c: TicketClaims, signature: text, b: Bundle, bind: Bindings, now: int, minimum: int,
    collate: (text, text) -> bool)
    requires Preorder(collate)
    ensures Judge(o, c, signature, Normalize(b, collate), bind, now, minimum) ==
            Judge(o, c, signature, b, bind, now, minimum)
  {
    hide JudgeKey, NormKey, Find, NormKeys, Sort, Preorder, ById;
    if c.key_id.Some? && c.key_id.value.JText? {
      var id := c.key_id.value.s;
      FindSort(b.keys, id, collate);
      FindNorm(Sort(b.keys, ById(collate)), id);
      if Find(b.keys, id).Some? {
        JudgeNormKey(o, c, signature, Find(b.keys, id).value, bind, now);
      }
    }
  }

  // ---- The stored form ----

  /** The content of the state file, before JSON and base64. */
  datatype StateFile = StateFile(bundleBytes: seq<byte>, digest: int, version: int, highWater: int)

  /** JSON, base64 and SHA-256 as uninterpreted functions. */
  datatype Format = Format(
    collate: (text, text) -> bool,
    ser: Bundle -> seq<byte>, parse: seq<byte> -> Option<Bundle>, digest: seq<byte> -> int,
    serState: StateFile -> seq<byte>, parseState: seq<byte> -> Option<StateFile>)
  {
    /** JSON text of a fully spelled out bundle parses back to it. */
    ghost predicate Sound() {
      && Preorder(collate)
      && (forall b :: Spelled(b) ==> parse(ser(b)) == Some(b))
      && (forall st :: parseState(serState(st)) == Some(st))
    }

    function Canonical(b: Bundle): seq<byte> { ser(Normalize(b, collate)) }
  }

  predicate Spelled(b: Bundle) {
    forall k <- b.keys :: k.profiles.Some? && k.issuers.Some? && k.audiences.Some?
  }

  datatype Stored = Stored(bundle: Bundle, bytes: seq<byte>, digest: int, highWater: int)

  const MAX_STATE: nat := 4 * 1024 * 1024

  predicate Committable(b: Bundle, highWater: int) {
    0 <= b.version <= highWater && Safe(b.version) && Safe(highWater)
  }

  /** The bytes `commit` writes. */
  function CommitBytes(f: Format, b: Bundle, highWater: int): seq<byte> {
    var bytes := f.Canonical(b);
    f.serState(StateFile(bytes, f.digest(bytes), b.version, highWater))
  }

  /** `load` on the bytes of an existing file; None is "corrupt". */
  function Load(f: Format, raw: seq<byte>): Option<Stored> {
    if |raw| > MAX_STATE then None
    else
      var st := f.parseState(raw);
      if st.None? || f.digest(st.value.bundleBytes) != st.value.digest then None
      else
        var b := f.parse(st.value.bundleBytes);
        if b.None? || !Committable(b.value, st.value.highWater) || st.value.version != b.value.version then None
        else if f.Canonical(b.value) != st.value.bundleBytes then None
        else Some(Stored(b.value, st.value.bundleBytes, st.value.digest, st.value.highWater))
  }

  /** `load` accepts what `commit` wrote exactly when it is within the size
      limit, and then returns the normalised bundle and the high-water mark. */
  lemma LoadAfterCommit(f: Format, b: Bundle, highWater: int)
    requires f.Sound() && Committable(b, highWater)
    ensures Load(f, CommitBytes(f, b, highWater)) ==
            if |CommitBytes(f, b, highWater)| > MAX_STATE then None
            else Some(Stored(Normalize(b, f.collate), f.Canonical(b), f.digest(f.Canonical(b)), highWater))
  {
    hide Format.Sound, Normalize, Spelled, Safe;
    var n := Normalize(b, f.collate);
    NormalizedForm(f, b);
    StateRoundTrip(f, StateFile(f.ser(n), f.digest(f.ser(n)), b.version, highWater));
  }

  lemma StateRoundTrip(f: Format, st: StateFile)
    requires f.Sound()
    ensures f.parseState(f.serState(st)) == Some(st)
  {
  }

  /** A canonical text parses back to the normalised bundle, whose canonical
      text it is. */
  lemma NormalizedForm(f: Format, b: Bundle)
    requires f.Sound()
    ensures var n := Normalize(b, f.collate);
            f.parse(f.ser(n)) == Some(n) && f.Canonical(n) == f.ser(n) && n.version == b.version
  {
    NormalizeIdempotent(b, f.collate);
    var n := Normalize(b, f.collate);
    assert Spelled(n) by {
      forall k <- n.keys ensures k.profiles.Some? && k.issuers.Some? && k.audiences.Some? {
        var i :| 0 <= i < |n.keys| && n.keys[i] == k;
      }
    }
  }

  /** The file says what `commit` writes for this bundle and mark. */
  ghost predicate Says(f: Format, raw: seq<byte>, b: Bundle, highWater: int) {
    && 0 <= b.version <= highWater <= 9_007_199_254_740_991
    && f.parseState(raw) ==
       Some(StateFile(f.Canonical(b), f.digest(f.Canonical(b)), b.version, highWater))
  }

  /** A file loads exactly if it is within 4 MiB and says what `commit` writes
      for some bundle: bytes, digest, version and canonical form must all agree. */
  lemma LoadOnlyCommitted(f: Format, raw: seq<byte>)
    requires f.Sound()
    ensures Load(f, raw).Some? <==> |raw| <= 4_194_304 && exists b, h :: Says(f, raw, b, h)
    ensures forall b, h :: Says(f, raw, b, h) && |raw| <= 4_194_304 ==>
              Load(f, raw) == Some(Stored(Normalize(b, f.collate), f.Canonical(b), f.digest(f.Canonical(b)), h))
  {
    if Load(f, raw).Some? {
      var st := f.parseState(raw).value;
      assert Says(f, raw, f.parse(st.bundleBytes).value, st.highWater);
    }
    forall b, h | Says(f, raw, b, h) && |raw| <= 4_194_304
      ensures Load(f, raw) == Some(Stored(Normalize(b, f.collate), f.Canonical(b), f.digest(f.Canonical(b)), h)) {
      NormalizedForm(f, b);
    }
    hide Format.Sound, Normalize, Spelled;
  }

  /** Whatever loads carries a legal version and high-water mark. */
  lemma LoadedIsLegal(f: Format, raw: seq<byte>)
    ensures Load(f, raw).Some? ==> Committable(Load(f, raw).value.bundle, Load(f, raw).value.highWater)
  {
  }

  /** A ticket is judged alike by the bundle that was installed and by the one
      that is loaded back. */
  lemma ReloadKeepsVerdict(
    f: Format, b: Bundle, highWater: int,
    o: Oracle, c: TicketClaims, signature: text, bind: Bindings, now: int, minimum: int)
    requires f.Sound() && Committable(b, highWater)
    requires Load(f, CommitBytes(f, b, highWater)).Some?
    ensures Judge(o, c, signature, Load(f, CommitBytes(f, b, highWater)).value.bundle, bind, now, minimum) ==
            Judge(o, c, signature, b, bind, now, minimum)
  {
    LoadAfterCommit(f, b, highWater);
    NormalizeKeepsVerdict(o, c, signature, b, bind, now, minimum, f.collate);
  }
}
