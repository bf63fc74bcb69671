/** What the verdict on a dispatch ticket means (src/dispatch_ticket_trust.ts):
    when it passes, and exactly when each refusal is given. */
module TicketVerdict {
  import opened Optional
  import opened Sorting
  import opened TrustBundle

  /** The profile's name, letter by letter. */
  lemma ProfileSpelled()
    ensures |V2| == |"dispatch_ticket_v2"| && forall i :: 0 <= i < |V2| ==> V2[i] == "dispatch_ticket_v2"[i] as int
  {
    var s := "dispatch_ticket_v2";
    assert s == ['d', 'i', 's', 'p', 'a', 't', 'c', 'h', '_', 't', 'i', 'c', 'k', 'e', 't', '_', 'v', '2'];
  }

  /** The claims name a key; an empty or non-text id names none. */
  predicate Names(c: TicketClaims, id: text) { c.key_id == Some(JText(id)) && id != [] }

  /** Key `j` is the first one the claims name. */
  ghost predicate FirstNamed(b: Bundle, c: TicketClaims, j: nat) {
    j < |b.keys| && Names(c, b.keys[j].key_id) && forall i :: 0 <= i < j ==> b.keys[i].key_id != b.keys[j].key_id
  }

  predicate VersionCounts(b: Bundle, minimum: int) {
    -9_007_199_254_740_991 <= b.version <= 9_007_199_254_740_991 && minimum <= b.version
  }

  predicate Begun(b: Bundle, now: int) { b.valid_from.Some? ==> b.valid_from.value <= now }

  predicate NotOver(b: Bundle, now: int) { b.valid_until.Some? ==> now <= b.valid_until.value }

  /** Nothing about the bundle or the profile stands against the ticket. */
  predicate BundleFine(b: Bundle, c: TicketClaims, now: int, minimum: int) {
    VersionCounts(b, minimum) && Begun(b, now) && NotOver(b, now) && c.profile == Some(JText(V2))
  }

  /** An absent or empty list lets everything through. */
  predicate Listed(list: Option<seq<text>>, x: text) {
    list.None? || list.value == [] || x in list.value
  }

  /** An absent profile list means the one profile; an empty one allows none. */
  predicate ProfileAllowed(k: Key) { k.profiles.None? || V2 in k.profiles.value }

  /** The claims are those the caller expects, and have a future expiry and an id. */
  predicate ClaimsMatch(c: TicketClaims, bind: Bindings, now: int) {
    && c.issuer == Some(JText(bind.issuer)) && c.provider_id == Some(JText(bind.provider))
    && c.intent == Some(JText(bind.intent)) && c.constraints_digest == Some(JText(bind.constraints))
    && (bind.audience.Some? ==> c.audience == Some(JText(bind.audience.value)))
    && c.expires_at.Some? && c.expires_at.value.JInt?
    && now < c.expires_at.value.i <= 9_007_199_254_740_991 && -9_007_199_254_740_991 <= c.expires_at.value.i
    && c.jti.Some? && c.jti.value.JText? && c.jti.value.s != []
  }

  /** Everything a ticket needs, under key `j`. */
  ghost predicate Genuine(
    o: Oracle, c: TicketClaims, signature: text, b: Bundle, bind: Bindings, now: int, minimum: int, j: nat)
  {
    && BundleFine(b, c, now, minimum) && FirstNamed(b, c, j)
    && var k := b.keys[j];
       && !k.state.Revoked? && k.valid_from <= now <= k.valid_until && ProfileAllowed(k)
       && Listed(k.issuers, o.show(c.issuer)) && Listed(k.audiences, o.show(c.audience))
       && ClaimsMatch(c, bind, now) && o.signed(k.public_key, c, signature)
  }

  lemma {:induction false} FindMeans(ks: seq<Key>, id: text)
    ensures Find(ks, id).None? <==> forall k <- ks :: k.key_id != id
    ensures forall j :: 0 <= j < |ks| && ks[j].key_id == id && (forall i :: 0 <= i < j ==> ks[i].key_id != id) ==>
              Find(ks, id) == Some(ks[j])
    decreases |ks|
  {
    if ks != [] {
      FindMeans(ks[1..], id);
      assert ks == [ks[0]] + ks[1..];
      forall j | 0 < j < |ks| && ks[j].key_id == id && (forall i :: 0 <= i < j ==> ks[i].key_id != id)
        ensures Find(ks, id) == Some(ks[j]) {
        assert ks[0].key_id != id && ks[1..][j - 1] == ks[j];
        forall i | 0 <= i < j - 1 ensures ks[1..][i].key_id != id {
          assert ks[1..][i] == ks[i + 1];
        }
      }
    }
  }

  /** A key that is found has a first place. */
  lemma {:induction false} FoundFirst(ks: seq<Key>, id: text) returns (j: nat)
    requires exists k :: k in ks && k.key_id == id
    ensures j < |ks| && ks[j].key_id == id && forall i :: 0 <= i < j ==> ks[i].key_id != id
    decreases |ks|
  {
    if ks[0].key_id == id {
      j := 0;
    } else {
      assert ks == [ks[0]] + ks[1..];
      j := FoundFirst(ks[1..], id);
      assert forall i :: 1 <= i < j + 1 ==> ks[i] == ks[1..][i - 1];
      j := j + 1;
    }
  }

  /** Exactly when a ticket is refused before any key is looked at, or because
      no key is named. */
  lemma RefusedForBundle(
    o: Oracle, c: TicketClaims, signature: text, b: Bundle, bind: Bindings, now: int, minimum: int)
    ensures var v := Judge(o, c, signature, b, bind, now, minimum);
            && (v == Reject(RejectBundleRollback) <==> !VersionCounts(b, minimum))
            && (v == Reject(RejectBundleNotYetValid) <==> VersionCounts(b, minimum) && !Begun(b, now))
            && (v == Reject(RejectBundleExpired) <==> VersionCounts(b, minimum) && Begun(b, now) && !NotOver(b, now))
            && (v == Reject(RejectProfileDowngrade) <==>
                  VersionCounts(b, minimum) && Begun(b, now) && NotOver(b, now) && c.profile != Some(JText(V2)))
            && (v == Reject(RejectUnknownKey) <==>
                  BundleFine(b, c, now, minimum) && forall k <- b.keys :: !Names(c, k.key_id))
  {
    var named := c.key_id.Some? && c.key_id.value.JText? && c.key_id.value.s != [];
    var key := if named then Find(b.keys, c.key_id.value.s) else None;
    NoneNamed(b, c);
    if key.Some? {
      KeyCodes(o, c, signature, key.value, bind, now);
    }
    assert Safe(b.version) <==> -9_007_199_254_740_991 <= b.version <= 9_007_199_254_740_991;
    hide JudgeKey, Find, Names, Safe;
  }

  lemma NoneNamed(b: Bundle, c: TicketClaims)
    ensures (c.key_id.Some? && c.key_id.value.JText? && c.key_id.value.s != [] && Find(b.keys, c.key_id.value.s).Some?)
            <==> !forall k <- b.keys :: !Names(c, k.key_id)
  {
    if c.key_id.Some? && c.key_id.value.JText? {
      FindMeans(b.keys, c.key_id.value.s);
    }
    hide Find;
  }

  /** A key never gives a code of the bundle. */
  lemma KeyCodes(o: Oracle, c: TicketClaims, signature: text, k: Key, bind: Bindings, now: int)
    ensures var v := JudgeKey(o, c, signature, k, bind, now);
            v.Pass? || v.code !in {RejectBundleRollback, RejectBundleNotYetValid, RejectBundleExpired,
                                   RejectProfileDowngrade, RejectUnknownKey}
  {
    hide Excludes, Or, Safe;
  }

  /** Exactly when a ticket under its first named key is refused, and how, and
      when it passes. */
  lemma RefusedForKey(
    o: Oracle, c: TicketClaims, signature: text, b: Bundle, bind: Bindings, now: int, minimum: int, j: nat)
    requires BundleFine(b, c, now, minimum) && FirstNamed(b, c, j)
    ensures var (v, k) := (Judge(o, c, signature, b, bind, now, minimum), b.keys[j]);
            var inTime := k.valid_from <= now <= k.valid_until;
            var issued := Listed(k.issuers, o.show(c.issuer));
            var heard := Listed(k.audiences, o.show(c.audience));
            var signed := o.signed(k.public_key, c, signature);
            && (v == Reject(RejectKeyRevoked) <==> k.state.Revoked?)
            && (v == Reject(RejectKeyExpired) <==> !k.state.Revoked? && !inTime)
            && (v == Reject(RejectProfileNotAllowed) <==> !k.state.Revoked? && inTime && !ProfileAllowed(k))
            && (v == Reject(RejectIssuer) <==> !k.state.Revoked? && inTime && ProfileAllowed(k) && !issued)
            && (v == Reject(RejectAudience) <==>
                  !k.state.Revoked? && inTime && ProfileAllowed(k) && issued && !heard)
            && (v == Reject(RejectClaimMismatch) <==>
                  !k.state.Revoked? && inTime && ProfileAllowed(k) && issued && heard && !ClaimsMatch(c, bind, now))
            && (v == Reject(RejectSignature) <==>
                  !k.state.Revoked? && inTime && ProfileAllowed(k) && issued && heard && ClaimsMatch(c, bind, now)
                  && !signed)
            && (v.Pass? <==>
                  !k.state.Revoked? && inTime && ProfileAllowed(k) && issued && heard && ClaimsMatch(c, bind, now)
                  && signed)
            && (v.Pass? ==> v == Pass(c.jti.value.s, c.expires_at.value.i))
  {
    FindMeans(b.keys, b.keys[j].key_id);
    var k := b.keys[j];
    assert Find(b.keys, k.key_id) == Some(k);
    hide Find, FirstNamed;
    assert Judge(o, c, signature, b, bind, now, minimum) == JudgeKey(o, c, signature, k, bind, now);
    hide Judge, BundleFine;
    assert V2 in Or(k.profiles, [V2]) <==> ProfileAllowed(k);
    assert forall l, x :: Excludes(l, x) <==> !Listed(l, x);
    hide Excludes, Listed, Or, ProfileAllowed;
  }

  /** A ticket passes if and only if it has everything it needs under the first
      key it names. */
  lemma PassExactly(
    o: Oracle, c: TicketClaims, signature: text, b: Bundle, bind: Bindings, now: int, minimum: int)
    ensures Judge(o, c, signature, b, bind, now, minimum).Pass? <==>
            exists j: nat :: Genuine(o, c, signature, b, bind, now, minimum, j)
  {
    RefusedForBundle(o, c, signature, b, bind, now, minimum);
    hide Judge;
    if BundleFine(b, c, now, minimum) && exists k :: k in b.keys && Names(c, k.key_id) {
      var k :| k in b.keys && Names(c, k.key_id);
      var j := FoundFirst(b.keys, k.key_id);
      RefusedForKey(o, c, signature, b, bind, now, minimum, j);
      assert FirstNamed(b, c, j);
      forall i: nat | FirstNamed(b, c, i) ensures i == j {
        assert b.keys[i].key_id == b.keys[j].key_id;
      }
      hide FirstNamed;
      if Judge(o, c, signature, b, bind, now, minimum).Pass? {
        assert Genuine(o, c, signature, b, bind, now, minimum, j);
      }
    }
  }
}
