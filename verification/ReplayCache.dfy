/** Caches that refuse a name until its expiry: dispatch ticket ids
    (src/dispatch_ticket_trust.ts), relay bind ticket ids (src/relay_ticket.ts),
    task ids (src/idempotency.ts) and nonces (src/node.ts). */
module ReplayCache {
  import opened Optional
  import opened Sorting
  import TicketVerdict
  import opened TrustBundle

  /** `late` is the nonce table, which keeps a name through its last instant. */
  predicate Gone(expiry: int, now: int, late: bool) {
    if late then expiry < now else expiry <= now
  }

  function Evict<T>(seen: map<T, int>, now: int, late: bool): map<T, int> {
    map k | k in seen && !Gone(seen[k], now, late) :: seen[k]
  }

  datatype Use<T> = Use(name: T, expiry: int, now: int)

  predicate Fresh<T>(seen: map<T, int>, u: Use<T>, late: bool) {
    u.name !in Evict(seen, u.now, late)
  }

  /** None is a request that never reaches the cache. */
  function After<T>(seen: map<T, int>, u: Option<Use<T>>, late: bool): map<T, int> {
    if u.None? then seen
    else if Fresh(seen, u.value, late) then Evict(seen, u.value.now, late)[u.value.name := u.value.expiry]
    else Evict(seen, u.value.now, late)
  }

  method DropExpired<T>(seen: map<T, int>, now: int, late: bool) returns (rest: map<T, int>)
    ensures rest == Evict(seen, now, late)
  {
    rest := seen;
    var todo := seen.Keys;
    while todo != {}
      invariant todo <= seen.Keys && rest.Keys <= seen.Keys
      invariant forall k :: k in rest ==> rest[k] == seen[k]
      invariant forall k :: k in seen ==> (k in rest <==> k in todo || !Gone(seen[k], now, late))
      decreases |todo|
    {
      var k :| k in todo;
      todo := todo - {k};
      if Gone(seen[k], now, late) {
        rest := rest - {k};
      }
    }
  }

  class RelayBindTicketReplayCache {
    var seen: map<text, int>

    constructor ()
      ensures seen == map[]
    {
      seen := map[];
    }

    method Consume(jti: text, exp: int, now: int) returns (isNew: bool)
      modifies this
      ensures isNew == Fresh(old(seen), Use(jti, exp, now), false)
      ensures seen == After(old(seen), Some(Use(jti, exp, now)), false)
    {
      seen := DropExpired(seen, now, false);
      isNew := jti !in seen;
      if isNew {
        seen := seen[jti := exp];
      }
    }
  }

  class IdempotencyGuard {
    const ttl: int
    var seen: map<text, int>

    constructor (ttl: int)
      ensures this.ttl == ttl && seen == map[]
    {
      this.ttl, seen := ttl, map[];
    }

    method CheckAndRegister(taskId: Option<text>, now: int) returns (isNew: bool)
      modifies this
      ensures seen == After(old(seen), Counted(taskId, ttl, now), false)
      ensures isNew == (Counted(taskId, ttl, now).None? || Fresh(old(seen), Counted(taskId, ttl, now).value, false))
    {
      if taskId.None? || taskId.value == [] {
        return true;
      }
      seen := DropExpired(seen, now, false);
      isNew := taskId.value !in seen;
      if isNew {
        seen := seen[taskId.value := now + ttl];
      }
    }
  }

  /** `_checkNonce`, whose table drops a nonce one instant later. */
  class NonceTable {
    const ttl: int
    var seen: map<text, int>

    constructor (ttl: int)
      ensures this.ttl == ttl && seen == map[]
    {
      this.ttl, seen := ttl, map[];
    }

    method CheckNonce(nonce: Option<text>, now: int) returns (isNew: bool)
      modifies this
      ensures seen == After(old(seen), Counted(nonce, ttl, now), true)
      ensures isNew == (Counted(nonce, ttl, now).None? || Fresh(old(seen), Counted(nonce, ttl, now).value, true))
    {
      if nonce.None? || nonce.value == [] {
        return true;
      }
      seen := DropExpired(seen, now, true);
      isNew := nonce.value !in seen;
      if isNew {
        seen := seen[nonce.value := now + ttl];
      }
    }
  }

  /** An absent or empty name is never recorded. */
  function Counted(name: Option<text>, ttl: int, now: int): Option<Use<text>> {
    if name.None? || name.value == [] then None else Some(Use(name.value, now + ttl, now))
  }

  class LocalDispatchReplayCache {
    var seen: map<text, int>

    constructor ()
      ensures seen == map[]
    {
      seen := map[];
    }

    method Contains(jti: text, now: int) returns (found: bool)
      modifies this
      ensures seen == Evict(old(seen), now, false) && found == (jti in seen)
    {
      seen := DropExpired(seen, now, false);
      found := jti in seen;
    }

    method Remember(jti: text, expiresAt: int)
      modifies this
      ensures seen == old(seen)[jti := expiresAt]
    {
      seen := seen[jti := expiresAt];
    }
  }

  datatype Decision = Refused(code: Code) | LocalReplay | AcceptAnchored

  datatype Attempt = Attempt(
    claims: TicketClaims, signature: text, bundle: Bundle, bindings: Bindings, now: int, minimum: int)

  function JudgeAttempt(o: Oracle, a: Attempt): Verdict {
    Judge(o, a.claims, a.signature, a.bundle, a.bindings, a.now, a.minimum)
  }

  /** Only a ticket that passes every other check reaches the cache. */
  function Reaches(o: Oracle, a: Attempt): Option<Use<text>> {
    var v := JudgeAttempt(o, a);
    if v.Pass? then Some(Use(v.jti, v.expiresAt, a.now)) else None
  }

  method VerifyDispatchTicketV2(o: Oracle, a: Attempt, cache: LocalDispatchReplayCache?) returns (d: Decision)
    modifies cache
    ensures JudgeAttempt(o, a).Reject? ==> d == Refused(JudgeAttempt(o, a).code)
    ensures JudgeAttempt(o, a).Pass? ==>
              d == if cache == null || old(Fresh(cache.seen, Reaches(o, a).value, false))
                   then AcceptAnchored else LocalReplay
    ensures cache != null ==> cache.seen == After(old(cache.seen), Reaches(o, a), false)
    ensures !d.Refused? <==>
              exists j: nat ::
                TicketVerdict.Genuine(o, a.claims, a.signature, a.bundle, a.bindings, a.now, a.minimum, j)
  {
    TicketVerdict.PassExactly(o, a.claims, a.signature, a.bundle, a.bindings, a.now, a.minimum);
    hide Judge, TicketVerdict.Genuine;
    var v := JudgeAttempt(o, a);
    if v.Reject? {
      return Refused(v.code);
    }
    if cache != null {
      var found := cache.Contains(v.jti, a.now);
      if found {
        return LocalReplay;
      }
      cache.Remember(v.jti, v.expiresAt);
    }
    d := AcceptAnchored;
  }

  // ---- Runs ----

  /** The clock never goes back between two uses. */
  predicate Ordered<T>(us: seq<Option<Use<T>>>) {
    forall i, j :: 0 <= i < j < |us| && us[i].Some? && us[j].Some? ==> us[i].value.now <= us[j].value.now
  }

  function Table<T>(us: seq<Option<Use<T>>>, late: bool): map<T, int> {
    if us == [] then map[] else After(Table(us[..|us| - 1], late), us[|us| - 1], late)
  }

  /** The cache lets request `i` of the run through as new. */
  ghost predicate Accepts<T>(us: seq<Option<Use<T>>>, i: nat, late: bool)
    requires i < |us|
  {
    us[i].Some? && Fresh(Table(us[..i], late), us[i].value, late)
  }

  /** What a record of everything ever accepted, never evicted, would say. */
  ghost predicate Blocked<T>(us: seq<Option<Use<T>>>, i: nat, late: bool)
    requires i < |us| && us[i].Some?
  {
    exists j: nat ::
      && j < i && Accepts(us, j, late) && us[j].value.name == us[i].value.name
      && !Gone(us[j].value.expiry, us[i].value.now, late)
  }

  lemma PrefixAccepts<T>(us: seq<Option<Use<T>>>, n: nat, j: nat, late: bool)
    requires j < n <= |us|
    ensures Accepts(us[..n], j, late) == Accepts(us, j, late)
  {
    assert us[..n][..j] == us[..j];
  }

  /** An accepted name stays in the table as long as it has not expired. */
  lemma {:induction false} Kept<T>(us: seq<Option<Use<T>>>, j: nat, t: int, late: bool)
    requires Ordered(us) && j < |us| && Accepts(us, j, late) && !Gone(us[j].value.expiry, t, late)
    requires forall i :: j <= i < |us| && us[i].Some? ==> us[i].value.now <= t
    ensures us[j].value.name in Table(us, late) && Table(us, late)[us[j].value.name] == us[j].value.expiry
    decreases |us|
  {
    var prev := us[..|us| - 1];
    if j < |us| - 1 {
      PrefixAccepts(us, |us| - 1, j, late);
      Kept(prev, j, t, late);
    } else {
      assert us[..j] == prev;
    }
  }

  /** Whatever is in the table was accepted, with that expiry. */
  lemma {:induction false} Came<T>(us: seq<Option<Use<T>>>, name: T, late: bool) returns (j: nat)
    requires name in Table(us, late)
    ensures j < |us| && Accepts(us, j, late) && us[j].value.name == name
    ensures Table(us, late)[name] == us[j].value.expiry
    decreases |us|
  {
    var n := |us| - 1;
    var prev := us[..n];
    if us[n].Some? && Fresh(Table(prev, late), us[n].value, late) && us[n].value.name == name {
      j := n;
    } else {
      j := Came(prev, name, late);
      PrefixAccepts(us, n, j, late);
    }
  }

  /** Eviction is unobservable: each request is let through exactly when no
      request of its name was accepted before and is still unexpired. */
  lemma Exact<T>(us: seq<Option<Use<T>>>, i: nat, late: bool)
    requires Ordered(us) && i < |us| && us[i].Some?
    ensures Accepts(us, i, late) <==> !Blocked(us, i, late)
  {
    var prev, u := us[..i], us[i].value;
    if !Accepts(us, i, late) {
      var j := Came(prev, u.name, late);
      PrefixAccepts(us, i, j, late);
    }
    if Blocked(us, i, late) {
      var j: nat :| j < i && Accepts(us, j, late) && us[j].value.name == u.name
                    && !Gone(us[j].value.expiry, u.now, late);
      PrefixAccepts(us, i, j, late);
      Kept(prev, j, u.now, late);
    }
  }

  /** A name is let through twice only once its first expiry is reached. */
  lemma AcceptedTwice<T>(us: seq<Option<Use<T>>>, i: nat, j: nat, late: bool)
    requires Ordered(us) && i < j < |us| && Accepts(us, i, late) && Accepts(us, j, late)
    requires us[i].value.name == us[j].value.name
    ensures Gone(us[i].value.expiry, us[j].value.now, late)
  {
    Exact(us, j, late);
  }

  /** A run of task ids or nonces, all remembered for `ttl`: one is new exactly
      if it is absent or empty or comes no sooner than `ttl` after every use of
      it that was new - or later than that in the nonce table. */
  lemma RepeatExactly(
    names: seq<Option<text>>, times: seq<int>, ttl: int, us: seq<Option<Use<text>>>, j: nat, late: bool)
    requires |names| == |times| == |us| && j < |us| && Ordered(us)
    requires forall i :: 0 <= i < |us| ==> us[i] == Counted(names[i], ttl, times[i])
    ensures us[j].None? <==> names[j] == None || names[j] == Some([])
    ensures us[j].Some? ==>
              (Accepts(us, j, late) <==>
                 forall i: nat :: i < j && Accepts(us, i, late) && names[i] == names[j] ==>
                   if late then times[i] + ttl < times[j] else times[i] + ttl <= times[j])
  {
    if us[j].Some? {
      Exact(us, j, late);
    }
    hide Accepts;
  }

  // ---- Dispatch tickets ----

  function Uses(o: Oracle, attempts: seq<Attempt>): (us: seq<Option<Use<text>>>)
    ensures |us| == |attempts| && forall i :: 0 <= i < |us| ==> us[i] == Reaches(o, attempts[i])
  {
    if attempts == [] then [] else [Reaches(o, attempts[0])] + Uses(o, attempts[1..])
  }

  lemma PassShape(o: Oracle, a: Attempt)
    requires JudgeAttempt(o, a).Pass?
    ensures a.claims.jti == Some(JText(JudgeAttempt(o, a).jti))
    ensures a.claims.expires_at == Some(JInt(JudgeAttempt(o, a).expiresAt)) && a.now < JudgeAttempt(o, a).expiresAt
  {
    hide Find, Excludes, Or, Safe;
  }

  /** The same claims are accepted at most once, whatever bundles, signatures
      and bindings they come with and whatever happens in between. */
  lemma SameClaimsOnce(o: Oracle, attempts: seq<Attempt>, i: nat, j: nat)
    requires forall k, l :: 0 <= k < l < |attempts| ==> attempts[k].now <= attempts[l].now
    requires i < j < |attempts| && attempts[i].claims == attempts[j].claims
    ensures !(Accepts(Uses(o, attempts), i, false) && Accepts(Uses(o, attempts), j, false))
  {
    hide Judge;
    var us := Uses(o, attempts);
    if Accepts(us, i, false) && Accepts(us, j, false) {
      PassShape(o, attempts[i]);
      PassShape(o, attempts[j]);
      AcceptedTwice(us, i, j, false);
    }
  }

  // ---- Relay bind tickets ----

  /** The ticket is checked at one reading of the clock and consumed at a later
      one; None if the check fails. */
  function Checked(jti: text, exp: int, verifiedAt: int, consumedAt: int): Option<Use<text>> {
    if exp <= verifiedAt then None else Some(Use(jti, exp, consumedAt))
  }

  /** A ticket that was consumed before is consumed again exactly when the clock
      reaches its expiry between the check and the use. */
  lemma RelayTicketAgain(us: seq<Option<Use<text>>>, i: nat, j: nat, exp: int, verifiedAt: int, consumedAt: int)
    requires Ordered(us) && i < j < |us| && Accepts(us, i, false) && us[i].value.expiry == exp
    requires forall k :: 0 <= k < j && us[k].Some? && us[k].value.name == us[i].value.name ==> us[k].value.expiry == exp
    requires us[j] == Checked(us[i].value.name, exp, verifiedAt, consumedAt)
    ensures Accepts(us, j, false) <==> verifiedAt < exp <= consumedAt
  {
    if us[j].Some? {
      Exact(us, j, false);
    }
  }

  /** The two readings can differ: one ticket admits two binds. */
  lemma RelayTicketStraddle()
    ensures var us := [Checked([7], 10, 9, 9), Checked([7], 10, 9, 10)];
            Ordered(us) && Accepts(us, 0, false) && Accepts(us, 1, false)
  {
    var us := [Checked([7], 10, 9, 9), Checked([7], 10, 9, 10)];
    assert us[..0] == [] && us[..1] == [us[0]];
    assert us[..1][..0] == [];
    assert Table([us[0]], false) == After(map[], us[0], false);
  }
}
