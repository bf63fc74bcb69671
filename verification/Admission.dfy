/** Durable single-use admission (src/dispatch_admission.ts). The table is a map
    keyed by jti; every transaction is one atomic step. Times are whole seconds. */
module Admission {
  import opened Optional

  datatype State = Accepted | Completed | Failed | Cancelled | Expired | Rejected

  predicate Terminal(s: State) { s != Accepted }

  datatype Claim = Claim(jti: string, provider: string, intent: string, notBefore: int, expiresAt: int)

  datatype Row = Row(provider: string, intent: string, state: State, expiresAt: int, consumedAt: int, updatedAt: int)

  type Table = map<string, Row>

  datatype Code =
    | Admit | RejectIssuerKey | RejectInvalidJti | RejectProviderBinding | RejectIntentBinding | RejectNotYetValid
    | RejectExpired | RejectTerminal | RejectReplay

  predicate JtiChar(c: char) {
    'A' <= c <= 'Z' || 'a' <= c <= 'z' || '0' <= c <= '9' || c in "._:-"
  }

  predicate ValidJti(jti: string) {
    16 <= |jti| <= 256 && forall c <- jti :: JtiChar(c)
  }

  function AtLeast(i: int, floor: int): int { if i < floor then floor else i }

  /** The checks on the claim alone. */
  function Screen(c: Claim, provider: string, intent: string, now: int, skew: int): Code {
    if !ValidJti(c.jti) then RejectInvalidJti
    else if c.provider != provider then RejectProviderBinding
    else if c.intent != intent then RejectIntentBinding
    else if now + AtLeast(skew, 0) < c.notBefore then RejectNotYetValid
    else if now - AtLeast(skew, 0) >= c.expiresAt then RejectExpired
    else Admit
  }

  function Consume(t: Table, c: Claim, provider: string, intent: string, now: int, skew: int): (Code, Table) {
    var screen := Screen(c, provider, intent, now, skew);
    if screen != Admit then (screen, t)
    else if c.jti in t then (if Terminal(t[c.jti].state) then RejectTerminal else RejectReplay, t)
    else (Admit, t[c.jti := Row(c.provider, c.intent, Accepted, c.expiresAt, now, now)])
  }

  /** None is the thrown range error: unsupported state, unknown jti, or
      already terminal in another state. */
  function Transition(t: Table, jti: string, s: State, now: int): Option<Table> {
    if !Terminal(s) || jti !in t || (Terminal(t[jti].state) && t[jti].state != s) then None
    else if t[jti].state == s then Some(t)
    else Some(t[jti := t[jti].(state := s, updatedAt := now)])
  }

  function Stale(t: Table, cutoff: int): set<string> {
    set j | j in t && t[j].expiresAt < cutoff
  }

  /** `gone` is a possible result of the bounded delete: as many stale rows as
      the limit allows, earliest expiry first (ties in any order). */
  ghost predicate Deletes(t: Table, gone: set<string>, now: int, retention: int, limit: int) {
    var stale := Stale(t, now - AtLeast(retention, 0));
    && gone <= stale
    && |gone| == (if |stale| <= AtLeast(limit, 1) then |stale| else AtLeast(limit, 1))
    && Before(t, gone, stale - gone)
  }

  class Store {
    var rows: Table

    constructor ()
      ensures rows == map[]
    {
      rows := map[];
    }

    method ConsumeClaim(c: Claim, provider: string, intent: string, now: int, skew: int) returns (code: Code)
      modifies this
      ensures (code, rows) == Consume(old(rows), c, provider, intent, now, skew)
      ensures rows == After(old(rows), DoConsume(c, provider, intent, now, skew))
    {
      code := Screen(c, provider, intent, now, skew);
      if code != Admit {
        return;
      }
      if c.jti in rows {
        code := if Terminal(rows[c.jti].state) then RejectTerminal else RejectReplay;
        return;
      }
      rows := rows[c.jti := Row(c.provider, c.intent, Accepted, c.expiresAt, now, now)];
    }

    /** `evaluateDispatchAdmission`: trust comes first. */
    method Evaluate(c: Claim, provider: string, intent: string, now: int, trusted: bool, skew: int) returns (code: Code)
      modifies this
      ensures !trusted ==> code == RejectIssuerKey && rows == old(rows)
      ensures trusted ==> (code, rows) == Consume(old(rows), c, provider, intent, now, skew)
    {
      if !trusted {
        return RejectIssuerKey;
      }
      code := ConsumeClaim(c, provider, intent, now, skew);
    }

    method SetTerminal(jti: string, s: State, now: int) returns (row: Option<Row>)
      modifies this
      ensures row.Some? <==> Transition(old(rows), jti, s, now).Some?
      ensures row.Some? ==> Some(rows) == Transition(old(rows), jti, s, now) && jti in rows && row == Some(rows[jti])
      ensures row.None? ==> rows == old(rows)
      ensures rows == After(old(rows), DoTransition(jti, s, now))
    {
      if !Terminal(s) || jti !in rows || (Terminal(rows[jti].state) && rows[jti].state != s) {
        return None;
      }
      if rows[jti].state != s {
        rows := rows[jti := rows[jti].(state := s, updatedAt := now)];
      }
      row := Some(rows[jti]);
    }

    method Cleanup(now: int, retention: int, limit: int) returns (changes: nat)
      modifies this
      ensures rows.Keys <= old(rows).Keys && changes == |old(rows).Keys - rows.Keys|
      ensures rows == old(rows) - (old(rows).Keys - rows.Keys)
      ensures Deletes(old(rows), old(rows).Keys - rows.Keys, now, retention, limit)
    {
      var gone := PickStale(rows, now - AtLeast(retention, 0), AtLeast(limit, 1));
      IsDeleted(rows, gone, now, retention, limit);
      Removed(rows, gone);
      hide Deletes, Stale, Before, AtLeast;
      rows, changes := rows - gone, |gone|;
    }
  }

  lemma Removed(t: Table, gone: set<string>)
    requires gone <= t.Keys
    ensures t.Keys - (t - gone).Keys == gone && (t - gone).Keys <= t.Keys
  {
  }

  lemma IsDeleted(t: Table, gone: set<string>, now: int, retention: int, limit: int)
    requires var stale := Stale(t, now - AtLeast(retention, 0));
             && gone <= stale <= t.Keys && Before(t, gone, stale - gone)
             && |gone| == if |stale| <= AtLeast(limit, 1) then |stale| else AtLeast(limit, 1)
    ensures Deletes(t, gone, now, retention, limit) && gone <= t.Keys
  {
    hide Stale, Before;
  }

  /** What a cleanup deletes, row by row. */
  lemma DeletesExactly(t: Table, gone: set<string>, now: int, retention: int, limit: int)
    ensures var cutoff := now - if retention < 0 then 0 else retention;
            var (stale, most) := (set j | j in t && t[j].expiresAt < cutoff, if limit < 1 then 1 else limit);
            Deletes(t, gone, now, retention, limit) <==>
            && gone <= stale && |gone| == (if |stale| < most then |stale| else most)
            && forall x, y :: x in gone && y in stale - gone ==> t[x].expiresAt <= t[y].expiresAt
  {
    assert Stale(t, now - AtLeast(retention, 0)) ==
           set j | j in t && t[j].expiresAt < now - if retention < 0 then 0 else retention;
    hide Stale;
  }

  predicate Before(t: Table, a: set<string>, b: set<string>)
    requires a <= t.Keys && b <= t.Keys
  {
    forall x, y :: x in a && y in b ==> t[x].expiresAt <= t[y].expiresAt
  }

  lemma MoveEarliest(t: Table, gone: set<string>, left: set<string>, j: string)
    requires gone + left <= t.Keys && gone !! left && Before(t, gone, left) && j in left && Before(t, {j}, left)
    ensures Before(t, gone + {j}, left - {j}) && gone + {j} !! left - {j}
    ensures (gone + {j}) + (left - {j}) == gone + left
    ensures |gone + {j}| == |gone| + 1 && |left - {j}| == |left| - 1
  {
    assert j in {j};
  }

  /** The first `bound` rows by expiry among those expiring before `cutoff`. */
  method PickStale(t: Table, cutoff: int, bound: nat) returns (gone: set<string>)
    ensures gone <= Stale(t, cutoff) <= t.Keys
    ensures |gone| == if |Stale(t, cutoff)| <= bound then |Stale(t, cutoff)| else bound
    ensures Before(t, gone, Stale(t, cutoff) - gone)
  {
    var left := Stale(t, cutoff);
    ghost var stale := left;
    gone := {};
    assert gone + left == stale;
    hide Before, Stale;
    NoneBefore(t, left);
    while |gone| < bound && left != {}
      invariant gone + left == stale && gone !! left && |gone| <= bound
      invariant |gone| + |left| == |stale| && Before(t, gone, left)
      decreases |left|
    {
      var j := Earliest(t, left);
      MoveEarliest(t, gone, left, j);
      gone, left := gone + {j}, left - {j};
    }
    assert left == stale - gone;
  }

  lemma NoneBefore(t: Table, b: set<string>)
    requires b <= t.Keys
    ensures Before(t, {}, b)
  {
  }

  method Earliest(t: Table, js: set<string>) returns (j: string)
    requires js != {} && js <= t.Keys
    ensures j in js && Before(t, {j}, js)
  {
    j :| j in js;
    var left := js - {j};
    while left != {}
      invariant j in js && left <= js
      invariant forall k :: k in js - left ==> t[j].expiresAt <= t[k].expiresAt
      decreases |left|
    {
      var k :| k in left;
      left := left - {k};
      if t[k].expiresAt < t[j].expiresAt {
        j := k;
      }
    }
  }

  // ---- Runs ----

  datatype Step =
    | DoConsume(claim: Claim, provider: string, intent: string, now: int, skew: int)
    | DoTransition(jti: string, state: State, now: int)
    | DoCleanup(now: int, retention: int, limit: int, gone: set<string>)

  ghost predicate Possible(t: Table, s: Step) {
    s.DoCleanup? ==> Deletes(t, s.gone, s.now, s.retention, s.limit)
  }

  ghost function After(t: Table, s: Step): Table {
    match s
    case DoConsume(c, p, i, now, skew) => Consume(t, c, p, i, now, skew).1
    case DoTransition(j, st, now) => var r := Transition(t, j, st, now); if r.Some? then r.value else t
    case DoCleanup(_, _, _, gone) => t - gone
  }

  /** Whether this step accepts exactly this claim. */
  predicate Accepts(t: Table, s: Step, c: Claim) {
    s.DoConsume? && s.claim == c && Consume(t, c, s.provider, s.intent, s.now, s.skew).0 == Admit
  }

  ghost function Acceptances(t: Table, steps: seq<Step>, c: Claim): nat
    decreases |steps|
  {
    if steps == [] then 0
    else (if Accepts(t, steps[0], c) then 1 else 0) + Acceptances(After(t, steps[0]), steps[1..], c)
  }

  ghost predicate Run(t: Table, steps: seq<Step>)
    decreases |steps|
  {
    steps == [] || (Possible(t, steps[0]) && Run(After(t, steps[0]), steps[1..]))
  }

  /** The clock never goes back. */
  predicate Ordered(steps: seq<Step>, from: int) {
    steps == [] || (from <= steps[0].now && Ordered(steps[1..], steps[0].now))
  }

  /** Every cleanup keeps rows for at least `retention`, every consume allows a
      skew of at most `skew`. */
  predicate Within(steps: seq<Step>, retention: int, skew: int) {
    forall s <- steps ::
      (s.DoCleanup? ==> AtLeast(s.retention, 0) >= retention) && (s.DoConsume? ==> AtLeast(s.skew, 0) <= skew)
  }

  /** The characters of a ticket id by their codes: A to Z, a to z, 0 to 9, full
      stop, underscore, colon and hyphen. */
  predicate Coded(c: char) {
    65 <= c as int <= 90 || 97 <= c as int <= 122 || 48 <= c as int <= 57 || c as int in {45, 46, 58, 95}
  }

  /** The exact circumstances of every answer to a claim, and what it leaves. */
  lemma ConsumeExactly(t: Table, c: Claim, provider: string, intent: string, now: int, skew: int)
    ensures var (code, t') := Consume(t, c, provider, intent, now, skew);
            var slack := if skew < 0 then 0 else skew;
            var named := 16 <= |c.jti| <= 256 && forall x <- c.jti :: Coded(x);
            var bound := c.provider == provider && c.intent == intent;
            var begun := c.notBefore <= now + slack;
            var open := now < c.expiresAt + slack;
            && (code == RejectInvalidJti <==> !named)
            && (code == RejectProviderBinding <==> named && c.provider != provider)
            && (code == RejectIntentBinding <==> named && c.provider == provider && c.intent != intent)
            && (code == RejectNotYetValid <==> named && bound && !begun)
            && (code == RejectExpired <==> named && bound && begun && !open)
            && (code == RejectReplay <==>
                  named && bound && begun && open && c.jti in t && t[c.jti].state == Accepted)
            && (code == RejectTerminal <==>
                  named && bound && begun && open && c.jti in t && t[c.jti].state != Accepted)
            && (code == Admit <==> named && bound && begun && open && c.jti !in t)
            && (code != Admit ==> t' == t)
            && (code == Admit ==>
                  && t' - {c.jti} == t && c.jti in t'
                  && t'[c.jti] == Row(provider, intent, Accepted, c.expiresAt, now, now))
  {
    assert ValidJti(c.jti) <==> 16 <= |c.jti| <= 256 && forall x <- c.jti :: Coded(x) by {
      assert forall x :: JtiChar(x) <==> Coded(x);
    }
    hide ValidJti, Coded;
  }

  /** A row moves once, from accepted to a terminal state; naming the state it
      has again changes nothing, and nothing else is possible. */
  lemma TransitionExactly(t: Table, jti: string, s: State, now: int)
    ensures var t' := Transition(t, jti, s, now);
            && (t'.Some? <==> s != Accepted && jti in t && t[jti].state in {Accepted, s})
            && (t'.Some? ==>
                  && t'.value.Keys == t.Keys && t'.value - {jti} == t - {jti} && t'.value[jti].state == s
                  && (t[jti].state == s ==> t'.value == t)
                  && (t[jti].state != s ==>
                        t'.value[jti].updatedAt == now && t'.value[jti].(state := Accepted, updatedAt := 0)
                                                          == t[jti].(updatedAt := 0)))
  {
  }

  /** From a state where the claim's row is present with its expiry, or it is
      already too late for any consume, the claim is never accepted again. */
  lemma {:induction false} NeverAgain(t: Table, steps: seq<Step>, c: Claim, from: int, retention: int, skew: int)
    requires Run(t, steps) && Ordered(steps, from) && Within(steps, retention, skew) && retention >= skew - 1
    requires (c.jti in t && t[c.jti].expiresAt == c.expiresAt) || from > c.expiresAt + retention
    ensures Acceptances(t, steps, c) == 0
    decreases |steps|
  {
    if steps != [] {
      var s, t' := steps[0], After(t, steps[0]);
      assert s in steps && forall r <- steps[1..] :: r in steps;
      hide ValidJti;
      NeverAgain(t', steps[1..], c, s.now, retention, skew);
    }
  }

  /** Single use: over any run of consumes, transitions and bounded cleanups from
      a table that does not know the jti, a claim is accepted at most once, as
      long as every retention is at least every skew less one second. */
  lemma {:induction false} SingleUse(t: Table, steps: seq<Step>, c: Claim, from: int, retention: int, skew: int)
    requires Run(t, steps) && Ordered(steps, from) && Within(steps, retention, skew) && retention >= skew - 1
    ensures Acceptances(t, steps, c) <= 1
    decreases |steps|
  {
    if steps != [] {
      var s, t' := steps[0], After(t, steps[0]);
      assert s in steps && forall r <- steps[1..] :: r in steps;
      hide ValidJti;
      if Accepts(t, s, c) {
        NeverAgain(t', steps[1..], c, s.now, retention, skew);
      } else {
        SingleUse(t', steps[1..], c, s.now, retention, skew);
      }
    }
  }

  lemma OneStep(t: Table, s: Step, rest: seq<Step>, c: Claim)
    ensures Acceptances(t, [s] + rest, c) == (if Accepts(t, s, c) then 1 else 0) + Acceptances(After(t, s), rest, c)
    ensures Run(t, [s] + rest) <==> Possible(t, s) && Run(After(t, s), rest)
    ensures forall from :: Ordered([s] + rest, from) <==> from <= s.now && Ordered(rest, s.now)
  {
    assert ([s] + rest)[1..] == rest;
  }

  /** The bound is exact: with any shorter retention, a claim that was accepted
      is accepted again after a cleanup. */
  lemma ShorterRetentionFails(c: Claim, retention: nat, skew: int)
    returns (steps: seq<Step>)
    requires ValidJti(c.jti) && c.notBefore < c.expiresAt && retention < skew - 1
    ensures Run(map[], steps) && Ordered(steps, c.expiresAt - 1) && Within(steps, retention, skew)
    ensures Acceptances(map[], steps, c) == 2
  {
    var e := c.expiresAt;
    var first := DoConsume(c, c.provider, c.intent, e - 1, skew);
    var sweep := DoCleanup(e + retention + 1, retention, 1, {c.jti});
    var again := DoConsume(c, c.provider, c.intent, e + retention + 1, skew);
    steps := [first] + ([sweep] + [again]);
    var t1 := After(map[], first);
    assert Accepts(map[], first, c) && Possible(map[], first);
    assert Possible(t1, sweep) by {
      assert Stale(t1, sweep.now - sweep.retention) == {c.jti};
    }
    var t2 := After(t1, sweep);
    assert c.jti !in t2 && Accepts(t2, again, c) && Possible(t2, again);
    hide Accepts, Possible, After, Ordered, ValidJti;
    assert [again] + [] == [again];
    OneStep(t2, again, [], c);
    OneStep(t1, sweep, [again], c);
    OneStep(map[], first, [sweep] + [again], c);
    NoStep(After(t2, again), c);
    OtherStep(t1, sweep, c);
  }

  lemma NoStep(t: Table, c: Claim)
    ensures Acceptances(t, [], c) == 0 && Run(t, []) && forall from :: Ordered([], from)
  {
  }

  lemma OtherStep(t: Table, s: Step, c: Claim)
    requires !s.DoConsume?
    ensures !Accepts(t, s, c)
  {
  }

  /** A terminal row keeps its state for as long as it is in the table. */
  lemma TerminalIsFinal(t: Table, s: Step, jti: string)
    requires Possible(t, s) && jti in t && Terminal(t[jti].state)
    ensures jti in After(t, s) ==> After(t, s)[jti].state == t[jti].state
    ensures jti !in After(t, s) ==> s.DoCleanup? && t[jti].expiresAt < s.now - AtLeast(s.retention, 0)
  {
  }
}
