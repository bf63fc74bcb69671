/** The one session registry that both relay transports share: RELAY_BIND over
    TCP (src/relay_session.ts) and HTTP long-poll (src/node.ts). */
module RelayRegistry {
  import opened Optional
  import opened Picking
  import Sorting
  import RateWindow
  import ReplayCache

  type Name = int

  const RATE_WINDOW: nat := 60_000

  datatype Config = Config(max: nat, rateLimit: nat, liveness: int)

  /** One session ever made; its number stands for its identity and, for a
      long-poll session, for its bearer token. */
  datatype Info = Info(worker: Name, http: bool, down: bool, lastPull: int)

  predicate Alive(i: Info, now: int, liveness: int) {
    !i.down && (i.http ==> now - i.lastPull < liveness)
  }

  datatype Claims = Claims(jti: Sorting.text, exp: int)

  /** `verified` is the answer of the signature check, asked only if a ticket
      is presented and a key is configured. */
  datatype Gate = Gate(presented: bool, hasKey: bool, required: bool, verified: Option<Claims>)

  datatype BindRequest = BindRequest(
    worker: Name, http: bool, source: string, gate: Gate, now: int, consumedAt: int)

  datatype Refusal = TicketInvalid | TicketRequired | AliveSession | RateLimited | AtCapacity | TicketReplayed

  datatype Relay = Relay(
    registry: map<Name, nat>, infos: seq<Info>, buckets: RateWindow.Table, seen: map<Sorting.text, int>)

  function Gated(g: Gate): Option<Refusal> {
    if g.presented && g.hasKey then (if g.verified.None? then Some(TicketInvalid) else None)
    else if g.required then Some(TicketRequired)
    else None
  }

  function TicketUse(b: BindRequest): Option<ReplayCache.Use<Sorting.text>> {
    if b.gate.presented && b.gate.hasKey && b.gate.verified.Some?
    then Some(ReplayCache.Use(b.gate.verified.value.jti, b.gate.verified.value.exp, b.consumedAt))
    else None
  }

  /** The checks that read the registry, in order, up to the ticket. */
  function Screened(c: Config, s: Relay, b: BindRequest): Option<Refusal> {
    var known := b.worker in s.registry;
    if known && s.registry[b.worker] < |s.infos| && Alive(s.infos[s.registry[b.worker]], b.now, c.liveness)
    then Some(AliveSession)
    else if !known && c.rateLimit > 0 && RateWindow.Touch(s.buckets, b.source, b.now, RATE_WINDOW).count > c.rateLimit
    then Some(RateLimited)
    else if !known && |s.registry| >= c.max then Some(AtCapacity)
    else None
  }

  function Decision(c: Config, s: Relay, b: BindRequest): Option<Refusal> {
    if Gated(b.gate).Some? then Gated(b.gate)
    else if Screened(c, s, b).Some? then Screened(c, s, b)
    else if TicketUse(b).Some? && !ReplayCache.Fresh(s.seen, TicketUse(b).value, false) then Some(TicketReplayed)
    else None
  }

  /** Only a first bind is counted against its source, unless its worker is
      alive, which is found out before. */
  function Counted(c: Config, s: Relay, b: BindRequest): Relay {
    if b.worker in s.registry || c.rateLimit == 0 then s
    else
      var full := s.buckets[b.source := RateWindow.Touch(s.buckets, b.source, b.now, RATE_WINDOW)];
      s.(buckets := RateWindow.Prune(full, b.now, RATE_WINDOW))
  }

  function Added(s: Relay, b: BindRequest): Relay {
    s.(registry := s.registry[b.worker := |s.infos|], infos := s.infos + [Info(b.worker, b.http, false, b.now)])
  }

  function Bind(c: Config, s: Relay, b: BindRequest): Relay {
    if Gated(b.gate).Some? then s
    else
      var t := Counted(c, s, b);
      if Screened(c, s, b).Some? then t
      else
        var u := t.(seen := ReplayCache.After(t.seen, TicketUse(b), false));
        if Decision(c, s, b).Some? then u else Added(u, b)
  }

  /** Session `id` is the one registered for its worker. */
  predicate Registered(s: Relay, id: nat) {
    id < |s.infos| && s.infos[id].worker in s.registry && s.registry[s.infos[id].worker] == id
  }

  function Dropped(s: Relay, id: nat): Relay
    requires id < |s.infos|
  {
    if Registered(s, id) then s.(registry := s.registry - {s.infos[id].worker}) else s
  }

  function Down(s: Relay, id: nat): Relay {
    if id < |s.infos| then s.(infos := s.infos[id := s.infos[id].(down := true)]) else s
  }

  /** The end of a TCP session's handler. */
  function Teardown(s: Relay, id: nat): Relay {
    if id < |s.infos| then Down(Dropped(s, id), id) else s
  }

  /** A bearer token is good while its session is registered. */
  predicate Authorised(s: Relay, token: nat) {
    Registered(s, token) && s.infos[token].http
  }

  function Unbind(s: Relay, token: nat): Relay {
    if Authorised(s, token) then Down(Dropped(s, token), token) else s
  }

  function Pulled(s: Relay, id: nat, now: int): Relay {
    if id < |s.infos| then s.(infos := s.infos[id := s.infos[id].(lastPull := now)]) else s
  }

  // ---- The registry as it runs ----

  class RelaySession {
    const id: nat
    const workerId: Name
    const http: bool
    var down: bool
    var lastPull: int

    constructor (id: nat, workerId: Name, http: bool, now: int)
      ensures this.id == id && View() == Info(workerId, http, false, now)
    {
      this.id, this.workerId, this.http, down, lastPull := id, workerId, http, false, now;
    }

    function View(): Info
      reads this
    {
      Info(workerId, http, down, lastPull)
    }

    predicate IsAlive(now: int, liveness: int)
      reads this
    {
      !down && (!http || now - lastPull < liveness)
    }
  }

  class RelaySessionRegistry {
    const config: Config
    const limiter: RateWindow.Limiter
    const cache: ReplayCache.RelayBindTicketReplayCache
    var sessions: map<Name, RelaySession>
    /** Every session ever made, by number. */
    ghost var made: seq<RelaySession>
    var count: nat

    constructor (config: Config)
      ensures Valid() && this.config == config && View() == Relay(map[], [], map[], map[])
    {
      this.config := config;
      limiter := new RateWindow.Limiter(config.rateLimit, RATE_WINDOW);
      cache := new ReplayCache.RelayBindTicketReplayCache();
      sessions, made, count := map[], [], 0;
    }

    ghost predicate Valid()
      reads this
    {
      && limiter.limit == config.rateLimit && limiter.window == RATE_WINDOW
      && count == |made|
      && (forall i :: 0 <= i < |made| ==> made[i].id == i)
      && (forall w :: w in sessions ==> Made(sessions[w]) && sessions[w].workerId == w)
    }

    ghost predicate Made(s: RelaySession)
      reads this
    {
      s.id < |made| && made[s.id] == s
    }

    ghost function View(): Relay
      reads this, limiter, cache, made
    {
      Relay(map w | w in sessions :: sessions[w].id,
            seq(|made|, i requires 0 <= i < |made| reads this, made => made[i].View()),
            limiter.buckets, cache.seen)
    }

    method Screen(b: BindRequest) returns (refusal: Option<Refusal>)
      requires Valid()
      modifies limiter
      ensures Valid() && View() == Counted(config, old(View()), b) && refusal == Screened(config, old(View()), b)
    {
      hide RateWindow.Prune, RateWindow.Touch;
      assert View().registry.Keys == sessions.Keys;
      if b.worker in sessions && sessions[b.worker].IsAlive(b.now, config.liveness) {
        return Some(AliveSession);
      }
      var allowed := limiter.AllowBind(b.source, b.worker in sessions, b.now);
      if !allowed {
        return Some(RateLimited);
      }
      if b.worker !in sessions && |sessions| >= config.max {
        return Some(AtCapacity);
      }
      refusal := None;
    }

    method Install(b: BindRequest) returns (session: RelaySession)
      requires Valid()
      modifies this
      ensures Valid() && View() == Added(old(View()), b)
      ensures fresh(session) && b.worker in sessions && sessions[b.worker] == session && made == old(made) + [session]
    {
      session := new RelaySession(count, b.worker, b.http, b.now);
      sessions, made, count := sessions[b.worker := session], made + [session], count + 1;
    }

    /** The bind sequence, the same for either transport. */
    method HandleBind(b: BindRequest) returns (session: RelaySession?, refusal: Option<Refusal>)
      requires Valid()
      modifies this, limiter, cache
      ensures Valid() && View() == Bind(config, old(View()), b)
      ensures refusal == Decision(config, old(View()), b)
      ensures session != null <==> refusal.None?
      ensures session != null ==> fresh(session) && b.worker in sessions && sessions[b.worker] == session
      ensures made == if session == null then old(made) else old(made) + [session]
    {
      hide Counted, Screened, Added, ReplayCache.Fresh, ReplayCache.Evict;
      session := null;
      refusal := Gated(b.gate);
      if refusal.Some? {
        return;
      }
      refusal := Screen(b);
      if refusal.Some? {
        return;
      }
      ghost var t := View();
      if b.gate.presented && b.gate.hasKey {
        var claims := b.gate.verified.value;
        var isNew := cache.Consume(claims.jti, claims.exp, b.consumedAt);
        assert View() == t.(seen := cache.seen);
        if !isNew {
          return null, Some(TicketReplayed);
        }
      }
      session := Install(b);
    }

    /** `getByToken`: the long-poll session registered under this bearer token. */
    method GetByToken(token: Option<nat>) returns (session: RelaySession?)
      requires Valid()
      ensures session != null ==> token == Some(session.id) && Made(session) && Authorised(View(), session.id)
      ensures session == null ==> token.None? || !Authorised(View(), token.value)
    {
      session := null;
      if token.None? {
        return;
      }
      var todo := sessions.Keys;
      while todo != {}
        invariant todo <= sessions.Keys
        invariant forall w :: w in sessions && w !in todo ==> !(sessions[w].http && sessions[w].id == token.value)
        decreases |todo|
      {
        var w := AnyOf(todo);
        todo := todo - {w};
        if sessions[w].http && sessions[w].id == token.value {
          return sessions[w];
        }
      }
    }

    /** Forget a worker's session and end it: the common part of teardown and
        authenticated unbind. */
    method Forget(session: RelaySession)
      requires Valid() && Made(session)
      requires session.workerId in sessions && sessions[session.workerId] == session
      modifies this, session
      ensures Valid() && View() == Down(Dropped(old(View()), session.id), session.id) && made == old(made)
    {
      assert forall i :: 0 <= i < |made| && made[i] == session ==> i == session.id;
      sessions := sessions - {session.workerId};
      session.down := true;
    }

    method HandlerEnds(session: RelaySession)
      requires Valid() && Made(session)
      modifies this, session
      ensures Valid() && View() == Teardown(old(View()), session.id) && made == old(made)
    {
      if session.workerId in sessions && sessions[session.workerId] == session {
        Forget(session);
      } else {
        assert !Registered(View(), session.id);
        SetDown(session);
      }
    }

    /** The socket dies before its handler notices. */
    method SetDown(session: RelaySession)
      requires Valid() && Made(session)
      modifies session
      ensures Valid() && View() == Down(old(View()), session.id)
    {
      assert forall i :: 0 <= i < |made| && made[i] == session ==> i == session.id;
      session.down := true;
    }

    method HandleUnbind(token: Option<nat>) returns (ok: bool)
      requires Valid()
      modifies this, made
      ensures Valid() && made == old(made)
      ensures ok <==> token.Some? && Authorised(old(View()), token.value)
      ensures View() == if token.Some? then Unbind(old(View()), token.value) else old(View())
    {
      var session := GetByToken(token);
      ok := session != null;
      if ok {
        Forget(session);
      }
    }

    /** A poll that begins, or is answered, or runs out. */
    method Touched(session: RelaySession, now: int)
      requires Valid() && Made(session)
      modifies session
      ensures Valid() && View() == Pulled(old(View()), session.id, now)
    {
      assert forall i :: 0 <= i < |made| && made[i] == session ==> i == session.id;
      session.lastPull := now;
    }
  }

  // ---- Runs ----

  /** Binds of both transports, socket deaths, handler ends, authenticated
      unbinds and polls, in any order. */
  datatype Step =
    | DoBind(request: BindRequest)
    | DoDown(session: nat)
    | DoTeardown(session: nat)
    | DoUnbind(token: nat)
    | DoPull(session: nat, now: int)

  function After(c: Config, s: Relay, step: Step): Relay {
    match step
    case DoBind(b) => Bind(c, s, b)
    case DoDown(id) => Down(s, id)
    case DoTeardown(id) => Teardown(s, id)
    case DoUnbind(token) => Unbind(s, token)
    case DoPull(id, now) => Pulled(s, id, now)
  }

  ghost predicate Inv(c: Config, s: Relay) {
    && |s.registry| <= c.max
    && forall w :: w in s.registry ==> s.registry[w] < |s.infos| && s.infos[s.registry[w]].worker == w
  }

  lemma AddedInv(c: Config, s: Relay, b: BindRequest)
    requires Inv(c, s) && (b.worker in s.registry || |s.registry| < c.max)
    ensures Inv(c, Added(s, b))
  {
    var t := Added(s, b);
    forall w | w in t.registry ensures t.registry[w] < |t.infos| && t.infos[t.registry[w]].worker == w {
      if w != b.worker {
        assert w in s.registry && t.registry[w] == s.registry[w];
      }
    }
  }

  lemma BindInv(c: Config, s: Relay, b: BindRequest)
    requires Inv(c, s)
    ensures Inv(c, Bind(c, s, b))
  {
    var t := Counted(c, s, b);
    var u := t.(seen := ReplayCache.After(t.seen, TicketUse(b), false));
    if Decision(c, s, b).None? {
      AddedInv(c, u, b);
    }
    hide Added, RateWindow.Prune, RateWindow.Touch, ReplayCache.After, ReplayCache.Fresh, TicketUse, Gated, Alive;
  }

  lemma Smaller(m: map<Name, nat>, w: Name)
    requires w in m
    ensures |m - {w}| < |m|
  {
    assert (m - {w}).Keys == m.Keys - {w};
  }

  lemma DroppedInv(c: Config, s: Relay, id: nat)
    requires Inv(c, s) && id < |s.infos|
    ensures Inv(c, Down(Dropped(s, id), id))
  {
    if Registered(s, id) {
      Smaller(s.registry, s.infos[id].worker);
    }
  }

  lemma InvAfter(c: Config, s: Relay, step: Step)
    requires Inv(c, s)
    ensures Inv(c, After(c, s, step))
  {
    hide Bind, Down, Dropped;
    match step
    case DoBind(b) => BindInv(c, s, b);
    case DoTeardown(id) => if id < |s.infos| { DroppedInv(c, s, id); }
    case DoUnbind(id) => if id < |s.infos| { DroppedInv(c, s, id); }
    case DoDown(id) => DownInv(c, s, id);
    case DoPull(id, now) =>
  }

  lemma DownInv(c: Config, s: Relay, id: nat)
    requires Inv(c, s)
    ensures Inv(c, Down(s, id))
  {
  }

  function RunSteps(c: Config, s: Relay, steps: seq<Step>): Relay {
    if steps == [] then s else After(c, RunSteps(c, s, steps[..|steps| - 1]), steps[|steps| - 1])
  }

  /** The session count never exceeds the cap. */
  lemma {:induction false} CapKept(c: Config, s: Relay, steps: seq<Step>)
    requires Inv(c, s)
    ensures Inv(c, RunSteps(c, s, steps)) && |RunSteps(c, s, steps).registry| <= c.max
  {
    hide After;
    if steps != [] {
      CapKept(c, s, steps[..|steps| - 1]);
      InvAfter(c, RunSteps(c, s, steps[..|steps| - 1]), steps[|steps| - 1]);
    }
  }

  /** Exactly how a session leaves the registry: a bind of its worker while it
      is not alive, the end of its own handler, or its own token. */
  predicate Leaves(c: Config, s: Relay, step: Step, id: nat)
    requires id < |s.infos|
  {
    match step
    case DoBind(b) =>
      b.worker == s.infos[id].worker && !Alive(s.infos[id], b.now, c.liveness) && Decision(c, s, b).None?
    case DoTeardown(session) => session == id
    case DoUnbind(token) => token == id && s.infos[id].http
    case _ => false
  }

  lemma EntryLeaves(c: Config, s: Relay, step: Step, id: nat)
    requires Inv(c, s) && Registered(s, id)
    ensures Registered(After(c, s, step), id) <==> !Leaves(c, s, step, id)
  {
    hide RateWindow.Prune, RateWindow.Touch, ReplayCache.After, ReplayCache.Fresh, Alive, TicketUse;
  }

  /** The exact circumstances of every answer to a bind. */
  lemma DecisionExactly(c: Config, s: Relay, b: BindRequest)
    requires Inv(c, s)
    ensures var (d, g, known) := (Decision(c, s, b), b.gate, b.worker in s.registry);
            var ticketed := g.presented && g.hasKey;
            var gate := if ticketed then g.verified.Some? else !g.required;
            var info := if known then s.infos[s.registry[b.worker]] else Info(b.worker, false, true, 0);
            var live := !info.down && (!info.http || b.now < info.lastPull + c.liveness);
            var counted := RateWindow.Touch(s.buckets, b.source, b.now, 60_000).count;
            var tooFast := !known && c.rateLimit > 0 && counted > c.rateLimit;
            var full := !known && |s.registry| >= c.max;
            && (d == Some(TicketInvalid) <==> ticketed && g.verified.None?)
            && (d == Some(TicketRequired) <==> !ticketed && g.required)
            && (d == Some(AliveSession) <==> gate && live)
            && (d == Some(RateLimited) <==> gate && !live && tooFast)
            && (d == Some(AtCapacity) <==> gate && !live && !tooFast && full)
            && (d == Some(TicketReplayed) <==>
                  gate && !live && !tooFast && !full && ticketed
                  && g.verified.value.jti in s.seen && b.consumedAt < s.seen[g.verified.value.jti])
  {
    hide RateWindow.Touch;
  }

  /** A worker whose session is dead is always let back in: no rate limit and
      no cap stands in the way, only the ticket. */
  lemma ReconnectAdmitted(c: Config, s: Relay, b: BindRequest)
    requires Inv(c, s) && b.worker in s.registry && !Alive(s.infos[s.registry[b.worker]], b.now, c.liveness)
    requires Gated(b.gate).None? && (TicketUse(b).Some? ==> ReplayCache.Fresh(s.seen, TicketUse(b).value, false))
    ensures Decision(c, s, b).None? && Bind(c, s, b).registry[b.worker] == |s.infos|
    ensures forall w :: w in s.registry && w != b.worker ==>
                          w in Bind(c, s, b).registry && Bind(c, s, b).registry[w] == s.registry[w]
  {
  }

  /** A refused bind leaves every session as it was, and only a bind that
      passes every other check uses up its ticket. */
  lemma RefusedBind(c: Config, s: Relay, b: BindRequest)
    requires Decision(c, s, b).Some?
    ensures Bind(c, s, b).registry == s.registry && Bind(c, s, b).infos == s.infos
    ensures Bind(c, s, b).seen != s.seen ==> Decision(c, s, b) == Some(TicketReplayed)
  {
    hide RateWindow.Prune, RateWindow.Touch;
  }

  // ---- One ticket, one session ----

  function Reached(c: Config, s: Relay, step: Step): Option<ReplayCache.Use<Sorting.text>> {
    if step.DoBind? && Gated(step.request.gate).None? && Screened(c, s, step.request).None?
    then TicketUse(step.request) else None
  }

  function Uses(c: Config, s: Relay, steps: seq<Step>): (us: seq<Option<ReplayCache.Use<Sorting.text>>>)
    ensures |us| == |steps|
  {
    if steps == [] then []
    else
      var prev := steps[..|steps| - 1];
      Uses(c, s, prev) + [Reached(c, RunSteps(c, s, prev), steps[|steps| - 1])]
  }

  lemma SeenAfter(c: Config, s: Relay, step: Step)
    ensures After(c, s, step).seen == ReplayCache.After(s.seen, Reached(c, s, step), false)
  {
    hide RateWindow.Prune, RateWindow.Touch, ReplayCache.Evict, Alive;
  }

  lemma {:induction false} SeenIsTable(c: Config, s: Relay, steps: seq<Step>)
    requires s.seen == map[]
    ensures RunSteps(c, s, steps).seen == ReplayCache.Table(Uses(c, s, steps), false)
  {
    hide After, Reached, ReplayCache.After;
    if steps != [] {
      var n, prev := |steps| - 1, steps[..|steps| - 1];
      SeenIsTable(c, s, prev);
      SeenAfter(c, RunSteps(c, s, prev), steps[n]);
      assert Uses(c, s, steps)[..n] == Uses(c, s, prev);
    }
  }

  lemma {:induction false} UsesAt(c: Config, s: Relay, steps: seq<Step>, i: nat)
    requires i < |steps|
    ensures Uses(c, s, steps)[i] == Reached(c, RunSteps(c, s, steps[..i]), steps[i])
    ensures Uses(c, s, steps)[..i] == Uses(c, s, steps[..i])
  {
    hide After, Reached;
    var n, prev := |steps| - 1, steps[..|steps| - 1];
    if i < n {
      UsesAt(c, s, prev, i);
      assert prev[..i] == steps[..i];
      assert Uses(c, s, steps)[..i] == Uses(c, s, prev)[..i];
    }
  }

  /** Step `i` of the run is a bind that is let in with a ticket. */
  predicate AdmittedWith(c: Config, s: Relay, steps: seq<Step>, i: nat, claims: Claims)
    requires i < |steps|
  {
    && steps[i].DoBind? && Decision(c, RunSteps(c, s, steps[..i]), steps[i].request).None?
    && steps[i].request.gate.presented && steps[i].request.gate.hasKey
    && steps[i].request.gate.verified == Some(claims)
  }

  /** A ticket lets in one session, over both transports together: a second one
      only if it is consumed at or after its own expiry. */
  lemma OneTicketOneSession(c: Config, s: Relay, steps: seq<Step>, i: nat, j: nat, claims: Claims)
    requires s.seen == map[] && ReplayCache.Ordered(Uses(c, s, steps)) && i < j < |steps|
    requires AdmittedWith(c, s, steps, i, claims) && AdmittedWith(c, s, steps, j, claims)
    ensures steps[j].request.consumedAt >= claims.exp
  {
    var us := Uses(c, s, steps);
    forall k | k == i || k == j
      ensures us[k].Some? && ReplayCache.Accepts(us, k, false) && us[k] == TicketUse(steps[k].request) {
      UsesAt(c, s, steps, k);
      SeenIsTable(c, s, steps[..k]);
    }
    hide Decision, RunSteps, Uses, ReplayCache.Accepts;
    ReplayCache.AcceptedTwice(us, i, j, false);
  }
}
