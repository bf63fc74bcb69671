/** The trust store's files (src/dispatch_ticket_trust.ts): lock, temporary file
    and rename, run by any number of processes that may crash at any point. */
module TrustStore {
  import opened Optional
  import opened Framing
  import opened TrustBundle

  datatype Op =
    | Install(bundle: Bundle, expected: Option<int>)
    | Recover(bundle: Bundle, minimum: Option<int>)   // with a non-blank reason

  datatype Status = Installed | Unchanged | Stale | Conflict | Recovered | RecoveryRequired | Failed | Locked

  /** What an operation does once it has read the file: answer at once (Failed is
      a thrown error), or write a bundle with a high-water mark. */
  datatype Plan = Answer(status: Status) | Write(bundle: Bundle, highWater: int, status: Status)

  function Max(a: int, b: int): int { if a < b then b else a }

  function Current(f: Format, file: Option<seq<byte>>): Option<Stored> {
    if file.None? then None else Load(f, file.value)
  }

  predicate Corrupt(f: Format, file: Option<seq<byte>>) {
    file.Some? && Load(f, file.value).None?
  }

  function HighWater(f: Format, file: Option<seq<byte>>): int {
    var cur := Current(f, file);
    if cur.Some? then cur.value.highWater else 0
  }

  function Commit(b: Bundle, highWater: int, status: Status): Plan {
    if Committable(b, highWater) then Write(b, highWater, status) else Answer(Failed)
  }

  function PlanOf(f: Format, file: Option<seq<byte>>, op: Op): Plan {
    var cur, b := Current(f, file), op.bundle;
    match op
    case Install(_, expected) =>
      if Corrupt(f, file) then Answer(Failed)
      else if expected.Some? && (cur.None? || expected.value != cur.value.bundle.version) then Answer(Conflict)
      else
        var high := HighWater(f, file);
        if b.version < high then Answer(Stale)
        else if cur.Some? && b.version == cur.value.bundle.version then
          Answer(if f.digest(f.Canonical(b)) == cur.value.digest then Unchanged else Conflict)
        else Commit(b, Max(high, b.version), Installed)
    case Recover(_, minimum) =>
      var floor := if minimum.Some? then minimum.value else 0;
      Commit(b, Max(Max(b.version, floor), HighWater(f, file)), Recovered)
  }

  /** The check before the lock is taken. */
  predicate Startable(op: Op) { 0 <= op.bundle.version <= MAX_SAFE }

  class FileStore {
    const format: Format
    var lockExists: bool
    var file: Option<seq<byte>>
    var temporary: Option<seq<byte>>

    constructor (format: Format, file: Option<seq<byte>>)
      ensures this.format == format && this.file == file && !lockExists && temporary == None
    {
      this.format, this.file, lockExists, temporary := format, file, false, None;
    }

    /** `install` and `recover` without interference. A held lock is never
        taken over; otherwise the lock and the temporary file are gone again. */
    method Perform(op: Op, reasonBlank: bool) returns (status: Status)
      requires temporary == None
      modifies this
      ensures temporary == None && lockExists == old(lockExists)
      ensures status ==
              if !(0 <= op.bundle.version <= 9_007_199_254_740_991) then Failed
              else if op.Recover? && reasonBlank then RecoveryRequired
              else if old(lockExists) then Locked
              else PlanOf(format, old(file), op).status
      ensures file ==
              if Startable(op) && !(op.Recover? && reasonBlank) && !old(lockExists)
                 && PlanOf(format, old(file), op).Write?
              then Some(CommitBytes(format, op.bundle, PlanOf(format, old(file), op).highWater))
              else old(file)
    {
      hide Load, CommitBytes;
      if !Startable(op) {
        return Failed;
      }
      if op.Recover? && reasonBlank {
        return RecoveryRequired;
      }
      if lockExists {
        return Locked;
      }
      lockExists := true;
      var plan := PlanOf(format, file, op);
      if plan.Write? {
        temporary := Some(CommitBytes(format, plan.bundle, plan.highWater));
        file, temporary := temporary, None;
      }
      lockExists := false;
      status := plan.status;
    }
  }

  // ---- What one operation does to the marks ----

  /** An installation strictly raises the version it replaces, to at least the
      old high-water mark, which it never lowers. */
  lemma InstallRaises(f: Format, file: Option<seq<byte>>, op: Op)
    requires op.Install? && PlanOf(f, file, op).Write?
    ensures var (p, cur) := (PlanOf(f, file, op), Current(f, file));
            && p.status == Installed && p.bundle == op.bundle && !Corrupt(f, file)
            && Committable(p.bundle, p.highWater)
            && (cur.Some? ==> op.bundle.version > cur.value.bundle.version)
            && p.highWater == op.bundle.version >= HighWater(f, file)
  {
    if file.Some? {
      LoadedIsLegal(f, file.value);
    }
  }

  lemma RecoverKeepsMark(f: Format, file: Option<seq<byte>>, op: Op)
    requires op.Recover? && PlanOf(f, file, op).Write?
    ensures var p := PlanOf(f, file, op);
            && p.status == Recovered && p.bundle == op.bundle && Committable(p.bundle, p.highWater)
            && p.highWater >= HighWater(f, file) && (op.minimum.Some? ==> p.highWater >= op.minimum.value)
  {
  }

  /** A recovery is written over any file, whether it loads or not and however
      low its own version is, with the highest of its version, the mark asked
      for and the mark in force, unless that is no longer a safe integer. */
  lemma RecoverExactly(f: Format, file: Option<seq<byte>>, op: Op)
    requires op.Recover? && Startable(op)
    ensures var (p, mark) := (PlanOf(f, file, op), HighWater(f, file));
            var asked := if op.minimum.Some? then op.minimum.value else 0;
            && (p.Write? <==> asked <= 9_007_199_254_740_991)
            && (p.Write? ==>
                  && p.bundle == op.bundle && p.status == Recovered
                  && p.highWater in {op.bundle.version, asked, mark}
                  && op.bundle.version <= p.highWater && asked <= p.highWater && mark <= p.highWater)
            && (!p.Write? ==> p == Answer(Failed))
  {
    if file.Some? {
      LoadedIsLegal(f, file.value);
    }
    hide Load, Format.Canonical, Format.Sound;
  }

  /** The exact circumstances of every answer to an installation. */
  lemma InstallRefusals(f: Format, file: Option<seq<byte>>, op: Op)
    requires op.Install? && Startable(op)
    ensures var (p, cur, v) := (PlanOf(f, file, op), Current(f, file), op.bundle.version);
            var expectedMet := op.expected.None? || (cur.Some? && op.expected.value == cur.value.bundle.version);
            var same := cur.Some? && v == cur.value.bundle.version >= HighWater(f, file);
            var sameDigest := cur.Some? && f.digest(f.Canonical(op.bundle)) == cur.value.digest;
            && (p == Answer(Failed) <==> Corrupt(f, file))
            && (p == Answer(Stale) <==> !Corrupt(f, file) && expectedMet && v < HighWater(f, file))
            && (p == Answer(Unchanged) <==> !Corrupt(f, file) && expectedMet && same && sameDigest)
            && (p == Answer(Conflict) <==> !Corrupt(f, file) && (!expectedMet || (same && !sameDigest)))
            && (p.Write? <==> !Corrupt(f, file) && expectedMet && v >= HighWater(f, file)
                              && (cur.Some? ==> v != cur.value.bundle.version))
  {
    if file.Some? {
      LoadedIsLegal(f, file.value);
    }
    hide Load, Format.Canonical, Format.Sound;
  }

  // ---- Processes ----

  datatype Phase =
    | Idle
    | Holding(op: Op)                                       // lock file created
    | Writing(op: Op, target: seq<byte>, written: nat)      // temporary file holds target[..written]
    | Releasing(op: Op, status: Status)
    | Crashed

  predicate InLock(p: Phase) { p.Holding? || p.Writing? || p.Releasing? }

  /** `lock` is the pid in the lock file. */
  datatype World = World(lock: Option<nat>, file: Option<seq<byte>>, procs: map<nat, Phase>)

  datatype Step =
    | Acquire(pid: nat, op: Op)
    | Read(pid: nat)
    | WriteTo(pid: nat, n: nat)
    | Rename(pid: nat)
    | Release(pid: nat)
    | Crash(pid: nat)
    | ClearStaleLock(pid: nat)    // an operator removes the lock file of a crashed process

  predicate Enabled(w: World, s: Step) {
    s.pid in w.procs &&
    var p := w.procs[s.pid];
    match s
    case Acquire(_, op) => p.Idle? && w.lock.None? && Startable(op)
    case Read(_) => p.Holding?
    case WriteTo(_, n) => p.Writing? && p.written <= n <= |p.target|
    case Rename(_) => p.Writing? && p.written == |p.target|
    case Release(_) => p.Releasing?
    case Crash(_) => !p.Crashed?
    case ClearStaleLock(_) => p.Crashed? && w.lock == Some(s.pid)
  }

  /** Release unlinks the lock file without looking whose it is. */
  function Next(f: Format, w: World, s: Step): World
    requires Enabled(w, s)
  {
    var p := w.procs[s.pid];
    match s
    case Acquire(pid, op) => w.(lock := Some(pid), procs := w.procs[pid := Holding(op)])
    case Read(pid) =>
      var plan := PlanOf(f, w.file, p.op);
      w.(procs := w.procs[pid :=
        if plan.Write? then Writing(p.op, CommitBytes(f, plan.bundle, plan.highWater), 0)
        else Releasing(p.op, plan.status)])
    case WriteTo(pid, n) => w.(procs := w.procs[pid := p.(written := n)])
    case Rename(pid) =>
      w.(file := Some(p.target[..p.written]),
         procs := w.procs[pid := Releasing(p.op, if p.op.Install? then Installed else Recovered)])
    case Release(pid) => w.(lock := None, procs := w.procs[pid := Idle])
    case Crash(pid) => w.(procs := w.procs[pid := Crashed])
    case ClearStaleLock(_) => w.(lock := None)
  }

  /** At most one process is inside the lock, a live one holding it cannot be
      displaced, and what it is about to write still answers the current file. */
  ghost predicate Inv(f: Format, w: World) {
    && (forall i :: i in w.procs && InLock(w.procs[i]) ==> w.lock == Some(i))
    && (w.lock.Some? ==> w.lock.value in w.procs && (InLock(w.procs[w.lock.value]) || w.procs[w.lock.value].Crashed?))
    && (forall i :: i in w.procs && w.procs[i].Writing? ==>
          var (p, plan) := (w.procs[i], PlanOf(f, w.file, w.procs[i].op));
          plan.Write? && p.target == CommitBytes(f, plan.bundle, plan.highWater) && p.written <= |p.target|)
  }

  lemma InvNext(f: Format, w: World, s: Step)
    requires Inv(f, w) && Enabled(w, s)
    ensures Inv(f, Next(f, w, s))
  {
    hide PlanOf, CommitBytes;
  }

  lemma AtMostOneInside(f: Format, w: World, i: nat, j: nat)
    requires Inv(f, w) && i in w.procs && j in w.procs && InLock(w.procs[i]) && InLock(w.procs[j])
    ensures i == j
  {
  }

  /** The lock of a crashed process stays, whatever anybody does, until it is
      cleared by hand; then, and only then, another operation can begin. */
  lemma StaleLockStays(f: Format, w: World, s: Step, pid: nat, other: nat, op: Op)
    requires Inv(f, w) && pid in w.procs && w.lock == Some(pid) && w.procs[pid].Crashed? && Enabled(w, s)
    requires other in w.procs && w.procs[other].Idle? && 0 <= op.bundle.version <= 9_007_199_254_740_991
    ensures !Enabled(w, Acquire(other, op)) && Enabled(w, ClearStaleLock(pid))
    ensures Enabled(Next(f, w, ClearStaleLock(pid)), Acquire(other, op))
    ensures var w' := Next(f, w, s); s != ClearStaleLock(pid) ==> w'.lock == Some(pid) && w'.file == w.file
    ensures Next(f, w, ClearStaleLock(pid)).file == w.file
  {
    hide PlanOf, CommitBytes;
  }

  /** A process may crash at any point, and leaves lock and file as they are. */
  lemma CrashLeavesLock(f: Format, w: World, pid: nat)
    requires pid in w.procs && !w.procs[pid].Crashed?
    ensures Enabled(w, Crash(pid))
    ensures var w' := Next(f, w, Crash(pid));
            w'.procs == w.procs[pid := Crashed] && w'.lock == w.lock && w'.file == w.file
  {
  }

  /** A step changes the stored file only by renaming a complete temporary file
      over it: the whole old state or the whole new one. The new one is what the
      operation planned on the very file it replaces. */
  lemma FileChangesWhole(f: Format, w: World, s: Step)
    requires Inv(f, w) && Enabled(w, s)
    ensures var w' := Next(f, w, s);
            w'.file != w.file ==>
              && s.Rename? && w.lock == Some(s.pid)
              && var plan := PlanOf(f, w.file, w.procs[s.pid].op);
                 plan.Write? && w'.file == Some(CommitBytes(f, plan.bundle, plan.highWater))
                 && w'.procs[s.pid] == Releasing(w.procs[s.pid].op, plan.status)
  {
    hide PlanOf, CommitBytes;
    if s.Rename? {
      var p := w.procs[s.pid];
      if p.op.Install? {
        InstallRaises(f, w.file, p.op);
      } else {
        RecoverKeepsMark(f, w.file, p.op);
      }
      assert p.target[..p.written] == p.target;
    }
  }

  function Run(f: Format, w: World, steps: seq<Step>): Option<World>
    decreases |steps|
  {
    if steps == [] then Some(w)
    else if Enabled(w, steps[0]) then Run(f, Next(f, w, steps[0]), steps[1..])
    else None
  }

  /** No state of the run has a file that cannot be loaded. */
  predicate NeverCorrupt(f: Format, w: World, steps: seq<Step>)
    decreases |steps|
  {
    !Corrupt(f, w.file) &&
    (steps != [] && Enabled(w, steps[0]) ==> NeverCorrupt(f, Next(f, w, steps[0]), steps[1..]))
  }

  lemma MarkAfterStep(f: Format, w: World, s: Step)
    requires f.Sound() && Inv(f, w) && Enabled(w, s) && !Corrupt(f, Next(f, w, s).file)
    ensures HighWater(f, Next(f, w, s).file) >= HighWater(f, w.file)
  {
    FileChangesWhole(f, w, s);
    var w' := Next(f, w, s);
    if w'.file != w.file {
      var op := w.procs[s.pid].op;
      var plan := PlanOf(f, w.file, op);
      if op.Install? {
        InstallRaises(f, w.file, op);
      } else {
        RecoverKeepsMark(f, w.file, op);
      }
      hide PlanOf, Load, CommitBytes;
      LoadAfterCommit(f, plan.bundle, plan.highWater);
    }
  }

  /** The high-water mark never drops over any interleaving of installations,
      recoveries and crashes in which the file can always be loaded. */
  lemma {:induction false} MarkWhileLoadable(f: Format, w: World, steps: seq<Step>)
    requires f.Sound() && Inv(f, w) && Run(f, w, steps).Some? && NeverCorrupt(f, w, steps)
    ensures Inv(f, Run(f, w, steps).value)
    ensures HighWater(f, Run(f, w, steps).value.file) >= HighWater(f, w.file)
    decreases |steps|
  {
    if steps != [] {
      hide Enabled, Next, Inv, HighWater, Corrupt, Format.Sound;
      InvNext(f, w, steps[0]);
      assert NeverCorrupt(f, Next(f, w, steps[0]), steps[1..]);
      CorruptAtStart(f, Next(f, w, steps[0]), steps[1..]);
      MarkAfterStep(f, w, steps[0]);
      MarkWhileLoadable(f, Next(f, w, steps[0]), steps[1..]);
    }
  }

  lemma CorruptAtStart(f: Format, w: World, steps: seq<Step>)
    requires NeverCorrupt(f, w, steps)
    ensures !Corrupt(f, w.file)
  {
  }

  /** Whatever mark it is given, the operation's bundle makes a state within the
      size limit. */
  ghost predicate Fits(f: Format, op: Op) {
    forall h :: Committable(op.bundle, h) ==> |CommitBytes(f, op.bundle, h)| <= MAX_STATE
  }

  ghost predicate InFlightFit(f: Format, w: World) {
    forall i :: i in w.procs && InLock(w.procs[i]) ==> Fits(f, w.procs[i].op)
  }

  ghost predicate StepsFit(f: Format, steps: seq<Step>) {
    forall i :: 0 <= i < |steps| && steps[i].Acquire? ==> Fits(f, steps[i].op)
  }

  lemma PlannedIsCommittable(f: Format, file: Option<seq<byte>>, op: Op)
    requires PlanOf(f, file, op).Write?
    ensures var p := PlanOf(f, file, op); p.bundle == op.bundle && Committable(p.bundle, p.highWater)
  {
    hide Load, Committable, Format.Canonical;
  }

  /** The one way a loadable file becomes unloadable: an oversized state is
      renamed over it. */
  lemma StepCorrupts(f: Format, w: World, s: Step)
    requires f.Sound() && Inv(f, w) && Enabled(w, s) && !Corrupt(f, w.file)
    ensures Corrupt(f, Next(f, w, s).file) <==> s.Rename? && |w.procs[s.pid].target| > MAX_STATE
  {
    if s.Rename? {
      var p := w.procs[s.pid];
      var plan := PlanOf(f, w.file, p.op);
      PlannedIsCommittable(f, w.file, p.op);
      hide PlanOf, Load, CommitBytes, Format.Sound, Committable;
      LoadAfterCommit(f, plan.bundle, plan.highWater);
      assert p.target[..p.written] == p.target;
    }
  }

  lemma FitNext(f: Format, w: World, s: Step)
    requires f.Sound() && Inv(f, w) && Enabled(w, s) && !Corrupt(f, w.file)
    requires InFlightFit(f, w) && (s.Acquire? ==> Fits(f, s.op))
    ensures InFlightFit(f, Next(f, w, s)) && !Corrupt(f, Next(f, w, s).file)
  {
    StepCorrupts(f, w, s);
    if s.Rename? {
      var p := w.procs[s.pid];
      PlannedIsCommittable(f, w.file, p.op);
    }
    hide PlanOf, Load, CommitBytes, Format.Sound, Committable, Corrupt;
  }

  /** Operations that fit keep the file loadable in every state of every run. */
  lemma {:induction false} StaysLoadable(f: Format, w: World, steps: seq<Step>)
    requires f.Sound() && Inv(f, w) && !Corrupt(f, w.file) && InFlightFit(f, w) && StepsFit(f, steps)
    ensures NeverCorrupt(f, w, steps)
    decreases |steps|
  {
    hide Enabled, Next, Inv, Corrupt, Format.Sound, InFlightFit, Fits;
    if steps != [] && Enabled(w, steps[0]) {
      InvNext(f, w, steps[0]);
      FitNext(f, w, steps[0]);
      StaysLoadable(f, Next(f, w, steps[0]), steps[1..]);
    }
  }

  /** The high-water mark never drops over any interleaving of installations,
      recoveries and crashes, if the file loads at the start and every bundle
      stays within the size limit. */
  lemma MarkNeverDrops(f: Format, w: World, steps: seq<Step>)
    requires f.Sound() && Inv(f, w) && Run(f, w, steps).Some?
    requires !Corrupt(f, w.file) && InFlightFit(f, w) && StepsFit(f, steps)
    ensures !Corrupt(f, Run(f, w, steps).value.file) && Inv(f, Run(f, w, steps).value)
    ensures HighWater(f, Run(f, w, steps).value.file) >= HighWater(f, w.file)
  {
    hide *;
    StaysLoadable(f, w, steps);
    MarkWhileLoadable(f, w, steps);
    LoadableAtEnd(f, w, steps);
  }

  lemma {:induction false} LoadableAtEnd(f: Format, w: World, steps: seq<Step>)
    requires Run(f, w, steps).Some? && NeverCorrupt(f, w, steps)
    ensures !Corrupt(f, Run(f, w, steps).value.file)
    decreases |steps|
  {
    hide Enabled, Next, Corrupt;
    if steps != [] {
      LoadableAtEnd(f, Next(f, w, steps[0]), steps[1..]);
    }
  }

  // ---- And how a mark is lost otherwise ----

  /** One undisturbed operation that writes `n` bytes. */
  function Whole(pid: nat, op: Op, n: nat): seq<Step> {
    [Acquire(pid, op)] + ([Read(pid)] + ([WriteTo(pid, n)] + ([Rename(pid)] + [Release(pid)])))
  }

  lemma RunCons(f: Format, w: World, s: Step, rest: seq<Step>)
    requires Enabled(w, s)
    ensures Run(f, w, [s] + rest) == Run(f, Next(f, w, s), rest)
  {
    hide Enabled, Next;
    assert ([s] + rest)[1..] == rest;
  }

  /** `w` with process `pid` inside the lock. */
  function Inside(w: World, pid: nat, p: Phase): World {
    w.(lock := Some(pid), procs := w.procs[pid := p])
  }

  lemma TakesLock(f: Format, w: World, pid: nat, op: Op)
    requires pid in w.procs && w.procs[pid].Idle? && w.lock.None? && Startable(op) && PlanOf(f, w.file, op).Write?
    ensures Enabled(w, Acquire(pid, op)) && Next(f, w, Acquire(pid, op)) == Inside(w, pid, Holding(op))
    ensures var (p, w1) := (PlanOf(f, w.file, op), Inside(w, pid, Holding(op)));
            Enabled(w1, Read(pid))
            && Next(f, w1, Read(pid)) == Inside(w, pid, Writing(op, CommitBytes(f, p.bundle, p.highWater), 0))
  {
    var p := PlanOf(f, w.file, op);
    hide PlanOf, CommitBytes, Startable;
    assert w.procs[pid := Holding(op)][pid := Writing(op, CommitBytes(f, p.bundle, p.highWater), 0)] ==
           w.procs[pid := Writing(op, CommitBytes(f, p.bundle, p.highWater), 0)];
  }

  lemma WritesAll(f: Format, w: World, pid: nat, op: Op, bytes: seq<byte>)
    ensures var (w2, w3) := (Inside(w, pid, Writing(op, bytes, 0)), Inside(w, pid, Writing(op, bytes, |bytes|)));
            Enabled(w2, WriteTo(pid, |bytes|)) && Next(f, w2, WriteTo(pid, |bytes|)) == w3
  {
    assert w.procs[pid := Writing(op, bytes, 0)][pid := Writing(op, bytes, |bytes|)] ==
           w.procs[pid := Writing(op, bytes, |bytes|)];
  }

  lemma Renames(f: Format, w: World, pid: nat, op: Op, bytes: seq<byte>)
    requires pid in w.procs && w.procs[pid].Idle? && w.lock.None?
    ensures var w3 := Inside(w, pid, Writing(op, bytes, |bytes|));
            Enabled(w3, Rename(pid))
            && var w4 := Next(f, w3, Rename(pid));
               Enabled(w4, Release(pid)) && Next(f, w4, Release(pid)) == w.(file := Some(bytes))
  {
    assert bytes[..|bytes|] == bytes;
    var (p, q) := (Writing(op, bytes, |bytes|), Releasing(op, if op.Install? then Installed else Recovered));
    assert w.procs[pid := p][pid := q][pid := Idle] == w.procs;
  }

  lemma WholeRuns(f: Format, w: World, pid: nat, op: Op, rest: seq<Step>)
    requires pid in w.procs && w.procs[pid].Idle? && w.lock.None? && Startable(op) && PlanOf(f, w.file, op).Write?
    ensures var p := PlanOf(f, w.file, op);
            var bytes := CommitBytes(f, p.bundle, p.highWater);
            Run(f, w, Whole(pid, op, |bytes|) + rest) == Run(f, w.(file := Some(bytes)), rest)
  {
    hide PlanOf, CommitBytes, Run, Startable, Enabled, Next, Inside;
    var p := PlanOf(f, w.file, op);
    var bytes := CommitBytes(f, p.bundle, p.highWater);
    TakesLock(f, w, pid, op);
    WritesAll(f, w, pid, op, bytes);
    Renames(f, w, pid, op, bytes);
    var w3 := Inside(w, pid, Writing(op, bytes, |bytes|));
    var r1 := [Release(pid)] + rest;
    var r2 := [Rename(pid)] + r1;
    var r3 := [WriteTo(pid, |bytes|)] + r2;
    var r4 := [Read(pid)] + r3;
    RunCons(f, Next(f, w3, Rename(pid)), Release(pid), rest);
    RunCons(f, w3, Rename(pid), r1);
    RunCons(f, Inside(w, pid, Writing(op, bytes, 0)), WriteTo(pid, |bytes|), r2);
    RunCons(f, Inside(w, pid, Holding(op)), Read(pid), r3);
    RunCons(f, w, Acquire(pid, op), r4);
    WholeThen(pid, op, |bytes|, rest);
  }

  lemma WholeThen(pid: nat, op: Op, n: nat, rest: seq<Step>)
    ensures Whole(pid, op, n) + rest ==
            [Acquire(pid, op)] + ([Read(pid)] + ([WriteTo(pid, n)] + ([Rename(pid)] + ([Release(pid)] + rest))))
  {
  }

  /** One bundle whose state exceeds the limit is enough: it is reported
      installed, its file does not load, and a recovery then writes any lower
      mark - below the installed version and below every earlier mark. */
  lemma OversizedLosesMark(f: Format, w: World, pid: nat, big: Bundle, low: Bundle)
    returns (first: seq<Step>, second: seq<Step>)
    requires f.Sound() && pid in w.procs && w.procs[pid].Idle? && w.lock.None? && !Corrupt(f, w.file)
    requires Startable(Install(big, None)) && Startable(Recover(low, None))
    requires HighWater(f, w.file) < big.version && |CommitBytes(f, big, big.version)| > MAX_STATE
    requires |CommitBytes(f, low, low.version)| <= MAX_STATE
    ensures PlanOf(f, w.file, Install(big, None)) == Write(big, big.version, Installed)
    ensures Run(f, w, first).Some? && Run(f, w, first + second).Some?
    ensures Corrupt(f, Run(f, w, first).value.file)
    ensures var end := Run(f, w, first + second).value; !Corrupt(f, end.file) && HighWater(f, end.file) == low.version
  {
    var (i, r) := (Install(big, None), Recover(low, None));
    var (bytes, again) := (CommitBytes(f, big, big.version), CommitBytes(f, low, low.version));
    var mid := w.(file := Some(bytes));
    if w.file.Some? {
      LoadedIsLegal(f, w.file.value);
    }
    LoadAfterCommit(f, big, big.version);
    LoadAfterCommit(f, low, low.version);
    assert PlanOf(f, mid.file, r) == Write(low, low.version, Recovered);
    hide Load, CommitBytes, Run, Whole, Format.Sound;
    first, second := Whole(pid, i, |bytes|), Whole(pid, r, |again|);
    WholeRuns(f, w, pid, i, []);
    WholeRuns(f, w, pid, i, second);
    WholeRuns(f, mid, pid, r, []);
    assert first + [] == first && second + [] == second;
    RunNone(f, mid);
    RunNone(f, mid.(file := Some(again)));
  }

  lemma RunNone(f: Format, w: World)
    ensures Run(f, w, []) == Some(w)
  {
  }

  /** While a process is inside the lock nobody else changes the file, so an
      operation that ends stale, conflicting, unchanged or failed has left the
      file as it found it. */
  lemma OthersCannotInterfere(f: Format, w: World, s: Step, pid: nat)
    requires Inv(f, w) && Enabled(w, s) && pid in w.procs && InLock(w.procs[pid]) && s.pid != pid
    ensures Next(f, w, s).file == w.file && Next(f, w, s).procs[pid] == w.procs[pid] && Next(f, w, s).lock == w.lock
  {
    hide PlanOf, CommitBytes;
    if InLock(w.procs[s.pid]) {
      AtMostOneInside(f, w, s.pid, pid);
    }
  }
}
