/** Operator handoff markers (src/cli.ts): small files by which several node
    processes agree to restart once each. Each read-modify-write of a marker is
    one atomic step. */
module Handoff {
  import opened Optional
  import opened Picking

  /** The fields of a marker file; None is a field that is missing or not of
      the expected type. */
  datatype Marker<N> = Marker(
    affected: Option<set<N>>, requested: Option<set<N>>, completed: Option<set<N>>,
    created: Option<int>, grace: Option<int>)

  const DEFAULT_GRACE: int := 300

  function New<N>(nodes: set<N>, now: int): Marker<N> {
    Marker(Some(nodes), Some({}), Some({}), Some(now), Some(DEFAULT_GRACE))
  }

  function Names<N>(field: Option<set<N>>): set<N> { if field.Some? then field.value else {} }

  function Due<N>(m: Marker<N>): Option<int> {
    if m.created.None? then None
    else Some(m.created.value + if m.grace.Some? && m.grace.value >= 0 then m.grace.value else DEFAULT_GRACE)
  }

  /** Seconds until this node may restart; None if it is not to restart. */
  function RestartDelay<N(==)>(m: Marker<N>, node: N, now: int): Option<nat> {
    if node !in Names(m.affected) || node in Names(m.requested) || node in Names(m.completed) || Due(m).None? then None
    else Some(if Due(m).value <= now then 0 else Due(m).value - now)
  }

  function Requested<N>(m: Marker<N>, node: N): Marker<N> {
    m.(requested := Some(Names(m.requested) + {node}))
  }

  /** A node that has registered again after a restart of its own. */
  predicate Returns<N(==)>(m: Marker<N>, node: N) {
    node in Names(m.affected) && node in Names(m.requested)
  }

  /** The marker after `node` has returned; None if the file is removed. */
  function Complete<N(==)>(m: Marker<N>, node: N): Option<Marker<N>> {
    if !Returns(m, node) then Some(m)
    else
      var completed := Names(m.completed) + {node};
      if Names(m.affected) <= completed then None else Some(m.(completed := Some(completed)))
  }

  // ---- What a marker asks for, in its own fields ----

  /** The marker's grace, 300 seconds unless it names another, is over. */
  predicate GraceOver<N>(m: Marker<N>, now: int) {
    && m.created.Some?
    && m.created.value + (if m.grace.Some? && m.grace.value >= 0 then m.grace.value else 300) <= now
  }

  /** A node has a delay exactly if it is affected and has neither claimed nor
      completed; it is zero exactly once the grace is over, and until then it
      is just long enough. */
  lemma DelayExactly<N>(m: Marker<N>, node: N, now: int)
    ensures var d := RestartDelay(m, node, now);
            && (d.Some? <==>
                  && m.affected.Some? && node in m.affected.value && m.created.Some?
                  && (m.requested.Some? ==> node !in m.requested.value)
                  && (m.completed.Some? ==> node !in m.completed.value))
            && (d.Some? ==>
                  && (d == Some(0) <==> GraceOver(m, now))
                  && GraceOver(m, now + d.value) && (d != Some(0) ==> !GraceOver(m, now + d.value - 1)))
  {
  }

  /** A return counts only after a claim by an affected node. It removes the
      marker exactly if every other affected node has completed. */
  lemma CompleteExactly<N>(m: Marker<N>, node: N)
    ensures var counts :=
              && m.affected.Some? && node in m.affected.value && m.requested.Some? && node in m.requested.value;
            && (!counts ==> Complete(m, node) == Some(m))
            && (Complete(m, node).None? <==>
                  counts && forall n <- m.affected.value :: n == node || (m.completed.Some? && n in m.completed.value))
            && (counts && Complete(m, node).Some? ==>
                  var m' := Complete(m, node).value;
                  && m'.completed.Some? && m' == m.(completed := m'.completed)
                  && forall n :: n in m'.completed.value <==>
                                 n == node || (m.completed.Some? && n in m.completed.value))
  {
  }

  type Files<N> = map<nat, Marker<N>>

  /** `completeHandoffForNode`; `broken` are the files that cannot be written. */
  function CompleteAll<N(==)>(files: Files<N>, node: N, broken: set<nat>): Files<N> {
    map f | f in files && (f in broken || Complete(files[f], node).Some?) ::
      if f in broken then files[f] else Complete(files[f], node).value
  }

  class MarkerDirectory<N(==)> {
    var files: Files<N>

    constructor ()
      ensures files == map[]
    {
      files := map[];
    }

    method WriteMarker(file: nat, nodes: set<N>, now: int)
      requires file !in files
      modifies this
      ensures files == old(files)[file := New(nodes, now)]
    {
      files := files[file := Marker(Some(nodes), Some({}), Some({}), Some(now), Some(DEFAULT_GRACE))];
    }

    /** One monitor pass. A node leaves at the first marker that is due and can
        be written, and claims that one marker. */
    method CheckRestart(node: N, now: int, broken: set<nat>) returns (claimed: Option<nat>)
      modifies this
      ensures claimed.Some? ==>
                && claimed.value in old(files) && claimed.value !in broken
                && RestartDelay(old(files)[claimed.value], node, now) == Some(0)
                && files == old(files)[claimed.value := Requested(old(files)[claimed.value], node)]
      ensures claimed.None? ==>
                && files == old(files)
                && forall f :: f in files && f !in broken ==> RestartDelay(files[f], node, now) != Some(0)
    {
      var todo := files.Keys;
      while todo != {}
        invariant todo <= files.Keys && files == old(files)
        invariant forall f :: f in files && f !in todo && f !in broken ==> RestartDelay(files[f], node, now) != Some(0)
        decreases |todo|
      {
        var f := AnyOf(todo);
        todo := todo - {f};
        if RestartDelay(files[f], node, now) == Some(0) && f !in broken {
          files := files[f := Requested(files[f], node)];
          return Some(f);
        }
      }
      claimed := None;
    }

    method CompleteOne(f: nat, node: N)
      requires f in files
      modifies this
      ensures files == var kept := Complete(old(files)[f], node);
                       if kept.None? then old(files) - {f} else old(files)[f := kept.value]
    {
      var m := files[f];
      if Returns(m, node) {
        var completed := Names(m.completed) + {node};
        if Names(m.affected) <= completed {
          files := files - {f};
        } else {
          files := files[f := m.(completed := Some(completed))];
        }
      }
    }

    method CompleteHandoff(node: N, broken: set<nat>)
      modifies this
      ensures files == CompleteAll(old(files), node, broken)
    {
      hide Complete;
      var was := files;
      var todo := files.Keys;
      while todo != {}
        invariant todo <= was.Keys && todo <= files.Keys && files.Keys <= was.Keys
        invariant forall f :: f in todo ==> files[f] == was[f]
        invariant forall f :: f in files && f !in todo ==>
                    if f in broken then files[f] == was[f] else Some(files[f]) == Complete(was[f], node)
        invariant forall f :: f in was && f !in todo ==> (f in files <==> f in broken || Complete(was[f], node).Some?)
        decreases |todo|
      {
        var f := AnyOf(todo);
        todo := todo - {f};
        if f !in broken {
          CompleteOne(f, node);
        }
      }
      assert files.Keys == CompleteAll(was, node, broken).Keys;
    }
  }

  // ---- Runs ----

  datatype Restart<N> = Restart(file: nat, node: N, at: int)

  /** `born` holds every marker as first written, `restarts` every restart that
      was claimed, in order, and `returned` who completed which marker. */
  datatype World<N(==)> = World(
    files: Files<N>, born: Files<N>, restarts: seq<Restart<N>>, returned: set<(nat, N)>)

  datatype Step<N> =
    | DoWrite(file: nat, nodes: set<N>, now: int)
    | DoRestart(file: nat, node: N, now: int)
    | DoReturn(node: N, broken: set<nat>)

  predicate Enabled<N(==)>(w: World<N>, step: Step<N>) {
    match step
    case DoWrite(f, _, _) => f !in w.born
    case DoRestart(f, node, now) => f in w.files && RestartDelay(w.files[f], node, now) == Some(0)
    case DoReturn(_, _) => true
  }

  function Touched<N(==)>(files: Files<N>, node: N, broken: set<nat>): set<(nat, N)> {
    set f | f in files && f !in broken && Returns(files[f], node) :: (f, node)
  }

  function After<N(==)>(w: World<N>, step: Step<N>): World<N> {
    match step
    case DoWrite(f, nodes, now) => w.(files := w.files[f := New(nodes, now)], born := w.born[f := New(nodes, now)])
    case DoRestart(f, node, now) =>
      if f in w.files
      then w.(files := w.files[f := Requested(w.files[f], node)], restarts := w.restarts + [Restart(f, node, now)])
      else w
    case DoReturn(node, broken) =>
      w.(files := CompleteAll(w.files, node, broken), returned := w.returned + Touched(w.files, node, broken))
  }

  predicate Logged<N(==)>(rs: seq<Restart<N>>, f: nat, node: N) {
    exists i :: 0 <= i < |rs| && rs[i].file == f && rs[i].node == node
  }

  /** A marker as it may have become since it was written. */
  ghost predicate Grown<N>(m: Marker<N>, born: Marker<N>) {
    && m.affected == born.affected && m.created == born.created && m.grace == born.grace
    && Names(m.completed) <= Names(m.requested) <= Names(m.affected)
    && (Names(m.affected) != {} ==> Names(m.completed) < Names(m.affected))
  }

  /** What the history says about one marker. */
  ghost predicate Told<N(!new)>(w: World<N>, f: nat)
    requires f in w.born
  {
    var born := w.born[f];
    if f in w.files then
      && Grown(w.files[f], born)
      && (forall n :: n in Names(w.files[f].requested) <==> Logged(w.restarts, f, n))
      && (forall n :: n in Names(w.files[f].completed) <==> (f, n) in w.returned)
    else forall n <- Names(born.affected) :: Logged(w.restarts, f, n) && (f, n) in w.returned
  }

  /** Every restart was of an affected node, and in time. */
  ghost predicate Timely<N>(w: World<N>) {
    forall i :: 0 <= i < |w.restarts| ==>
      var r := w.restarts[i];
      && r.file in w.born && r.node in Names(w.born[r.file].affected)
      && GraceOver(w.born[r.file], r.at)
  }

  ghost predicate Once<N>(rs: seq<Restart<N>>) {
    forall i, j :: 0 <= i < j < |rs| ==> rs[i].file != rs[j].file || rs[i].node != rs[j].node
  }

  ghost predicate Returned<N>(w: World<N>) {
    forall p <- w.returned :: p.0 in w.born
  }

  ghost predicate Inv<N(!new)>(w: World<N>) {
    && (forall f :: f in w.files ==> f in w.born)
    && (forall f :: f in w.born ==> Told(w, f))
    && Timely(w) && Once(w.restarts) && Returned(w)
  }

  lemma LoggedSnoc<N>(rs: seq<Restart<N>>, r: Restart<N>, f: nat, n: N)
    ensures Logged(rs + [r], f, n) <==> Logged(rs, f, n) || (r.file == f && r.node == n)
  {
    var all := rs + [r];
    if Logged(rs, f, n) {
      var i :| 0 <= i < |rs| && rs[i].file == f && rs[i].node == n;
      assert all[i] == rs[i];
    }
    if r.file == f && r.node == n {
      assert all[|rs|] == r;
    }
  }

  lemma OnceSnoc<N>(rs: seq<Restart<N>>, r: Restart<N>)
    requires Once(rs) && !Logged(rs, r.file, r.node)
    ensures Once(rs + [r])
  {
  }

  lemma RestartTold<N(!new)>(w: World<N>, f: nat, node: N, now: int, g: nat)
    requires Enabled(w, DoRestart(f, node, now)) && g in w.born && Told(w, g)
    ensures Told(After(w, DoRestart(f, node, now)), g)
  {
    forall n ensures Logged(After(w, DoRestart(f, node, now)).restarts, g, n) <==>
                     Logged(w.restarts, g, n) || (g == f && n == node) {
      LoggedSnoc(w.restarts, Restart(f, node, now), g, n);
    }
    hide Logged;
  }

  lemma RestartInv<N(!new)>(w: World<N>, f: nat, node: N, now: int)
    requires Inv(w) && Enabled(w, DoRestart(f, node, now))
    ensures Inv(After(w, DoRestart(f, node, now)))
  {
    var w' := After(w, DoRestart(f, node, now));
    assert Told(w, f);
    hide Logged;
    OnceSnoc(w.restarts, Restart(f, node, now));
    hide Once;
    forall g | g in w'.born ensures Told(w', g) {
      RestartTold(w, f, node, now, g);
    }
    hide Told;
  }

  lemma WriteInv<N(!new)>(w: World<N>, f: nat, nodes: set<N>, now: int)
    requires Inv(w) && Enabled(w, DoWrite(f, nodes, now))
    ensures Inv(After(w, DoWrite(f, nodes, now)))
  {
    var w' := After(w, DoWrite(f, nodes, now));
    forall n ensures !Logged(w.restarts, f, n) && (f, n) !in w.returned {
    }
    hide Logged;
    forall g | g in w'.born ensures Told(w', g) {
      if g != f {
        assert Told(w, g);
      }
    }
  }

  lemma ReturnTold<N(!new)>(w: World<N>, node: N, broken: set<nat>, f: nat)
    requires f in w.born && Told(w, f)
    ensures Told(After(w, DoReturn(node, broken)), f)
  {
    hide Logged;
    var w' := After(w, DoReturn(node, broken));
    forall n ensures (f, n) in w'.returned <==>
      (f, n) in w.returned || (n == node && f in w.files && f !in broken && Returns(w.files[f], node)) {
    }
  }

  lemma ReturnInv<N(!new)>(w: World<N>, node: N, broken: set<nat>)
    requires Inv(w)
    ensures Inv(After(w, DoReturn(node, broken)))
  {
    var w' := After(w, DoReturn(node, broken));
    forall f | f in w'.born ensures Told(w', f) {
      ReturnTold(w, node, broken, f);
    }
  }

  lemma InvAfter<N(!new)>(w: World<N>, step: Step<N>)
    requires Inv(w) && Enabled(w, step)
    ensures Inv(After(w, step))
  {
    hide Inv, After, Enabled;
    match step
    case DoWrite(f, nodes, now) => WriteInv(w, f, nodes, now);
    case DoRestart(f, node, now) => RestartInv(w, f, node, now);
    case DoReturn(node, broken) => ReturnInv(w, node, broken);
  }

  function Runs<N(==)>(w: World<N>, steps: seq<Step<N>>): World<N>
    decreases |steps|
  {
    if steps == [] then w else Runs(After(w, steps[0]), steps[1..])
  }

  predicate Legal<N(==)>(w: World<N>, steps: seq<Step<N>>)
    decreases |steps|
  {
    steps == [] || (Enabled(w, steps[0]) && Legal(After(w, steps[0]), steps[1..]))
  }

  lemma {:induction false} InvRuns<N(!new)>(w: World<N>, steps: seq<Step<N>>)
    requires Inv(w) && Legal(w, steps)
    ensures Inv(Runs(w, steps))
    decreases |steps|
  {
    hide Inv, After, Enabled;
    if steps != [] {
      InvAfter(w, steps[0]);
      InvRuns(After(w, steps[0]), steps[1..]);
    }
  }

  /** In every run: no node restarts before a marker's grace is over, nor twice
      for one marker; completed, claimed and affected nodes are nested; and a
      marker is gone only when every affected node has restarted for it and
      registered again. */
  lemma Safety<N(!new)>(steps: seq<Step<N>>)
    requires Legal(World(map[], map[], [], {}), steps)
    ensures var w := Runs(World(map[], map[], [], {}), steps);
            && (forall i :: 0 <= i < |w.restarts| ==>
                  && var r := w.restarts[i];
                  && r.file in w.born
                  && var m := w.born[r.file];
                  && m.affected.Some? && r.node in m.affected.value && m.created.Some?
                  && r.at >= m.created.value + if m.grace.Some? && m.grace.value >= 0 then m.grace.value else 300)
            && (forall i, j :: 0 <= i < j < |w.restarts| ==>
                  w.restarts[i].file != w.restarts[j].file || w.restarts[i].node != w.restarts[j].node)
            && (forall f :: f in w.files ==> f in w.born && Grown(w.files[f], w.born[f]))
            && (forall f, n :: f in w.born && f !in w.files && n in Names(w.born[f].affected) ==>
                                 Logged(w.restarts, f, n) && (f, n) in w.returned)
  {
    var w0: World<N> := World(map[], map[], [], {});
    assert Inv(w0);
    InvRuns(w0, steps);
    var w := Runs(w0, steps);
    hide Grown, Logged;
    assert forall f :: f in w.born ==> Told(w, f);
  }

  // ---- Progress ----

  /** Restarts and returns still to come. */
  function Left<N>(m: Marker<N>): nat {
    |Names(m.affected) - Names(m.requested)| + |Names(m.affected) - Names(m.completed)|
  }

  lemma SmallerBy<N>(a: set<N>, b: set<N>, n: N)
    requires n in a && n !in b
    ensures |a - (b + {n})| == |a - b| - 1
  {
    assert a - b == (a - (b + {n})) + {n};
  }

  lemma RestartProgress<N>(m: Marker<N>, node: N, now: int)
    requires RestartDelay(m, node, now).Some?
    ensures Left(Requested(m, node)) == Left(m) - 1
  {
    SmallerBy(Names(m.affected), Names(m.requested), node);
  }

  /** A return either removes the marker, as its last missing step, or is one
      step fewer to come, or was recorded before. */
  lemma ReturnProgress<N>(m: Marker<N>, node: N)
    requires Returns(m, node) && Names(m.completed) <= Names(m.requested) <= Names(m.affected)
    ensures Complete(m, node).None? ==> Left(m) <= 1
    ensures Complete(m, node).Some? ==>
              Left(Complete(m, node).value) == if node in Names(m.completed) then Left(m) else Left(m) - 1
  {
    var (a, r, c) := (Names(m.affected), Names(m.requested), Names(m.completed));
    if node !in c {
      SmallerBy(a, c, node);
    } else {
      assert c + {node} == c;
    }
    if Complete(m, node).None? {
      assert a - r == {} && a - (c + {node}) == {};
    }
  }

  /** Once the grace is over there is always a node that can take the marker
      further, until it is gone; only a marker for no node at all stays. */
  lemma NeverStuck<N(!new)>(w: World<N>, f: nat, now: int) returns (node: N)
    requires Inv(w) && f in w.files && Names(w.files[f].affected) != {} && GraceOver(w.born[f], now)
    ensures var m := w.files[f];
            RestartDelay(m, node, now) == Some(0) || (Returns(m, node) && node !in Names(m.completed))
  {
    assert Told(w, f);
    var m := w.files[f];
    node :| node in Names(m.affected) && node !in Names(m.completed);
  }

  /** A marker that is kept still misses some node's return. */
  lemma NeverFull<N(!new)>(w: World<N>, f: nat)
    requires Inv(w) && f in w.files && Names(w.files[f].affected) != {}
    ensures Names(w.files[f].completed) < Names(w.files[f].affected)
  {
    assert Told(w, f);
  }

  lemma LegalStep<N(!new)>(w: World<N>, step: Step<N>, rest: seq<Step<N>>)
    ensures Legal(w, [step] + rest) <==> Enabled(w, step) && Legal(After(w, step), rest)
    ensures Runs(w, [step] + rest) == Runs(After(w, step), rest)
  {
    hide Enabled, After;
    assert ([step] + rest)[1..] == rest;
  }

  /** One such step: the marker is gone, or has less left to come. */
  lemma OneStepOn<N(!new)>(w: World<N>, f: nat, now: int) returns (step: Step<N>)
    requires Inv(w) && f in w.files && Names(w.files[f].affected) != {} && GraceOver(w.born[f], now)
    ensures Enabled(w, step) && After(w, step).born == w.born && Left(w.files[f]) >= 1
    ensures var w' := After(w, step);
            f in w'.files ==> w'.files[f].affected == w.files[f].affected && Left(w'.files[f]) < Left(w.files[f])
  {
    var node := NeverStuck(w, f, now);
    assert Told(w, f);
    var m := w.files[f];
    if RestartDelay(m, node, now) == Some(0) {
      step := DoRestart(f, node, now);
      RestartProgress(m, node, now);
    } else {
      step := DoReturn(node, {});
      ReturnProgress(m, node);
      SmallerBy(Names(m.affected), Names(m.completed), node);
    }
    hide Told, Timely, Once, Returned, Logged;
  }

  /** From every reachable state, once the grace is over, some run of at most as
      many steps as are left removes the marker. */
  lemma {:induction false} CanFinish<N(!new)>(w: World<N>, f: nat, now: int) returns (steps: seq<Step<N>>)
    requires Inv(w) && f in w.files && Names(w.files[f].affected) != {} && GraceOver(w.born[f], now)
    ensures Legal(w, steps) && |steps| <= Left(w.files[f]) && f !in Runs(w, steps).files
    decreases Left(w.files[f])
  {
    var step := OneStepOn(w, f, now);
    var w' := After(w, step);
    InvAfter(w, step);
    hide Inv, After, Enabled, Left;
    var rest := [];
    if f in w'.files {
      rest := CanFinish(w', f, now);
    }
    LegalStep(w, step, rest);
    steps := [step] + rest;
  }

  lemma EmptyMarkerStays<N>(m: Marker<N>, node: N, now: int)
    requires Names(m.affected) == {}
    ensures RestartDelay(m, node, now).None? && Complete(m, node) == Some(m)
  {
  }
}
