/** Fixed-window admission per key: `_taskRateAllow` (src/node.ts) and
    `allowBind` (src/relay_session.ts), which share one algorithm. */
module RateWindow {
  datatype Bucket = Bucket(start: int, count: nat)

  type Table = map<string, Bucket>

  const PRUNE_ABOVE: nat := 4096

  /** The bucket after one more request: a new window once the old one is over. */
  function Touch(m: Table, key: string, now: int, window: int): Bucket {
    if key !in m || now - m[key].start >= window then Bucket(now, 1) else Bucket(m[key].start, m[key].count + 1)
  }

  function Prune(m: Table, now: int, window: int): Table {
    if |m| > PRUNE_ABOVE then map k | k in m && m[k].start >= now - window :: m[k] else m
  }

  /** Only a table of more than 4096 buckets is pruned, and only of those whose
      window is over. */
  lemma PruneExactly(m: Table, now: int, window: int)
    ensures forall k :: k in Prune(m, now, window) <==> k in m && (|m| <= 4096 || now - m[k].start <= window)
    ensures forall k :: k in Prune(m, now, window) ==> Prune(m, now, window)[k] == m[k]
  {
  }

  class Limiter {
    const limit: nat
    const window: nat
    var buckets: Table

    constructor (limit: nat, window: nat)
      ensures this.limit == limit && this.window == window && buckets == map[]
    {
      this.limit, this.window, buckets := limit, window, map[];
    }

    method TaskRateAllow(key: string, now: int) returns (allowed: bool)
      modifies this
      ensures allowed == (Touch(old(buckets), key, now, window).count <= limit)
      ensures buckets == Prune(old(buckets)[key := Touch(old(buckets), key, now, window)], now, window)
    {
      var b := if key in buckets then buckets[key] else Bucket(now, 0);
      if now - b.start >= window {
        b := Bucket(now, 0);
      }
      b := b.(count := b.count + 1);
      buckets := buckets[key := b];
      allowed := b.count <= limit;
      if |buckets| > PRUNE_ABOVE {
        var cutoff := now - window;
        var full, todo := buckets, buckets.Keys;
        while todo != {}
          invariant todo <= full.Keys && buckets.Keys <= full.Keys
          invariant forall k :: k in buckets ==> buckets[k] == full[k]
          invariant forall k :: k in full ==> (k in buckets <==> k in todo || full[k].start >= cutoff)
          decreases |todo|
        {
          var k :| k in todo;
          todo := todo - {k};
          if full[k].start < cutoff {
            buckets := buckets - {k};
          }
        }
      }
    }

    /** Rebinds, and every bind when the limit is 0, are admitted uncounted. */
    method AllowBind(source: string, rebind: bool, now: int) returns (allowed: bool)
      modifies this
      ensures rebind || limit == 0 ==> allowed && buckets == old(buckets)
      ensures !rebind && limit > 0 ==>
                allowed == (Touch(old(buckets), source, now, window).count <= limit)
                && buckets == Prune(old(buckets)[source := Touch(old(buckets), source, now, window)], now, window)
      ensures var r := Request(source, now, rebind || limit == 0);
              allowed == Admits(old(buckets), r, limit, window) && buckets == After(old(buckets), r, window, true)
    {
      if rebind || limit == 0 {
        return true;
      }
      allowed := TaskRateAllow(source, now);
    }
  }

  // ---- Runs ----

  datatype Request = Request(key: string, now: int, exempt: bool)

  predicate Ordered(rs: seq<Request>) {
    forall i, j :: 0 <= i < j < |rs| ==> rs[i].now <= rs[j].now
  }

  /** One request against the table, with or without pruning. */
  function After(m: Table, r: Request, window: int, prune: bool): Table {
    if r.exempt then m
    else
      var full := m[r.key := Touch(m, r.key, r.now, window)];
      if prune then Prune(full, r.now, window) else full
  }

  predicate Admits(m: Table, r: Request, limit: nat, window: int) {
    r.exempt || Touch(m, r.key, r.now, window).count <= limit
  }

  function Decisions(m: Table, rs: seq<Request>, limit: nat, window: int, prune: bool): seq<bool>
    decreases |rs|
  {
    if rs == [] then []
    else [Admits(m, rs[0], limit, window)] + Decisions(After(m, rs[0], window, prune), rs[1..], limit, window, prune)
  }

  /** `p` is `f` without some buckets whose window is over at `now`. */
  ghost predicate Thinned(p: Table, f: Table, now: int, window: int) {
    && (forall k :: k in p ==> k in f && p[k] == f[k])
    && (forall k :: k in f && k !in p ==> now - f[k].start >= window)
  }

  /** Pruning is unobservable: on a clock that never goes back, every decision
      is the one of a table that is never pruned. */
  lemma {:induction false} PruneUnobservable(p: Table, f: Table, now: int, rs: seq<Request>, limit: nat, window: int)
    requires Ordered(rs) && (rs == [] || now <= rs[0].now) && Thinned(p, f, now, window)
    ensures Decisions(p, rs, limit, window, true) == Decisions(f, rs, limit, window, false)
    decreases |rs|
  {
    if rs != [] {
      var r := rs[0];
      assert Thinned(p, f, r.now, window);
      assert Touch(p, r.key, r.now, window) == Touch(f, r.key, r.now, window);
      assert Ordered(rs[1..]);
      PruneUnobservable(After(p, r, window, true), After(f, r, window, false), r.now, rs[1..], limit, window);
    }
  }

  // ---- How many requests get through ----

  /** Counted admissions of `key` at times in [lo, hi]. */
  function Admitted(m: Table, rs: seq<Request>, key: string, lo: int, hi: int, limit: nat, window: int): nat
    decreases |rs|
  {
    if rs == [] then 0
    else
      var r := rs[0];
      (if r.key == key && !r.exempt && lo <= r.now <= hi && Admits(m, r, limit, window) then 1 else 0)
      + Admitted(After(m, r, window, false), rs[1..], key, lo, hi, limit, window)
  }

  /** How many windows can still be opened between `t` and `hi`. */
  function WindowsFrom(t: int, hi: int, window: int): nat
    requires window > 0
    decreases hi - t
  {
    if t > hi then 0 else 1 + WindowsFrom(t + window, hi, window)
  }

  lemma {:induction false} WindowsMonotone(s: int, t: int, hi: int, window: int)
    requires window > 0 && s <= t
    ensures WindowsFrom(t, hi, window) <= WindowsFrom(s, hi, window)
    decreases hi - s
  {
    if s <= hi {
      WindowsMonotone(s + window, t + window, hi, window);
    }
  }

  lemma {:induction false} WindowsBounded(t: int, hi: int, window: int, k: nat)
    requires window > 0 && hi < t + k * window
    ensures WindowsFrom(t, hi, window) <= k
    decreases k
  {
    if t <= hi {
      assert k > 0 && k * window == (k - 1) * window + window;
      WindowsBounded(t + window, hi, window, k - 1);
    }
  }

  lemma {:induction false} NoneAfter(m: Table, rs: seq<Request>, key: string, lo: int, hi: int, limit: nat, window: int)
    requires Ordered(rs) && (rs != [] ==> hi < rs[0].now)
    ensures Admitted(m, rs, key, lo, hi, limit, window) == 0
    decreases |rs|
  {
    if rs != [] {
      assert Ordered(rs[1..]);
      NoneAfter(After(m, rs[0], window, false), rs[1..], key, lo, hi, limit, window);
    }
  }

  lemma TimesMore(limit: nat, w: nat, v: nat, d: nat)
    requires w + d <= v
    ensures limit * w + limit * d <= limit * v
  {
    assert limit * v == limit * w + limit * d + limit * (v - w - d);
  }

  function Room(b: Bucket, limit: nat): nat { if b.count < limit then limit - b.count else 0 }

  lemma WindowsOpen(t: int, hi: int, window: int)
    requires window > 0 && t <= hi
    ensures WindowsFrom(t, hi, window) == 1 + WindowsFrom(t + window, hi, window)
  {
  }

  /** What a bucket that is `v` windows from the end may still let through. */
  function Budget(b: Bucket, hi: int, limit: nat, window: int): nat
    requires window > 0
  {
    Room(b, limit) + limit * WindowsFrom(b.start + window, hi, window)
  }

  /** A request pays for its admission out of its bucket's budget. */
  lemma Pays(m: Table, key: string, now: int, hi: int, limit: nat, window: int)
    requires window > 0 && key in m && now <= hi
    ensures var b := Touch(m, key, now, window);
            (if b.count <= limit then 1 else 0) + Budget(b, hi, limit, window) <= Budget(m[key], hi, limit, window)
  {
    var s := m[key].start;
    if now - s >= window {
      WindowsMonotone(s + window, now, hi, window);
      WindowsOpen(now, hi, window);
      var (v, w) := (WindowsFrom(s + window, hi, window), WindowsFrom(now + window, hi, window));
      hide WindowsFrom;
      TimesMore(limit, w, v, 1);
    }
  }

  /** From a running window on: what is left of it, plus `limit` for every
      window that can still be opened. */
  lemma {:induction false} FromWindow(
    m: Table, rs: seq<Request>, key: string, lo: int, hi: int, limit: nat, window: int)
    requires window > 0 && Ordered(rs) && key in m
    ensures Admitted(m, rs, key, lo, hi, limit, window) <= Budget(m[key], hi, limit, window)
    decreases |rs|
  {
    hide Budget, Touch;
    if rs != [] {
      var r, m' := rs[0], After(m, rs[0], window, false);
      assert Ordered(rs[1..]);
      if r.now > hi {
        NoneAfter(m, rs, key, lo, hi, limit, window);
      } else {
        FromWindow(m', rs[1..], key, lo, hi, limit, window);
        if r.key == key && !r.exempt {
          Pays(m, key, r.now, hi, limit, window);
        }
      }
    }
  }

  /** In any interval of `k` whole windows at most (k + 1) * limit requests of a
      key are admitted, whatever happened before. */
  lemma {:induction false} AdmissionBound(
    m: Table, rs: seq<Request>, key: string, lo: int, k: nat, limit: nat, window: int)
    requires window > 0 && Ordered(rs)
    ensures Admitted(m, rs, key, lo, lo + k * window, limit, window) <= (k + 1) * limit
    decreases |rs|
  {
    hide Touch;
    if rs != [] {
      var r, m' := rs[0], After(m, rs[0], window, false);
      var hi := lo + k * window;
      assert Ordered(rs[1..]);
      if r.now < lo || r.key != key || r.exempt {
        AdmissionBound(m', rs[1..], key, lo, k, limit, window);
      } else if r.now <= hi {
        FromWindow(m', rs[1..], key, lo, hi, limit, window);
        FirstBudget(m, key, r.now, lo, k, limit, window);
      } else {
        NoneAfter(m, rs, key, lo, hi, limit, window);
      }
    }
  }

  /** The first request in the interval and all after it. */
  lemma FirstBudget(m: Table, key: string, now: int, lo: int, k: nat, limit: nat, window: int)
    requires window > 0 && lo <= now
    ensures var b := Touch(m, key, now, window);
            (if b.count <= limit then 1 else 0) + Budget(b, lo + k * window, limit, window) <= (k + 1) * limit
  {
    var b := Touch(m, key, now, window);
    var (hi, next) := (lo + k * window, b.start + window);
    WindowsBounded(next, hi, window, k);
    var v := WindowsFrom(next, hi, window);
    hide WindowsFrom;
    TimesMore(limit, v, k, 0);
    TimesMore(limit, k, k + 1, 1);
  }

  function CountIn(ds: seq<bool>, rs: seq<Request>, key: string, lo: int, hi: int): nat
    requires |ds| == |rs|
  {
    if rs == [] then 0
    else
      (if ds[0] && rs[0].key == key && !rs[0].exempt && lo <= rs[0].now <= hi then 1 else 0)
      + CountIn(ds[1..], rs[1..], key, lo, hi)
  }

  lemma {:induction false} CountIsAdmitted(
    m: Table, rs: seq<Request>, key: string, lo: int, hi: int, limit: nat, window: int)
    ensures |Decisions(m, rs, limit, window, false)| == |rs|
    ensures CountIn(Decisions(m, rs, limit, window, false), rs, key, lo, hi) ==
            Admitted(m, rs, key, lo, hi, limit, window)
    decreases |rs|
  {
    if rs != [] {
      CountIsAdmitted(After(m, rs[0], window, false), rs[1..], key, lo, hi, limit, window);
    }
  }

  /** The bound for the limiter as it runs, pruning included. */
  lemma RateLimit(rs: seq<Request>, key: string, lo: int, k: nat, limit: nat, window: int)
    requires window > 0 && Ordered(rs)
    ensures var ds := Decisions(map[], rs, limit, window, true);
            |ds| == |rs| && CountIn(ds, rs, key, lo, lo + k * window) <= (k + 1) * limit
  {
    if rs != [] {
      PruneUnobservable(map[], map[], rs[0].now, rs, limit, window);
    }
    CountIsAdmitted(map[], rs, key, lo, lo + k * window, limit, window);
    AdmissionBound(map[], rs, key, lo, k, limit, window);
  }

  // ---- And who is never turned away ----

  /** Counted requests of `key` at or after `since`. */
  function Recent(rs: seq<Request>, key: string, since: int): nat {
    if rs == [] then 0
    else
      var r := rs[|rs| - 1];
      Recent(rs[..|rs| - 1], key, since) + if r.key == key && !r.exempt && r.now >= since then 1 else 0
  }

  function TableAfter(rs: seq<Request>, window: int): Table {
    if rs == [] then map[] else After(TableAfter(rs[..|rs| - 1], window), rs[|rs| - 1], window, false)
  }

  lemma {:induction false} RecentMonotone(rs: seq<Request>, key: string, s: int, t: int)
    requires s <= t
    ensures Recent(rs, key, t) <= Recent(rs, key, s)
  {
    if rs != [] {
      RecentMonotone(rs[..|rs| - 1], key, s, t);
    }
  }

  lemma {:induction false} RecentNone(rs: seq<Request>, key: string, since: int)
    requires forall r <- rs :: r.now < since
    ensures Recent(rs, key, since) == 0
  {
    if rs != [] {
      RecentNone(rs[..|rs| - 1], key, since);
    }
  }

  /** A bucket counts exactly its key's requests since its window began. */
  lemma {:induction false} BucketCounts(rs: seq<Request>, key: string, window: int)
    requires window > 0 && Ordered(rs)
    ensures key in TableAfter(rs, window) ==>
              var b := TableAfter(rs, window)[key];
              b.count == Recent(rs, key, b.start) && rs != [] && b.start <= rs[|rs| - 1].now
    ensures key !in TableAfter(rs, window) ==> forall t :: Recent(rs, key, t) == 0
    decreases |rs|
  {
    if rs != [] {
      var prev, r := rs[..|rs| - 1], rs[|rs| - 1];
      BucketCounts(prev, key, window);
      var m := TableAfter(prev, window);
      if r.key == key && !r.exempt && key in m && r.now - m[key].start >= window {
        StaleRecent(prev, key, window, r.now);
      }
    }
  }

  /** Once a window is over, no request of its key is as late as `now`. */
  lemma {:induction false} StaleRecent(rs: seq<Request>, key: string, window: int, now: int)
    requires window > 0 && Ordered(rs) && key in TableAfter(rs, window)
    requires now - TableAfter(rs, window)[key].start >= window
    ensures Recent(rs, key, now) == 0
    decreases |rs|
  {
    var prev, r := rs[..|rs| - 1], rs[|rs| - 1];
    var m := TableAfter(prev, window);
    if r.key == key && !r.exempt {
      assert r.now - TableAfter(rs, window)[key].start < window;
      RecentNone(rs, key, now) by {
        assert forall i :: 0 <= i < |rs| ==> rs[i].now <= r.now;
      }
    } else {
      StaleRecent(prev, key, window, now);
    }
  }

  /** A request is refused only if its key already made `limit` counted requests
      within the last window. */
  lemma RefusedOnlyAboveRate(rs: seq<Request>, r: Request, limit: nat, window: int)
    requires window > 0 && Ordered(rs) && (rs != [] ==> rs[|rs| - 1].now <= r.now)
    requires !Admits(TableAfter(rs, window), r, limit, window)
    ensures limit > 0 ==> Recent(rs, r.key, r.now - window + 1) >= limit
  {
    BucketCounts(rs, r.key, window);
    var m := TableAfter(rs, window);
    if limit > 0 {
      RecentMonotone(rs, r.key, r.now - window + 1, m[r.key].start);
    }
  }
}
