/** The bounded observer buffer (src/service_lifecycle.ts): the newest events of
    a stream, with an explicit failure for consumers that fell behind. */
module ObserverBuffer {
  import opened Lifecycle

  datatype PollResult = Events(events: seq<Event>) | Lagged(earliest: int, latest: int)

  function Poll(events: seq<Event>, cursor: int): PollResult {
    if events != [] && cursor + 1 < events[0].sequence
    then Lagged(events[0].sequence, events[|events| - 1].sequence)
    else Events(After(events, cursor))
  }

  predicate Increasing(es: seq<Event>) {
    forall i, j :: 0 <= i < j < |es| ==> es[i].sequence < es[j].sequence
  }

  class BoundedObserverBuffer {
    const capacity: int
    const maxObservers: int
    var events: seq<Event>
    var observers: set<int>
    var terminal: bool
    ghost var published: seq<Event>   // everything accepted, nothing dropped

    ghost predicate Valid()
      reads this
    {
      && capacity >= 1 && maxObservers >= 1 && |observers| <= maxObservers
      && Increasing(published) && events == Trim(published, capacity)
      && (terminal <==> published != [] && published[|published| - 1].isFinal)
    }

    constructor (capacity: int, maxObservers: int)
      ensures Valid() && published == [] && observers == {}
      ensures this.capacity == (if capacity < 1 then 1 else capacity) && !terminal
      ensures this.maxObservers == if maxObservers < 1 then 1 else maxObservers
    {
      this.capacity := if capacity < 1 then 1 else capacity;
      this.maxObservers := if maxObservers < 1 then 1 else maxObservers;
      events, observers, terminal, published := [], {}, false, [];
    }

    method Subscribe(id: int) returns (ok: bool)
      requires Valid()
      modifies this`observers
      ensures Valid() && (ok <==> id in old(observers) || |old(observers)| < maxObservers)
      ensures observers == if ok then old(observers) + {id} else old(observers)
      ensures |observers| <= maxObservers && maxObservers >= 1
    {
      if id !in observers && |observers| >= maxObservers {
        return false;
      }
      assert id in observers ==> observers + {id} == observers;
      observers := observers + {id};
      ok := true;
    }

    method Disconnect(id: int)
      requires Valid()
      modifies this`observers
      ensures Valid() && observers == old(observers) - {id}
    {
      assert observers - {id} <= observers;
      Smaller(observers - {id}, observers);
      observers := observers - {id};
    }

    /** Refused exactly when the sequence number does not increase. */
    method Publish(e: Event) returns (ok: bool)
      requires Valid()
      modifies this
      ensures Valid() && observers == old(observers)
      ensures ok <==> old(published) == [] || old(published)[|old(published)| - 1].sequence < e.sequence
      ensures published == if ok then old(published) + [e] else old(published)
      ensures terminal <==> published != [] && published[|published| - 1].isFinal
    {
      hide Increasing, Trim;
      NewestIsLast(published, capacity);
      if events != [] && e.sequence <= events[|events| - 1].sequence {
        return false;
      }
      KeepNewest(published, e, capacity);
      IncreasingSnoc(published, e);
      events, published := events + [e], published + [e];
      if |events| > capacity {
        events := events[|events| - capacity..];
      }
      terminal := e.isFinal;
      ok := true;
    }

    /** A poll returns every published event above the cursor, dropped ones
        included, or says that the consumer lagged. */
    method PollAfter(cursor: int) returns (r: PollResult)
      requires Valid()
      ensures r == Poll(events, cursor)
      ensures r.Events? ==> r.events == After(published, cursor)
      ensures r.Lagged? <==> events != [] && cursor < events[0].sequence - 1
      ensures r.Lagged? ==> r.earliest == events[0].sequence && r.latest == published[|published| - 1].sequence
    {
      r := Poll(events, cursor);
      PollIsComplete(published, capacity, cursor);
    }
  }

  lemma NewestIsLast(es: seq<Event>, bound: int)
    requires bound >= 1
    ensures Trim(es, bound) == [] <==> es == []
    ensures es != [] ==> Trim(es, bound)[|Trim(es, bound)| - 1] == es[|es| - 1]
  {
  }

  lemma KeepNewest(es: seq<Event>, e: Event, bound: int)
    requires bound >= 1
    ensures var t := Trim(es, bound) + [e];
            Trim(es + [e], bound) == if |t| > bound then t[|t| - bound..] else t
  {
  }

  lemma IncreasingSnoc(es: seq<Event>, e: Event)
    requires Increasing(es) && (es != [] ==> es[|es| - 1].sequence < e.sequence)
    ensures Increasing(es + [e])
  {
  }

  lemma Smaller<T>(a: set<T>, b: set<T>)
    requires a <= b
    ensures |a| <= |b|
  {
    assert b == a + (b - a);
  }

  lemma {:induction false} SkipOld(es: seq<Event>, k: nat, cursor: int)
    requires k <= |es| && forall i :: 0 <= i < k ==> es[i].sequence <= cursor
    ensures After(es, cursor) == After(es[k..], cursor)
    decreases k
  {
    if k > 0 {
      SkipOld(es[1..], k - 1, cursor);
      assert es[1..][k - 1..] == es[k..];
    } else {
      assert es[0..] == es;
    }
  }

  lemma PollIsComplete(published: seq<Event>, capacity: int, cursor: int)
    requires Increasing(published) && capacity >= 1
    ensures Poll(Trim(published, capacity), cursor).Events? ==>
              Poll(Trim(published, capacity), cursor).events == After(published, cursor)
  {
    var kept := Trim(published, capacity);
    if published != [] && cursor + 1 >= kept[0].sequence {
      var k := |published| - |kept|;
      assert kept == published[k..] && kept[0] == published[k];
      SkipOld(published, k, cursor);
    }
  }

  /** Filtering by cursor drops exactly the events at or below it. */
  lemma {:induction false} AfterMembers(es: seq<Event>, cursor: int, e: Event)
    ensures e in After(es, cursor) <==> e in es && e.sequence > cursor
    ensures Increasing(es) ==> Increasing(After(es, cursor))
    decreases |es|
  {
    if es != [] {
      AfterMembers(es[1..], cursor, e);
      assert es == [es[0]] + es[1..];
      forall x | x in After(es[1..], cursor) ensures x in es[1..] {
        AfterMembers(es[1..], cursor, x);
      }
      assert Increasing(es) ==> forall x :: x in es[1..] ==> es[0].sequence < x.sequence;
    }
  }

  /** On a stream numbered 0, 1, 2, ... the failure is not just cautious: from
      cursor -1 on, it is raised exactly when an event above the cursor has in
      fact been dropped. */
  lemma LaggedMeansLost(published: seq<Event>, capacity: int, cursor: int)
    requires capacity >= 1 && cursor >= -1
    requires forall i :: 0 <= i < |published| ==> published[i].sequence == i
    ensures Poll(Trim(published, capacity), cursor).Lagged? <==>
            exists e :: e in published && e.sequence > cursor && e !in Trim(published, capacity)
  {
    var kept := Trim(published, capacity);
    var k := |published| - |kept|;
    assert kept == published[k..];
    if published != [] && cursor + 1 < k {
      var e := published[cursor + 1];
      assert e in published && e.sequence > cursor;
      assert forall j :: 0 <= j < |kept| ==> kept[j] == published[k + j];
    }
  }
}
