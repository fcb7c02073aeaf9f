/**
 internal/command/enroll_server.go: enrollmentRateLimiter, a token bucket per
 source with eviction of the least recently used source. Floating point numbers
 are reals here.
 */
module Limiter {
  datatype Bucket = Bucket(tokens: real, last: real)

  datatype Table = Table(buckets: map<string, Bucket>, order: seq<string>)

  datatype Limits = Limits(rate: real, burst: real, maxSources: nat)

  const MAX_SOURCES: nat := 4096

  /** newEnrollmentRateLimiter: max requests at once, and max per window of the given seconds. */
  function NewLimits(max: nat, seconds: real): (m: Limits)
  {
    Limits(max as real / (if seconds <= 0.0 then 1.0 else seconds), max as real, MAX_SOURCES)
  }

  /** The rate is max per window, one second for a window that is not positive. */
  lemma NewLimitsRate(max: nat, seconds: real)
    ensures var m := NewLimits(max, seconds);
            && m.rate * (if seconds <= 0.0 then 1.0 else seconds) == max as real
            && m.burst == max as real && m.maxSources == 4096
  {
  }

  predicate Sensible(m: Limits)
  {
    m.rate >= 0.0 && m.burst >= 0.0 && m.maxSources > 0
  }

  //////////////////////////////////////////////////////////////////////////////
  // What the limiter computes
  //////////////////////////////////////////////////////////////////////////////

  /** order without its first occurrence of source. */
  function Drop(order: seq<string>, source: string): (r: seq<string>)
  {
    if order == [] then []
    else if order[0] == source then order[1..]
    else [order[0]] + Drop(order[1..], source)
  }

  /** The eviction loop: the oldest sources go until there is room. */
  function Evict(m: Limits, t: Table): (r: Table)
    decreases |t.order|
  {
    if |t.buckets| >= m.maxSources && t.order != []
    then Evict(m, Table(t.buckets - {t.order[0]}, t.order[1..]))
    else t
  }

  /** touchLocked. */
  function Touched(m: Limits, t: Table, source: string, now: real): (r: Table)
    ensures source in r.buckets
  {
    if source in t.buckets then Table(t.buckets, Drop(t.order, source) + [source])
    else
      var e := Evict(m, t);
      Table(e.buckets[source := Bucket(m.burst, now)], e.order + [source])
  }

  /** The tokens of a bucket at time now, before the request is counted. */
  function Available(m: Limits, b: Bucket, now: real): (tokens: real)
  {
    var elapsed := if now - b.last < 0.0 then 0.0 else now - b.last;
    var tokens := b.tokens + elapsed * m.rate;
    if tokens > m.burst then m.burst else tokens
  }

  datatype Decision = Decision(table: Table, allowed: bool)

  /** allow. */
  function Decide(m: Limits, t: Table, source: string, now: real): (d: Decision)
  {
    var u := Touched(m, t, source, now);
    var tokens := Available(m, u.buckets[source], now);
    if tokens < 1.0 then Decision(u.(buckets := u.buckets[source := Bucket(tokens, now)]), false)
    else Decision(u.(buckets := u.buckets[source := Bucket(tokens - 1.0, now)]), true)
  }

  //////////////////////////////////////////////////////////////////////////////
  // The invariant
  //////////////////////////////////////////////////////////////////////////////

  predicate Distinct(order: seq<string>)
  {
    forall i, j :: 0 <= i < j < |order| ==> order[i] != order[j]
  }

  /** order lists exactly the sources with a bucket, each once. */
  ghost predicate Lists(t: Table)
  {
    && Distinct(t.order)
    && (forall s :: s in t.order <==> s in t.buckets)
  }

  /** The sources in order of their last request, none of it after now. */
  ghost predicate LeastRecentFirst(t: Table, now: real)
  {
    && (forall s :: s in t.buckets ==> t.buckets[s].last <= now)
    && (forall i, j :: 0 <= i < j < |t.order| && t.order[i] in t.buckets && t.order[j] in t.buckets ==>
          t.buckets[t.order[i]].last <= t.buckets[t.order[j]].last)
  }

  ghost predicate Filled(m: Limits, t: Table)
  {
    forall s :: s in t.buckets ==> 0.0 <= t.buckets[s].tokens <= m.burst
  }

  ghost predicate Valid(m: Limits, t: Table, now: real)
  {
    Sensible(m) && Lists(t) && |t.buckets| <= m.maxSources && LeastRecentFirst(t, now) && Filled(m, t)
  }

  lemma {:induction false} DropProperties(order: seq<string>, source: string)
    requires Distinct(order)
    ensures Distinct(Drop(order, source))
    ensures forall s :: s in Drop(order, source) <==> s in order && s != source
    ensures source in order ==> |Drop(order, source)| == |order| - 1
  {
    if order != [] {
      DropProperties(order[1..], source);
      var rest := Drop(order[1..], source);
      if order[0] == source {
        assert forall s :: s in order[1..] ==> s != source;
      } else {
        var r := [order[0]] + rest;
        forall i, j | 0 <= i < j < |r|
          ensures r[i] != r[j]
        {
          if i == 0 {
            assert r[j] in rest;
          }
        }
      }
    }
  }

  lemma {:induction false} DropFirst(a: seq<string>, source: string, b: seq<string>)
    requires source !in a
    ensures Drop(a + ([source] + b), source) == a + b
  {
    var order := a + ([source] + b);
    if a == [] {
      assert order[1..] == b && a + b == b;
    } else {
      DropFirst(a[1..], source, b);
      assert order[0] == a[0] && order[1..] == a[1..] + ([source] + b);
      assert [a[0]] + (a[1..] + b) == a + b;
    }
  }

  lemma {:induction false} DropNone(a: seq<string>, source: string)
    requires source !in a
    ensures Drop(a, source) == a
  {
    if a != [] {
      DropNone(a[1..], source);
    }
  }

  /** Dropping keeps the relative order: position i of the result is at i or i + 1 before. */
  lemma {:induction false} DropAt(order: seq<string>, source: string, i: nat)
    requires i < |Drop(order, source)|
    ensures i < |order| && (Drop(order, source)[i] == order[i]
                            || (i + 1 < |order| && Drop(order, source)[i] == order[i + 1]))
  {
    if order[0] != source && i > 0 {
      DropAt(order[1..], source, i - 1);
    }
  }

  lemma {:induction false} DropSorted(t: Table, source: string, now: real)
    requires Lists(t) && LeastRecentFirst(t, now)
    ensures LeastRecentFirst(Table(t.buckets, Drop(t.order, source)), now)
  {
    var r := Drop(t.order, source);
    DropProperties(t.order, source);
    forall i, j | 0 <= i < j < |r| && r[i] in t.buckets && r[j] in t.buckets
      ensures t.buckets[r[i]].last <= t.buckets[r[j]].last
    {
      DropAt(t.order, source, i);
      DropAt(t.order, source, j);
      assert r[i] != r[j];
    }
  }

  /** Removing the oldest source. */
  function Oldest(t: Table): (r: Table)
    requires t.order != []
  {
    Table(t.buckets - {t.order[0]}, t.order[1..])
  }

  lemma OldestLists(t: Table)
    requires Lists(t) && t.order != []
    ensures Lists(Oldest(t)) && |Oldest(t).buckets| == |t.buckets| - 1
  {
    var r := Oldest(t);
    assert t.order[0] in t.buckets;
    assert t.buckets.Keys == r.buckets.Keys + {t.order[0]};
    forall s
      ensures s in r.order <==> s in r.buckets
    {
      assert t.order == [t.order[0]] + r.order;
      assert s in r.order ==> s != t.order[0];
    }
  }

  lemma OldestSorted(t: Table, now: real)
    requires LeastRecentFirst(t, now) && t.order != []
    ensures LeastRecentFirst(Oldest(t), now)
  {
    var r := Oldest(t);
    forall i, j | 0 <= i < j < |r.order| && r.order[i] in r.buckets && r.order[j] in r.buckets
      ensures r.buckets[r.order[i]].last <= r.buckets[r.order[j]].last
    {
      assert r.order[i] == t.order[i + 1] && r.order[j] == t.order[j + 1];
    }
  }

  lemma OldestValid(m: Limits, t: Table, now: real)
    requires Valid(m, t, now) && t.order != []
    ensures Valid(m, Oldest(t), now) && |Oldest(t).buckets| == |t.buckets| - 1
  {
    hide Lists, LeastRecentFirst;
    OldestLists(t);
    OldestSorted(t, now);
  }

  lemma {:induction false} EvictValid(m: Limits, t: Table, now: real)
    requires Valid(m, t, now)
    ensures Valid(m, Evict(m, t), now) && |Evict(m, t).buckets| < m.maxSources
    ensures forall s :: s in Evict(m, t).buckets ==> s in t.buckets
    decreases |t.order|
  {
    hide Valid;
    if |t.buckets| >= m.maxSources && t.order != [] {
      OldestValid(m, t, now);
      EvictValid(m, Oldest(t), now);
    } else {
      EmptyOrder(m, t, now);
    }
  }

  lemma EmptyOrder(m: Limits, t: Table, now: real)
    requires Valid(m, t, now) && (t.order == [] || |t.buckets| < m.maxSources)
    ensures |t.buckets| < m.maxSources
  {
    if t.order == [] {
      assert t.buckets == map[];
    }
  }

  lemma Earlier(m: Limits, t: Table, past: real, now: real)
    requires Valid(m, t, past) && past <= now
    ensures Valid(m, t, now)
  {
  }

  /** Appending the touched source last, with any bucket of time now. */
  function Last(t: Table, source: string, b: Bucket): (r: Table)
  {
    Table(t.buckets[source := b], t.order + [source])
  }

  /** order lists the other sources. */
  ghost predicate ListsOthers(t: Table, source: string)
  {
    Distinct(t.order) && forall s :: s in t.order <==> s in t.buckets && s != source
  }

  lemma LastLists(t: Table, source: string, b: Bucket)
    requires ListsOthers(t, source)
    ensures Lists(Last(t, source, b))
  {
    var order := t.order + [source];
    forall i, j | 0 <= i < j < |order|
      ensures order[i] != order[j]
    {
      assert t.order[i] in t.order;
    }
  }

  lemma LastSorted(t: Table, source: string, b: Bucket, now: real)
    requires ListsOthers(t, source) && LeastRecentFirst(t, now) && b.last == now
    ensures LeastRecentFirst(Last(t, source, b), now)
  {
    var r := Last(t, source, b);
    forall i, j | 0 <= i < j < |r.order| && r.order[i] in r.buckets && r.order[j] in r.buckets
      ensures r.buckets[r.order[i]].last <= r.buckets[r.order[j]].last
    {
      assert r.order[i] == t.order[i] && t.order[i] in t.order;
      if j < |t.order| {
        assert r.order[j] == t.order[j] && t.order[j] in t.order;
      }
    }
  }

  lemma AppendValid(m: Limits, t: Table, source: string, b: Bucket, now: real)
    requires Sensible(m) && ListsOthers(t, source) && Filled(m, t) && LeastRecentFirst(t, now)
    requires |t.buckets[source := b]| <= m.maxSources
    requires 0.0 <= b.tokens <= m.burst && b.last == now
    ensures Valid(m, Last(t, source, b), now)
  {
    hide Lists, LeastRecentFirst, ListsOthers;
    LastLists(t, source, b);
    LastSorted(t, source, b, now);
  }

  lemma NonNegative(x: real, y: real)
    requires x >= 0.0 && y >= 0.0
    ensures x * y >= 0.0
  {
  }

  lemma AvailableBounds(m: Limits, b: Bucket, now: real)
    requires Sensible(m) && 0.0 <= b.tokens <= m.burst
    ensures 0.0 <= Available(m, b, now) <= m.burst
  {
    var elapsed := if now - b.last < 0.0 then 0.0 else now - b.last;
    NonNegative(elapsed, m.rate);
  }

  /** The bucket that allow leaves. */
  function Spent(m: Limits, b: Bucket, now: real): (r: Bucket)
  {
    var tokens := Available(m, b, now);
    Bucket(if tokens < 1.0 then tokens else tokens - 1.0, now)
  }

  lemma DecideIs(m: Limits, t: Table, source: string, now: real)
    ensures source in t.buckets ==>
              Decide(m, t, source, now).table
              == Last(Table(t.buckets, Drop(t.order, source)), source, Spent(m, t.buckets[source], now))
    ensures source !in t.buckets ==>
              Decide(m, t, source, now).table == Last(Evict(m, t), source, Spent(m, Bucket(m.burst, now), now))
  {
    hide Evict, Drop, Available;
    var e := Evict(m, t);
    var b := Spent(m, Bucket(m.burst, now), now);
    assert e.buckets[source := Bucket(m.burst, now)][source := b] == e.buckets[source := b];
  }

  lemma SpentBounds(m: Limits, b: Bucket, now: real)
    requires Sensible(m) && 0.0 <= b.tokens <= m.burst
    ensures 0.0 <= Spent(m, b, now).tokens <= m.burst && Spent(m, b, now).last == now
  {
    hide Available;
    AvailableBounds(m, b, now);
  }

  lemma KnownSize(buckets: map<string, Bucket>, source: string, b: Bucket)
    ensures source in buckets ==> |buckets[source := b]| == |buckets|
    ensures source !in buckets ==> |buckets[source := b]| == |buckets| + 1
  {
    assert buckets[source := b].Keys == buckets.Keys + {source};
    assert source in buckets ==> buckets.Keys + {source} == buckets.Keys;
  }

  /** Every request at a time not before the last keeps the invariant. */
  lemma AllowValid(m: Limits, t: Table, source: string, past: real, now: real)
    requires Valid(m, t, past) && past <= now
    ensures Valid(m, Decide(m, t, source, now).table, now)
  {
    hide Evict, Drop, Spent, Decide, LeastRecentFirst, Last, Distinct;
    Earlier(m, t, past, now);
    DecideIs(m, t, source, now);
    if source in t.buckets {
      DropProperties(t.order, source);
      DropSorted(t, source, now);
      var b := Spent(m, t.buckets[source], now);
      SpentBounds(m, t.buckets[source], now);
      KnownSize(t.buckets, source, b);
      AppendValid(m, Table(t.buckets, Drop(t.order, source)), source, b, now);
    } else {
      EvictValid(m, t, now);
      var b := Spent(m, Bucket(m.burst, now), now);
      SpentBounds(m, Bucket(m.burst, now), now);
      KnownSize(Evict(m, t).buckets, source, b);
      AppendValid(m, Evict(m, t), source, b, now);
    }
  }

  //////////////////////////////////////////////////////////////////////////////
  // Which sources keep their bucket
  //////////////////////////////////////////////////////////////////////////////

  datatype Request = Request(source: string, at: real)

  /** The table after the requests. */
  function TableAfter(m: Limits, t: Table, requests: seq<Request>): (r: Table)
    decreases requests
  {
    if requests == [] then t
    else TableAfter(m, Decide(m, t, requests[0].source, requests[0].at).table, requests[1..])
  }

  /** The source keeps its bucket during the requests, once it has one. */
  predicate NeverEvicted(m: Limits, t: Table, requests: seq<Request>, source: string)
    decreases requests
  {
    requests == [] ||
    (var u := Decide(m, t, requests[0].source, requests[0].at).table;
     (source in t.buckets ==> source in u.buckets) && NeverEvicted(m, u, requests[1..], source))
  }

  /** The sources listed after this one. */
  function Behind(order: seq<string>, source: string): (b: set<string>)
  {
    if order == [] then {}
    else if order[0] == source then set s | s in order[1..]
    else Behind(order[1..], source)
  }

  /** Where a source stands: without a bucket, or with one and these sources requested after it. */
  datatype Standing = Gone | Present(behind: set<string>)

  function StandingOf(t: Table, source: string): (st: Standing)
  {
    if source in t.buckets then Present(Behind(t.order, source)) else Gone
  }

  /** Where the source stands after a request of from, told from the request alone. */
  function StandingNext(max: nat, st: Standing, source: string, from: string): (r: Standing)
  {
    if from == source then Present({})
    else if st.Present? && |st.behind + {from}| < max then Present(st.behind + {from})
    else Gone
  }

  function StandingAfter(max: nat, st: Standing, requests: seq<Request>, source: string): (r: Standing)
    decreases requests
  {
    if requests == [] then st
    else StandingAfter(max, StandingNext(max, st, source, requests[0].source), requests[1..], source)
  }

  /** Fewer than max other sources come between two requests of the source, or behind it at the start. */
  predicate Retained(max: nat, st: Standing, requests: seq<Request>, source: string)
    decreases requests
  {
    requests == [] ||
    (var n := StandingNext(max, st, source, requests[0].source);
     (st.Present? ==> n.Present?) && Retained(max, n, requests[1..], source))
  }

  /** How often the source loses its bucket. */
  function Evictions(max: nat, st: Standing, requests: seq<Request>, source: string): (n: nat)
    decreases requests
  {
    if requests == [] then 0
    else
      var n := StandingNext(max, st, source, requests[0].source);
      Evictions(max, n, requests[1..], source) + (if st.Present? && n.Gone? then 1 else 0)
  }

  lemma {:induction false} BehindOthers(order: seq<string>, source: string)
    requires Distinct(order)
    ensures source !in Behind(order, source) && forall s :: s in Behind(order, source) ==> s in order
  {
    if order != [] {
      BehindOthers(order[1..], source);
    }
  }

  lemma {:induction false} BehindAppended(order: seq<string>, last: string, source: string)
    requires Distinct(order) && last !in order
    ensures Behind(order + [last], source)
            == if source in order then Behind(order, source) + {last} else {}
  {
    if order == [] {
      assert order + [last] == [last];
    } else {
      assert (order + [last])[1..] == order[1..] + [last];
      if order[0] != source {
        BehindAppended(order[1..], last, source);
      }
    }
  }

  lemma {:induction false} BehindDropped(order: seq<string>, other: string, source: string)
    requires Distinct(order) && other != source && source in order
    ensures Behind(Drop(order, other), source) == Behind(order, source) - {other}
  {
    var rest := order[1..];
    DropProperties(rest, other);
    if order[0] == other {
      BehindOthers(rest, source);
      BehindFirst(order, source);
      assert other !in rest;
    } else if order[0] != source {
      BehindDropped(rest, other, source);
      assert Drop(order, other)[1..] == Drop(rest, other);
    } else {
      assert Drop(order, other)[1..] == Drop(rest, other);
    }
  }

  lemma BehindFirst(order: seq<string>, source: string)
    requires Distinct(order) && source in order && order[0] != source
    ensures Behind(order, source) == Behind(order[1..], source) && order[0] !in Behind(order, source)
  {
    BehindOthers(order[1..], source);
  }

  /** The sources behind this one are among the others that have a bucket. */
  lemma BehindListed(t: Table, source: string)
    requires Lists(t)
    ensures Behind(t.order, source) <= t.buckets.Keys - {source}
  {
    BehindOthers(t.order, source);
  }

  lemma Fewer(a: set<string>, b: set<string>)
    requires a <= b
    ensures |a| <= |b|
  {
    if a != b {
      assert b == a + (b - a);
    }
  }

  /** A known source: every other one keeps its bucket. */
  lemma KnownStanding(m: Limits, t: Table, source: string, from: string, b: Bucket, now: real)
    requires Valid(m, t, now) && from in t.buckets && from != source
    ensures StandingOf(Last(Table(t.buckets, Drop(t.order, from)), from, b), source)
            == StandingNext(m.maxSources, StandingOf(t, source), source, from)
  {
    hide LeastRecentFirst, Filled;
    if source in t.buckets {
      DropProperties(t.order, from);
      BehindDropped(t.order, from, source);
      BehindAppended(Drop(t.order, from), from, source);
      BehindListed(t, source);
      var behind := Behind(t.order, source);
      assert behind - {from} + {from} == behind + {from};
      assert behind + {from} <= t.buckets.Keys - {source};
      Fewer(behind + {from}, t.buckets.Keys - {source});
    }
  }

  /** There is room: a new source pushes nobody out. */
  lemma RoomStanding(m: Limits, t: Table, source: string, from: string, b: Bucket, now: real)
    requires Valid(m, t, now) && |t.buckets| < m.maxSources && from !in t.buckets && from != source
    ensures StandingOf(Last(t, from, b), source) == StandingNext(m.maxSources, StandingOf(t, source), source, from)
  {
    hide LeastRecentFirst, Filled;
    if source in t.buckets {
      BehindAppended(t.order, from, source);
      BehindListed(t, source);
      Fewer(Behind(t.order, source), t.buckets.Keys - {source});
    }
  }

  lemma EvictOnce(m: Limits, t: Table, now: real)
    requires Valid(m, t, now) && |t.buckets| >= m.maxSources
    ensures t.order != [] && Evict(m, t) == Oldest(t)
  {
    hide LeastRecentFirst, Filled;
    if t.order == [] {
      EmptyOrder(m, t, now);
      assert false;
    }
    OldestLists(t);
    assert Evict(m, Oldest(t)) == Oldest(t);
  }

  lemma AllBehind(t: Table)
    requires Lists(t) && t.order != []
    ensures t.order[0] in t.buckets && Behind(t.order, t.order[0]) == t.buckets.Keys - {t.order[0]}
    ensures |Behind(t.order, t.order[0])| == |t.buckets| - 1
  {
    var rest := t.order[1..];
    assert t.order == [t.order[0]] + rest;
    forall s
      ensures s in Behind(t.order, t.order[0]) <==> s in t.buckets.Keys - {t.order[0]}
    {
      assert s in rest ==> s != t.order[0];
    }
  }

  lemma NotAllBehind(t: Table, source: string)
    requires Lists(t) && t.order != [] && source in t.buckets && t.order[0] != source
    ensures |Behind(t.order, source)| <= |t.buckets| - 2
  {
    hide Behind, Distinct;
    var first := t.order[0];
    assert first in t.order;
    BehindListed(t, source);
    BehindFirst(t.order, source);
    assert |t.buckets.Keys - {source, first}| == |t.buckets| - 2;
    Fewer(Behind(t.order, source), t.buckets.Keys - {source, first});
  }

  lemma ListedOnce(t: Table)
    requires Lists(t)
    ensures Distinct(t.order) && forall s :: s in t.order <==> s in t.buckets
  {
  }

  /** The table is full: exactly the first source in the order is pushed out. */
  lemma FullStanding(m: Limits, t: Table, source: string, from: string, b: Bucket, now: real)
    requires Valid(m, t, now) && |t.buckets| == m.maxSources && t.order != [] && from !in t.buckets && from != source
    ensures StandingOf(Last(Oldest(t), from, b), source)
            == StandingNext(m.maxSources, StandingOf(t, source), source, from)
  {
    hide LeastRecentFirst, Filled, Lists, Distinct, Behind;
    OldestLists(t);
    ListedOnce(t);
    ListedOnce(Oldest(t));
    if source in t.buckets {
      var behind := Behind(t.order, source);
      if t.order[0] == source {
        AllBehind(t);
        assert from !in behind;
        assert |behind + {from}| == m.maxSources;
      } else {
        BehindFirst(t.order, source);
        BehindAppended(t.order[1..], from, source);
        NotAllBehind(t, source);
      }
    }
  }

  /** The source that makes the request is last, with nobody behind it. */
  lemma OwnStanding(t: Table, source: string, b: Bucket)
    requires ListsOthers(t, source)
    ensures StandingOf(Last(t, source, b), source) == Present({})
  {
    BehindAppended(t.order, source, source);
  }

  /** The least-recently-used rule: a request moves every source exactly as the request alone tells. */
  lemma StandingStep(m: Limits, t: Table, source: string, from: string, now: real)
    requires Valid(m, t, now)
    ensures StandingOf(Decide(m, t, from, now).table, source)
            == StandingNext(m.maxSources, StandingOf(t, source), source, from)
  {
    hide Decide, Drop, Spent, LeastRecentFirst, Filled, Last, StandingOf, Oldest, Distinct;
    DecideIs(m, t, from, now);
    if from in t.buckets {
      DropProperties(t.order, from);
      var b := Spent(m, t.buckets[from], now);
      if from == source {
        OwnStanding(Table(t.buckets, Drop(t.order, from)), source, b);
      } else {
        KnownStanding(m, t, source, from, b, now);
      }
    } else {
      var b := Spent(m, Bucket(m.burst, now), now);
      EvictValid(m, t, now);
      if from == source {
        OwnStanding(Evict(m, t), source, b);
      } else if |t.buckets| < m.maxSources {
        RoomStanding(m, t, source, from, b, now);
      } else {
        EvictOnce(m, t, now);
        FullStanding(m, t, source, from, b, now);
      }
    }
  }

  lemma {:induction false} StandingTraced(m: Limits, t: Table, requests: seq<Request>, source: string,
                                          start: real, end: real)
    requires Valid(m, t, start) && Timed(requests, start, end)
    ensures StandingOf(TableAfter(m, t, requests), source)
            == StandingAfter(m.maxSources, StandingOf(t, source), requests, source)
    ensures Valid(m, TableAfter(m, t, requests), end)
    decreases requests
  {
    hide Valid, Decide, StandingOf, StandingNext;
    if requests == [] {
      Earlier(m, t, start, end);
    } else {
      var q := requests[0];
      Earlier(m, t, start, q.at);
      StandingStep(m, t, source, q.source, q.at);
      AllowValid(m, t, q.source, start, q.at);
      StandingTraced(m, Decide(m, t, q.source, q.at).table, requests[1..], source, q.at, end);
    }
  }

  /**
   A source keeps its bucket if and only if, on the trace of requests, fewer than
   maxSources distinct other sources come between its requests; those listed behind
   it at the start count before its first one.
   */
  lemma {:induction false} KeptIff(m: Limits, t: Table, requests: seq<Request>, source: string, start: real, end: real)
    requires Valid(m, t, start) && Timed(requests, start, end)
    ensures NeverEvicted(m, t, requests, source) <==> Retained(m.maxSources, StandingOf(t, source), requests, source)
    decreases requests
  {
    hide Valid, Decide, StandingNext, Behind;
    if requests != [] {
      var q := requests[0];
      Earlier(m, t, start, q.at);
      StandingStep(m, t, source, q.source, q.at);
      AllowValid(m, t, q.source, start, q.at);
      KeptIff(m, Decide(m, t, q.source, q.at).table, requests[1..], source, q.at, end);
    }
  }

  /** The sources of the requests. */
  function Sources(requests: seq<Request>): (r: set<string>)
  {
    set i | 0 <= i < |requests| :: requests[i].source
  }

  lemma SourcesFirst(requests: seq<Request>)
    requires requests != []
    ensures Sources(requests) == {requests[0].source} + Sources(requests[1..])
  {
    forall s
      ensures s in Sources(requests) <==> s in {requests[0].source} + Sources(requests[1..])
    {
      if s in Sources(requests) {
        var i :| 0 <= i < |requests| && requests[i].source == s;
        if i > 0 {
          assert requests[1..][i - 1].source == s;
        }
      }
      if s in Sources(requests[1..]) {
        var i :| 0 <= i < |requests[1..]| && requests[1..][i].source == s;
        assert requests[i + 1].source == s;
      }
    }
  }

  lemma NoSources()
    ensures Sources([]) == {}
  {
  }

  /** Between two requests of the source: it stays exactly while the others are fewer than max. */
  lemma {:induction false} BetweenRequests(max: nat, behind: set<string>, requests: seq<Request>, source: string)
    requires |behind| < max && source !in Sources(requests)
    ensures StandingAfter(max, Present(behind), requests, source)
            == if |behind + Sources(requests)| < max then Present(behind + Sources(requests)) else Gone
    decreases requests
  {
    hide Sources;
    if requests == [] {
      NoSources();
      assert behind + {} == behind;
    } else {
      var y := requests[0].source;
      SourcesFirst(requests);
      assert behind + Sources(requests) == behind + {y} + Sources(requests[1..]);
      if |behind + {y}| < max {
        BetweenRequests(max, behind + {y}, requests[1..], source);
      } else {
        GoneStays(max, requests[1..], source);
        Fewer(behind + {y}, behind + Sources(requests));
      }
    }
  }

  lemma {:induction false} GoneStays(max: nat, requests: seq<Request>, source: string)
    requires source !in Sources(requests)
    ensures StandingAfter(max, Gone, requests, source) == Gone
    decreases requests
  {
    if requests != [] {
      SourcesFirst(requests);
      GoneStays(max, requests[1..], source);
    }
  }

  //////////////////////////////////////////////////////////////////////////////
  // How much a source is allowed
  //////////////////////////////////////////////////////////////////////////////

  /** The tokens a source could use at time now; a source without a bucket starts with a full one. */
  function Credit(m: Limits, t: Table, source: string, now: real): (c: real)
  {
    if source in t.buckets then Available(m, t.buckets[source], now) else m.burst
  }

  /** The number of requests allowed to the source. */
  function AllowedTo(m: Limits, t: Table, requests: seq<Request>, source: string): (n: nat)
    decreases requests
  {
    if requests == [] then 0
    else
      var d := Decide(m, t, requests[0].source, requests[0].at);
      AllowedTo(m, d.table, requests[1..], source) + (if d.allowed && requests[0].source == source then 1 else 0)
  }

  /** Times do not decrease, from start to end. */
  predicate Timed(requests: seq<Request>, start: real, end: real)
    decreases requests
  {
    if requests == [] then start <= end
    else start <= requests[0].at && Timed(requests[1..], requests[0].at, end)
  }

  lemma TimedOrder(requests: seq<Request>, start: real, end: real)
    requires Timed(requests, start, end)
    ensures start <= end
    decreases requests
  {
    if requests != [] {
      TimedOrder(requests[1..], requests[0].at, end);
    }
  }

  lemma BucketGrows(m: Limits, b: Bucket, past: real, now: real)
    requires m.rate >= 0.0 && b.last <= past <= now
    ensures Available(m, b, now) <= Available(m, b, past) + m.rate * (now - past)
  {
    assert (now - b.last) * m.rate == (past - b.last) * m.rate + m.rate * (now - past);
    NonNegative(m.rate, now - past);
  }

  /** Credit grows at most at the rate. */
  lemma CreditGrows(m: Limits, t: Table, source: string, past: real, now: real)
    requires Valid(m, t, past) && past <= now
    ensures Credit(m, t, source, now) <= Credit(m, t, source, past) + m.rate * (now - past)
  {
    hide Available, Lists;
    RatePositive(m, t, past, now - past);
    if source in t.buckets {
      BucketGrows(m, t.buckets[source], past, now);
    }
  }

  lemma SpentLeft(m: Limits, b: Bucket, now: real)
    requires Sensible(m) && 0.0 <= b.tokens <= m.burst
    ensures Available(m, Spent(m, b, now), now)
            == if Available(m, b, now) < 1.0 then Available(m, b, now) else Available(m, b, now) - 1.0
  {
    hide Available;
    AvailableBounds(m, b, now);
    FreshBucket(m, Spent(m, b, now).tokens, now);
  }

  lemma FreshBucket(m: Limits, tokens: real, now: real)
    requires tokens <= m.burst
    ensures Available(m, Bucket(tokens, now), now) == tokens
  {
  }

  /** A request is allowed exactly when the source has credit for it, and spends one. */
  lemma OwnRequest(m: Limits, t: Table, source: string, now: real)
    requires Valid(m, t, now)
    ensures var d := Decide(m, t, source, now);
            && source in d.table.buckets
            && (d.allowed <==> Credit(m, t, source, now) >= 1.0)
            && Credit(m, d.table, source, now) == Credit(m, t, source, now) - (if d.allowed then 1.0 else 0.0)
  {
    hide Evict, Drop, Available, Lists, LeastRecentFirst;
    FreshBucket(m, m.burst, now);
    SpentLeft(m, if source in t.buckets then t.buckets[source] else Bucket(m.burst, now), now);
  }

  /** A request of another source leaves the credit alone, or evicts the source. */
  lemma OtherRequest(m: Limits, t: Table, source: string, from: string, now: real)
    requires Valid(m, t, now) && from != source
    ensures Credit(m, Decide(m, t, from, now).table, source, now)
            == if source in t.buckets && source !in Decide(m, t, from, now).table.buckets then m.burst
               else Credit(m, t, source, now)
  {
    hide Evict, Drop, Available, Lists, LeastRecentFirst;
    if source in t.buckets {
      if source in Decide(m, t, from, now).table.buckets {
        KeptBucket(m, t, from, now, source);
      }
    } else if from !in t.buckets {
      EvictValid(m, t, now);
    }
  }

  /** What a request takes from the credit of a source; an evicted source gets its burst back. */
  lemma CreditSpent(m: Limits, t: Table, source: string, q: Request)
    requires Valid(m, t, q.at)
    ensures var d := Decide(m, t, q.source, q.at);
            Credit(m, d.table, source, q.at) + (if d.allowed && q.source == source then 1.0 else 0.0)
            == if source in t.buckets && source !in d.table.buckets then m.burst else Credit(m, t, source, q.at)
  {
    hide Decide, Credit, Valid;
    if q.source == source {
      OwnRequest(m, t, source, q.at);
    } else {
      OtherRequest(m, t, source, q.source, q.at);
    }
  }

  lemma {:induction false} EvictKeeps(m: Limits, t: Table, s: string)
    requires s in Evict(m, t).buckets
    ensures s in t.buckets && Evict(m, t).buckets[s] == t.buckets[s]
    decreases |t.order|
  {
    if |t.buckets| >= m.maxSources && t.order != [] {
      EvictKeeps(m, Table(t.buckets - {t.order[0]}, t.order[1..]), s);
    }
  }

  lemma KeptBucket(m: Limits, t: Table, other: string, now: real, source: string)
    requires other != source && source in t.buckets && source in Decide(m, t, other, now).table.buckets
    ensures Decide(m, t, other, now).table.buckets[source] == t.buckets[source]
  {
    hide Evict, Drop, Available;
    if other !in t.buckets {
      EvictKeeps(m, t, source);
    }
  }

  /** What a credit, an interval of time and a number of evictions allow. */
  function Allowance(m: Limits, credit: real, time: real, evictions: nat): (a: real)
  {
    credit + m.rate * time + m.burst * evictions as real
  }

  lemma {:induction false} AllowedWithinCredit(m: Limits, t: Table, requests: seq<Request>, source: string,
                                               start: real, end: real)
    requires Valid(m, t, start) && Timed(requests, start, end)
    ensures AllowedTo(m, t, requests, source) as real
            <= Allowance(m, Credit(m, t, source, start), end - start,
                         Evictions(m.maxSources, StandingOf(t, source), requests, source))
    decreases requests
  {
    hide Valid, Decide, Credit, StandingNext, StandingOf, Allowance;
    if requests == [] {
      NothingAllowed(m, t, source, start, end);
    } else {
      var q := requests[0];
      var d := Decide(m, t, q.source, q.at);
      AllowValid(m, t, q.source, start, q.at);
      AllowedWithinCredit(m, d.table, requests[1..], source, q.at, end);
      Earlier(m, t, start, q.at);
      StandingStep(m, t, source, q.source, q.at);
      Tally(m, t, source, q, start, end, AllowedTo(m, d.table, requests[1..], source),
            Evictions(m.maxSources, StandingOf(d.table, source), requests[1..], source));
    }
  }

  lemma NothingAllowed(m: Limits, t: Table, source: string, start: real, end: real)
    requires Valid(m, t, start) && start <= end
    ensures Allowance(m, Credit(m, t, source, start), end - start, 0) >= 0.0
  {
    hide Valid, Credit;
    CreditPositive(m, t, source, start);
    RatePositive(m, t, start, end - start);
  }

  /** One request in the account: what it spends, the credit that grew before it, and what an eviction gives back. */
  lemma Tally(m: Limits, t: Table, source: string, q: Request, start: real, end: real, later: nat, evictions: nat)
    requires Valid(m, t, start) && start <= q.at
    requires later as real
             <= Allowance(m, Credit(m, Decide(m, t, q.source, q.at).table, source, q.at), end - q.at, evictions)
    ensures var d := Decide(m, t, q.source, q.at);
            (later + (if d.allowed && q.source == source then 1 else 0)) as real
            <= Allowance(m, Credit(m, t, source, start), end - start,
                         evictions
                         + (if StandingOf(t, source).Present? && StandingOf(d.table, source).Gone? then 1 else 0))
  {
    hide Valid, Decide, Credit, Allowance, Behind;
    var d := Decide(m, t, q.source, q.at);
    Earlier(m, t, start, q.at);
    CreditSpent(m, t, source, q);
    CreditGrows(m, t, source, start, q.at);
    CreditPositive(m, t, source, q.at);
    Balance(m, start, q.at, end, Credit(m, t, source, start), Credit(m, t, source, q.at),
            Credit(m, d.table, source, q.at), later, if d.allowed && q.source == source then 1 else 0, evictions,
            source in t.buckets && source !in d.table.buckets);
  }

  lemma Balance(m: Limits, start: real, at: real, end: real, before: real, grown: real, left: real,
                later: nat, spent: nat, evictions: nat, evicted: bool)
    requires later as real <= Allowance(m, left, end - at, evictions)
    requires left + spent as real == (if evicted then m.burst else grown)
    requires 0.0 <= grown <= before + m.rate * (at - start)
    ensures (later + spent) as real <= Allowance(m, before, end - start, evictions + (if evicted then 1 else 0))
  {
    Distribute(m.rate, end - at, at - start);
    assert (end - at) + (at - start) == end - start;
    Distribute(m.burst, evictions as real, 1.0);
  }

  lemma Distribute(x: real, y: real, z: real)
    ensures x * (y + z) == x * y + x * z
  {
  }

  lemma CreditPositive(m: Limits, t: Table, source: string, now: real)
    requires Valid(m, t, now)
    ensures 0.0 <= Credit(m, t, source, now) <= m.burst
  {
    if source in t.buckets {
      AvailableBounds(m, t.buckets[source], now);
    }
  }

  lemma RatePositive(m: Limits, t: Table, now: real, x: real)
    requires Valid(m, t, now) && x >= 0.0
    ensures m.rate * x >= 0.0
  {
    hide Lists, LeastRecentFirst, Filled;
    NonNegative(m.rate, x);
  }

  /** burst + rate * T for an interval of length T, and burst more for each eviction. */
  function Most(m: Limits, time: real, evictions: nat): (a: real)
  {
    m.burst * (1 + evictions) as real + m.rate * time
  }

  lemma FullCredit(m: Limits, credit: real, time: real, evictions: nat)
    requires credit <= m.burst
    ensures Allowance(m, credit, time, evictions) <= Most(m, time, evictions)
  {
    assert (1 + evictions) as real == 1.0 + evictions as real;
    Distribute(m.burst, 1.0, evictions as real);
  }

  lemma NoEvictions(m: Limits, time: real)
    ensures Most(m, time, 0) == m.burst + m.rate * time
  {
  }

  /** Any source is allowed at most burst * (1 + evictions) + rate * T requests in any interval of length T. */
  lemma EvictionBound(m: Limits, t: Table, requests: seq<Request>, source: string, start: real, end: real)
    requires Valid(m, t, start) && Timed(requests, start, end)
    ensures AllowedTo(m, t, requests, source) as real
            <= Most(m, end - start, Evictions(m.maxSources, StandingOf(t, source), requests, source))
  {
    hide Valid, AllowedTo, Credit, Timed, Evictions, StandingOf, Allowance, Most;
    AllowedWithinCredit(m, t, requests, source, start, end);
    CreditPositive(m, t, source, start);
    var e := Evictions(m.maxSources, StandingOf(t, source), requests, source);
    FullCredit(m, Credit(m, t, source, start), end - start, e);
  }

  lemma {:induction false} RetainedNever(max: nat, st: Standing, requests: seq<Request>, source: string)
    ensures Retained(max, st, requests, source) <==> Evictions(max, st, requests, source) == 0
    decreases requests
  {
    if requests != [] {
      RetainedNever(max, StandingNext(max, st, source, requests[0].source), requests[1..], source);
    }
  }

  /**
   A source between whose requests fewer than maxSources others come is allowed at
   most burst + rate * T requests in any interval of length T.
   */
  lemma RateBound(m: Limits, t: Table, requests: seq<Request>, source: string, start: real, end: real)
    requires Valid(m, t, start) && Timed(requests, start, end)
    requires Retained(m.maxSources, StandingOf(t, source), requests, source)
    ensures AllowedTo(m, t, requests, source) as real <= m.burst + m.rate * (end - start)
  {
    hide Valid, AllowedTo, Timed, Evictions, Retained, StandingOf, Most;
    EvictionBound(m, t, requests, source, start, end);
    RetainedNever(m.maxSources, StandingOf(t, source), requests, source);
    NoEvictions(m, end - start);
  }

  //////////////////////////////////////////////////////////////////////////////
  // What a source is sure of
  //////////////////////////////////////////////////////////////////////////////

  /** The number of requests of the source. */
  function OwnRequests(requests: seq<Request>, source: string): (n: nat)
    decreases requests
  {
    if requests == [] then 0 else OwnRequests(requests[1..], source) + (if requests[0].source == source then 1 else 0)
  }

  /** The requests of the source come from time free on, each at least gap after the one before. */
  predicate Spaced(requests: seq<Request>, source: string, gap: real, free: real)
    decreases requests
  {
    requests == [] ||
    (if requests[0].source == source
     then free <= requests[0].at && Spaced(requests[1..], source, gap, requests[0].at + gap)
     else Spaced(requests[1..], source, gap, free))
  }

  /** A bucket fills by one token in the time 1 / rate. */
  lemma Refilled(m: Limits, b: Bucket, now: real, gap: real)
    requires 0.0 <= b.tokens && m.rate >= 0.0 && gap * m.rate >= 1.0 && b.last + gap <= now && gap >= 0.0
    ensures Available(m, b, now) >= 1.0 || Available(m, b, now) == m.burst
  {
    NonNegative(now - b.last - gap, m.rate);
    Distribute(m.rate, gap, now - b.last - gap);
    assert gap + (now - b.last - gap) == now - b.last;
  }

  lemma SpacedCredit(m: Limits, t: Table, source: string, now: real, gap: real, free: real)
    requires Valid(m, t, now) && m.burst >= 1.0 && gap * m.rate >= 1.0 && gap >= 0.0 && free <= now
    requires source in t.buckets ==> t.buckets[source].last + gap <= free
    ensures Credit(m, t, source, now) >= 1.0
  {
    hide Available, Lists, LeastRecentFirst;
    if source in t.buckets {
      Refilled(m, t.buckets[source], now, gap);
    }
  }

  lemma LastRequest(m: Limits, t: Table, source: string, from: string, now: real)
    ensures var u := Decide(m, t, from, now).table;
            source in u.buckets ==>
              if from == source then u.buckets[source].last == now
              else source in t.buckets && u.buckets[source] == t.buckets[source]
  {
    hide Evict, Drop, Available;
    if from != source && source in Decide(m, t, from, now).table.buckets {
      if from in t.buckets {
        KeptBucket(m, t, from, now, source);
      } else {
        EvictKeeps(m, t, source);
      }
    }
  }

  /** A source whose requests are at least 1 / rate apart is always allowed, whatever the others do. */
  lemma {:induction false} SteadyAllowed(m: Limits, t: Table, requests: seq<Request>, source: string, gap: real,
                                         free: real, start: real, end: real)
    requires Valid(m, t, start) && Timed(requests, start, end) && m.burst >= 1.0 && gap * m.rate >= 1.0 && gap >= 0.0
    requires Spaced(requests, source, gap, free) && (source in t.buckets ==> t.buckets[source].last + gap <= free)
    ensures AllowedTo(m, t, requests, source) == OwnRequests(requests, source)
    decreases requests
  {
    hide Valid, Decide, Credit;
    if requests != [] {
      var q := requests[0];
      var d := Decide(m, t, q.source, q.at);
      Earlier(m, t, start, q.at);
      AllowValid(m, t, q.source, start, q.at);
      LastRequest(m, t, source, q.source, q.at);
      if q.source == source {
        SpacedCredit(m, t, source, q.at, gap, free);
        OwnRequest(m, t, source, q.at);
        SteadyAllowed(m, d.table, requests[1..], source, gap, q.at + gap, q.at, end);
      } else {
        SteadyAllowed(m, d.table, requests[1..], source, gap, free, q.at, end);
      }
    }
  }

  //////////////////////////////////////////////////////////////////////////////
  // What eviction costs
  //////////////////////////////////////////////////////////////////////////////

  const EMPTY: Table := Table(map[], [])

  lemma EmptyValid(m: Limits, now: real)
    requires Sensible(m)
    ensures Valid(m, EMPTY, now)
  {
  }

  function Repeated(source: string, now: real, n: nat): (r: seq<Request>)
  {
    seq(n, _ => Request(source, now))
  }

  function Each(sources: seq<string>, now: real): (r: seq<Request>)
  {
    seq(|sources|, i requires 0 <= i < |sources| => Request(sources[i], now))
  }

  /** The source uses up its burst, the others come once each, and the source comes again. */
  function EvictingRun(source: string, n: nat, others: seq<string>, now: real): (r: seq<Request>)
  {
    Repeated(source, now, n) + (Each(others, now) + [Request(source, now)])
  }

  lemma {:induction false} OneInstant(requests: seq<Request>, now: real)
    requires forall i :: 0 <= i < |requests| ==> requests[i].at == now
    ensures Timed(requests, now, now)
    decreases requests
  {
    if requests != [] {
      OneInstant(requests[1..], now);
    }
  }

  lemma {:induction false} AllowedJoined(m: Limits, t: Table, a: seq<Request>, b: seq<Request>, source: string)
    ensures AllowedTo(m, t, a + b, source) == AllowedTo(m, t, a, source) + AllowedTo(m, TableAfter(m, t, a), b, source)
    decreases a
  {
    hide Decide;
    if a == [] {
      assert a + b == b;
    } else {
      assert (a + b)[1..] == a[1..] + b;
      AllowedJoined(m, Decide(m, t, a[0].source, a[0].at).table, a[1..], b, source);
    }
  }

  lemma FirstRepeated(source: string, now: real, n: nat)
    requires n > 0
    ensures |Repeated(source, now, n)| == n
    ensures Repeated(source, now, n)[0] == Request(source, now)
            && Repeated(source, now, n)[1..] == Repeated(source, now, n - 1)
  {
  }

  /** With credit for n requests, n at one instant are allowed. */
  lemma {:induction false} BurstAllowed(m: Limits, t: Table, source: string, now: real, n: nat)
    requires Valid(m, t, now) && Credit(m, t, source, now) >= n as real
    ensures AllowedTo(m, t, Repeated(source, now, n), source) == n
    decreases n
  {
    hide Valid, Decide, Credit, Repeated;
    if n == 0 {
      assert Repeated(source, now, n) == [] by {
        NoneRepeated(source, now);
      }
    } else {
      FirstRepeated(source, now, n);
      OwnRequest(m, t, source, now);
      AllowValid(m, t, source, now, now);
      BurstAllowed(m, Decide(m, t, source, now).table, source, now, n - 1);
    }
  }

  lemma NoneRepeated(source: string, now: real)
    ensures Repeated(source, now, 0) == []
  {
  }

  lemma {:induction false} NoneAllowed(m: Limits, t: Table, requests: seq<Request>, source: string)
    requires source !in Sources(requests)
    ensures AllowedTo(m, t, requests, source) == 0
    decreases requests
  {
    hide Decide, Sources;
    if requests != [] {
      SourcesFirst(requests);
      NoneAllowed(m, Decide(m, t, requests[0].source, requests[0].at).table, requests[1..], source);
    }
  }

  lemma {:induction false} LastRepeated(max: nat, st: Standing, source: string, now: real, n: nat)
    requires n > 0
    ensures StandingAfter(max, st, Repeated(source, now, n), source) == Present({})
    decreases n
  {
    FirstRepeated(source, now, n);
    if n == 1 {
      NoneRepeated(source, now);
    } else {
      LastRepeated(max, Present({}), source, now, n - 1);
    }
  }

  lemma {:induction false} DistinctCount(order: seq<string>)
    requires Distinct(order)
    ensures |set s | s in order| == |order|
  {
    if order != [] {
      DistinctCount(order[1..]);
      assert (set s | s in order) == (set s | s in order[1..]) + {order[0]};
      assert order[0] !in order[1..];
    }
  }

  lemma EachSources(others: seq<string>, now: real)
    ensures Sources(Each(others, now)) == set s | s in others
  {
    var r := Each(others, now);
    forall s
      ensures s in Sources(r) <==> s in others
    {
      if s in others {
        var i :| 0 <= i < |others| && others[i] == s;
        assert r[i].source == s;
      }
    }
  }

  /** After the others have come, the source has no bucket. */
  lemma PushedOut(m: Limits, source: string, n: nat, others: seq<string>, now: real)
    requires Sensible(m) && n > 0 && Distinct(others) && source !in others && |others| == m.maxSources
    ensures var t := TableAfter(m, EMPTY, Repeated(source, now, n));
            var u := TableAfter(m, t, Each(others, now));
            Valid(m, t, now) && Valid(m, u, now) && source !in u.buckets
  {
    hide Decide, TableAfter, Behind, StandingNext, Repeated, Each, Distinct, Sources;
    var first, each := Repeated(source, now, n), Each(others, now);
    SameInstant(source, n, others, now);
    EmptyValid(m, now);
    StandingTraced(m, EMPTY, first, source, now, now);
    LastRepeated(m.maxSources, StandingOf(EMPTY, source), source, now, n);
    var t := TableAfter(m, EMPTY, first);
    StandingTraced(m, t, each, source, now, now);
    EachSources(others, now);
    DistinctCount(others);
    BetweenRequests(m.maxSources, {}, each, source);
    assert {} + Sources(each) == Sources(each);
  }

  lemma SameInstant(source: string, n: nat, others: seq<string>, now: real)
    ensures Timed(Repeated(source, now, n), now, now) && Timed(Each(others, now), now, now)
    ensures Timed(EvictingRun(source, n, others, now), now, now)
  {
    OneInstant(Repeated(source, now, n), now);
    OneInstant(Each(others, now), now);
    OneInstant(EvictingRun(source, n, others, now), now);
  }

  /**
   The condition is needed, for every burst and every table size: a source that is
   pushed out starts again with a full bucket. Within one instant it is allowed its
   whole burst of n requests and, after maxSources others, one more.
   */
  lemma EvictionRefills(m: Limits, source: string, n: nat, others: seq<string>, now: real)
    requires Sensible(m) && 0 < n && n as real <= m.burst < (n + 1) as real
    requires Distinct(others) && source !in others && |others| == m.maxSources
    ensures var run := EvictingRun(source, n, others, now);
            && Valid(m, EMPTY, now) && Timed(run, now, now)
            && AllowedTo(m, EMPTY, run, source) == n + 1
            && (n + 1) as real > m.burst + m.rate * (now - now)
  {
    hide Decide, Repeated, Each, Timed, AllowedTo, Distinct, Available;
    var first, each, again := Repeated(source, now, n), Each(others, now), [Request(source, now)];
    SameInstant(source, n, others, now);
    PushedOut(m, source, n, others, now);
    EmptyValid(m, now);
    BurstAllowed(m, EMPTY, source, now, n);
    AllowedJoined(m, EMPTY, first, each + again, source);
    var t := TableAfter(m, EMPTY, first);
    AllowedJoined(m, t, each, again, source);
    EachSources(others, now);
    NoneAllowed(m, t, each, source);
    LastAllowed(m, TableAfter(m, t, each), source, now);
  }

  lemma LastAllowed(m: Limits, t: Table, source: string, now: real)
    requires Valid(m, t, now) && source !in t.buckets && m.burst >= 1.0
    ensures AllowedTo(m, t, [Request(source, now)], source) == 1
  {
    hide Decide, Valid;
    OwnRequest(m, t, source, now);
    var q := [Request(source, now)];
    assert q[1..] == [];
  }

  /** The k-th of any number of distinct names. */
  function Name(k: nat): (s: string)
  {
    seq(k + 1, _ => 'o')
  }

  /** The limiter that the host builds: whatever it allows at once, some run allows one request more. */
  lemma NewLimiterExceeded(max: nat, seconds: real, now: real)
    requires max > 0
    ensures exists requests, source ::
              Timed(requests, now, now) && AllowedTo(NewLimits(max, seconds), EMPTY, requests, source) == max + 1
  {
    hide Timed, AllowedTo;
    var m := NewLimits(max, seconds);
    var others: seq<string> := seq(MAX_SOURCES, k requires 0 <= k < MAX_SOURCES => Name(k));
    forall i, j | 0 <= i < j < |others|
      ensures others[i] != others[j]
    {
      assert |others[i]| == i + 1 && |others[j]| == j + 1;
    }
    forall i | 0 <= i < |others|
      ensures others[i] != "x"
    {
      assert others[i][0] == 'o';
    }
    EvictionRefills(m, "x", max, others, now);
  }

  //////////////////////////////////////////////////////////////////////////////
  // The object
  //////////////////////////////////////////////////////////////////////////////

  class RateLimiter {
    const limits: Limits
    var buckets: map<string, Bucket>
    var order: seq<string>

    ghost function View(): (t: Table)
      reads this
    {
      Table(buckets, order)
    }

    /** newEnrollmentRateLimiter. */
    constructor (max: nat, window: real, ghost now: real)
      ensures limits == NewLimits(max, window) && View() == EMPTY && Valid(limits, View(), now)
    {
      var seconds := window;
      if seconds <= 0.0 {
        seconds := 1.0;
      }
      limits, buckets, order := Limits(max as real / seconds, max as real, MAX_SOURCES), map[], [];
    }

    /** The loop of touchLocked that takes a known source out of the order. */
    method RemoveFromOrder(source: string)
      modifies this`order
      ensures order == Drop(old(order), source)
    {
      hide Drop;
      var i := 0;
      while i < |order| && order[i] != source
        invariant 0 <= i <= |order| && order == old(order) && source !in order[..i]
      {
        i := i + 1;
      }
      if i < |order| {
        DropFirst(order[..i], source, order[i + 1..]);
        assert order == order[..i] + ([source] + order[i + 1..]);
        order := order[..i] + order[i + 1..];
      } else {
        DropNone(order, source);
      }
    }

    /** touchLocked. */
    method Touch(source: string, now: real)
      modifies this
      ensures View() == Touched(limits, old(View()), source, now)
    {
      hide Drop;
      if source in buckets {
        RemoveFromOrder(source);
        order := order + [source];
        return;
      }
      while |buckets| >= limits.maxSources && |order| > 0
        invariant Evict(limits, View()) == Evict(limits, old(View()))
        decreases |order|
      {
        var oldest := order[0];
        order := order[1..];
        buckets := buckets - {oldest};
      }
      buckets := buckets[source := Bucket(limits.burst, now)];
      order := order + [source];
    }

    /** allow, for a source named as the program names it. */
    method Allow(name: string, now: real, ghost past: real) returns (allowed: bool)
      requires Valid(limits, View(), past) && past <= now
      modifies this
      ensures var source := if name == "" then "unknown" else name;
              var d := Decide(limits, old(View()), source, now);
              View() == d.table && allowed == d.allowed
      ensures Valid(limits, View(), now)
    {
      hide Evict, Drop, Valid;
      var source := if name == "" then "unknown" else name;
      AllowValid(limits, View(), source, past, now);
      Touch(source, now);
      var bucket := buckets[source];
      var elapsed := now - bucket.last;
      if elapsed < 0.0 {
        elapsed := 0.0;
      }
      var tokens := bucket.tokens + elapsed * limits.rate;
      if tokens > limits.burst {
        tokens := limits.burst;
      }
      assert tokens == Available(limits, bucket, now);
      allowed := tokens >= 1.0;
      if allowed {
        tokens := tokens - 1.0;
      }
      buckets := buckets[source := Bucket(tokens, now)];
    }
  }
}
