/** Marzullo's interval intersection: the smallest interval on which the most probes agree. */
module Marzullo {
  import opened Bytes

  type Interval = (real, real)

  // An opening edge (delta 1) or a closing edge (delta -1).
  datatype Event = Event(at: real, delta: int)

  // --- The sweep ---------------------------------------------------------------------

  datatype Sweep = Sweep(count: int, maxCount: int, best: Option<Interval>, curLo: Option<real>)

  const BEGIN := Sweep(0, 0, None, None)

  function Take(s: Sweep, e: Event): Sweep {
    var count := s.count + e.delta;
    if e.delta > 0 then
      if count > s.maxCount then Sweep(count, count, None, Some(e.at))
      else if count == s.maxCount && s.curLo == None then s.(count := count, curLo := Some(e.at))
      else s.(count := count)
    else if s.curLo != None && count == s.maxCount - 1 then
      s.(count := count, curLo := None,
         best := if s.best == None || e.at - s.curLo.value < s.best.value.1 - s.best.value.0
                 then Some((s.curLo.value, e.at)) else s.best)
    else s.(count := count)
  }

  function TakeAll(events: seq<Event>): Sweep {
    if events == [] then BEGIN else Take(TakeAll(events[..|events| - 1]), events[|events| - 1])
  }

  function Edges(intervals: seq<Interval>): seq<Event> {
    if intervals == [] then []
    else [Event(intervals[0].0, 1), Event(intervals[0].1, -1)] + Edges(intervals[1..])
  }

  // At equal times an opening edge comes first.
  predicate InOrder(e: Event, f: Event) { e.at < f.at || (e.at == f.at && e.delta >= f.delta) }

  function Insert(e: Event, events: seq<Event>): seq<Event> {
    if events == [] || InOrder(e, events[0]) then [e] + events else [events[0]] + Insert(e, events[1..])
  }

  function Sort(events: seq<Event>): seq<Event> {
    if events == [] then [] else Insert(events[0], Sort(events[1..]))
  }

  function MinLo(intervals: seq<Interval>): real
    requires intervals != []
  {
    if |intervals| == 1 then intervals[0].0
    else var m := MinLo(intervals[1..]); if intervals[0].0 < m then intervals[0].0 else m
  }

  function MaxHi(intervals: seq<Interval>): real
    requires intervals != []
  {
    if |intervals| == 1 then intervals[0].1
    else var m := MaxHi(intervals[1..]); if intervals[0].1 > m then intervals[0].1 else m
  }

  function Intersection(intervals: seq<Interval>): Option<Interval> {
    if intervals == [] then None
    else
      var s := TakeAll(Sort(Edges(intervals)));
      if s.best == None then Some((MinLo(intervals), MaxHi(intervals))) else s.best
  }

  method MarzulloIntersection(intervals: seq<Interval>) returns (r: Option<Interval>)
    ensures r == Intersection(intervals)
  {
    if intervals == [] {
      return None;
    }
    var events := CollectEdges(intervals);
    events := Sort(events);
    var count, maxCount := 0, 0;
    var best: Option<Interval>, curLo: Option<real> := None, None;
    for k := 0 to |events|
      invariant Sweep(count, maxCount, best, curLo) == TakeAll(events[..k])
    {
      var e := events[k];
      assert events[..k + 1][..k] == events[..k];
      count := count + e.delta;
      if e.delta > 0 {
        if count > maxCount {
          maxCount := count;
          curLo := Some(e.at);
          best := None;
        } else if count == maxCount && curLo == None {
          curLo := Some(e.at);
        }
      } else if curLo != None && count == maxCount - 1 {
        if best == None || e.at - curLo.value < best.value.1 - best.value.0 {
          best := Some((curLo.value, e.at));
        }
        curLo := None;
      }
    }
    assert events[..|events|] == events;
    if best == None {
      return Some((MinLo(intervals), MaxHi(intervals)));
    }
    return best;
  }

  method CollectEdges(intervals: seq<Interval>) returns (events: seq<Event>)
    ensures events == Edges(intervals)
  {
    events := [];
    for i := 0 to |intervals|
      invariant events + Edges(intervals[i..]) == Edges(intervals)
    {
      events := events + [Event(intervals[i].0, 1)];
      events := events + [Event(intervals[i].1, -1)];
      assert intervals[i..][1..] == intervals[i + 1..];
    }
  }

  // --- What it means ---------------------------------------------------------------------

  /** How many intervals contain the point. */
  function Depth(intervals: seq<Interval>, p: real): nat {
    if intervals == [] then 0
    else (if intervals[0].0 <= p <= intervals[0].1 then 1 else 0) + Depth(intervals[1..], p)
  }

  predicate WellFormed(intervals: seq<Interval>) {
    forall i :: 0 <= i < |intervals| ==> intervals[i].0 <= intervals[i].1
  }

  ghost predicate AllAt(intervals: seq<Interval>, lo: real, hi: real, d: nat) {
    forall p :: lo <= p <= hi ==> Depth(intervals, p) == d
  }

  /** A maximal stretch of points of depth d. */
  ghost predicate IsRegion(intervals: seq<Interval>, lo: real, hi: real, d: nat) {
    && lo <= hi && AllAt(intervals, lo, hi, d)
    && forall a, b :: a <= lo && hi <= b && AllAt(intervals, a, b, d) ==> a == lo && b == hi
  }

  // --- Events as depths -------------------------------------------------------------------

  // Has the sweep passed this event when it stands at p?
  predicate Passed(e: Event, p: real) { e.at < p || (e.at == p && e.delta > 0) }

  function PassedSum(events: seq<Event>, p: real): int {
    if events == [] then 0 else (if Passed(events[0], p) then events[0].delta else 0) + PassedSum(events[1..], p)
  }

  function Count(events: seq<Event>, k: nat): int
    requires k <= |events|
  {
    if k == 0 then 0 else Count(events, k - 1) + events[k - 1].delta
  }

  ghost predicate Ordered(events: seq<Event>) {
    forall i, j :: 0 <= i < j < |events| ==> InOrder(events[i], events[j])
  }

  predicate UnitEdges(events: seq<Event>) { forall i :: 0 <= i < |events| ==> events[i].delta in {1, -1} }

  lemma {:induction false} InsertKeeps(e: Event, events: seq<Event>, p: real)
    requires Ordered(events) && UnitEdges(events) && e.delta in {1, -1}
    ensures var r := Insert(e, events);
            && Ordered(r) && UnitEdges(r) && |r| == |events| + 1
            && PassedSum(r, p) == PassedSum([e] + events, p)
            && (forall i :: 0 <= i < |r| ==> r[i] == e || r[i] in events)
  {
    assert ([e] + events)[1..] == events;
    if events != [] && !InOrder(e, events[0]) {
      InsertKeeps(e, events[1..], p);
      assert ([e] + events[1..])[1..] == events[1..];
      var rest := Insert(e, events[1..]);
      assert ([events[0]] + rest)[1..] == rest;
    }
  }

  lemma {:induction false} SortKeeps(events: seq<Event>, p: real)
    requires UnitEdges(events)
    ensures var r := Sort(events);
            Ordered(r) && UnitEdges(r) && |r| == |events| && PassedSum(r, p) == PassedSum(events, p)
  {
    if events != [] {
      SortKeeps(events[1..], p);
      InsertKeeps(events[0], Sort(events[1..]), p);
      assert ([events[0]] + Sort(events[1..]))[1..] == Sort(events[1..]);
    }
  }

  lemma {:induction false} EdgesDepth(intervals: seq<Interval>, p: real)
    requires WellFormed(intervals)
    ensures UnitEdges(Edges(intervals)) && PassedSum(Edges(intervals), p) == Depth(intervals, p)
  {
    if intervals != [] {
      EdgesDepth(intervals[1..], p);
      var iv, rest := intervals[0], Edges(intervals[1..]);
      TwoMore(Event(iv.0, 1), Event(iv.1, -1), rest, p);
      hide PassedSum;
    }
  }

  lemma TwoMore(e: Event, f: Event, rest: seq<Event>, p: real)
    ensures PassedSum([e, f] + rest, p)
         == (if Passed(e, p) then e.delta else 0) + (if Passed(f, p) then f.delta else 0) + PassedSum(rest, p)
  {
    assert ([e, f] + rest)[1..] == [f] + rest;
    assert ([f] + rest)[1..] == rest;
    hide Passed;
  }

  /** k is where the sweep stands at p: it has passed the first k events and no other. */
  predicate StandsAt(events: seq<Event>, p: real, k: nat) {
    && k <= |events|
    && (forall i :: 0 <= i < k ==> Passed(events[i], p))
    && (forall i :: k <= i < |events| ==> !Passed(events[i], p))
  }

  lemma {:induction false} CountIsSum(events: seq<Event>, p: real, k: nat)
    requires StandsAt(events, p, k)
    ensures PassedSum(events, p) == Count(events, k)
  {
    if events != [] {
      var last := |events| - 1;
      var init := events[..last];
      SumSnoc(init, events[last], p);
      assert init + [events[last]] == events;
      CountIsSum(init, p, if k == |events| then k - 1 else k);
      CountPrefix(events, init, if k == |events| then k - 1 else k);
    }
  }

  lemma {:induction false} SumSnoc(events: seq<Event>, e: Event, p: real)
    ensures PassedSum(events + [e], p) == PassedSum(events, p) + if Passed(e, p) then e.delta else 0
  {
    if events == [] {
      assert events + [e] == [e] && [e][1..] == [];
    } else {
      SumSnoc(events[1..], e, p);
      assert (events + [e])[1..] == events[1..] + [e];
    }
  }

  lemma {:induction false} CountPrefix(events: seq<Event>, init: seq<Event>, k: nat)
    requires k <= |init| <= |events| && init == events[..|init|]
    ensures Count(events, k) == Count(init, k)
  {
    if k > 0 { CountPrefix(events, init, k - 1); }
  }

  lemma {:induction false} Standing(events: seq<Event>, p: real) returns (k: nat)
    requires Ordered(events)
    ensures StandsAt(events, p, k)
  {
    k := 0;
    while k < |events| && Passed(events[k], p)
      invariant k <= |events| && forall i :: 0 <= i < k ==> Passed(events[i], p)
    {
      k := k + 1;
    }
    assert k < |events| ==> forall i :: k < i < |events| ==> InOrder(events[k], events[i]);
  }

  // --- The invariant of the sweep ------------------------------------------------------------

  /** The k-th event opens and the next one closes: between them the depth is Count(events, k). */
  predicate Peak(events: seq<Event>, k: nat, d: int) {
    0 < k < |events| && events[k - 1].delta == 1 && events[k].delta == -1 && Count(events, k) == d
  }

  function Width(events: seq<Event>, k: nat): real
    requires 0 < k < |events|
  {
    events[k].at - events[k - 1].at
  }

  // The first of the narrowest peaks of height d among those closed within the first n events.
  predicate BestPeak(events: seq<Event>, n: nat, d: int, j: nat) {
    && j < n <= |events| && Peak(events, j, d)
    && forall k :: 0 < k < n && Peak(events, k, d) ==>
                     Width(events, j) <= Width(events, k) && (Width(events, j) == Width(events, k) ==> j <= k)
  }

  ghost predicate SweepOk(events: seq<Event>, n: nat, s: Sweep)
    requires n <= |events|
  {
    && s.count == Count(events, n)
    && s.maxCount >= 0 && (forall k :: 0 <= k <= n ==> Count(events, k) <= s.maxCount)
    && (s.maxCount > 0 ==> exists k :: 0 <= k <= n && Count(events, k) == s.maxCount)
    && (s.curLo.Some? <==> n > 0 && events[n - 1].delta == 1 && s.count == s.maxCount)
    && (s.curLo.Some? ==> s.curLo.value == events[n - 1].at)
    && BestOk(events, n, s.maxCount, s.best)
  }

  ghost predicate BestOk(events: seq<Event>, n: nat, d: int, best: Option<Interval>)
    requires n <= |events|
  {
    match best
    case None => forall k :: 0 < k < n ==> !Peak(events, k, d)
    case Some(iv) => exists j :: 0 < j < n && BestPeak(events, n, d, j) && iv == (events[j - 1].at, events[j].at)
  }

  lemma {:induction false} SweepInvariant(events: seq<Event>, n: nat)
    requires n <= |events| && UnitEdges(events)
    ensures SweepOk(events, n, TakeAll(events[..n]))
  {
    if n > 0 {
      SweepInvariant(events, n - 1);
      assert events[..n][..n - 1] == events[..n - 1];
      TakeKeeps(events, n, TakeAll(events[..n - 1]));
    }
  }

  lemma TakeKeeps(events: seq<Event>, n: nat, s: Sweep)
    requires 0 < n <= |events| && UnitEdges(events) && SweepOk(events, n - 1, s)
    ensures SweepOk(events, n, Take(s, events[n - 1]))
  {
    if events[n - 1].delta == 1 {
      OpenKeeps(events, n, s);
    } else {
      CloseKeeps(events, n, s);
    }
    hide SweepOk, Take;
  }

  lemma OpenKeeps(events: seq<Event>, n: nat, s: Sweep)
    requires 0 < n <= |events| && UnitEdges(events) && SweepOk(events, n - 1, s) && events[n - 1].delta == 1
    ensures SweepOk(events, n, Take(s, events[n - 1]))
  {
    assert Count(events, n) == s.count + 1;
    OpenedBest(events, n, s);
    hide BestOk;
  }

  lemma OpenedBest(events: seq<Event>, n: nat, s: Sweep)
    requires 0 < n <= |events| && UnitEdges(events) && SweepOk(events, n - 1, s) && events[n - 1].delta == 1
    ensures var s' := Take(s, events[n - 1]); BestOk(events, n, s'.maxCount, s'.best)
  {
    var s' := Take(s, events[n - 1]);
    assert !Peak(events, n - 1, s.maxCount);
    if s'.maxCount == s.maxCount && s.best.Some? {
      var j :| 0 < j < n - 1 && BestPeak(events, n - 1, s.maxCount, j) && s.best.value == (events[j - 1].at, events[j].at);
      SamePeak(events, n, s.maxCount, j);
    } else if s'.maxCount > s.maxCount {
      assert forall k :: 0 < k < n ==> !Peak(events, k, s'.maxCount);
    }
    hide BestPeak;
  }

  lemma CloseKeeps(events: seq<Event>, n: nat, s: Sweep)
    requires 0 < n <= |events| && UnitEdges(events) && SweepOk(events, n - 1, s) && events[n - 1].delta == -1
    ensures SweepOk(events, n, Take(s, events[n - 1]))
  {
    assert Count(events, n) == s.count - 1;
    ClosedBest(events, n, s);
    hide BestOk;
  }

  lemma ClosedBest(events: seq<Event>, n: nat, s: Sweep)
    requires 0 < n <= |events| && UnitEdges(events) && SweepOk(events, n - 1, s) && events[n - 1].delta == -1
    ensures var s' := Take(s, events[n - 1]); s'.maxCount == s.maxCount && BestOk(events, n, s.maxCount, s'.best)
  {
    var d := s.maxCount;
    if s.best.Some? {
      var j :| 0 < j < n - 1 && BestPeak(events, n - 1, d, j) && s.best.value == (events[j - 1].at, events[j].at);
      if s.curLo.Some? {
        ClosedPeak(events, n, d, j);
      } else {
        assert !Peak(events, n - 1, d);
        SamePeak(events, n, d, j);
      }
      hide Count, BestPeak;
    } else if s.curLo.Some? {
      FirstPeak(events, n, d);
      hide Count, BestPeak;
    } else {
      assert !Peak(events, n - 1, d);
    }
  }

  lemma ClosedPeak(events: seq<Event>, n: nat, d: int, j: nat)
    requires 0 < j < n - 1 && n <= |events| && BestPeak(events, n - 1, d, j) && Peak(events, n - 1, d)
    ensures BestPeak(events, n, d, if Width(events, n - 1) < Width(events, j) then n - 1 else j)
  {
    hide Peak;
  }

  lemma SamePeak(events: seq<Event>, n: nat, d: int, j: nat)
    requires 0 < j < n - 1 && n <= |events| && BestPeak(events, n - 1, d, j) && !Peak(events, n - 1, d)
    ensures BestPeak(events, n, d, j)
  {
    hide Peak;
  }

  lemma FirstPeak(events: seq<Event>, n: nat, d: int)
    requires 0 < n - 1 && n <= |events| && Peak(events, n - 1, d) && forall k :: 0 < k < n - 1 ==> !Peak(events, k, d)
    ensures BestPeak(events, n, d, n - 1)
  {
    hide Peak;
  }

  // --- Peaks are regions ---------------------------------------------------------------------

  lemma DepthIsCount(intervals: seq<Interval>, p: real, k: nat)
    requires WellFormed(intervals) && StandsAt(Sort(Edges(intervals)), p, k)
    ensures Depth(intervals, p) == Count(Sort(Edges(intervals)), k)
  {
    EdgesDepth(intervals, p);
    SortKeeps(Edges(intervals), p);
    CountIsSum(Sort(Edges(intervals)), p, k);
  }

  /** Between an opening edge and the closing edge after it the depth is the count. */
  lemma PeakDepth(intervals: seq<Interval>, j: nat, d: int, p: real)
    requires WellFormed(intervals) && Ordered(Sort(Edges(intervals))) && UnitEdges(Sort(Edges(intervals)))
    requires var ev := Sort(Edges(intervals)); Peak(ev, j, d) && ev[j - 1].at <= p <= ev[j].at
    ensures Depth(intervals, p) == d
  {
    var ev := Sort(Edges(intervals));
    assert forall i :: 0 <= i < j - 1 ==> InOrder(ev[i], ev[j - 1]);
    assert forall i :: j < i < |ev| ==> InOrder(ev[j], ev[i]);
    DepthIsCount(intervals, p, j);
  }

  // A point strictly between a and b with no event between a and it.
  lemma {:induction false} JustAbove(events: seq<Event>, a: real, b: real) returns (p: real)
    requires a < b
    ensures a < p < b && forall i :: 0 <= i < |events| && events[i].at > a ==> events[i].at > p
  {
    p := (a + b) / 2.0;
    for i := 0 to |events|
      invariant a < p < b && forall k :: 0 <= k < i && events[k].at > a ==> events[k].at > p
    {
      if a < events[i].at <= p { p := (a + events[i].at) / 2.0; }
    }
  }

  lemma {:induction false} JustBelow(events: seq<Event>, a: real, b: real) returns (p: real)
    requires a < b
    ensures a < p < b && forall i :: 0 <= i < |events| && events[i].at < b ==> events[i].at < p
  {
    p := (a + b) / 2.0;
    for i := 0 to |events|
      invariant a < p < b && forall k :: 0 <= k < i && events[k].at < b ==> events[k].at < p
    {
      if p <= events[i].at < b { p := (events[i].at + b) / 2.0; }
    }
  }

  // Only edges of one kind lie between two places of the sweep.
  lemma {:induction false} CountRun(events: seq<Event>, k: nat, n: nat, delta: int)
    requires k <= n <= |events| && forall i :: k <= i < n ==> events[i].delta == delta
    ensures Count(events, n) == Count(events, k) + (n - k) * delta
  {
    if k < n { CountRun(events, k, n - 1, delta); }
  }

  /** Just outside a peak the depth is lower. */
  lemma LowerAbove(intervals: seq<Interval>, j: nat, d: int, b: real) returns (p: real)
    requires WellFormed(intervals) && Ordered(Sort(Edges(intervals))) && UnitEdges(Sort(Edges(intervals)))
    requires var ev := Sort(Edges(intervals)); Peak(ev, j, d) && ev[j].at < b
    ensures Sort(Edges(intervals))[j].at < p < b && Depth(intervals, p) < d
  {
    var ev := Sort(Edges(intervals));
    p := JustAbove(ev, ev[j].at, b);
    var k := Standing(ev, p);
    assert k > j;
    forall i | j <= i < k ensures ev[i].delta == -1 {
      assert i > j ==> InOrder(ev[j], ev[i]);
    }
    CountRun(ev, j, k, -1);
    DepthIsCount(intervals, p, k);
  }

  lemma LowerBelow(intervals: seq<Interval>, j: nat, d: int, a: real) returns (p: real)
    requires WellFormed(intervals) && Ordered(Sort(Edges(intervals))) && UnitEdges(Sort(Edges(intervals)))
    requires var ev := Sort(Edges(intervals)); Peak(ev, j, d) && a < ev[j - 1].at
    ensures a < p < Sort(Edges(intervals))[j - 1].at && Depth(intervals, p) < d
  {
    var ev := Sort(Edges(intervals));
    p := JustBelow(ev, a, ev[j - 1].at);
    var k := Standing(ev, p);
    assert k < j;
    forall i | k <= i < j ensures ev[i].delta == 1 {
      assert i < j - 1 ==> InOrder(ev[i], ev[j - 1]);
    }
    CountRun(ev, k, j, 1);
    DepthIsCount(intervals, p, k);
  }

  lemma PeakIsRegion(intervals: seq<Interval>, j: nat, d: nat)
    requires WellFormed(intervals) && Ordered(Sort(Edges(intervals))) && UnitEdges(Sort(Edges(intervals)))
    requires Peak(Sort(Edges(intervals)), j, d)
    ensures var ev := Sort(Edges(intervals)); IsRegion(intervals, ev[j - 1].at, ev[j].at, d)
  {
    var ev := Sort(Edges(intervals));
    assert InOrder(ev[j - 1], ev[j]);
    forall p | ev[j - 1].at <= p <= ev[j].at ensures Depth(intervals, p) == d { PeakDepth(intervals, j, d, p); }
    forall a, b | a <= ev[j - 1].at && ev[j].at <= b && AllAt(intervals, a, b, d) ensures a == ev[j - 1].at && b == ev[j].at {
      if a < ev[j - 1].at || b > ev[j].at { LowerOutside(intervals, j, d, a, b); }
    }
  }

  lemma LowerOutside(intervals: seq<Interval>, j: nat, d: int, a: real, b: real)
    requires WellFormed(intervals) && Ordered(Sort(Edges(intervals))) && UnitEdges(Sort(Edges(intervals)))
    requires var ev := Sort(Edges(intervals));
             Peak(ev, j, d) && a <= ev[j - 1].at && ev[j].at <= b && (a < ev[j - 1].at || ev[j].at < b)
    ensures exists p :: a <= p <= b && Depth(intervals, p) < d
  {
    var ev := Sort(Edges(intervals));
    assert InOrder(ev[j - 1], ev[j]);
    if a < ev[j - 1].at {
      var p := LowerBelow(intervals, j, d, a);
    } else {
      var p := LowerAbove(intervals, j, d, b);
    }
  }

  /** Every region of the greatest depth is a peak of the sweep. */
  lemma RegionIsPeak(intervals: seq<Interval>, lo: real, hi: real, d: nat) returns (j: nat)
    requires WellFormed(intervals) && Ordered(Sort(Edges(intervals))) && UnitEdges(Sort(Edges(intervals))) && d > 0
    requires IsRegion(intervals, lo, hi, d)
    requires var ev := Sort(Edges(intervals)); Count(ev, |ev|) == 0 && forall k :: 0 <= k <= |ev| ==> Count(ev, k) <= d
    ensures var ev := Sort(Edges(intervals)); Peak(ev, j, d) && lo == ev[j - 1].at && hi == ev[j].at
  {
    var ev := Sort(Edges(intervals));
    j := Standing(ev, lo);
    DepthIsCount(intervals, lo, j);
    assert Count(ev, j) == d;
    TopIsPeak(ev, j, d);
    PeakIsRegion(intervals, j, d);
    var a, b := ev[j - 1].at, ev[j].at;
    assert a <= lo <= b;
    assert AllAt(intervals, a, if hi <= b then b else hi, d);
  }

  lemma TopIsPeak(events: seq<Event>, j: nat, d: nat)
    requires UnitEdges(events) && d > 0 && j <= |events| && Count(events, j) == d && Count(events, |events|) == 0
    requires forall k :: 0 <= k <= |events| ==> Count(events, k) <= d
    ensures Peak(events, j, d)
  {
    assert Count(events, j + 1) <= d;
    assert Count(events, j - 1) <= d;
  }

  // --- The result ------------------------------------------------------------------------------

  /** Before the first and after the last edge nothing is open. */
  lemma EndsClosed(intervals: seq<Interval>)
    requires WellFormed(intervals)
    ensures var ev := Sort(Edges(intervals)); Count(ev, |ev|) == 0
  {
    var ev := Sort(Edges(intervals));
    EdgesDepth(intervals, 0.0);
    SortKeeps(Edges(intervals), 0.0);
    var far := FarAway(ev, intervals);
    DepthIsCount(intervals, far, |ev|);
    Outside(intervals, far);
  }

  lemma FarAway(events: seq<Event>, intervals: seq<Interval>) returns (p: real)
    ensures forall i :: 0 <= i < |events| ==> events[i].at < p
    ensures forall i :: 0 <= i < |intervals| ==> intervals[i].1 < p
  {
    p := 0.0;
    for i := 0 to |events|
      invariant forall k :: 0 <= k < i ==> events[k].at < p
    {
      if events[i].at >= p { p := events[i].at + 1.0; }
    }
    for i := 0 to |intervals|
      invariant forall k :: 0 <= k < |events| ==> events[k].at < p
      invariant forall k :: 0 <= k < i ==> intervals[k].1 < p
    {
      if intervals[i].1 >= p { p := intervals[i].1 + 1.0; }
    }
  }

  lemma {:induction false} Outside(intervals: seq<Interval>, p: real)
    requires forall i :: 0 <= i < |intervals| ==> intervals[i].1 < p
    ensures Depth(intervals, p) == 0
  {
    if intervals != [] { Outside(intervals[1..], p); }
  }

  /** Without intervals there is no result; when the sweep closes no region the result spans
      all intervals, from the least beginning to the greatest end. */
  lemma {:induction false} FallbackSpans(intervals: seq<Interval>)
    ensures intervals == [] <==> Intersection(intervals) == None
    ensures intervals != [] && TakeAll(Sort(Edges(intervals))).best == None ==>
              var (lo, hi) := Intersection(intervals).value;
              && (forall i :: i in intervals ==> lo <= i.0 && i.1 <= hi)
              && (exists i :: i in intervals && i.0 == lo) && (exists i :: i in intervals && i.1 == hi)
  {
    if intervals != [] {
      LeastBeginning(intervals);
      GreatestEnd(intervals);
    }
    hide TakeAll, Sort, Edges, MinLo, MaxHi;
  }

  lemma {:induction false} LeastBeginning(intervals: seq<Interval>)
    requires intervals != []
    ensures (forall i :: i in intervals ==> MinLo(intervals) <= i.0) && exists i :: i in intervals && i.0 == MinLo(intervals)
  {
    assert intervals == [intervals[0]] + intervals[1..];
    if |intervals| > 1 { LeastBeginning(intervals[1..]); } else { assert intervals[0] in intervals; }
  }

  lemma {:induction false} GreatestEnd(intervals: seq<Interval>)
    requires intervals != []
    ensures (forall i :: i in intervals ==> i.1 <= MaxHi(intervals)) && exists i :: i in intervals && i.1 == MaxHi(intervals)
  {
    assert intervals == [intervals[0]] + intervals[1..];
    if |intervals| > 1 { GreatestEnd(intervals[1..]); } else { assert intervals[0] in intervals; }
  }

  /** For probes with lo <= hi the fallback is never taken and the result is the first of
      the narrowest regions on which the greatest number of probes agree. */
  lemma Optimal(intervals: seq<Interval>)
    requires intervals != [] && WellFormed(intervals)
    ensures TakeAll(Sort(Edges(intervals))).best.Some?
    ensures var (lo, hi) := Intersection(intervals).value;
            var d := Depth(intervals, lo);
            && d > 0 && IsRegion(intervals, lo, hi, d)
            && (forall p :: Depth(intervals, p) <= d)
            && (forall a, b :: IsRegion(intervals, a, b, d) ==> hi - lo <= b - a && (hi - lo == b - a ==> lo <= a))
  {
    var ev := Sort(Edges(intervals));
    EdgesDepth(intervals, 0.0);
    SortKeeps(Edges(intervals), 0.0);
    EndsClosed(intervals);
    var j := SweepEnd(intervals);
    var d := TakeAll(ev).maxCount;
    PeakIsRegion(intervals, j, d);
    hide Sort, TakeAll, Edges, Ordered, UnitEdges, WellFormed, Depth, Peak, AllAt;
    forall a, b | IsRegion(intervals, a, b, d)
      ensures Width(ev, j) <= b - a && (Width(ev, j) == b - a ==> ev[j - 1].at <= a)
    {
      var k := RegionIsPeak(intervals, a, b, d);
      assert j <= k ==> j == k || InOrder(ev[j - 1], ev[k - 1]);
    }
  }

  lemma SweepEnd(intervals: seq<Interval>) returns (j: nat)
    requires intervals != [] && WellFormed(intervals)
    requires var ev := Sort(Edges(intervals)); Ordered(ev) && UnitEdges(ev) && Count(ev, |ev|) == 0
    ensures var ev := Sort(Edges(intervals));
            var s := TakeAll(ev);
            && s.maxCount > 0 && (forall p :: Depth(intervals, p) <= s.maxCount)
            && (forall k :: 0 <= k <= |ev| ==> Count(ev, k) <= s.maxCount)
            && j > 0 && BestPeak(ev, |ev|, s.maxCount, j) && s.best == Some((ev[j - 1].at, ev[j].at))
  {
    var ev := Sort(Edges(intervals));
    SweepInvariant(ev, |ev|);
    assert ev[..|ev|] == ev;
    var s := TakeAll(ev);
    assert Depth(intervals, intervals[0].0) > 0;
    hide Depth, Sort, Edges, TakeAll, WellFormed;
    DepthBound(intervals, s.maxCount);
    j := EndPeak(ev, s);
  }

  // With something open at some time and nothing at the end, a peak of the greatest height was closed.
  lemma EndPeak(events: seq<Event>, s: Sweep) returns (j: nat)
    requires UnitEdges(events) && SweepOk(events, |events|, s) && s.maxCount > 0 && Count(events, |events|) == 0
    ensures j > 0 && BestPeak(events, |events|, s.maxCount, j) && s.best == Some((events[j - 1].at, events[j].at))
  {
    var top :| 0 <= top <= |events| && Count(events, top) == s.maxCount;
    TopIsPeak(events, top, s.maxCount);
    hide SweepOk, Count, UnitEdges;
    j := FoundPeak(events, s.maxCount, s.best, top);
  }

  lemma FoundPeak(events: seq<Event>, d: int, best: Option<Interval>, top: nat) returns (j: nat)
    requires BestOk(events, |events|, d, best) && Peak(events, top, d)
    ensures j > 0 && BestPeak(events, |events|, d, j) && best == Some((events[j - 1].at, events[j].at))
  {
    assert best.Some?;
    hide BestPeak;
    j :| 0 < j < |events| && BestPeak(events, |events|, d, j) && best.value == (events[j - 1].at, events[j].at);
  }

  lemma DepthBound(intervals: seq<Interval>, d: int)
    requires WellFormed(intervals) && Ordered(Sort(Edges(intervals)))
    requires var ev := Sort(Edges(intervals)); forall k :: 0 <= k <= |ev| ==> Count(ev, k) <= d
    ensures forall p :: Depth(intervals, p) <= d
  {
    forall p ensures Depth(intervals, p) <= d {
      var k := Standing(Sort(Edges(intervals)), p);
      DepthIsCount(intervals, p, k);
    }
  }
}
