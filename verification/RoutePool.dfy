/** A pool of routes, walked as one flat list of WAN addresses. */
module RoutePool {
  import opened Bytes
  import opened IpRange

  /** The WAN ranges of a route, of which the first counts, and its NIC ranges. */
  datatype Route = Route(extIps: seq<Block>, nicIps: seq<Block>)

  function Size(r: Route): nat { if r.extIps == [] then 0 else r.extIps[0].hostNo }

  /** Route equality; a route without WAN addresses equals nothing. */
  predicate SameRoute(r: Route, s: Route) {
    r.extIps != [] && s.extIps != [] && Equal(r.extIps[0], s.extIps[0])
  }

  predicate SeenIn(r: Route, seen: seq<Route>) { exists k :: 0 <= k < |seen| && SameRoute(r, seen[k]) }

  function Dedup(routes: seq<Route>): seq<Route> {
    if routes == [] then []
    else
      var seen := Dedup(routes[..|routes| - 1]);
      if SeenIn(routes[|routes| - 1], seen) then seen else seen + [routes[|routes| - 1]]
  }

  /** How many addresses the first k routes have. */
  function HostsBefore(routes: seq<Route>, k: nat): nat
    requires k <= |routes|
  {
    if k == 0 then 0 else HostsBefore(routes, k - 1) + Size(routes[k - 1])
  }

  function Total(routes: seq<Route>): nat { HostsBefore(routes, |routes|) }

  /** The addresses of the first k routes one after the other, each with its route. */
  function Flat(routes: seq<Route>, k: nat): (r: seq<(nat, nat)>)
    requires k <= |routes|
    ensures |r| == HostsBefore(routes, k)
  {
    if k == 0 then []
    else
      var n := Size(routes[k - 1]);
      Flat(routes, k - 1) + seq(n, i requires 0 <= i < n => (k - 1, GetValue(routes[k - 1].extIps[0], i)))
  }

  // --- Looking up and walking -------------------------------------------------------------

  datatype Lookup = Found(wan: nat) | AssertionFailed | NoSuchIndex

  function RouteInfo(routes: seq<Route>, offset: nat, host: nat): Lookup {
    if offset >= |routes| then AssertionFailed
    else
      var rel: int := host - (if offset > 0 then HostsBefore(routes, offset) else 0);
      var r := routes[offset];
      if rel > HostsBefore(routes, offset + 1) - 1 then AssertionFailed
      else if r.extIps == [] || r.nicIps == [] then NoSuchIndex
      else if rel + 1 > Total(routes) || Total(routes) == 0 then AssertionFailed
      else Found(GetValue(r.extIps[0], rel % Total(routes)))
  }

  /** Where the walk stands after yielding host number n - 1 from the route at offset. */
  function NextOffset(routes: seq<Route>, n: nat, offset: nat): nat
    requires offset < |routes|
  {
    if n >= HostsBefore(routes, offset + 1) && offset + 1 < |routes| then offset + 1 else offset
  }

  /** Everything the forward walk yields from here on, and whether it got to the end. */
  function Walk(routes: seq<Route>, n: nat, offset: nat): (seq<(nat, nat)>, bool)
    decreases Total(routes) - n
  {
    if n >= Total(routes) then ([], true)
    else
      match RouteInfo(routes, offset, n)
      case Found(wan) =>
        var (rest, ok) := Walk(routes, n + 1, NextOffset(routes, n + 1, offset)); ([(offset, wan)] + rest, ok)
      case _ => ([], false)
  }

  // --- The pool ------------------------------------------------------------------------------

  class RoutePool {
    var routes: seq<Route>
    var lenList: seq<nat>
    var wanHosts: nat

    ghost predicate Valid()
      reads this
    {
      && |lenList| == |routes| && wanHosts == Total(routes)
      && forall i :: 0 <= i < |routes| ==> lenList[i] == HostsBefore(routes, i + 1)
    }

    constructor (given: seq<Route>)
      ensures Valid() && routes == Dedup(given)
    {
      var seen: seq<Route> := [];
      for i := 0 to |given|
        invariant seen == Dedup(given[..i])
      {
        assert given[..i + 1][..i] == given[..i];
        if !SeenIn(given[i], seen) {
          seen := seen + [given[i]];
        }
      }
      assert given[..|given|] == given;
      var lens: seq<nat>, hosts: nat := [], 0;
      for i := 0 to |seen|
        invariant |lens| == i && hosts == HostsBefore(seen, i)
        invariant forall k :: 0 <= k < i ==> lens[k] == HostsBefore(seen, k + 1)
      {
        if seen[i].extIps == [] {
          lens := lens + [hosts];
          continue;
        }
        var next := hosts + seen[i].extIps[0].hostNo;
        lens := lens + [next];
        hosts := next;
      }
      routes, lenList, wanHosts := seen, lens, hosts;
    }

    method GetRouteInfo(offset: nat, host: nat) returns (r: Lookup)
      requires Valid()
      ensures r == RouteInfo(routes, offset, host)
    {
      if offset + 1 > |routes| {
        return AssertionFailed;
      }
      var route := routes[offset];
      var prev := 0;
      if offset > 0 {
        prev := lenList[offset - 1];
      }
      var rel: int := host - prev;
      if rel + 1 > lenList[offset] {
        return AssertionFailed;
      }
      if |route.extIps| == 0 || |route.nicIps| == 0 {
        return NoSuchIndex;
      }
      if rel + 1 > wanHosts || wanHosts == 0 {
        return AssertionFailed;
      }
      return Found(GetValue(route.extIps[0], rel % wanHosts));
    }
  }

  class RoutePoolIter {
    const pool: RoutePool
    var hostP: nat
    var routeOffset: nat

    constructor (pool: RoutePool)
      ensures this.pool == pool && hostP == 0 && routeOffset == 0
    {
      this.pool, hostP, routeOffset := pool, 0, 0;
    }

    /** One step: None at the end; a failed lookup leaves the walk where it is. */
    method Next() returns (r: Option<Lookup>)
      requires pool.Valid()
      modifies this
      ensures old(hostP) >= pool.wanHosts ==> r == None
      ensures old(hostP) < pool.wanHosts ==> r == Some(RouteInfo(pool.routes, old(routeOffset), old(hostP)))
      ensures if r.Some? && r.value.Found?
              then hostP == old(hostP) + 1 && old(routeOffset) < |pool.routes|
                   && routeOffset == NextOffset(pool.routes, hostP, old(routeOffset))
              else hostP == old(hostP) && routeOffset == old(routeOffset)
    {
      if hostP >= pool.wanHosts {
        return None;
      }
      var info := pool.GetRouteInfo(routeOffset, hostP);
      if !info.Found? {
        return Some(info);
      }
      hostP := hostP + 1;
      if hostP >= pool.lenList[routeOffset] {
        if routeOffset < |pool.routes| - 1 {
          routeOffset := routeOffset + 1;
        }
      }
      return Some(info);
    }
  }

  /** for route in pool: what it visits, and whether it runs to the end. */
  method VisitAll(pool: RoutePool) returns (visited: seq<(nat, nat)>, ok: bool)
    requires pool.Valid()
    ensures (visited, ok) == Walk(pool.routes, 0, 0)
  {
    var it := new RoutePoolIter(pool);
    visited := [];
    ghost var all := Walk(pool.routes, 0, 0);
    assert visited + all.0 == all.0;
    while true
      invariant it.hostP <= pool.wanHosts && it.pool == pool && pool.Valid() && all == Walk(pool.routes, 0, 0)
      invariant var rest := Walk(pool.routes, it.hostP, it.routeOffset); all == (visited + rest.0, rest.1)
      decreases pool.wanHosts - it.hostP
    {
      var offset := it.routeOffset;
      ghost var rest := Walk(pool.routes, it.hostP, it.routeOffset);
      var r := it.Next();
      match r {
        case None =>
          assert visited + [] == visited;
          return visited, true;
        case Some(Found(wan)) =>
          assert visited + ([(offset, wan)] + rest.0[1..]) == visited + [(offset, wan)] + rest.0[1..];
          visited := visited + [(offset, wan)];
        case Some(_) =>
          assert visited + [] == visited;
          return visited, false;
      }
    }
  }

  // --- What the walk visits --------------------------------------------------------------------

  /** Every route with WAN addresses has NIC addresses, as Route demands, and every WAN range is a block. */
  ghost predicate WellMade(routes: seq<Route>) {
    forall i :: 0 <= i < |routes| && routes[i].extIps != [] ==> routes[i].nicIps != [] && IsBlock(routes[i].extIps[0])
  }

  /** No route without WAN addresses comes before one that has some. */
  predicate GapFree(routes: seq<Route>) {
    forall i, j :: 0 <= i < j < |routes| && routes[j].extIps != [] ==> routes[i].extIps != []
  }

  predicate StandsIn(routes: seq<Route>, n: nat, offset: nat) {
    offset < |routes| && HostsBefore(routes, offset) <= n < HostsBefore(routes, offset + 1)
  }

  lemma {:induction false} HostsGrow(routes: seq<Route>, i: nat, j: nat)
    requires i <= j <= |routes|
    ensures HostsBefore(routes, i) <= HostsBefore(routes, j)
  {
    if i < j { HostsGrow(routes, i, j - 1); }
  }

  /** len_list: prefix sums, strictly increasing when every route has WAN addresses. */
  lemma LenListIncreases(routes: seq<Route>, i: nat, j: nat)
    requires WellMade(routes) && i < j < |routes| && routes[j].extIps != []
    ensures HostsBefore(routes, i + 1) < HostsBefore(routes, j + 1)
  {
    HostsGrow(routes, i + 1, j);
    BlockShape(routes[j].extIps[0]);
  }

  lemma {:induction false} FlatAt(routes: seq<Route>, k: nat, n: nat, offset: nat)
    requires offset < k <= |routes| && StandsIn(routes, n, offset)
    ensures n < HostsBefore(routes, k) && routes[offset].extIps != []
    ensures Flat(routes, k)[n] == (offset, GetValue(routes[offset].extIps[0], n - HostsBefore(routes, offset)))
  {
    HostsGrow(routes, offset + 1, k);
    if offset < k - 1 {
      FlatAt(routes, k - 1, n, offset);
    }
  }

  lemma LookupFinds(routes: seq<Route>, n: nat, offset: nat)
    requires WellMade(routes) && StandsIn(routes, n, offset)
    ensures routes[offset].extIps != []
    ensures RouteInfo(routes, offset, n) == Found(GetValue(routes[offset].extIps[0], n - HostsBefore(routes, offset)))
  {
    HostsGrow(routes, offset + 1, |routes|);
    var rel := n - HostsBefore(routes, offset);
    Remainder(rel, Total(routes));
    assert HostsBefore(routes, offset + 1) == HostsBefore(routes, offset) + Size(routes[offset]);
    hide GetValue, IsBlock;
  }

  lemma Remainder(n: nat, d: nat)
    requires n < d
    ensures n % d == n
  {
  }

  lemma StepStands(routes: seq<Route>, n: nat, offset: nat)
    requires WellMade(routes) && GapFree(routes) && StandsIn(routes, n, offset) && n + 1 < Total(routes)
    ensures StandsIn(routes, n + 1, NextOffset(routes, n + 1, offset))
  {
    if n + 1 == HostsBefore(routes, offset + 1) {
      var j := SomeAfter(routes, offset + 1);
      if routes[offset + 1].extIps != [] { BlockShape(routes[offset + 1].extIps[0]); }
    }
  }

  lemma {:induction false} SomeAfter(routes: seq<Route>, k: nat) returns (j: nat)
    requires k <= |routes| && HostsBefore(routes, k) < Total(routes)
    ensures k <= j < |routes| && routes[j].extIps != []
  {
    j := k;
    while j < |routes| && routes[j].extIps == []
      invariant k <= j <= |routes| && HostsBefore(routes, j) == HostsBefore(routes, k)
    {
      j := j + 1;
    }
  }

  lemma {:induction false} WalkOn(routes: seq<Route>, n: nat, offset: nat)
    requires WellMade(routes) && GapFree(routes) && n <= Total(routes)
    requires n < Total(routes) ==> StandsIn(routes, n, offset)
    ensures Walk(routes, n, offset) == (Flat(routes, |routes|)[n..], true)
    decreases Total(routes) - n
  {
    var all := Flat(routes, |routes|);
    if n < Total(routes) {
      LookupFinds(routes, n, offset);
      FlatAt(routes, |routes|, n, offset);
      if n + 1 < Total(routes) { StepStands(routes, n, offset); }
      WalkOn(routes, n + 1, NextOffset(routes, n + 1, offset));
      hide RouteInfo, GetValue, Flat, WellMade, GapFree, StandsIn;
      HeadTail(all, n);
    } else {
      assert all[n..] == [];
    }
  }

  lemma HeadTail(all: seq<(nat, nat)>, n: nat)
    requires n < |all|
    ensures all[n..] == [all[n]] + all[n + 1..]
  {
  }

  lemma GapLookup(routes: seq<Route>, gap: nat)
    requires gap < |routes| && routes[gap].extIps == []
    ensures !RouteInfo(routes, gap, HostsBefore(routes, gap)).Found?
  {
  }

  /** Up to the first route without WAN addresses the walk goes on; there it fails. */
  lemma {:induction false} WalkStops(routes: seq<Route>, n: nat, offset: nat, gap: nat)
    requires WellMade(routes) && gap < |routes| && routes[gap].extIps == [] && n < Total(routes)
    requires forall i :: 0 <= i < gap ==> routes[i].extIps != []
    requires HostsBefore(routes, gap) < Total(routes) && offset <= gap
    requires if offset == gap then n == HostsBefore(routes, gap) else StandsIn(routes, n, offset)
    ensures !Walk(routes, n, offset).1
    decreases Total(routes) - n
  {
    GapLookup(routes, gap);
    StopsWithRest(routes, n, offset);
    hide *;
    if offset < gap {
      LookupFinds(routes, n, offset);
      TowardsGap(routes, n, offset, gap);
      WalkStops(routes, n + 1, NextOffset(routes, n + 1, offset), gap);
    }
  }

  // A walk fails where a lookup fails, or later.
  lemma StopsWithRest(routes: seq<Route>, n: nat, offset: nat)
    requires n < Total(routes) && offset < |routes|
    ensures var next := NextOffset(routes, n + 1, offset);
            !RouteInfo(routes, offset, n).Found? || !Walk(routes, n + 1, next).1 ==> !Walk(routes, n, offset).1
  {
    hide RouteInfo, NextOffset;
  }

  // The next step stands in a route before the gap, or at it.
  lemma TowardsGap(routes: seq<Route>, n: nat, offset: nat, gap: nat)
    requires WellMade(routes) && offset < gap < |routes| && StandsIn(routes, n, offset)
    requires forall i :: 0 <= i < gap ==> routes[i].extIps != []
    ensures var next := NextOffset(routes, n + 1, offset);
            && next <= gap && n + 1 <= HostsBefore(routes, gap)
            && if next == gap then n + 1 == HostsBefore(routes, gap) else StandsIn(routes, n + 1, next)
  {
    assert HostsBefore(routes, offset + 1) == HostsBefore(routes, offset) + Size(routes[offset]);
    HostsGrow(routes, offset + 1, gap);
    if n + 1 == HostsBefore(routes, offset + 1) && offset + 1 < gap {
      BlockShape(routes[offset + 1].extIps[0]);
    }
    hide IsBlock;
  }

  /** Forward iteration yields exactly the addresses of each route in turn, each index once
      and with no assertion failing, if and only if no route without WAN addresses
      comes before one that has some.  (Route's constructor makes no such route.) */
  lemma {:induction false} IterationIff(routes: seq<Route>)
    requires WellMade(routes)
    ensures Walk(routes, 0, 0) == (Flat(routes, |routes|), true) <==> GapFree(routes)
  {
    var all := Flat(routes, |routes|);
    if GapFree(routes) {
      if Total(routes) > 0 { FirstStands(routes); }
      WalkOn(routes, 0, 0);
      assert all[0..] == all;
    } else {
      GapFails(routes);
    }
    hide *;
  }

  /** What Route's constructor lets through: it refuses a route without WAN addresses, and
      one without NIC addresses. */
  ghost predicate Constructible(r: Route) { r.extIps != [] && r.nicIps != [] && IsBlock(r.extIps[0]) }

  /** A pool of such routes iterates over exactly the addresses of its routes, and its
      len_list increases at every route. */
  lemma ConstructedIterates(given: seq<Route>)
    requires forall r :: r in given ==> Constructible(r)
    ensures var routes := Dedup(given);
            && Walk(routes, 0, 0) == (Flat(routes, |routes|), true)
            && forall i :: 0 <= i < |routes| ==> HostsBefore(routes, i) < HostsBefore(routes, i + 1)
  {
    var routes := Dedup(given);
    ConstructedWalk(given);
    DedupDisjoint(given);
    hide Dedup, IsBlock, Walk, Flat;
    assert forall i :: 0 <= i < |routes| ==> routes[i] in routes;
    forall i | 0 <= i < |routes| ensures HostsBefore(routes, i) < HostsBefore(routes, i + 1) {
      BlockShape(routes[i].extIps[0]);
    }
  }

  lemma ConstructedWalk(given: seq<Route>)
    requires forall r :: r in given ==> Constructible(r)
    ensures var routes := Dedup(given); Walk(routes, 0, 0) == (Flat(routes, |routes|), true)
  {
    var routes := Dedup(given);
    DedupDisjoint(given);
    hide Dedup, IsBlock, Walk, Flat;
    assert forall i :: 0 <= i < |routes| ==> routes[i] in routes;
    IterationIff(routes);
  }

  /** The same, host by host: the walk has as many entries as the routes have hosts, and the i-th
      host of the k-th route stands right behind all hosts of the routes before. */
  lemma EveryHostVisited(given: seq<Route>, k: nat, i: nat)
    requires forall r :: r in given ==> Constructible(r)
    requires k < |Dedup(given)| && Dedup(given)[k].extIps != [] && i < Dedup(given)[k].extIps[0].hostNo
    ensures var routes := Dedup(given);
            var walk := Walk(routes, 0, 0).0;
            var block := routes[k].extIps[0];
            && HostsBefore(routes, 0) == 0 && HostsBefore(routes, k + 1) == HostsBefore(routes, k) + block.hostNo
            && |walk| == HostsBefore(routes, |routes|) && HostsBefore(routes, k) + i < |walk|
            && walk[HostsBefore(routes, k) + i] == (k, block.hi + 1 - block.hostNo + i)
  {
    var routes := Dedup(given);
    ConstructedWalk(given);
    DedupDisjoint(given);
    assert routes[k] in routes;
    HostPlace(routes, k, i);
    hide *;
    FlatAt(routes, |routes|, HostsBefore(routes, k) + i, k);
  }

  // Where the i-th host of the k-th route stands, and which address it is.
  lemma HostPlace(routes: seq<Route>, k: nat, i: nat)
    requires k < |routes| && Constructible(routes[k]) && i < routes[k].extIps[0].hostNo
    ensures var block := routes[k].extIps[0];
            && HostsBefore(routes, 0) == 0 && HostsBefore(routes, k + 1) == HostsBefore(routes, k) + block.hostNo
            && HostsBefore(routes, k) + i < HostsBefore(routes, |routes|)
            && StandsIn(routes, HostsBefore(routes, k) + i, k) && GetValue(block, i) == block.hi + 1 - block.hostNo + i
  {
    RouteRoom(routes, k);
    NothingBefore(routes);
    IndexBijection(routes[k].extIps[0], i);
    hide HostsBefore, GetValue, IsBlock;
  }

  lemma RouteRoom(routes: seq<Route>, k: nat)
    requires k < |routes| && Constructible(routes[k])
    ensures HostsBefore(routes, k + 1) == HostsBefore(routes, k) + routes[k].extIps[0].hostNo
    ensures HostsBefore(routes, k) < HostsBefore(routes, k + 1) <= Total(routes)
    ensures routes[k].extIps != [] && routes[k].nicIps != []
  {
    HostsGrow(routes, k + 1, |routes|);
    BlockShape(routes[k].extIps[0]);
    hide IsBlock;
  }

  /** Where in its route an absolute host number lies; negative before the route. */
  function Relative(routes: seq<Route>, offset: nat, host: nat): int
    requires offset <= |routes|
  {
    host - (if offset > 0 then HostsBefore(routes, offset) else 0)
  }

  /** Looking a host up fails past the last route, and when its number within the route reaches the
      number of hosts up to and including the route; any other number gives an address,
      a negative one wrapping around the whole pool. */
  lemma LookupMeans(routes: seq<Route>, offset: nat, host: nat)
    requires offset < |routes| ==> Constructible(routes[offset])
    ensures offset >= |routes| ==> RouteInfo(routes, offset, host) == AssertionFailed
    ensures offset < |routes| ==>
              && Total(routes) > 0
              && RouteInfo(routes, offset, host)
                 == if Relative(routes, offset, host) >= HostsBefore(routes, offset + 1) then AssertionFailed
                    else Found(GetValue(routes[offset].extIps[0], Relative(routes, offset, host) % Total(routes)))
  {
    if offset < |routes| {
      RouteRoom(routes, offset);
      NothingBefore(routes);
      hide *;
      LookupInside(routes, offset, host);
    } else {
      hide HostsBefore, Total;
    }
  }

  /** The check compares a number within the route with a count over the pool.  It refuses every host
      past the route's last if and only if the route is the first of the pool. */
  lemma BoundIff(routes: seq<Route>, offset: nat)
    requires offset < |routes| && forall r :: r in routes ==> Constructible(r)
    ensures (forall host: nat :: host >= HostsBefore(routes, offset + 1) ==> RouteInfo(routes, offset, host) == AssertionFailed)
       <==> offset == 0
  {
    assert routes[offset] in routes && routes[0] in routes;
    RouteRoom(routes, 0);
    RouteRoom(routes, offset);
    NothingBefore(routes);
    if offset > 0 { HostsGrow(routes, 1, offset); }
    hide HostsBefore, Constructible, RouteInfo;
    forall host: nat | offset == 0 && host >= HostsBefore(routes, 1) ensures RouteInfo(routes, 0, host) == AssertionFailed {
      LookupMeans(routes, 0, host);
    }
    LookupMeans(routes, offset, HostsBefore(routes, offset + 1));
    hide GetValue;
  }

  lemma NothingBefore(routes: seq<Route>)
    ensures HostsBefore(routes, 0) == 0
  {
  }

  lemma LookupInside(routes: seq<Route>, offset: nat, host: nat)
    requires offset < |routes| && routes[offset].extIps != [] && routes[offset].nicIps != []
    requires 0 <= HostsBefore(routes, offset) < HostsBefore(routes, offset + 1) <= Total(routes)
    ensures RouteInfo(routes, offset, host)
         == if Relative(routes, offset, host) >= HostsBefore(routes, offset + 1) then AssertionFailed
            else Found(GetValue(routes[offset].extIps[0], Relative(routes, offset, host) % Total(routes)))
  {
    hide GetValue, HostsBefore, Total;
  }

  lemma GapFails(routes: seq<Route>)
    requires WellMade(routes) && !GapFree(routes)
    ensures !Walk(routes, 0, 0).1
  {
    var i, j :| 0 <= i < j < |routes| && routes[j].extIps != [] && routes[i].extIps == [];
    var gap := FirstGap(routes, i);
    BlockShape(routes[j].extIps[0]);
    HostsGrow(routes, gap, j);
    HostsGrow(routes, j + 1, |routes|);
    if gap > 0 { BlockShape(routes[0].extIps[0]); }
    hide Walk, IsBlock;
    WalkStops(routes, 0, 0, gap);
  }

  lemma FirstStands(routes: seq<Route>)
    requires WellMade(routes) && GapFree(routes) && Total(routes) > 0
    ensures StandsIn(routes, 0, 0)
  {
    var j := SomeAfter(routes, 0);
    BlockShape(routes[0].extIps[0]);
  }

  lemma FirstGap(routes: seq<Route>, i: nat) returns (gap: nat)
    requires i < |routes| && routes[i].extIps == []
    ensures gap <= i && routes[gap].extIps == [] && forall k :: 0 <= k < gap ==> routes[k].extIps != []
  {
    gap := 0;
    while routes[gap].extIps != []
      decreases i - gap
      invariant gap <= i && forall k :: 0 <= k < gap ==> routes[k].extIps != []
    {
      gap := gap + 1;
    }
  }

  // --- No address twice ---------------------------------------------------------------------------

  /** After the pool has dropped repeated routes, no two routes overlap. */
  ghost predicate Disjoint(routes: seq<Route>) {
    forall i, j :: 0 <= i < j < |routes| ==> !SameRoute(routes[j], routes[i])
  }

  lemma {:induction false} DedupDisjoint(routes: seq<Route>)
    ensures Disjoint(Dedup(routes))
    ensures forall r :: r in Dedup(routes) ==> r in routes
  {
    if routes != [] { DedupDisjoint(routes[..|routes| - 1]); }
  }

  /** kept is made of the routes at the places idx, in order, and a place is among them exactly when
      its route equals none kept from an earlier place. */
  ghost predicate Picks(given: seq<Route>, kept: seq<Route>, idx: seq<nat>) {
    && |idx| == |kept| && (forall j, k :: 0 <= j < k < |idx| ==> idx[j] < idx[k])
    && (forall k :: 0 <= k < |idx| ==> idx[k] < |given| && kept[k] == given[idx[k]])
    && (forall i :: 0 <= i < |given| ==>
          (i in idx <==> forall k :: 0 <= k < |idx| && idx[k] < i ==> !SameRoute(given[i], kept[k])))
  }

  /** Which of the routes given a pool keeps, and in which order. */
  lemma {:induction false} KeptExactly(given: seq<Route>) returns (idx: seq<nat>)
    ensures Picks(given, Dedup(given), idx)
  {
    if given == [] {
      idx := [];
    } else {
      var init, last := given[..|given| - 1], given[|given| - 1];
      idx := KeptExactly(init);
      assert given == init + [last];
      hide SameRoute, Picks, SeenIn;
      if SeenIn(last, Dedup(init)) {
        PicksNot(init, last, Dedup(init), idx);
      } else {
        PicksLast(init, last, Dedup(init), idx);
        idx := idx + [|init|];
      }
    }
  }

  lemma PicksNot(init: seq<Route>, last: Route, kept: seq<Route>, idx: seq<nat>)
    requires Picks(init, kept, idx) && SeenIn(last, kept)
    ensures Picks(init + [last], kept, idx)
  {
    var given := init + [last];
    assert forall i :: 0 <= i < |init| ==> given[i] == init[i];
    assert |init| !in idx;
    var k :| 0 <= k < |kept| && SameRoute(last, kept[k]);
    assert idx[k] < |init|;
    hide SameRoute;
  }

  lemma PicksLast(init: seq<Route>, last: Route, kept: seq<Route>, idx: seq<nat>)
    requires Picks(init, kept, idx) && !SeenIn(last, kept)
    ensures Picks(init + [last], kept + [last], idx + [|init|])
  {
    var given, kept', idx' := init + [last], kept + [last], idx + [|init|];
    assert forall i :: 0 <= i < |init| ==> given[i] == init[i];
    hide SameRoute;
    forall i | 0 <= i < |given|
      ensures i in idx' <==> forall k :: 0 <= k < |idx'| && idx'[k] < i ==> !SameRoute(given[i], kept'[k])
    {
      if i < |init| {
        PickedBefore(init, last, kept, idx, i);
      } else {
        assert idx'[|idx|] == i;
      }
    }
  }

  lemma PickedBefore(init: seq<Route>, last: Route, kept: seq<Route>, idx: seq<nat>, i: nat)
    requires Picks(init, kept, idx) && i < |init|
    ensures i in idx + [|init|] <==> i in idx
    ensures (forall k :: 0 <= k < |idx| + 1 && (idx + [|init|])[k] < i ==> !SameRoute(init[i], (kept + [last])[k]))
       <==> (forall k :: 0 <= k < |idx| && idx[k] < i ==> !SameRoute(init[i], kept[k]))
  {
    hide SameRoute;
    if forall k :: 0 <= k < |idx| + 1 && (idx + [|init|])[k] < i ==> !SameRoute(init[i], (kept + [last])[k]) {
      forall k | 0 <= k < |idx| && idx[k] < i ensures !SameRoute(init[i], kept[k]) {
        assert (idx + [|init|])[k] == idx[k] && (kept + [last])[k] == kept[k];
      }
    }
  }

  /** When no route equals an earlier one the pool holds the routes given, all and in order. */
  lemma {:induction false} AllKept(given: seq<Route>)
    requires forall i, j :: 0 <= i < j < |given| ==> !SameRoute(given[j], given[i])
    ensures Dedup(given) == given
  {
    if given != [] {
      var init, last := given[..|given| - 1], given[|given| - 1];
      AllKept(init);
      hide SameRoute, Dedup;
      assert !SeenIn(last, init);
      assert given == init + [last];
      DedupSnoc(init, last);
    }
  }

  lemma DedupSnoc(init: seq<Route>, last: Route)
    ensures Dedup(init + [last]) == if SeenIn(last, Dedup(init)) then Dedup(init) else Dedup(init) + [last]
  {
    assert (init + [last])[..|init|] == init;
    hide SeenIn;
  }

  lemma WhereInFlat(routes: seq<Route>, n: nat) returns (offset: nat)
    requires n < Total(routes)
    ensures StandsIn(routes, n, offset)
  {
    offset := 0;
    while n >= HostsBefore(routes, offset + 1)
      invariant offset < |routes| && HostsBefore(routes, offset) <= n
      decreases |routes| - offset
    {
      if offset + 1 == |routes| {
        assert false;
      }
      offset := offset + 1;
    }
  }

  /** The walk over a pool visits no address twice. */
  lemma NoAddressTwice(given: seq<Route>, m: nat, n: nat)
    requires WellMade(Dedup(given)) && m < n < Total(Dedup(given))
    ensures var all := Flat(Dedup(given), |Dedup(given)|); all[m].1 != all[n].1
  {
    DedupDisjoint(given);
    hide Flat, Dedup;
    DistinctInFlat(Dedup(given), m, n);
  }

  lemma {:induction false} DistinctInFlat(routes: seq<Route>, m: nat, n: nat)
    requires WellMade(routes) && Disjoint(routes) && m < n < Total(routes)
    ensures var all := Flat(routes, |routes|); all[m].1 != all[n].1
  {
    var a := WhereInFlat(routes, m);
    var b := WhereInFlat(routes, n);
    FlatAt(routes, |routes|, m, a);
    FlatAt(routes, |routes|, n, b);
    var i, j := m - HostsBefore(routes, a), n - HostsBefore(routes, b);
    assert i < Size(routes[a]) && j < Size(routes[b]);
    assert a < b ==> !SameRoute(routes[b], routes[a]);
    assert b < a ==> !SameRoute(routes[a], routes[b]);
    hide Flat, IsBlock, GetValue, Equal, HostsBefore, StandsIn;
    OneAddressOneIndex(routes[a].extIps[0], i, routes[b].extIps[0], j);
  }

  lemma OneAddressOneIndex(x: Block, i: nat, y: Block, j: nat)
    requires IsBlock(x) && IsBlock(y) && i < x.hostNo && j < y.hostNo
    requires (x == y && i != j) || !Equal(x, y) || !Equal(y, x)
    ensures GetValue(x, i) != GetValue(y, j)
  {
    IndexBijection(x, i);
    IndexBijection(y, j);
    BlockShape(x);
    BlockShape(y);
    hide GetValue, IsBlock;
  }
}
