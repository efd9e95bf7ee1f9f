/** Route policy and the effective-routes fold (internal/model/policy.go, internal/api/peering_handler.go). */
module Policy {
  import opened Common
  import opened Prefixes
  import opened Model

  datatype Decision = Accept | Deny | Filter

  predicate PrefixContains(outer: Prefix, inner: Prefix) {
    outer == inner || (outer.bits <= inner.bits && outer.Contains(inner.Addr()))
  }

  /** `PrefixContains` is inclusion of address sets, also for an outer prefix with host bits set. */
  lemma PrefixContainsMeaning(outer: Prefix, inner: Prefix)
    requires outer.Valid() && inner.Valid()
    ensures PrefixContains(outer, inner) <==> inner.Addresses() <= outer.Addresses()
  {
    if PrefixContains(outer, inner) && outer != inner {
      ContainsBaseContainsAll(outer, inner);
    }
    if inner.Addresses() <= outer.Addresses() {
      InclusionOrdersBits(outer, inner);
    }
  }

  predicate AnyContains(list: seq<Prefix>, p: Prefix) {
    exists i | 0 <= i < |list| :: PrefixContains(list[i], p)
  }

  predicate Denied(policy: RoutePolicy, p: Prefix) {
    AnyContains(policy.denied, p)
  }

  /** Not denied, and on the allow list if there is one: only the limit can still filter it. */
  predicate Eligible(policy: RoutePolicy, p: Prefix) {
    !Denied(policy, p) && (policy.allowed == [] || AnyContains(policy.allowed, p))
  }

  predicate LimitReached(policy: RoutePolicy, count: int) {
    policy.maxPrefixes > 0 && count >= policy.maxPrefixes
  }

  function Evaluate(policy: RoutePolicy, p: Prefix, count: int): Decision {
    if Denied(policy, p) then Deny
    else if !Eligible(policy, p) || LimitReached(policy, count) then Filter
    else Accept
  }

  /** Denied list, then allow list with its `found` flag, then the limit. */
  method EvaluatePrefix(policy: RoutePolicy, p: Prefix, currentCount: int) returns (d: Decision)
    ensures d == Evaluate(policy, p, currentCount)
  {
    for i := 0 to |policy.denied|
      invariant forall k | 0 <= k < i :: !PrefixContains(policy.denied[k], p)
    {
      if PrefixContains(policy.denied[i], p) {
        return Deny;
      }
    }
    if |policy.allowed| > 0 {
      var found := false;
      for i := 0 to |policy.allowed|
        invariant !found && forall k | 0 <= k < i :: !PrefixContains(policy.allowed[k], p)
      {
        if PrefixContains(policy.allowed[i], p) {
          found := true;
          break;
        }
      }
      if !found {
        return Filter;
      }
    }
    if policy.maxPrefixes > 0 && currentCount >= policy.maxPrefixes {
      return Filter;
    }
    return Accept;
  }

  /** What the policy decides, said about addresses. */
  lemma EvaluateMeaning(policy: RoutePolicy, p: Prefix, count: int)
    requires p.Valid()
    requires forall i | 0 <= i < |policy.denied| :: policy.denied[i].Valid()
    requires forall i | 0 <= i < |policy.allowed| :: policy.allowed[i].Valid()
    ensures Evaluate(policy, p, count) == Deny <==>
              exists i :: 0 <= i < |policy.denied| && p.Addresses() <= policy.denied[i].Addresses()
    ensures Evaluate(policy, p, count) == Accept <==>
              && !(exists i :: 0 <= i < |policy.denied| && p.Addresses() <= policy.denied[i].Addresses())
              && (policy.allowed == []
                  || exists i :: 0 <= i < |policy.allowed| && p.Addresses() <= policy.allowed[i].Addresses())
              && (policy.maxPrefixes <= 0 || count < policy.maxPrefixes)
  {
    forall i | 0 <= i < |policy.denied|
      ensures PrefixContains(policy.denied[i], p) <==> p.Addresses() <= policy.denied[i].Addresses()
    {
      PrefixContainsMeaning(policy.denied[i], p);
    }
    forall i | 0 <= i < |policy.allowed|
      ensures PrefixContains(policy.allowed[i], p) <==> p.Addresses() <= policy.allowed[i].Addresses()
    {
      PrefixContainsMeaning(policy.allowed[i], p);
    }
  }

  // ---- effective routes of one peering ----

  /** The loop over a peering's routes, with `accepted` of them accepted so far. */
  function EffectiveFrom(policy: RoutePolicy, routes: seq<RouteEntry>, accepted: nat): seq<RouteEntry> {
    if routes == [] then []
    else
      match Evaluate(policy, routes[0].prefix, accepted)
      case Deny => EffectiveFrom(policy, routes[1..], accepted)
      case Filter => [routes[0].(state := RouteFiltered)] + EffectiveFrom(policy, routes[1..], accepted)
      case Accept => [routes[0]] + EffectiveFrom(policy, routes[1..], accepted + 1)
  }

  function ByPeering(routes: seq<RouteEntry>, id: Uuid): seq<RouteEntry> {
    if routes == [] then []
    else if routes[0].peering == id then [routes[0]] + ByPeering(routes[1..], id)
    else ByPeering(routes[1..], id)
  }

  /** The table shown for a list of peerings: active ones only, each with its own running count. */
  function EffectiveTable(listed: seq<Peering>, stored: seq<RouteEntry>): seq<RouteEntry> {
    if listed == [] then []
    else
      (if listed[0].state == Active then EffectiveFrom(listed[0].policy, ByPeering(stored, listed[0].id), 0) else [])
      + EffectiveTable(listed[1..], stored)
  }

  method ListByPeering(stored: seq<RouteEntry>, id: Uuid) returns (items: seq<RouteEntry>)
    ensures items == ByPeering(stored, id)
  {
    items := [];
    for i := 0 to |stored|
      invariant items + ByPeering(stored[i..], id) == ByPeering(stored, id)
    {
      assert stored[i..][1..] == stored[i + 1..];
      if stored[i].peering == id {
        items := items + [stored[i]];
      }
    }
  }

  lemma FoldStep(policy: RoutePolicy, routes: seq<RouteEntry>, k: nat, accepted: nat)
    requires k < |routes|
    ensures EffectiveFrom(policy, routes[k..], accepted)
         == match Evaluate(policy, routes[k].prefix, accepted)
            case Deny => EffectiveFrom(policy, routes[k + 1..], accepted)
            case Filter => [routes[k].(state := RouteFiltered)] + EffectiveFrom(policy, routes[k + 1..], accepted)
            case Accept => [routes[k]] + EffectiveFrom(policy, routes[k + 1..], accepted + 1)
  {
    assert routes[k..][1..] == routes[k + 1..];
  }

  lemma FoldEnd(policy: RoutePolicy, accepted: nat)
    ensures EffectiveFrom(policy, [], accepted) == []
  {
  }

  /** The inner loop, over one active peering's stored routes. */
  method EffectiveOfPeering(policy: RoutePolicy, routes: seq<RouteEntry>) returns (shown: seq<RouteEntry>)
    ensures shown == EffectiveFrom(policy, routes, 0)
  {
    hide Evaluate, EffectiveFrom;
    var peeringAccepted := 0;
    shown := [];
    assert routes[0..] == routes;
    for k := 0 to |routes|
      invariant peeringAccepted >= 0
      invariant shown + EffectiveFrom(policy, routes[k..], peeringAccepted) == EffectiveFrom(policy, routes, 0)
    {
      FoldStep(policy, routes, k, peeringAccepted);
      var re := routes[k];
      var decision := EvaluatePrefix(policy, re.prefix, peeringAccepted);
      if decision == Deny {
        continue;
      }
      var state := if decision == Filter then RouteFiltered else re.state;
      if decision == Accept {
        peeringAccepted := peeringAccepted + 1;
      }
      shown := shown + [re.(state := state)];
    }
    assert routes[|routes|..] == [];
    FoldEnd(policy, peeringAccepted);
  }

  lemma TableStep(listed: seq<Peering>, stored: seq<RouteEntry>, i: nat)
    requires i < |listed|
    ensures EffectiveTable(listed[i..], stored)
         == (if listed[i].state == Active
             then EffectiveFrom(listed[i].policy, ByPeering(stored, listed[i].id), 0)
             else [])
            + EffectiveTable(listed[i + 1..], stored)
  {
    assert listed[i..][1..] == listed[i + 1..];
  }

  lemma TableEnd(stored: seq<RouteEntry>)
    ensures EffectiveTable([], stored) == []
  {
  }

  /** The outer loop, over the listed peerings. */
  method GetEffectiveRoutes(listed: seq<Peering>, stored: seq<RouteEntry>) returns (allRoutes: seq<RouteEntry>)
    ensures allRoutes == EffectiveTable(listed, stored)
  {
    hide EffectiveTable, EffectiveFrom, ByPeering;
    allRoutes := [];
    assert listed[0..] == listed;
    for i := 0 to |listed|
      invariant allRoutes + EffectiveTable(listed[i..], stored) == EffectiveTable(listed, stored)
    {
      var p := listed[i];
      TableStep(listed, stored, i);
      if p.state != Active {
        continue;
      }
      var routes := ListByPeering(stored, p.id);
      var shown := EffectiveOfPeering(p.policy, routes);
      allRoutes := allRoutes + shown;
    }
    assert listed[|listed|..] == [];
    TableEnd(stored);
  }

  // ---- the fold is greedy and keeps the order ----

  /** The stored routes the policy does not deny, in their stored order. */
  function NotDenied(policy: RoutePolicy, routes: seq<RouteEntry>): seq<RouteEntry> {
    if routes == [] then []
    else if Denied(policy, routes[0].prefix) then NotDenied(policy, routes[1..])
    else [routes[0]] + NotDenied(policy, routes[1..])
  }

  function CountEligible(policy: RoutePolicy, routes: seq<RouteEntry>): nat {
    if routes == [] then 0
    else (if Eligible(policy, routes[0].prefix) then 1 else 0) + CountEligible(policy, routes[1..])
  }

  /** Route `i` of the list is eligible and fewer than the limit of eligible routes come before it. */
  predicate AmongFirst(policy: RoutePolicy, routes: seq<RouteEntry>, i: nat, already: nat)
    requires i < |routes|
  {
    Eligible(policy, routes[i].prefix) && !LimitReached(policy, already + CountEligible(policy, routes[..i]))
  }

  /** Undenied routes marked by a count of eligible ones that keeps counting past the limit. */
  function Marked(policy: RoutePolicy, kept: seq<RouteEntry>, already: nat): seq<RouteEntry> {
    if kept == [] then []
    else
      [if Eligible(policy, kept[0].prefix) && !LimitReached(policy, already)
       then kept[0]
       else kept[0].(state := RouteFiltered)]
      + Marked(policy, kept[1..], already + if Eligible(policy, kept[0].prefix) then 1 else 0)
  }

  lemma MarkedStep(policy: RoutePolicy, first: RouteEntry, kept: seq<RouteEntry>, already: nat)
    ensures var eligible := Eligible(policy, first.prefix);
            Marked(policy, [first] + kept, already)
            == [if eligible && !LimitReached(policy, already) then first else first.(state := RouteFiltered)]
               + Marked(policy, kept, already + if eligible then 1 else 0)
  {
    assert ([first] + kept)[1..] == kept;
  }

  /** `accepted` stops at the limit where `already` goes on; both have then reached it. */
  lemma {:induction false} FoldIsMarking(policy: RoutePolicy, routes: seq<RouteEntry>, accepted: nat, already: nat)
    requires accepted == already || (LimitReached(policy, accepted) && LimitReached(policy, already))
    ensures EffectiveFrom(policy, routes, accepted) == Marked(policy, NotDenied(policy, routes), already)
  {
    if routes != [] {
      var first, rest := routes[0], routes[1..];
      var kept, eligible := NotDenied(policy, rest), Eligible(policy, first.prefix);
      match Evaluate(policy, first.prefix, accepted)
      case Deny =>
        FoldIsMarking(policy, rest, accepted, already);
      case Filter =>
        var next := already + if eligible then 1 else 0;
        FoldIsMarking(policy, rest, accepted, next);
        MarkedStep(policy, first, kept, already);
        assert !(eligible && !LimitReached(policy, already));
      case Accept =>
        FoldIsMarking(policy, rest, accepted + 1, already + 1);
        MarkedStep(policy, first, kept, already);
    }
  }

  lemma {:induction false} MarkedAt(policy: RoutePolicy, kept: seq<RouteEntry>, already: nat, i: nat)
    requires i < |kept|
    ensures |Marked(policy, kept, already)| == |kept|
    ensures Marked(policy, kept, already)[i]
         == if AmongFirst(policy, kept, i, already) then kept[i] else kept[i].(state := RouteFiltered)
  {
    if i > 0 {
      var next := already + if Eligible(policy, kept[0].prefix) then 1 else 0;
      MarkedAt(policy, kept[1..], next, i - 1);
      assert kept[1..][..i - 1] == kept[..i][1..];
    } else {
      MarkedLength(policy, kept, already);
    }
  }

  lemma {:induction false} MarkedLength(policy: RoutePolicy, kept: seq<RouteEntry>, already: nat)
    ensures |Marked(policy, kept, already)| == |kept|
  {
    if kept != [] {
      MarkedLength(policy, kept[1..], already + if Eligible(policy, kept[0].prefix) then 1 else 0);
    }
  }

  /**
   * Per peering: the output is the stored routes minus the denied ones, in order; the accepted ones
   * are exactly the first `maxPrefixes` eligible routes, all of them when the limit is not positive.
   */
  lemma EffectiveIsGreedy(policy: RoutePolicy, routes: seq<RouteEntry>)
    ensures var out, kept := EffectiveFrom(policy, routes, 0), NotDenied(policy, routes);
            && |out| == |kept|
            && forall i | 0 <= i < |kept| ::
                 && (AmongFirst(policy, kept, i, 0) ==> out[i] == kept[i])
                 && (!AmongFirst(policy, kept, i, 0) ==> out[i] == kept[i].(state := RouteFiltered))
  {
    FoldIsMarking(policy, routes, 0, 0);
    var kept := NotDenied(policy, routes);
    MarkedLength(policy, kept, 0);
    forall i | 0 <= i < |kept|
      ensures Marked(policy, kept, 0)[i]
           == if AmongFirst(policy, kept, i, 0) then kept[i] else kept[i].(state := RouteFiltered)
    {
      MarkedAt(policy, kept, 0, i);
    }
  }

  // ---- the table, said about the stored routes ----

  /** The stored routes of one peering are exactly the entries that carry its ID, in stored order. */
  lemma {:induction false} ByPeeringPicks(routes: seq<RouteEntry>, id: Uuid) returns (at: seq<nat>)
    ensures PickedAt(ByPeering(routes, id), routes, at)
    ensures forall j: nat :: j in at <==> j < |routes| && routes[j].peering == id
  {
    hide PickedAt;
    if routes == [] {
      at := [];
      PickedNone<RouteEntry>();
    } else {
      var rest := ByPeeringPicks(routes[1..], id);
      at := PickedCons(ByPeering(routes[1..], id), routes[1..], rest, routes[0], routes[0].peering == id);
      assert routes == [routes[0]] + routes[1..];
    }
  }

  /** The peering is active, the route is its own, and its policy does not deny it. */
  predicate Shown(p: Peering, e: RouteEntry) {
    p.state == Active && e.peering == p.id && !Denied(p.policy, e.prefix)
  }

  /** The positions before `j` of the peering's eligible routes. */
  function EligibleBefore(p: Peering, stored: seq<RouteEntry>, j: nat): set<nat>
    requires j <= |stored|
  {
    set k: nat | k < j && stored[k].peering == p.id && Eligible(p.policy, stored[k].prefix)
  }

  /** Stored as it is if it is eligible and the limit leaves room for it, else marked as filtered. */
  function Entry(p: Peering, stored: seq<RouteEntry>, j: nat): RouteEntry
    requires j < |stored|
  {
    if Eligible(p.policy, stored[j].prefix)
       && (p.policy.maxPrefixes <= 0 || |EligibleBefore(p, stored, j)| < p.policy.maxPrefixes)
    then stored[j]
    else stored[j].(state := RouteFiltered)
  }

  lemma OneMoreEligible(p: Peering, stored: seq<RouteEntry>, j: nat)
    requires j < |stored|
    ensures |EligibleBefore(p, stored, j + 1)|
         == |EligibleBefore(p, stored, j)|
            + if stored[j].peering == p.id && Eligible(p.policy, stored[j].prefix) then 1 else 0
  {
    var before := EligibleBefore(p, stored, j);
    assert EligibleBefore(p, stored, j + 1)
        == if stored[j].peering == p.id && Eligible(p.policy, stored[j].prefix) then before + {j} else before;
  }

  /** The rest of a peering's routes from position `n` on, after the eligible ones before it. */
  function ShownFrom(p: Peering, stored: seq<RouteEntry>, n: nat): seq<RouteEntry>
    requires n <= |stored|
  {
    Marked(p.policy, NotDenied(p.policy, ByPeering(stored[n..], p.id)), |EligibleBefore(p, stored, n)|)
  }

  lemma ShownFromStep(p: Peering, stored: seq<RouteEntry>, n: nat)
    requires n < |stored| && p.state == Active
    ensures ShownFrom(p, stored, n)
         == (if Shown(p, stored[n]) then [Entry(p, stored, n)] else []) + ShownFrom(p, stored, n + 1)
  {
    var first, rest := stored[n], ByPeering(stored[n + 1..], p.id);
    assert stored[n..] == [first] + stored[n + 1..];
    OneMoreEligible(p, stored, n);
    if first.peering == p.id {
      assert ([first] + rest)[1..] == rest;
      MarkedStep(p.policy, first, NotDenied(p.policy, rest), |EligibleBefore(p, stored, n)|);
    }
  }

  /** `out` is made of the entries of `p` at the positions `at`: all those from `n` on that are shown. */
  ghost predicate ShowsFrom(out: seq<RouteEntry>, p: Peering, stored: seq<RouteEntry>, at: seq<nat>, n: nat) {
    && |at| == |out|
    && (forall i, j | 0 <= i < j < |at| :: at[i] < at[j])
    && (forall j: nat :: j in at <==> n <= j < |stored| && Shown(p, stored[j]))
    && (forall i | 0 <= i < |at| :: at[i] in at && out[i] == Entry(p, stored, at[i]))
  }

  lemma {:induction false} PeeringShows(p: Peering, stored: seq<RouteEntry>, n: nat) returns (at: seq<nat>)
    requires n <= |stored| && p.state == Active
    ensures ShowsFrom(ShownFrom(p, stored, n), p, stored, at, n)
    decreases |stored| - n
  {
    hide ShownFrom, ShowsFrom;
    if n == |stored| {
      at := [];
      NothingShown(p, stored);
    } else {
      var rest := PeeringShows(p, stored, n + 1);
      ShownFromStep(p, stored, n);
      at := if Shown(p, stored[n]) then [n] + rest else rest;
      ShowsOneMore(ShownFrom(p, stored, n + 1), p, stored, rest, n);
      assert !Shown(p, stored[n]) ==> [] + ShownFrom(p, stored, n + 1) == ShownFrom(p, stored, n + 1);
    }
  }

  lemma ShowsOneMore(out: seq<RouteEntry>, p: Peering, stored: seq<RouteEntry>, rest: seq<nat>, n: nat)
    requires n < |stored| && ShowsFrom(out, p, stored, rest, n + 1)
    ensures Shown(p, stored[n]) ==> ShowsFrom([Entry(p, stored, n)] + out, p, stored, [n] + rest, n)
    ensures !Shown(p, stored[n]) ==> ShowsFrom(out, p, stored, rest, n)
  {
    hide Entry, Shown;
    forall i | 0 <= i < |rest| ensures rest[i] >= n + 1 { assert rest[i] in rest; }
    var at, shown := [n] + rest, [Entry(p, stored, n)] + out;
    forall i | 0 <= i < |at| && Shown(p, stored[n]) ensures at[i] in at && shown[i] == Entry(p, stored, at[i]) {
      if i > 0 { assert at[i] == rest[i - 1] && shown[i] == out[i - 1]; }
    }
    forall j: nat ensures j in at <==> j == n || j in rest {
    }
  }

  lemma NothingShown(p: Peering, stored: seq<RouteEntry>)
    ensures ShowsFrom(ShownFrom(p, stored, |stored|), p, stored, [], |stored|)
  {
    assert stored[|stored|..] == [];
  }

  /** What the table shows of one active peering. */
  lemma PeeringTable(p: Peering, stored: seq<RouteEntry>) returns (at: seq<nat>)
    requires p.state == Active
    ensures ShowsFrom(EffectiveFrom(p.policy, ByPeering(stored, p.id), 0), p, stored, at, 0)
  {
    FoldIsMarking(p.policy, ByPeering(stored, p.id), 0, 0);
    assert stored[0..] == stored && EligibleBefore(p, stored, 0) == {};
    at := PeeringShows(p, stored, 0);
  }

  /** First by the listed peering, then by the stored position. */
  predicate Earlier(a: (nat, nat), b: (nat, nat)) {
    a.0 < b.0 || (a.0 == b.0 && a.1 < b.1)
  }

  /** `out` has one entry for each shown pair of a listed peering and a stored route, in that order. */
  ghost predicate TableOf(out: seq<RouteEntry>, listed: seq<Peering>, stored: seq<RouteEntry>, n: nat,
                          from: seq<(nat, nat)>)
  {
    && |from| == |out|
    && (forall i, j | 0 <= i < j < |from| :: Earlier(from[i], from[j]))
    && (forall x: (nat, nat) ::
          x in from <==> n <= x.0 < |listed| && x.1 < |stored| && Shown(listed[x.0], stored[x.1]))
    && (forall i | 0 <= i < |from| ::
          from[i] in from && out[i] == Entry(listed[from[i].0], stored, from[i].1))
  }

  /** The pairs of one peering come before those of the later ones. */
  lemma PairsInFront(head: seq<RouteEntry>, at: seq<nat>, tail: seq<RouteEntry>, rest: seq<(nat, nat)>,
                     listed: seq<Peering>, stored: seq<RouteEntry>, n: nat) returns (from: seq<(nat, nat)>)
    requires n < |listed| && TableOf(tail, listed, stored, n + 1, rest)
    requires if listed[n].state == Active then ShowsFrom(head, listed[n], stored, at, 0) else head == [] && at == []
    ensures TableOf(head + tail, listed, stored, n, from)
  {
    hide Entry;
    var here: seq<(nat, nat)> := seq(|at|, i requires 0 <= i < |at| => (n as nat, at[i]));
    from := here + rest;
    forall x: (nat, nat) ensures x in here <==> x.0 == n && x.1 in at {
      if x.0 == n && x.1 in at {
        var i :| 0 <= i < |at| && at[i] == x.1;
        assert here[i] == x;
      }
    }
    forall i, j | 0 <= i < j < |from| ensures Earlier(from[i], from[j]) {
      if j >= |here| {
        assert rest[j - |here|] in rest;
        if i < |here| { assert here[i].0 == n; }
      }
    }
    forall i | 0 <= i < |from|
      ensures from[i] in from && (head + tail)[i] == Entry(listed[from[i].0], stored, from[i].1)
    {
      if i >= |here| { assert rest[i - |here|] in rest; }
    }
  }

  /**
   * The whole table: every undenied route of every active listed peering once, in the order of the
   * listing and then of the store, marked as filtered unless its own peering's policy accepts it.
   */
  lemma {:induction false} TableMeaning(listed: seq<Peering>, stored: seq<RouteEntry>, n: nat)
    returns (from: seq<(nat, nat)>)
    requires n <= |listed|
    ensures TableOf(EffectiveTable(listed[n..], stored), listed, stored, n, from)
    decreases |listed| - n
  {
    hide EffectiveFrom, ByPeering, ShowsFrom, Entry, Shown, EffectiveTable;
    if n == |listed| {
      from := [];
      assert listed[n..] == [];
      TableEnd(stored);
    } else {
      var rest := TableMeaning(listed, stored, n + 1);
      TableStep(listed, stored, n);
      var at: seq<nat> := [];
      if listed[n].state == Active { at := PeeringTable(listed[n], stored); }
      var head := if listed[n].state == Active
                  then EffectiveFrom(listed[n].policy, ByPeering(stored, listed[n].id), 0)
                  else [];
      from := PairsInFront(head, at, EffectiveTable(listed[n + 1..], stored), rest, listed, stored, n);
    }
  }

  /** A limit that is not positive is no limit. */
  predicate AtLeastAsHigh(limit: int, than: int) {
    limit <= 0 || (than > 0 && than <= limit)
  }

  /** Raising the limit only turns filtered routes into accepted ones. */
  lemma RaisingTheLimit(policy: RoutePolicy, limit: int, routes: seq<RouteEntry>)
    requires AtLeastAsHigh(limit, policy.maxPrefixes)
    ensures var low, high := EffectiveFrom(policy, routes, 0), EffectiveFrom(policy.(maxPrefixes := limit), routes, 0);
            && |low| == |high| == |NotDenied(policy, routes)|
            && forall i | 0 <= i < |low| ::
                 high[i] == low[i]
                 || (low[i].state == RouteFiltered && high[i] == NotDenied(policy, routes)[i]
                     && low[i] == high[i].(state := RouteFiltered))
  {
    var raised := policy.(maxPrefixes := limit);
    EffectiveIsGreedy(policy, routes);
    EffectiveIsGreedy(raised, routes);
    SameLists(policy, limit, routes);
    var kept := NotDenied(policy, routes);
    forall i | 0 <= i < |kept| ensures AmongFirst(policy, kept, i, 0) ==> AmongFirst(raised, kept, i, 0) {
      SameLists(policy, limit, kept[..i]);
    }
  }

  lemma {:induction false} SameLists(policy: RoutePolicy, limit: int, routes: seq<RouteEntry>)
    ensures NotDenied(policy, routes) == NotDenied(policy.(maxPrefixes := limit), routes)
    ensures CountEligible(policy, routes) == CountEligible(policy.(maxPrefixes := limit), routes)
  {
    if routes != [] {
      SameLists(policy, limit, routes[1..]);
      var raised := policy.(maxPrefixes := limit);
      assert Denied(policy, routes[0].prefix) == Denied(raised, routes[0].prefix);
      assert Eligible(policy, routes[0].prefix) == Eligible(raised, routes[0].prefix);
    }
  }
}
