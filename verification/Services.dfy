/** The use cases as they run: statements over the server repository and the probe queue. */
module Services {
  import opened Entities
  import opened Store
  import opened Probes
  import opened Orders
  import opened Repository
  import opened UseCalls
  import opened Bytes
  import opened Instances
  import opened UseCases
  import opened Outcomes
  import opened History

  // ---- the probers' handlers -----------------------------------------------------------

  method HandlePortSuccess(r: Result, svr0: Server, now: Nanos) returns (svr: Server)
    ensures Succeeded(GoalPort, r, svr0, svr, now)
    ensures svr == HandleSuccess(GoalPort, r, svr0, now)
  {
    HandlersDo(GoalPort, r, svr0, now);
    hide Succeeded;
    svr := svr0;
    svr := svr.(queryPort := r.port);
    svr := svr.(details := r.details, info := r.details.info);
    svr := svr.(refreshedAt := Some(now));
    svr := svr.(status := UpdateStatus(svr.status, INFO | DETAILS | PORT));
    svr := svr.(status := ClearStatus(svr.status, NO_DETAILS | DETAILS_RETRY | PORT_RETRY | NO_PORT));
  }

  method HandlePortFailure(svr0: Server) returns (svr: Server)
    ensures Failed(GoalPort, svr0, svr)
    ensures svr == HandleFailure(GoalPort, svr0)
  {
    HandlersDo(GoalPort, Result(BLANK_DETAILS, 0), svr0, 0);
    hide Failed;
    svr := svr0;
    svr := svr.(status := ClearStatus(svr.status, PORT_RETRY));
    svr := svr.(status := UpdateStatus(svr.status, NO_PORT));
  }

  method HandleDetailsSuccess(r: Result, svr0: Server, now: Nanos) returns (svr: Server)
    ensures Succeeded(GoalDetails, r, svr0, svr, now)
    ensures svr == HandleSuccess(GoalDetails, r, svr0, now)
  {
    HandlersDo(GoalDetails, r, svr0, now);
    hide Succeeded;
    svr := svr0;
    svr := svr.(details := r.details, info := r.details.info);
    svr := svr.(refreshedAt := Some(now));
    svr := svr.(status := UpdateStatus(svr.status, INFO | DETAILS));
    svr := svr.(status := ClearStatus(svr.status, NO_DETAILS | DETAILS_RETRY));
  }

  method HandleDetailsFailure(svr0: Server) returns (svr: Server)
    ensures Failed(GoalDetails, svr0, svr)
    ensures svr == HandleFailure(GoalDetails, svr0)
  {
    HandlersDo(GoalDetails, Result(BLANK_DETAILS, 0), svr0, 0);
    hide Failed;
    svr := svr0;
    svr := svr.(status := ClearStatus(svr.status, DETAILS | INFO | DETAILS_RETRY | PORT));
    svr := svr.(status := UpdateStatus(svr.status, NO_DETAILS));
  }

  lemma StoredUnderOwnAddress(servers: Repository)
    requires servers.Valid()
    ensures forall a :: a in servers.items ==> servers.items[a].addr == a
  {
  }

  // ---- probeserver ---------------------------------------------------------------------

  /** `found` is what probing the server yields, or None when it fails. */
  method ExecuteProbe(servers: Repository, probes: Queue, p: Probe, found: Option<Result>, delay: nat, now: Nanos)
    returns (verdict: Verdict)
    requires servers.Valid() && probes.Valid()
    modifies servers, probes
    ensures servers.Valid() && probes.Valid()
    ensures var ran := Probed(old(servers.View()), p, found, delay, now, servers.score);
            && verdict == ran.verdict && servers.View() == ran.effect.db
            && Placed(old(probes.State()), probes.State(), ran.effect.orders, now, probes.score)
  {
    hide Commit, Placed, UpdateStatus, ClearStatus, Consistent, HandleSuccess, HandleFailure, HandleRetry;
    PlacedNone(probes.State(), now, probes.score);
    StoredUnderOwnAddress(servers);
    var held := servers.Get(p.addr);
    if held.None? {
      return ServerNotFound;
    }
    if found.None? {
      verdict := RetryProbe(servers, probes, p, held.value, delay, now);
      return;
    }
    var svr;
    if p.goal == GoalPort {
      svr := HandlePortSuccess(found.value, held.value, now);
    } else {
      svr := HandleDetailsSuccess(found.value, held.value, now);
    }
    HandlersKeepAddress(p.goal, found.value, held.value, now);
    var outcome := servers.Update(svr, (s, t) => Some(HandleSuccess(p.goal, found.value, s, t)), now);
    return Done;
  }

  lemma HandlersKeepAddress(goal: Goal, r: Result, svr: Server, now: Nanos)
    ensures HandleSuccess(goal, r, svr, now).addr == svr.addr
    ensures HandleFailure(goal, svr).addr == svr.addr
    ensures HandleRetry(goal, svr).addr == svr.addr
  {
  }

  /** The retry is queued before the record is marked; a newer record is marked as failed instead. */
  method RetryProbe(servers: Repository, probes: Queue, p: Probe, svr: Server, delay: nat, now: Nanos)
    returns (verdict: Verdict)
    requires servers.Valid() && probes.Valid() && Lookup(servers.items, p.addr) == Some(svr)
    modifies servers, probes
    ensures servers.Valid() && probes.Valid()
    ensures var ran := Probed(old(servers.View()), p, None, delay, now, servers.score);
            && verdict == ran.verdict && servers.View() == ran.effect.db
            && Placed(old(probes.State()), probes.State(), ran.effect.orders, now, probes.score)
  {
    hide Commit, Placed, UpdateStatus, ClearStatus, Consistent, HandleFailure, HandleRetry, Enqueued, TookIn;
    PlacedNone(probes.State(), now, probes.score);
    StoredUnderOwnAddress(servers);
    HandlersKeepAddress(p.goal, Result(BLANK_DETAILS, 0), svr, now);
    if p.retries >= p.maxRetries {
      FailProbe(servers, p, svr, now);
      return OutOfRetries;
    }
    var again := p.(retries := p.retries + 1);
    ghost var before := probes.State();
    var id := probes.Enqueue(Order(again, Some(now + delay), None), now);
    PlacedOne(before, id, Order(again, Some(now + delay), None), now, probes.score);
    var outcome := servers.Update(HandleRetry(p.goal, svr), (s, t) => Some(HandleFailure(p.goal, s)), now);
    return Retried;
  }

  method FailProbe(servers: Repository, p: Probe, svr: Server, now: Nanos)
    requires servers.Valid() && svr.addr in servers.items
    modifies servers
    ensures servers.Valid()
    ensures servers.View() == Exec(old(servers.View()), CallOn(Fail(p.goal), svr, now), now, servers.score).db
  {
    hide Commit, UpdateStatus, ClearStatus, Consistent;
    var failed;
    if p.goal == GoalPort {
      failed := HandlePortFailure(svr);
    } else {
      failed := HandleDetailsFailure(svr);
    }
    var outcome := servers.Update(failed, (s, t) => Some(HandleFailure(p.goal, s)), now);
  }

  // ---- reportserver --------------------------------------------------------------------

  /** `usable` tells whether the address check accepts the IP. The instance is registered once the server is saved. */
  method ReportServer(servers: Repository, registry: Registry, probes: Queue, a: Addr, queryPort: int, id: Bytes,
                      usable: bool, info: Option<Info>, max: int, now: Nanos)
    returns (verdict: Verdict)
    requires servers.Valid() && probes.Valid()
    modifies servers, registry, probes
    ensures servers.Valid() && probes.Valid()
    ensures var valid := CanRegister(id, a, usable);
            var ran := ReportedServer(old(servers.View()), a, queryPort, valid, info, max, now, servers.score);
            && verdict == ran.verdict && servers.View() == ran.effect.db
            && Placed(old(probes.State()), probes.State(), ran.effect.orders, now, probes.score)
    ensures registry.entries == if verdict.Done? then old(registry.entries)[id := a] else old(registry.entries)
    ensures verdict ==
      if a !in old(servers.items) && !(1 <= queryPort <= 65535) then InvalidPort
      else if !(|id| == 4 && 1 <= a.port <= 65535 && usable) then InvalidInstance
      else if info.None? || !info.value.passes then InvalidPayload
      else Done
  {
    hide Commit, Placed, UpdateStatus, Consistent, MaybeDiscoverPort;
    ReportOutcome(servers.View(), a, queryPort, CanRegister(id, a, usable), info, max, now, servers.score);
    PlacedNone(probes.State(), now, probes.score);
    StoredUnderOwnAddress(servers);
    var held := servers.Get(a);
    var svr;
    if held.Some? {
      svr := held.value;
    } else {
      var created := NewServer(a, queryPort);
      if created.None? {
        return InvalidPort;
      }
      svr := created.value;
    }
    if !CanRegister(id, a, usable) {
      return InvalidInstance;
    }
    if info.None? || !info.value.passes {
      return InvalidPayload;
    }
    var fields := info.value;
    svr := svr.(info := fields);
    svr := svr.(refreshedAt := Some(now));
    svr := svr.(status := UpdateStatus(svr.status, MASTER | INFO));
    var outcome := servers.Add(svr, (s, t) => Some(Reported(s, fields, now)), now);
    if !outcome.Saved? {
      return CannotCreate;
    }
    registry.Add(id, a);
    DiscoverPort(servers, probes, outcome.svr, max, now);
    return Done;
  }

  /** The probe is queued before the record is marked. */
  method DiscoverPort(servers: Repository, probes: Queue, pending0: Server, max: int, now: Nanos)
    requires servers.Valid() && probes.Valid()
    modifies servers, probes
    ensures servers.Valid() && probes.Valid()
    ensures var e := MaybeDiscoverPort(old(servers.View()), pending0, max, now, servers.score);
            && servers.View() == e.db && Placed(old(probes.State()), probes.State(), e.orders, now, probes.score)
  {
    hide Commit, Placed, UpdateStatus, Consistent, Has, HasNo, Enqueued, TookIn;
    PlacedNone(probes.State(), now, probes.score);
    var pending := pending0;
    if !HasNo(pending.status, PORT | PORT_RETRY) {
      return;
    }
    var order := Order(NewProbe(pending.addr, pending.addr.port, GoalPort, max), None, None);
    ghost var before := probes.State();
    var id := probes.Enqueue(order, now);
    PlacedOne(before, id, order, now, probes.score);
    pending := pending.(status := UpdateStatus(pending.status, PORT_RETRY));
    var outcome := servers.Update(pending,
      (s: Server, t) => if Has(s.status, PORT | PORT_RETRY) then None else Some(s.Marked(PORT_RETRY)), now);
  }

  // ---- addserver -----------------------------------------------------------------------

  /** The record is handed out only when the server has been discovered already. */
  method SubmitServer(servers: Repository, probes: Queue, a: Addr, max: int, now: Nanos)
    returns (verdict: Verdict, found: Option<Server>)
    requires servers.Valid() && probes.Valid()
    modifies servers, probes
    ensures servers.Valid() && probes.Valid()
    ensures var ran := SubmittedServer(old(servers.View()), a, max, now, servers.score);
            && verdict == ran.verdict && servers.View() == ran.effect.db
            && Placed(old(probes.State()), probes.State(), ran.effect.orders, now, probes.score)
    ensures found == if verdict.AlreadyDiscovered? then Lookup(servers.items, a) else None
    ensures found.Some? <==> verdict.AlreadyDiscovered?
  {
    hide Commit, Placed, Consistent, MaybeDiscoverServer;
    PlacedNone(probes.State(), now, probes.score);
    SubmissionVerdict(servers.View(), a, max, now, servers.score);
    var svr;
    verdict, svr := GetOrCreateServer(servers, a, now);
    if verdict.CannotCreate? {
      return verdict, None;
    }
    DiscoveredIsKept(servers.View(), svr, max, now, servers.score);
    verdict := DiscoverServer(servers, probes, svr, max, now);
    found := if verdict.AlreadyDiscovered? then Some(svr) else None;
  }

  /** A server that needs no discovery is left as it is stored. */
  lemma DiscoveredIsKept(db: Db, svr: Server, max: int, now: Nanos, score: Rounding)
    ensures MaybeDiscoverServer(db, svr, max, now, score).verdict.AlreadyDiscovered? ==>
      MaybeDiscoverServer(db, svr, max, now, score).effect == Effect(db, [])
  {
    hide Exec;
  }

  /** `getOrCreateServer`: afterwards the server is stored as it is returned, unless it cannot be created. */
  method GetOrCreateServer(servers: Repository, a: Addr, now: Nanos) returns (verdict: Verdict, svr: Server)
    requires servers.Valid()
    modifies servers
    ensures servers.Valid()
    ensures if a in old(servers.items)
            then verdict == Done && svr == old(servers.items[a]) && servers.View() == old(servers.View())
            else if NewServer(a, a.port + 1).None? then verdict == CannotCreate && servers.View() == old(servers.View())
            else
              var created := Exec(old(servers.View()), CreateCall(NewServer(a, a.port + 1).value), now, servers.score);
              verdict == Done && created.outcome == Saved(svr) && servers.View() == created.db
    ensures verdict.Done? ==> Lookup(servers.items, a) == Some(svr)
  {
    hide Consistent, Retag;
    var held := servers.Get(a);
    if held.Some? {
      return Done, held.value;
    }
    var created := NewServer(a, a.port + 1);
    if created.None? {
      return CannotCreate, NOTHING.svr;
    }
    var outcome := servers.Add(created.value, (s, t) => None, now);
    if !outcome.Saved? {
      return CannotCreate, NOTHING.svr;
    }
    return Done, outcome.svr;
  }

  /** The record is marked before the probe is queued. */
  method DiscoverServer(servers: Repository, probes: Queue, svr: Server, max: int, now: Nanos)
    returns (verdict: Verdict)
    requires servers.Valid() && probes.Valid()
    modifies servers, probes
    ensures servers.Valid() && probes.Valid()
    ensures var ran := MaybeDiscoverServer(old(servers.View()), svr, max, now, servers.score);
            && verdict == ran.verdict && servers.View() == ran.effect.db
            && Placed(old(probes.State()), probes.State(), ran.effect.orders, now, probes.score)
  {
    hide Commit, Placed, UpdateStatus, Consistent, Has, HasAny, Enqueued, TookIn;
    PlacedNone(probes.State(), now, probes.score);
    if Has(svr.status, DETAILS) {
      return AlreadyDiscovered;
    }
    if HasAny(svr.status, PORT_RETRY | DETAILS_RETRY) {
      return InProgress;
    }
    if Has(svr.status, NO_PORT) {
      return NoQueryablePort;
    }
    var marked := svr.(status := UpdateStatus(svr.status, PORT_RETRY));
    var outcome := servers.Update(marked,
      (s: Server, t) => if Has(s.status, DETAILS | PORT_RETRY | DETAILS_RETRY) then None
        else Some(s.Marked(PORT_RETRY)), now);
    if outcome.NotFound? {
      return CannotDiscover;
    }
    var order := Order(NewProbe(svr.addr, svr.addr.port, GoalPort, max), None, None);
    ghost var before := probes.State();
    var id := probes.Enqueue(order, now);
    PlacedOne(before, id, order, now, probes.score);
    return InProgress;
  }

  // ---- refreshservers and reviveservers --------------------------------------------------

  /** A details probe for the query port of each server, with the deadline, as it lies in the queue. */
  ghost function DetailsItems(found: seq<Server>, deadline: Nanos, max: int): (items: seq<Item>)
    ensures |items| == |found|
    ensures forall i :: 0 <= i < |items| ==>
      items[i] == Item(Probe(found[i].addr, found[i].queryPort, GoalDetails, 0, max), Some(deadline))
  {
    seq(|found|, i requires 0 <= i < |found| =>
      Item(Probe(found[i].addr, found[i].queryPort, GoalDetails, 0, max), Some(deadline)))
  }

  /** A port probe for the game port of each server. */
  ghost function PortItems(found: seq<Server>, deadline: Nanos, max: int): (items: seq<Item>)
    ensures |items| == |found|
    ensures forall i :: 0 <= i < |items| ==>
      items[i] == Item(Probe(found[i].addr, found[i].addr.port, GoalPort, 0, max), Some(deadline))
  {
    seq(|found|, i requires 0 <= i < |found| =>
      Item(Probe(found[i].addr, found[i].addr.port, GoalPort, 0, max), Some(deadline)))
  }

  /** Every server found got one such probe, ready at once, and the queue has not changed otherwise. */
  ghost predicate GotDetailsProbes(c: Content, c': Content, found: seq<Server>, deadline: Nanos, max: int, at: int) {
    exists ids: seq<Option<nat>> :: |ids| == |found| && (forall i :: 0 <= i < |ids| ==> ids[i].Some?)
      && Added(c, c', ids, DetailsItems(found, deadline, max), seq(|found|, i => at))
  }

  /** Every server found whose countdown ends before the deadline got one, ready after the countdown. */
  ghost predicate GotPortProbes(c: Content, c': Content, found: seq<Server>, countdowns: seq<Nanos>, deadline: Nanos,
                                max: int, score: Rounding)
    requires |countdowns| == |found|
  {
    exists ids: seq<Option<nat>> ::
      && |ids| == |found| && (forall i :: 0 <= i < |ids| ==> (ids[i].Some? <==> countdowns[i] < deadline))
      && Added(c, c', ids, PortItems(found, deadline, max),
               seq(|found|, i requires 0 <= i < |found| => score(countdowns[i])))
  }

  lemma DetailsProbesAre(c: Content, c': Content, found: seq<Server>, deadline: Nanos, max: int, now: Nanos,
                         score: Rounding)
    requires Listed(c) && Placed(c, c', RefreshOrders(found, deadline, max), now, score)
    ensures GotDetailsProbes(c, c', found, deadline, max, score(now))
  {
    hide Placed, Listed, Added;
    var orders := RefreshOrders(found, deadline, max);
    var ids := PlacedAdds(c, c', orders, now, score);
    assert ItemsOf(orders) == DetailsItems(found, deadline, max);
    assert ScoresOf(orders, now, score) == seq(|found|, i => score(now));
  }

  lemma PortProbesAre(c: Content, c': Content, found: seq<Server>, countdowns: seq<Nanos>, deadline: Nanos, max: int,
                      now: Nanos, score: Rounding)
    requires |countdowns| == |found|
    requires Listed(c) && Placed(c, c', ReviveOrders(found, countdowns, deadline, max), now, score)
    ensures GotPortProbes(c, c', found, countdowns, deadline, max, score)
  {
    hide Placed, Listed, Added;
    var orders := ReviveOrders(found, countdowns, deadline, max);
    var ids := PlacedAdds(c, c', orders, now, score);
    assert ItemsOf(orders) == PortItems(found, deadline, max);
    assert ScoresOf(orders, now, score) == seq(|found|, i requires 0 <= i < |found| => score(countdowns[i]));
  }

  lemma QueueIsListed(probes: Queue)
    requires probes.Valid()
    ensures Listed(probes.State())
  {
  }

  /** A details probe for every server whose port is known and that is not already being retried. */
  method RefreshServers(servers: Repository, probes: Queue, deadline: Nanos, max: int, now: Nanos)
    returns (count: nat, found: seq<Server>)
    requires servers.Valid() && probes.Valid()
    modifies probes
    ensures probes.Valid() && count == |found|
    ensures forall svr :: svr in found <==>
      svr.addr in servers.items && servers.items[svr.addr] == svr && Has(svr.status, PORT)
        && !HasAny(svr.status, DETAILS_RETRY)
    ensures forall i, j :: 0 <= i < j < |found| ==> found[i].addr != found[j].addr
    ensures Placed(old(probes.State()), probes.State(), RefreshOrders(found, deadline, max), now, probes.score)
    ensures GotDetailsProbes(old(probes.State()), probes.State(), found, deadline, max, probes.score(now))
  {
    hide GotDetailsProbes;
    QueueIsListed(probes);
    ghost var before := probes.State();
    found := servers.Filter(NO_FILTER.(withStatus := PORT, noStatus := DETAILS_RETRY));
    RefreshFilter(servers);
    hide Placed, Has, HasAny, Consistent, Matches, Listed;
    count := AddDetailsProbes(probes, found, deadline, max, now);
    DetailsProbesAre(before, probes.State(), found, deadline, max, now, probes.score);
  }

  /** The loop of refreshservers. */
  method AddDetailsProbes(probes: Queue, found: seq<Server>, deadline: Nanos, max: int, now: Nanos) returns (count: nat)
    requires probes.Valid()
    modifies probes
    ensures probes.Valid() && count == |found|
    ensures Placed(old(probes.State()), probes.State(), RefreshOrders(found, deadline, max), now, probes.score)
  {
    hide Placed, Enqueued, TookIn;
    PlacedNone(probes.State(), now, probes.score);
    ghost var before := probes.State();
    ghost var all := RefreshOrders(found, deadline, max);
    count := 0;
    for i := 0 to |found|
      invariant probes.Valid() && count == i
      invariant Placed(before, probes.State(), all[..i], now, probes.score)
    {
      ghost var c := probes.State();
      var order := Order(NewProbe(found[i].addr, found[i].queryPort, GoalDetails, max), None, Some(deadline));
      var id := probes.Enqueue(order, now);
      PlacedThen(before, c, all[..i], id, order, now, probes.score);
      assert all[..i + 1] == all[..i] + [order];
      count := count + 1;
    }
    assert all[..|found|] == all;
  }

  lemma RefreshFilter(servers: Repository)
    requires servers.Valid()
    ensures forall a ::
      Matches(NO_FILTER.(withStatus := PORT, noStatus := DETAILS_RETRY), servers.View(), a, servers.score) <==>
      a in servers.items && Has(servers.items[a].status, PORT) && !HasAny(servers.items[a].status, DETAILS_RETRY)
  {
    hide Has, HasAny;
  }

  /** The countdown lies between the two bounds, the upper one excluded, whatever number the random source gives. */
  method SelectCountdown(min: Nanos, max: Nanos, random: nat) returns (countdown: Nanos)
    requires max > min ==> random < max - min
    ensures if max > min then countdown == min + random && min <= countdown < max else countdown == min
  {
    if max <= min {
      return min;
    }
    return min + random;
  }

  /** A port probe for every server active in the scope that has no port and is not being retried. */
  method ReviveServers(servers: Repository, probes: Queue, minScope: Nanos, maxScope: Nanos,
                       minCountdown: Nanos, maxCountdown: Nanos, random: nat -> nat, deadline: Nanos, max: int,
                       now: Nanos)
    returns (count: nat, found: seq<Server>, ghost countdowns: seq<Nanos>)
    requires servers.Valid() && probes.Valid()
    requires maxCountdown > minCountdown ==> forall i :: random(i) < maxCountdown - minCountdown
    modifies probes
    ensures probes.Valid() && count == |found| == |countdowns|
    ensures forall svr :: svr in found <==>
      && svr.addr in servers.items && servers.items[svr.addr] == svr && !HasAny(svr.status, PORT | PORT_RETRY)
      && svr.refreshedAt.Some?
      && servers.score(minScope) <= servers.score(svr.refreshedAt.value) < servers.score(maxScope)
    ensures forall i, j :: 0 <= i < j < |found| ==> found[i].addr != found[j].addr
    ensures forall i :: 0 <= i < |countdowns| ==>
      if maxCountdown > minCountdown then minCountdown <= countdowns[i] == minCountdown + random(i) < maxCountdown
      else countdowns[i] == minCountdown
    ensures Placed(old(probes.State()), probes.State(), ReviveOrders(found, countdowns, deadline, max), now,
      probes.score)
    ensures GotPortProbes(old(probes.State()), probes.State(), found, countdowns, deadline, max, probes.score)
  {
    hide GotPortProbes;
    QueueIsListed(probes);
    ghost var before := probes.State();
    var fs := NO_FILTER.(noStatus := PORT | PORT_RETRY, activeAfter := Some(minScope), activeBefore := Some(maxScope));
    found := servers.Filter(fs);
    ReviveFilter(servers, minScope, maxScope);
    hide Placed, Has, HasAny, Consistent, Matches, Listed;
    count, countdowns := AddPortProbes(probes, found, minCountdown, maxCountdown, random, deadline, max, now);
    PortProbesAre(before, probes.State(), found, countdowns, deadline, max, now, probes.score);
  }

  /** The loop of reviveservers. */
  method AddPortProbes(probes: Queue, found: seq<Server>, minCountdown: Nanos, maxCountdown: Nanos, random: nat -> nat,
                       deadline: Nanos, max: int, now: Nanos)
    returns (count: nat, ghost countdowns: seq<Nanos>)
    requires probes.Valid()
    requires maxCountdown > minCountdown ==> forall i :: random(i) < maxCountdown - minCountdown
    modifies probes
    ensures probes.Valid() && count == |found| == |countdowns|
    ensures forall i :: 0 <= i < |countdowns| ==>
      if maxCountdown > minCountdown then minCountdown <= countdowns[i] == minCountdown + random(i) < maxCountdown
      else countdowns[i] == minCountdown
    ensures Placed(old(probes.State()), probes.State(), ReviveOrders(found, countdowns, deadline, max), now,
      probes.score)
  {
    hide Placed, Enqueued, TookIn;
    PlacedNone(probes.State(), now, probes.score);
    ghost var before := probes.State();
    count := 0;
    countdowns := [];
    for i := 0 to |found|
      invariant probes.Valid() && count == i == |countdowns|
      invariant forall k :: 0 <= k < i ==>
        if maxCountdown > minCountdown then minCountdown <= countdowns[k] == minCountdown + random(k) < maxCountdown
        else countdowns[k] == minCountdown
      invariant Placed(before, probes.State(), ReviveOrders(found[..i], countdowns, deadline, max), now, probes.score)
    {
      ghost var c := probes.State();
      var countdown := SelectCountdown(minCountdown, maxCountdown, random(i));
      var order := Order(NewProbe(found[i].addr, found[i].addr.port, GoalPort, max), Some(countdown), Some(deadline));
      var id := probes.Enqueue(order, now);
      PlacedThen(before, c, ReviveOrders(found[..i], countdowns, deadline, max), id, order, now, probes.score);
      assert ReviveOrders(found[..i + 1], countdowns + [countdown], deadline, max) ==
        ReviveOrders(found[..i], countdowns, deadline, max) + [order];
      countdowns := countdowns + [countdown];
      count := count + 1;
    }
    assert found[..|found|] == found;
  }

  lemma ReviveFilter(servers: Repository, minScope: Nanos, maxScope: Nanos)
    requires servers.Valid()
    ensures forall a ::
      Matches(NO_FILTER.(noStatus := PORT | PORT_RETRY, activeAfter := Some(minScope), activeBefore := Some(maxScope)),
              servers.View(), a, servers.score) <==>
      && a in servers.items && !HasAny(servers.items[a].status, PORT | PORT_RETRY)
      && servers.items[a].refreshedAt.Some?
      && servers.score(minScope) <= servers.score(servers.items[a].refreshedAt.value) < servers.score(maxScope)
  {
    NothingWanted();
    hide Has, HasAny;
  }

  lemma NothingWanted()
    ensures forall s: Status :: Has(s, 0) && !HasAny(s, 0)
  {
  }

  // ---- renewserver, removeserver and the cleaner -------------------------------------------

  /** A keepalive: on a match the refresh time of the server moves, and nothing else; otherwise nothing changes. */
  method RenewServer(servers: Repository, registry: Registry, id: Bytes, ip: int, now: Nanos) returns (verdict: Verdict)
    requires servers.Valid()
    modifies servers
    ensures servers.Valid()
    ensures var who := Identify(registry.entries, id);
            && (verdict.Done? <==> who.Known? && who.addr.ip == ip && who.addr in old(servers.items))
            && servers.View() ==
                 if verdict.Done? then WithRefresh(old(servers.View()), who.addr, now, servers.score)
                   else old(servers.View())
    ensures verdict ==
      if |id| != 4 then InvalidInstance
      else if id !in registry.entries then InstanceNotFound
      else if registry.entries[id].ip != ip then AddressMismatch
      else if registry.entries[id] !in old(servers.items) then ServerNotFound
      else Done
  {
    hide Commit, Consistent, WithRefresh;
    StoredUnderOwnAddress(servers);
    var who := registry.Get(id);
    RenewOutcome(servers.View(), who, ip, now, servers.score);
    if who.Malformed? {
      return InvalidInstance;
    }
    if who.Unknown? {
      return InstanceNotFound;
    }
    if who.addr.ip != ip {
      return AddressMismatch;
    }
    var held := servers.Get(who.addr);
    if held.None? {
      return ServerNotFound;
    }
    var svr := held.value.(refreshedAt := Some(now));
    var outcome := servers.Update(svr, (s: Server, t) => Some(s.Refreshed(now)), now);
    return Done;
  }

  /**
   * A removal on request: on a match the server and the instance are gone, and nothing else;
   * otherwise nothing changes.
   */
  method RemoveServer(servers: Repository, registry: Registry, a: Addr, id: Bytes, now: Nanos)
    returns (verdict: Verdict)
    requires servers.Valid()
    modifies servers, registry
    ensures servers.Valid()
    ensures var who := Identify(old(registry.entries), id);
            && (verdict.Done? <==> a in old(servers.items) && who.Known? && who.addr.ip == a.ip)
            && servers.View() == (if verdict.Done? then Without(old(servers.View()), a) else old(servers.View()))
            && registry.entries == if verdict.Done? then old(registry.entries) - {id} else old(registry.entries)
    ensures verdict ==
      if a !in old(servers.items) then ServerNotFound
      else if |id| != 4 then InvalidInstance
      else if id !in old(registry.entries) then InstanceNotFound
      else if old(registry.entries)[id].ip != a.ip then AddressMismatch
      else Done
  {
    hide Commit, Consistent, Without;
    StoredUnderOwnAddress(servers);
    var held := servers.Get(a);
    if held.None? {
      return ServerNotFound;
    }
    var who := registry.Get(id);
    RemoveOutcome(servers.View(), a, who, now, servers.score);
    if who.Malformed? {
      return InvalidInstance;
    }
    if who.Unknown? {
      return InstanceNotFound;
    }
    if who.addr.ip != a.ip {
      return AddressMismatch;
    }
    var outcome := servers.Remove(held.value, Always(), now);
    registry.Remove(id);
    return Done;
  }

  /** Removes what was not updated for the retention time; each removal that returns no error is counted. */
  method CleanServers(servers: Repository, retention: int, now: Nanos) returns (removed: nat)
    requires servers.Valid()
    modifies servers
    ensures servers.Valid()
    ensures var outdated := Outdated(old(servers.View()), servers.score(now - retention));
            && servers.items == old(servers.items) - outdated
            && removed == |outdated|
  {
    hide Has, HasAny, Consistent, Matches, Cleaned;
    var cutoff := now - retention;
    var found := servers.Filter(NO_FILTER.(updatedBefore := Some(cutoff)));
    CleanFilter(servers, cutoff);
    StoredUnderOwnAddress(servers);
    AddressesOf(found, Outdated(servers.View(), servers.score(cutoff)));
    CleanedRemoves(servers.View(), found, cutoff, now, servers.score);
    hide Outdated;
    removed := RemoveAll(servers, found, cutoff, now);
  }

  /** The servers whose last update has a score below the limit. */
  ghost function Outdated(db: Db, limit: int): set<Addr> {
    set a | a in db.items && a in db.updated && db.updated[a] < limit
  }

  /** `cleanServers`: the removals, counted. */
  method RemoveAll(servers: Repository, found: seq<Server>, cutoff: Nanos, now: Nanos) returns (removed: nat)
    requires servers.Valid()
    modifies servers
    ensures servers.Valid() && removed == |found|
    ensures servers.View() == Cleaned(old(servers.View()), found, cutoff, now, servers.score)
  {
    hide Consistent, Commit;
    ghost var before := servers.View();
    removed := 0;
    for i := 0 to |found|
      invariant servers.Valid() && removed == i
      invariant servers.View() == Cleaned(before, found[..i], cutoff, now, servers.score)
    {
      assert found[..i + 1][..i] == found[..i];
      var outcome := servers.Remove(found[i], Spare(cutoff), now);
      removed := removed + 1;
    }
    assert found[..|found|] == found;
  }

  function Addresses(found: seq<Server>): set<Addr> {
    set svr | svr in found :: svr.addr
  }

  lemma AddressesMore(front: seq<Server>, svr: Server)
    ensures Addresses(front + [svr]) == Addresses(front) + {svr.addr}
  {
  }

  lemma AddressesOf(found: seq<Server>, wanted: set<Addr>)
    requires forall i, j :: 0 <= i < j < |found| ==> found[i].addr != found[j].addr
    requires forall a :: a in wanted <==> exists svr :: svr in found && svr.addr == a
    ensures Addresses(found) == wanted && |wanted| == |found|
  {
    assert Addresses(found) == wanted;
    OneAddressEach(found);
  }

  lemma {:induction false} OneAddressEach(found: seq<Server>)
    requires forall i, j :: 0 <= i < j < |found| ==> found[i].addr != found[j].addr
    ensures |Addresses(found)| == |found|
  {
    if found != [] {
      var front, last := found[..|found| - 1], found[|found| - 1];
      OneAddressEach(front);
      AddressesMore(front, last);
      assert found == front + [last];
      assert last.addr !in Addresses(front);
    }
  }

  /** Removing a record exactly as it is stored needs no callback. */
  lemma CleanStored(db: Db, svr: Server, cutoff: Nanos, now: Nanos, score: Rounding)
    requires Lookup(db.items, svr.addr) == Some(svr)
    ensures Exec(db, CallOn(Clean(cutoff), svr, now), now, score).db.items == db.items - {svr.addr}
  {
  }

  /** Removing records exactly as they are stored removes those records and no others. */
  lemma {:induction false} CleanedRemoves(db: Db, outdated: seq<Server>, cutoff: Nanos, now: Nanos, score: Rounding)
    requires forall svr :: svr in outdated ==> Lookup(db.items, svr.addr) == Some(svr)
    requires forall i, j :: 0 <= i < j < |outdated| ==> outdated[i].addr != outdated[j].addr
    ensures Cleaned(db, outdated, cutoff, now, score).items == db.items - Addresses(outdated)
  {
    hide Exec, CallOn;
    if outdated != [] {
      var n := |outdated| - 1;
      var front := outdated[..n];
      CleanedRemoves(db, front, cutoff, now, score);
      assert outdated == front + [outdated[n]];
      var mid := Cleaned(db, front, cutoff, now, score);
      CleanStored(mid, outdated[n], cutoff, now, score);
      AddressesMore(front, outdated[n]);
    }
  }

  lemma CleanFilter(servers: Repository, cutoff: Nanos)
    requires servers.Valid()
    ensures forall a :: Matches(NO_FILTER.(updatedBefore := Some(cutoff)), servers.View(), a, servers.score) <==>
      a in servers.items && a in servers.updated && servers.updated[a] < servers.score(cutoff)
    ensures forall a :: a in servers.items ==> a in servers.updated
  {
    NothingWanted();
    hide Has, HasAny;
  }
}
