/** When the items of the shared probe queue may leave it, and what becomes of them then. */
module ProbeTimes {
  import opened Entities
  import opened Store
  import opened Probes
  import opened ProbeProtocol

  // ---- what was enqueued stays known ---------------------------------------------------------

  /** Event `i` of the run enqueues the order under this id, and the order makes sense. */
  ghost predicate EnqueuedAt(start: Nanos, events: seq<Event>, i: nat, id: nat, o: Order, score: Rounding) {
    && i < |events| && events[i] == Event.Enqueue(id, o)
    && id !in Run(Init(start), events[..i], score).known
    && !(o.after.Some? && o.before.Some? && o.after.value >= o.before.value)
  }

  lemma StepOnKnown(s: System, e: Event, score: Rounding)
    ensures var t := Step(s, e, score);
            && s.clock <= t.clock
            && forall id :: id in s.known ==> id in t.known && t.known[id] == s.known[id]
  {
    hide Present, Strip, Range, Insert, Expired;
  }

  /** The earliest time that an order asks for, or the time at which it was given. */
  function Due(o: Order, at: Nanos): Nanos {
    if o.after.Some? then o.after.value else at
  }

  lemma AddMeans(s: System, id: nat, o: Order, score: Rounding)
    requires id !in s.known && !(o.after.Some? && o.before.Some? && o.after.value >= o.before.value)
    ensures var t := Step(s, Event.Enqueue(id, o), score);
            id in t.known && t.known[id] == Ticket(Item(o.probe, o.before), score(Due(o, s.clock)))
  {
    hide Insert;
  }

  lemma {:induction false} TicketStays(start: Nanos, events: seq<Event>, i: nat, id: nat, o: Order, score: Rounding)
    requires EnqueuedAt(start, events, i, id, o, score)
    ensures var s := Run(Init(start), events, score);
            var at := Run(Init(start), events[..i], score).clock;
            && at <= s.clock && id in s.known
            && s.known[id] == Ticket(Item(o.probe, o.before), score(Due(o, at)))
    decreases |events|
  {
    hide Step, Due;
    var n := |events| - 1;
    var front := events[..n];
    StepOnKnown(Run(Init(start), front, score), events[n], score);
    if i < n {
      assert front[..i] == events[..i];
      TicketStays(start, front, i, id, o, score);
    } else {
      AddMeans(Run(Init(start), front, score), id, o, score);
    }
  }

  /**
   * In every run an item stays in the queue until its earliest time has come; and as long as it is
   * there, it is among the ready ones exactly if it has none or its time has come. So one without an
   * earliest time is ready at once.
   */
  lemma NothingRunsEarly(start: Nanos, events: seq<Event>, i: nat, id: nat, o: Order, score: Rounding)
    requires EnqueuedAt(start, events, i, id, o, score)
    ensures var s := Run(Init(start), events, score);
            && id in s.place
            && (o.after.Some? && score(s.clock) < score(o.after.value) ==> s.place[id] == Waiting)
            && (s.place[id] == Waiting ==>
                  exists j :: 0 <= j < |s.queue| && s.queue[j].id == id
                              && (j < Ready(s.queue, score(s.clock)) <==>
                                    o.after.None? || score(o.after.value) <= score(s.clock)))
  {
    hide Run, Ready;
    var s := Run(Init(start), events, score);
    RunKeeps(start, events, score);
    TicketStays(start, events, i, id, o, score);
    hide AllHold;
    assert PlaceOk(id, s.place[id], s.known[id], s.consumers, s.clock, score);
    if s.place[id] == Waiting {
      assert Slot(s.known[id].score, id) in s.queue;
      ReadyIsPrefix(s.queue, score(s.clock));
      hide Ordered;
    }
  }

  // ---- where an item goes -------------------------------------------------------------------

  /** From the queue into a hand; from the hand to its consumer if it lasts, away if it does not. */
  ghost predicate Goes(p: Place, q: Place, item: Item, now: Nanos) {
    || q == p
    || (p == Waiting && q.InHand?)
    || (p.InHand? && q == Delivered(p.c) && Lasts(item, now))
    || (p.InHand? && q == Dropped(p.c) && !Lasts(item, now))
  }

  lemma StepOnPlace(s: System, e: Event, id: nat, score: Rounding)
    requires Inv(s, score)
    ensures var t := Step(s, e, score);
            && (id in s.place ==> id in t.place && id in s.known
                                  && Goes(s.place[id], t.place[id], s.known[id].item, s.clock))
            && (id !in s.place && id in t.place ==> t.place[id] == Waiting)
  {
    hide Pop, Sift, Range, Insert, Inv, Goes;
    InvOnPlaces(s, score);
    if id in s.place {
      StaysInPlace(s, id);
    }
    if e.Move? {
      match ConsumerOf(s, e.c).pc
      case Popping(_, _) => PopOnPlace(s, e.c, id, score);
      case Sifting(_) => SiftOnPlace(s, e.c, id, score);
      case _ =>
    }
  }

  lemma InvOnPlaces(s: System, score: Rounding)
    requires Inv(s, score)
    ensures s.known.Keys == s.place.Keys && AllHold(s, score) && WaitingOk(s.items, s.place)
  {
  }

  lemma StaysInPlace(s: System, id: nat)
    requires id in s.place && id in s.known
    ensures Goes(s.place[id], s.place[id], s.known[id].item, s.clock)
  {
  }

  lemma PopOnPlace(s: System, c: nat, id: nat, score: Rounding)
    requires s.known.Keys == s.place.Keys && AllHold(s, score) && WaitingOk(s.items, s.place)
    requires ConsumerOf(s, c).pc.Popping?
    ensures Pop(s, c).place.Keys == s.place.Keys
    ensures id in s.place ==> Goes(s.place[id], Pop(s, c).place[id], s.known[id].item, s.clock)
  {
    hide Pop, AllHold, Strip, DistinctTags, Lasts;
    PopMoves(s, c, score);
  }

  lemma SiftOnPlace(s: System, c: nat, id: nat, score: Rounding)
    requires s.known.Keys == s.place.Keys && AllHold(s, score) && ConsumerOf(s, c).pc.Sifting?
    ensures Sift(s, c).place.Keys == s.place.Keys
    ensures id in s.place ==> Goes(s.place[id], Sift(s, c).place[id], s.known[id].item, s.clock)
  {
    ConsumerHolds(s, c, score);
    hide AllHold, GotOk, KeysOk, DistinctTags;
    var hand := ConsumerOf(s, c).hand;
    assert hand != [] ==> hand[0] in hand;
  }

  /** Step `n` of the run takes the item out of a consumer's hand to where it is then. */
  ghost predicate LeavesHandAt(start: Nanos, events: seq<Event>, n: int, id: nat, p: Place, score: Rounding) {
    && 0 <= n < |events| && (p.Delivered? || p.Dropped?)
    && var s, t := Run(Init(start), events[..n], score), Run(Init(start), events[..n + 1], score);
    && id in s.place && s.place[id] == InHand(p.c) && id in t.place && t.place[id] == p
    && id in s.known && (p.Delivered? <==> Lasts(s.known[id].item, s.clock))
  }

  /**
   * Whatever was delivered still lasted at the moment it was given out, and whatever was dropped did
   * not: its deadline had passed at that moment.
   */
  lemma {:induction false} LeftInTime(start: Nanos, events: seq<Event>, id: nat, score: Rounding)
    requires id in Run(Init(start), events, score).place
    ensures var p := Run(Init(start), events, score).place[id];
            p.Delivered? || p.Dropped? ==> exists n :: LeavesHandAt(start, events, n, id, p, score)
    decreases |events|
  {
    hide Step, Inv, Lasts;
    if events == [] {
    } else {
      var n := |events| - 1;
      var front := events[..n];
      var s, p := Run(Init(start), front, score), Run(Init(start), events, score).place[id];
      RunKeeps(start, front, score);
      StepOnPlace(s, events[n], id, score);
      if id in s.place && s.place[id] == p {
        LeftInTime(start, front, id, score);
        if p.Delivered? || p.Dropped? {
          var m :| LeavesHandAt(start, front, m, id, p, score);
          assert front[..m] == events[..m] && front[..m + 1] == events[..m + 1];
          assert LeavesHandAt(start, events, m, id, p, score);
        }
      } else if p.Delivered? || p.Dropped? {
        assert events[..n + 1] == events;
        assert LeavesHandAt(start, events, n, id, p, score);
      }
    }
  }

  // ---- how many a call returns ----------------------------------------------------------------

  /** In a call for `count` probes that began with `had`: what is still wanted and what was got make up the number. */
  ghost predicate OnTheWay(k: Consumer, had: nat, count: nat) {
    match k.pc
    case Idle => |k.got| <= had + count
    case Ranging(want) => want + |k.got| == had + count
    case Popping(want, keys) => want + |k.got| == had + count && |keys| <= want
    case Sifting(want) => want + |k.got| == had + count && |k.hand| <= want
  }

  lemma {:induction false} PresentIsShort(keys: seq<nat>, items: map<nat, Item>)
    ensures |Present(keys, items)| <= |keys|
  {
    if keys != [] {
      PresentIsShort(keys[..|keys| - 1], items);
    }
  }

  lemma StepOnTheWay(s: System, e: Event, c: nat, had: nat, count: nat, score: Rounding)
    requires OnTheWay(ConsumerOf(s, c), had, count) && !(e.PopMany? && e.c == c)
    ensures OnTheWay(ConsumerOf(Step(s, e, score), c), had, count)
  {
    hide Pop, Sift, ProbeProtocol.Add, Range;
    if e.Move? {
      match ConsumerOf(s, e.c).pc
      case Popping(_, _) => PopOnTheWay(s, e.c, c, had, count);
      case Sifting(_) => SiftOnTheWay(s, e.c, c, had, count);
      case _ =>
    } else if e.Enqueue? {
      AddTouchesNobody(s, e.id, e.order, score);
    }
  }

  lemma AddTouchesNobody(s: System, id: nat, o: Order, score: Rounding)
    ensures ProbeProtocol.Add(s, id, o, score).consumers == s.consumers
  {
  }

  lemma PopOnTheWay(s: System, d: nat, c: nat, had: nat, count: nat)
    requires OnTheWay(ConsumerOf(s, c), had, count) && ConsumerOf(s, d).pc.Popping?
    ensures OnTheWay(ConsumerOf(Pop(s, d), c), had, count)
  {
    PresentIsShort(ConsumerOf(s, d).pc.keys, s.items);
    hide Present, Strip;
  }

  lemma SiftOnTheWay(s: System, d: nat, c: nat, had: nat, count: nat)
    requires OnTheWay(ConsumerOf(s, c), had, count) && ConsumerOf(s, d).pc.Sifting?
    ensures OnTheWay(ConsumerOf(Sift(s, d), c), had, count)
  {
    hide Expired;
  }

  /** However others interfere, a call never returns more probes than it was asked for. */
  lemma {:induction false} NeverTooMany(s: System, c: nat, count: nat, events: seq<Event>, score: Rounding)
    requires ConsumerOf(s, c).pc.Idle?
    requires forall i :: 0 <= i < |events| ==> !(events[i].PopMany? && events[i].c == c)
    ensures var t := Run(Step(s, Event.PopMany(c, count), score), events, score);
            && OnTheWay(ConsumerOf(t, c), |Given(s, c)|, count)
            && |Given(t, c)| <= |Given(s, c)| + count
    decreases |events|
  {
    hide Step;
    if events == [] {
      CallBegins(s, c, count, score);
    } else {
      var front := events[..|events| - 1];
      NeverTooMany(s, c, count, front, score);
      var v := Run(Step(s, Event.PopMany(c, count), score), front, score);
      StepOnTheWay(v, events[|events| - 1], c, |Given(s, c)|, count, score);
    }
  }

  lemma CallBegins(s: System, c: nat, count: nat, score: Rounding)
    requires ConsumerOf(s, c).pc.Idle?
    ensures OnTheWay(ConsumerOf(Step(s, Event.PopMany(c, count), score), c), |Given(s, c)|, count)
  {
  }
}
