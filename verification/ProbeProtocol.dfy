/**
 * Many consumers popping from one queue. The range read and the pop transaction are separate
 * commands, so between them other consumers may take the same keys.
 */
module ProbeProtocol {
  import opened Entities
  import opened Store
  import opened Probes

  /** Where an item is. Every item that was ever enqueued is in exactly one place. */
  datatype Place = Waiting | InHand(c: nat) | Delivered(c: nat) | Dropped(c: nat)

  /** What a consumer does next; `want` counts the probes still missing. */
  datatype Pc =
    | Idle
    | Ranging(want: nat)                    // ZRANGE
    | Popping(want: nat, keys: seq<nat>)    // MULTI ZREM HMGET HDEL EXEC
    | Sifting(want: nat)                    // drop what has expired, keep the rest

  /** An item with its id. */
  datatype Tagged = Tagged(id: nat, item: Item)

  /** `hand` holds popped items not looked at yet, `got` and `probes` what was kept. */
  datatype Consumer = Consumer(pc: Pc, hand: seq<Tagged>, got: seq<nat>, probes: seq<Probe>, expired: nat)

  const RESTING := Consumer(Idle, [], [], [], 0)

  /** `known` and `place` are the bookkeeping of the proof: all items ever enqueued, and where each is now. */
  datatype System = System(
    queue: seq<Slot>, items: map<nat, Item>, clock: Nanos, consumers: map<nat, Consumer>,
    known: map<nat, Ticket>, place: map<nat, Place>)

  /** What was enqueued under an id. */
  datatype Ticket = Ticket(item: Item, score: int)

  datatype Event =
    | Enqueue(id: nat, order: Order)
    | PopMany(c: nat, count: nat)
    | Move(c: nat)
    | Tick(d: nat)

  function Init(clock: Nanos): System {
    System([], map[], clock, map[], map[], map[])
  }

  function ConsumerOf(s: System, c: nat): Consumer {
    if c in s.consumers then s.consumers[c] else RESTING
  }

  function With(s: System, c: nat, k: Consumer): System {
    s.(consumers := s.consumers[c := k])
  }

  /** Ids are never used twice. */
  function Add(s: System, id: nat, o: Order, score: Rounding): System {
    if id in s.known || o.Pointless() then s
    else
      var content := Enqueued(Content(s.queue, s.items), id, o, s.clock, score);
      s.(queue := content.queue, items := content.items,
         known := s.known[id := Ticket(Item(o.probe, o.before), score(o.ReadyAt(s.clock)))],
         place := s.place[id := Waiting])
  }

  /** HMGET skips the keys that are gone. */
  function Present(keys: seq<nat>, items: map<nat, Item>): seq<Tagged> {
    if keys == [] then []
    else
      var id := keys[|keys| - 1];
      var front := Present(keys[..|keys| - 1], items);
      if id in items then front + [Tagged(id, items[id])] else front
  }

  /** The pop transaction. When every key is gone the consumer takes the queue for empty and stops. */
  function Pop(s: System, c: nat): System
    requires ConsumerOf(s, c).pc.Popping?
  {
    var k := ConsumerOf(s, c);
    var keys := k.pc.keys;
    var gone := set i | 0 <= i < |keys| :: keys[i];
    var popped := Present(keys, s.items);
    var t := s.(queue := Strip(s.queue, gone), items := s.items - gone,
                place := map id | id in s.place :: if id in gone && id in s.items then InHand(c) else s.place[id]);
    With(t, c, k.(pc := if popped == [] then Idle else Sifting(k.pc.want), hand := popped))
  }

  /** The first popped item is kept if it has not expired. */
  function Sift(s: System, c: nat): System
    requires ConsumerOf(s, c).pc.Sifting?
  {
    var k := ConsumerOf(s, c);
    if k.hand == [] then With(s, c, k.(pc := if k.pc.want == 0 then Idle else Ranging(k.pc.want)))
    else
      var head := k.hand[0];
      if Expired(head.item, s.clock) then
        With(s.(place := s.place[head.id := Dropped(c)]), c, k.(hand := k.hand[1..], expired := k.expired + 1))
      else
        var want := if k.pc.want > 0 then k.pc.want - 1 else 0;
        With(s.(place := s.place[head.id := Delivered(c)]), c,
             k.(pc := Sifting(want), hand := k.hand[1..], got := k.got + [head.id],
                probes := k.probes + [head.item.probe]))
  }

  function Advance(s: System, c: nat, score: Rounding): System {
    var k := ConsumerOf(s, c);
    match k.pc
    case Idle => s
    case Ranging(want) =>
      var keys := Range(s.queue, score(s.clock), want);
      With(s, c, k.(pc := if keys == [] then Idle else Popping(want, keys)))
    case Popping(_, _) => Pop(s, c)
    case Sifting(_) => Sift(s, c)
  }

  function Step(s: System, e: Event, score: Rounding): System {
    match e
    case Enqueue(id, o) => Add(s, id, o, score)
    case PopMany(c, count) =>
      if ConsumerOf(s, c).pc.Idle? && count > 0 then With(s, c, ConsumerOf(s, c).(pc := Ranging(count))) else s
    case Move(c) => Advance(s, c, score)
    case Tick(d) => s.(clock := s.clock + d)
  }

  function Run(s: System, events: seq<Event>, score: Rounding): System {
    if events == [] then s else Step(Run(s, events[..|events| - 1], score), events[|events| - 1], score)
  }

  // ---- the invariant -----------------------------------------------------------------

  ghost predicate Distinct(ids: seq<nat>) {
    forall i, j :: 0 <= i < j < |ids| ==> ids[i] != ids[j]
  }

  ghost predicate DistinctTags(hand: seq<Tagged>) {
    forall i, j :: 0 <= i < j < |hand| ==> hand[i].id != hand[j].id
  }

  /** The queue lists exactly the stored items, as they were enqueued. */
  ghost predicate QueueOk(queue: seq<Slot>, items: map<nat, Item>, known: map<nat, Ticket>) {
    && Ordered(queue)
    && (forall slot :: slot in queue ==> slot.id in items && slot.id in known && known[slot.id].score == slot.score)
    && (forall id :: id in items ==> id in known && Slot(known[id].score, id) in queue && items[id] == known[id].item)
  }

  /** The stored items are the waiting ones. */
  ghost predicate WaitingOk(items: map<nat, Item>, place: map<nat, Place>) {
    forall id :: id in items <==> id in place && place[id] == Waiting
  }

  /** What a consumer has popped and not yet looked at is in its hand, each item once. */
  ghost predicate HandOk(place: map<nat, Place>, known: map<nat, Ticket>, c: nat, hand: seq<Tagged>) {
    && DistinctTags(hand)
    && (forall t :: t in hand ==>
         t.id in place && place[t.id] == InHand(c) && t.id in known && t.item == known[t.id].item)
  }

  /** What a consumer was given was delivered to it, each item once and as it was enqueued. */
  ghost predicate GotOk(place: map<nat, Place>, known: map<nat, Ticket>, c: nat, got: seq<nat>, probes: seq<Probe>) {
    && Distinct(got) && |probes| == |got|
    && (forall i :: 0 <= i < |got| ==> got[i] in place && place[got[i]] == Delivered(c))
    && (forall i :: 0 <= i < |got| ==> got[i] in known && probes[i] == known[got[i]].item.probe)
  }

  /** The keys a consumer is about to pop are distinct and ready. */
  ghost predicate KeysOk(known: map<nat, Ticket>, keys: seq<nat>, limit: int) {
    && Distinct(keys)
    && (forall i :: 0 <= i < |keys| ==> keys[i] in known && known[keys[i]].score <= limit)
  }

  ghost predicate HoldsOk(place: map<nat, Place>, known: map<nat, Ticket>, limit: int, c: nat, k: Consumer) {
    && HandOk(place, known, c, k.hand)
    && GotOk(place, known, c, k.got, k.probes)
    && (k.pc.Popping? ==> KeysOk(known, k.pc.keys, limit))
    && (!k.pc.Sifting? ==> k.hand == [])
  }

  ghost predicate AllHold(s: System, score: Rounding) {
    forall c :: c in s.consumers ==> HoldsOk(s.place, s.known, score(s.clock), c, s.consumers[c])
  }

  /**
   * Nothing is placed with a consumer that does not have it, nothing was dropped before it
   * expired, and nothing left the queue before it was ready.
   */
  ghost predicate PlaceOk(id: nat, p: Place, ticket: Ticket, consumers: map<nat, Consumer>, now: Nanos,
          score: Rounding) {
    && (!p.Waiting? ==> ticket.score <= score(now))
    && match p
       case Waiting => true
       case InHand(c) => c in consumers && Tagged(id, ticket.item) in consumers[c].hand
       case Delivered(c) => c in consumers && id in consumers[c].got
       case Dropped(c) => Expired(ticket.item, now)
  }

  ghost predicate PlacesOk(s: System, score: Rounding) {
    forall id :: id in s.place ==> id in s.known && PlaceOk(id, s.place[id], s.known[id], s.consumers, s.clock, score)
  }

  ghost predicate Inv(s: System, score: Rounding) {
    && QueueOk(s.queue, s.items, s.known)
    && WaitingOk(s.items, s.place)
    && s.known.Keys == s.place.Keys
    && AllHold(s, score)
    && PlacesOk(s, score)
  }

  lemma ConsumerHolds(s: System, c: nat, score: Rounding)
    requires AllHold(s, score)
    ensures HoldsOk(s.place, s.known, score(s.clock), c, ConsumerOf(s, c))
  {
  }

  // ---- enqueueing and time -------------------------------------------------------------

  lemma AddKeepsQueue(s: System, id: nat, item: Item, at: int)
    requires QueueOk(s.queue, s.items, s.known) && id !in s.known
    ensures QueueOk(Insert(s.queue, Slot(at, id)), s.items[id := item], s.known[id := Ticket(item, at)])
  {
    forall i | 0 <= i < |s.queue| ensures s.queue[i].id != id {
      assert s.queue[i] in s.queue;
    }
    InsertKeepsOrder(s.queue, Slot(at, id));
    hide Insert, Ordered;
  }

  lemma AddKeeps(s: System, id: nat, o: Order, score: Rounding)
    requires Inv(s, score)
    ensures Inv(Add(s, id, o, score), score)
  {
    hide QueueOk, Insert, Expired, HoldsOk;
    var t := Add(s, id, o, score);
    if t != s {
      AddKeepsQueue(s, id, Item(o.probe, o.before), score(o.ReadyAt(s.clock)));
      forall c | c in s.consumers ensures HoldsOk(t.place, t.known, score(t.clock), c, s.consumers[c]) {
        HoldsExtends(s.place, s.known, t.place, t.known, score(s.clock), c, s.consumers[c]);
      }
    }
  }

  /** What a consumer holds does not depend on items added later. */
  lemma HoldsExtends(place: map<nat, Place>, known: map<nat, Ticket>, place': map<nat, Place>, known': map<nat, Ticket>,
                     limit: int, c: nat, k: Consumer)
    requires HoldsOk(place, known, limit, c, k)
    requires forall id :: id in place ==> id in place' && place'[id] == place[id]
    requires forall id :: id in known ==> id in known' && known'[id] == known[id]
    ensures HoldsOk(place', known', limit, c, k)
  {
  }

  /** The clock only moves forward. */
  lemma TickKeeps(s: System, d: nat, score: Rounding)
    requires Inv(s, score)
    ensures Inv(s.(clock := s.clock + d), score)
  {
    hide QueueOk, HandOk, GotOk;
    assert score(s.clock) <= score(s.clock + d);
  }

  // ---- consumers -----------------------------------------------------------------------

  lemma {:induction false} PresentSound(keys: seq<nat>, items: map<nat, Item>)
    requires Distinct(keys)
    ensures DistinctTags(Present(keys, items))
    ensures forall t :: t in Present(keys, items) <==> t.id in keys && t.id in items && t.item == items[t.id]
  {
    if keys != [] {
      var front := keys[..|keys| - 1];
      PresentSound(front, items);
      assert keys == front + [keys[|keys| - 1]];
      assert keys[|keys| - 1] !in front;
    }
  }

  /** What the pop transaction of consumer `c` changes, for the ids in `gone`. */
  ghost predicate PopRelation(s: System, t: System, c: nat, gone: set<nat>) {
    && t.known == s.known && t.clock == s.clock
    && t.place.Keys == s.place.Keys
    && (forall id :: id in s.place ==> t.place[id] == if id in gone && id in s.items then InHand(c) else s.place[id])
    && t.items == s.items - gone
    && c in t.consumers && t.consumers == s.consumers[c := t.consumers[c]]
    && t.consumers[c] == ConsumerOf(s, c).(pc := t.consumers[c].pc, hand := t.consumers[c].hand)
    && DistinctTags(t.consumers[c].hand)
    && (forall tag :: tag in t.consumers[c].hand <==>
         tag.id in gone && tag.id in s.items && tag.item == s.items[tag.id])
  }

  /** A pop moves exactly the keys that were still waiting into the consumer's hand. */
  lemma PopMoves(s: System, c: nat, score: Rounding)
    requires AllHold(s, score) && ConsumerOf(s, c).pc.Popping?
    ensures var keys := ConsumerOf(s, c).pc.keys;
            var gone := set i | 0 <= i < |keys| :: keys[i];
            PopRelation(s, Pop(s, c), c, gone) && Pop(s, c).queue == Strip(s.queue, gone)
  {
    var keys := ConsumerOf(s, c).pc.keys;
    var gone := set i | 0 <= i < |keys| :: keys[i];
    ConsumerHolds(s, c, score);
    PresentSound(keys, s.items);
    hide Strip, Present, AllHold, HandOk, GotOk;
    assert forall id :: id in gone <==> id in keys;
  }

  lemma PopKeepsQueue(queue: seq<Slot>, items: map<nat, Item>, known: map<nat, Ticket>, gone: set<nat>)
    requires QueueOk(queue, items, known)
    ensures QueueOk(Strip(queue, gone), items - gone, known)
  {
    StripKeepsOrder(queue, gone);
    hide Strip, Ordered;
  }

  lemma PopKeepsHolds(s: System, t: System, c: nat, gone: set<nat>, score: Rounding)
    requires QueueOk(s.queue, s.items, s.known) && WaitingOk(s.items, s.place) && s.known.Keys == s.place.Keys
    requires AllHold(s, score) && PopRelation(s, t, c, gone)
    requires (t.consumers[c].pc == Idle && t.consumers[c].hand == []) || t.consumers[c].pc.Sifting?
    ensures AllHold(t, score)
  {
    hide Ordered;
    forall d | d in t.consumers ensures HoldsOk(t.place, t.known, score(t.clock), d, t.consumers[d]) {
      ConsumerHolds(s, d, score);
      hide AllHold, KeysOk, DistinctTags, Distinct;
    }
  }

  lemma PopKeepsPlaces(s: System, t: System, c: nat, gone: set<nat>, score: Rounding)
    requires QueueOk(s.queue, s.items, s.known) && WaitingOk(s.items, s.place) && s.known.Keys == s.place.Keys
    requires PlacesOk(s, score) && PopRelation(s, t, c, gone)
    requires ConsumerOf(s, c).hand == []
    requires forall id :: id in gone ==> id in s.known && s.known[id].score <= score(s.clock)
    ensures PlacesOk(t, score)
  {
    hide Ordered, DistinctTags, Expired;
    forall id | id in t.place ensures id in t.known
      && PlaceOk(id, t.place[id], t.known[id], t.consumers, t.clock, score) {
      assert PlaceOk(id, s.place[id], s.known[id], s.consumers, s.clock, score);
      if id in gone && id in s.items {
        assert Tagged(id, s.items[id]) in t.consumers[c].hand;
      }
    }
  }

  lemma PopKeepsWaiting(s: System, t: System, c: nat, gone: set<nat>)
    requires WaitingOk(s.items, s.place) && s.known.Keys == s.place.Keys && PopRelation(s, t, c, gone)
    ensures WaitingOk(t.items, t.place) && t.known.Keys == t.place.Keys
  {
    hide DistinctTags;
  }

  /** The keys being popped were ready when they were read. */
  lemma PoppedAreReady(s: System, c: nat, score: Rounding)
    requires AllHold(s, score) && ConsumerOf(s, c).pc.Popping?
    ensures var keys := ConsumerOf(s, c).pc.keys;
            forall id :: id in (set i | 0 <= i < |keys| :: keys[i]) ==>
              id in s.known && s.known[id].score <= score(s.clock)
    ensures ConsumerOf(s, c).hand == []
  {
    ConsumerHolds(s, c, score);
    hide HandOk, GotOk, AllHold;
  }

  lemma PopKeeps(s: System, c: nat, score: Rounding)
    requires Inv(s, score) && ConsumerOf(s, c).pc.Popping?
    ensures Inv(Pop(s, c), score)
  {
    var keys := ConsumerOf(s, c).pc.keys;
    var gone := set i | 0 <= i < |keys| :: keys[i];
    var t := Pop(s, c);
    assert (t.consumers[c].pc == Idle && t.consumers[c].hand == []) || t.consumers[c].pc.Sifting?;
    hide QueueOk, AllHold, PlacesOk, WaitingOk, Pop, Strip, Range, Expired;
    PopMoves(s, c, score);
    PoppedAreReady(s, c, score);
    PopKeepsQueue(s.queue, s.items, s.known, gone);
    PopKeepsHolds(s, t, c, gone, score);
    PopKeepsPlaces(s, t, c, gone, score);
    PopKeepsWaiting(s, t, c, gone);
  }

  /** A popped item is given to the consumer or dropped. */
  ghost predicate SiftRelation(s: System, t: System, c: nat, id: nat, p: Place) {
    && t.known == s.known && t.clock == s.clock && t.items == s.items && t.queue == s.queue
    && t.place == s.place[id := p]
    && c in t.consumers && t.consumers == s.consumers[c := t.consumers[c]]
    && ConsumerOf(s, c).hand != [] && ConsumerOf(s, c).hand[0].id == id
    && t.consumers[c].hand == ConsumerOf(s, c).hand[1..] && t.consumers[c].pc.Sifting?
    && match p
       case Delivered(d) =>
         && d == c && t.consumers[c].got == ConsumerOf(s, c).got + [id]
         && t.consumers[c].probes == ConsumerOf(s, c).probes + [ConsumerOf(s, c).hand[0].item.probe]
       case Dropped(d) =>
         && d == c && t.consumers[c].got == ConsumerOf(s, c).got && t.consumers[c].probes == ConsumerOf(s, c).probes
         && Expired(ConsumerOf(s, c).hand[0].item, s.clock)
       case _ => false
  }

  lemma SiftKeepsHolds(s: System, t: System, c: nat, id: nat, p: Place, score: Rounding)
    requires AllHold(s, score) && SiftRelation(s, t, c, id, p)
    ensures AllHold(t, score)
  {
    hide Expired;
    ConsumerHolds(s, c, score);
    var hand := ConsumerOf(s, c).hand;
    assert hand[0] in hand;
    forall d | d in t.consumers ensures HoldsOk(t.place, t.known, score(t.clock), d, t.consumers[d]) {
      ConsumerHolds(s, d, score);
      hide AllHold, KeysOk;
    }
  }

  lemma SiftKeepsPlaces(s: System, t: System, c: nat, id: nat, p: Place, score: Rounding)
    requires PlacesOk(s, score) && s.known.Keys == s.place.Keys && SiftRelation(s, t, c, id, p)
    requires HandOk(s.place, s.known, c, ConsumerOf(s, c).hand)
    ensures PlacesOk(t, score) && t.known.Keys == t.place.Keys
    ensures forall other :: other in s.place && s.place[other] == Waiting ==> other != id
  {
    hide Expired, DistinctTags;
    var hand := ConsumerOf(s, c).hand;
    assert hand[0] in hand && hand == [hand[0]] + hand[1..];
    forall other | other in t.place
      ensures other in t.known && PlaceOk(other, t.place[other], t.known[other], t.consumers, t.clock, score)
    {
      assert PlaceOk(other, s.place[other], s.known[other], s.consumers, s.clock, score);
    }
  }

  lemma SiftKeeps(s: System, c: nat, score: Rounding)
    requires Inv(s, score) && ConsumerOf(s, c).pc.Sifting?
    ensures Inv(Sift(s, c), score)
  {
    hide QueueOk, GotOk, Expired, PlaceOk, Range;
    ConsumerHolds(s, c, score);
    var k := ConsumerOf(s, c);
    var t := Sift(s, c);
    if k.hand == [] {
      TurnKeeps(s, t, c, score);
    } else {
      var p := if Expired(k.hand[0].item, s.clock) then Dropped(c) else Delivered(c);
      assert SiftRelation(s, t, c, k.hand[0].id, p);
      hide Sift, AllHold, PlacesOk, HandOk;
      SiftKeepsHolds(s, t, c, k.hand[0].id, p, score);
      SiftKeepsPlaces(s, t, c, k.hand[0].id, p, score);
    }
  }

  /** The range read yields distinct keys of ready items. */
  lemma RangeIsReady(queue: seq<Slot>, items: map<nat, Item>, known: map<nat, Ticket>, limit: int, want: nat)
    requires QueueOk(queue, items, known)
    ensures KeysOk(known, Range(queue, limit, want), limit)
  {
    var keys := Range(queue, limit, want);
    assert forall i :: 0 <= i < |keys| ==> queue[i] in queue && keys[i] == queue[i].id && queue[i].score <= limit;
  }

  lemma RangeKeeps(s: System, c: nat, score: Rounding)
    requires Inv(s, score) && ConsumerOf(s, c).pc.Ranging?
    ensures Inv(Advance(s, c, score), score)
  {
    hide Range, KeysOk, QueueOk, WaitingOk, PlacesOk, HandOk, GotOk;
    var k := ConsumerOf(s, c);
    var t := Advance(s, c, score);
    var keys := Range(s.queue, score(s.clock), k.pc.want);
    ConsumerHolds(s, c, score);
    RangeIsReady(s.queue, s.items, s.known, score(s.clock), k.pc.want);
    assert t == With(s, c, k.(pc := if keys == [] then Idle else Popping(k.pc.want, keys)));
    hide Advance, Inv;
    TurnKeeps(s, t, c, score);
  }

  /** A consumer with an empty hand turns to its next command. */
  lemma TurnKeeps(s: System, t: System, c: nat, score: Rounding)
    requires Inv(s, score) && c in t.consumers && t == With(s, c, t.consumers[c])
    requires ConsumerOf(s, c).hand == [] && t.consumers[c] == ConsumerOf(s, c).(pc := t.consumers[c].pc)
    requires t.consumers[c].pc.Popping? ==> KeysOk(s.known, t.consumers[c].pc.keys, score(s.clock))
    ensures Inv(t, score)
  {
    hide QueueOk, HandOk, GotOk, KeysOk, Expired;
    ConsumerHolds(s, c, score);
    forall id | id in t.place ensures id in t.known
      && PlaceOk(id, t.place[id], t.known[id], t.consumers, t.clock, score) {
      assert PlaceOk(id, s.place[id], s.known[id], s.consumers, s.clock, score);
    }
  }

  lemma MoveKeeps(s: System, c: nat, score: Rounding)
    requires Inv(s, score)
    ensures Inv(Advance(s, c, score), score)
  {
    hide Inv, Range, Pop, Sift;
    match ConsumerOf(s, c).pc
    case Idle =>
    case Ranging(_) => RangeKeeps(s, c, score);
    case Popping(_, _) => PopKeeps(s, c, score);
    case Sifting(_) => SiftKeeps(s, c, score);
  }

  lemma PopManyKeeps(s: System, c: nat, count: nat, score: Rounding)
    requires Inv(s, score)
    ensures Inv(Step(s, PopMany(c, count), score), score)
  {
    ConsumerHolds(s, c, score);
    if ConsumerOf(s, c).pc.Idle? && count > 0 {
      var t := Step(s, PopMany(c, count), score);
      assert t == With(s, c, t.consumers[c]);
      hide Inv, HoldsOk;
      assert ConsumerOf(s, c).hand == [];
      TurnKeeps(s, t, c, score);
    }
  }

  lemma StepKeeps(s: System, e: Event, score: Rounding)
    requires Inv(s, score)
    ensures Inv(Step(s, e, score), score)
  {
    hide Inv, Add, Advance;
    match e
    case Enqueue(id, o) => AddKeeps(s, id, o, score);
    case PopMany(c, count) => PopManyKeeps(s, c, count, score);
    case Move(c) => MoveKeeps(s, c, score);
    case Tick(d) => TickKeeps(s, d, score);
  }

  lemma InitOk(start: Nanos, score: Rounding)
    ensures Inv(Init(start), score)
  {
  }

  /** The invariant holds in every state of every run. */
  lemma {:induction false} RunKeeps(start: Nanos, events: seq<Event>, score: Rounding)
    ensures Inv(Run(Init(start), events, score), score)
    decreases |events|
  {
    hide Inv, Step;
    if events == [] {
      InitOk(start, score);
    } else {
      RunKeeps(start, events[..|events| - 1], score);
      StepKeeps(Run(Init(start), events[..|events| - 1], score), events[|events| - 1], score);
    }
  }

  // ---- what that means -----------------------------------------------------------------

  /** The ids that a consumer has been given, over all its calls. */
  function Given(s: System, c: nat): seq<nat> {
    ConsumerOf(s, c).got
  }

  /**
   * Every probe is delivered to at most one consumer, at most once, as it was enqueued, and not
   * before it was ready.
   */
  lemma DeliveredAtMostOnce(start: Nanos, events: seq<Event>, score: Rounding, c: nat, i: nat, d: nat, j: nat)
    requires var s := Run(Init(start), events, score);
             i < |Given(s, c)| && j < |Given(s, d)| && Given(s, c)[i] == Given(s, d)[j]
    ensures c == d && i == j
    ensures var s := Run(Init(start), events, score);
            var id := Given(s, c)[i];
            && id in s.known && i < |ConsumerOf(s, c).probes| && ConsumerOf(s, c).probes[i] == s.known[id].item.probe
            && s.known[id].score <= score(s.clock)
  {
    hide Run, QueueOk;
    RunKeeps(start, events, score);
    var s := Run(Init(start), events, score);
    ConsumerHolds(s, c, score);
    ConsumerHolds(s, d, score);
    hide AllHold, HandOk, KeysOk;
    assert PlaceOk(Given(s, c)[i], Delivered(c), s.known[Given(s, c)[i]], s.consumers, s.clock, score);
  }

  /** The item is in the hand of the consumer. */
  ghost predicate Holding(s: System, c: nat, id: nat) {
    exists t :: t in ConsumerOf(s, c).hand && t.id == id
  }

  /**
   * Nothing is lost, invented or duplicated: at every moment each item ever enqueued is in one
   * place, and it is waiting in the queue, in the hand of a consumer or delivered to one exactly
   * if that is its place. Otherwise a consumer dropped it after it had expired. The queue and the
   * item store list the same ids.
   */
  lemma ItemsAreConserved(start: Nanos, events: seq<Event>, score: Rounding, id: nat, c: nat)
    ensures var s := Run(Init(start), events, score);
            && s.items.Keys == Ids(s.queue)
            && s.known.Keys == s.place.Keys
            && (id in s.items <==> id in s.place && s.place[id] == Waiting)
            && (Holding(s, c, id) <==> id in s.place && s.place[id] == InHand(c))
            && (id in Given(s, c) <==> id in s.place && s.place[id] == Delivered(c))
            && (id in s.place && s.place[id].Dropped? ==> Expired(s.known[id].item, s.clock))
            && (id in s.items ==> s.items[id] == s.known[id].item)
  {
    hide Run, Ordered;
    RunKeeps(start, events, score);
    var s := Run(Init(start), events, score);
    QueueListsItems(s);
    ConsumerHolds(s, c, score);
    hide AllHold;
    if id in s.known {
      assert PlaceOk(id, s.place[id], s.known[id], s.consumers, s.clock, score);
      if s.place[id] == InHand(c) {
        assert Tagged(id, s.known[id].item) in ConsumerOf(s, c).hand;
      }
    }
  }

  /** The items that a consumer dropped. */
  ghost function DroppedBy(place: map<nat, Place>, c: nat): set<nat> {
    set id | id in place && place[id] == Dropped(c)
  }

  /** The number that PopMany reports as expired is the number of items it dropped. */
  lemma {:induction false} DropsAreCounted(start: Nanos, events: seq<Event>, score: Rounding, c: nat)
    ensures var s := Run(Init(start), events, score);
            ConsumerOf(s, c).expired == |DroppedBy(s.place, c)|
    decreases |events|
  {
    hide Inv, Step;
    if events == [] {
      assert DroppedBy(Init(start).place, c) == {};
    } else {
      RunKeeps(start, events[..|events| - 1], score);
      DropsAreCounted(start, events[..|events| - 1], score, c);
      StepCounts(Run(Init(start), events[..|events| - 1], score), events[|events| - 1], score, c);
    }
  }

  lemma StepCounts(s: System, e: Event, score: Rounding, c: nat)
    requires Inv(s, score) && ConsumerOf(s, c).expired == |DroppedBy(s.place, c)|
    ensures ConsumerOf(Step(s, e, score), c).expired == |DroppedBy(Step(s, e, score).place, c)|
  {
    hide AllHold, QueueOk, PlacesOk, WaitingOk, Expired, Enqueued, Range, Pop, Sift;
    if e.Move? && ConsumerOf(s, e.c).pc.Popping? {
      PopCounts(s, e.c, c, score);
    } else if e.Move? && ConsumerOf(s, e.c).pc.Sifting? {
      SiftCounts(s, e.c, c, score);
    } else {
      assert DroppedBy(Step(s, e, score).place, c) == DroppedBy(s.place, c);
    }
  }

  lemma PopCounts(s: System, d: nat, c: nat, score: Rounding)
    requires Inv(s, score) && ConsumerOf(s, d).pc.Popping? && ConsumerOf(s, c).expired == |DroppedBy(s.place, c)|
    ensures ConsumerOf(Pop(s, d), c).expired == |DroppedBy(Pop(s, d).place, c)|
  {
    hide AllHold, QueueOk, PlacesOk, Strip, Present;
    PopMoves(s, d, score);
    hide Pop;
    PopDropsNothing(s, Pop(s, d), d, c);
  }

  lemma PopDropsNothing(s: System, t: System, d: nat, c: nat)
    requires WaitingOk(s.items, s.place)
    requires exists gone :: PopRelation(s, t, d, gone)
    ensures DroppedBy(t.place, c) == DroppedBy(s.place, c)
  {
    hide DistinctTags;
  }

  lemma SiftCounts(s: System, d: nat, c: nat, score: Rounding)
    requires Inv(s, score) && ConsumerOf(s, d).pc.Sifting? && ConsumerOf(s, c).expired == |DroppedBy(s.place, c)|
    ensures ConsumerOf(Sift(s, d), c).expired == |DroppedBy(Sift(s, d).place, c)|
  {
    hide QueueOk, PlacesOk, Expired;
    ConsumerHolds(s, d, score);
    hide AllHold, GotOk;
    var t := Sift(s, d);
    if ConsumerOf(s, d).hand != [] {
      var head := ConsumerOf(s, d).hand[0];
      assert s.place[head.id] == InHand(d);
      if c == d && t.place[head.id] == Dropped(d) {
        assert DroppedBy(t.place, c) == DroppedBy(s.place, c) + {head.id};
      } else {
        assert DroppedBy(t.place, c) == DroppedBy(s.place, c);
      }
    }
  }

  // ---- calls that return less than they were asked for -------------------------------------

  /** The call ends with this step although probes are still wanted. */
  predicate EndsShort(s: System, c: nat, score: Rounding) {
    && !ConsumerOf(s, c).pc.Idle? && ConsumerOf(Advance(s, c, score), c).pc.Idle?
    && match ConsumerOf(s, c).pc
       case Ranging(want) => want > 0
       case Popping(want, _) => want > 0
       case Sifting(want) => want > 0
       case Idle => false
  }

  /** A key that is no longer waiting is with a consumer, or was dropped by one. */
  ghost predicate TakenByOther(s: System, id: nat, c: nat) {
    && id in s.place
    && match s.place[id]
       case Waiting => false
       case InHand(d) => d != c
       case Delivered(d) => d != c
       case Dropped(d) => d != c
  }

  /** The keys a consumer has read and not popped yet are not its own: they wait, or others have them. */
  ghost predicate KeysElsewhere(s: System, c: nat) {
    ConsumerOf(s, c).pc.Popping? ==>
      && ConsumerOf(s, c).pc.want > 0 && ConsumerOf(s, c).pc.keys != []
      && forall id :: id in ConsumerOf(s, c).pc.keys ==>
           (id in s.place && s.place[id] == Waiting) || TakenByOther(s, id, c)
  }

  /** A consumer only reads the queue while it wants something. */
  ghost predicate Wanting(s: System, c: nat) {
    ConsumerOf(s, c).pc.Ranging? ==> ConsumerOf(s, c).pc.want > 0
  }

  lemma AdvanceKeepsKeys(s: System, d: nat, c: nat, score: Rounding)
    requires Inv(s, score) && KeysElsewhere(s, c) && Wanting(s, c)
    ensures KeysElsewhere(Advance(s, d, score), c)
  {
    hide Expired, Strip, Present, GotOk, PlacesOk, Enqueued;
    ConsumerHolds(s, d, score);
    hide AllHold;
    if ConsumerOf(s, d).pc.Ranging? && c == d {
      var keys := Range(s.queue, score(s.clock), ConsumerOf(s, c).pc.want);
      forall id | id in keys ensures id in s.items {
        var i :| 0 <= i < |keys| && keys[i] == id;
        assert s.queue[i] in s.queue;
      }
    } else if ConsumerOf(s, d).pc.Sifting? && ConsumerOf(s, d).hand != [] {
      assert ConsumerOf(s, d).hand[0] in ConsumerOf(s, d).hand;
    }
  }

  lemma {:induction false} KeysAreElsewhere(start: Nanos, events: seq<Event>, score: Rounding, c: nat)
    ensures KeysElsewhere(Run(Init(start), events, score), c) && Wanting(Run(Init(start), events, score), c)
    decreases |events|
  {
    hide Inv, Step;
    if events != [] {
      var s := Run(Init(start), events[..|events| - 1], score);
      RunKeeps(start, events[..|events| - 1], score);
      KeysAreElsewhere(start, events[..|events| - 1], score, c);
      StepKeepsKeys(s, events[|events| - 1], c, score);
    }
  }

  /** A new call, a new item or the passing of time takes nothing from the queue. */
  lemma OtherKeepsKeys(s: System, e: Event, c: nat, score: Rounding)
    requires s.known.Keys == s.place.Keys && KeysElsewhere(s, c) && Wanting(s, c) && !e.Move?
    ensures KeysElsewhere(Step(s, e, score), c) && Wanting(Step(s, e, score), c)
  {
    hide Enqueued, Advance;
  }

  lemma MoveKeepsWanting(s: System, d: nat, c: nat, score: Rounding)
    requires Wanting(s, c)
    ensures Wanting(Advance(s, d, score), c)
  {
    hide Range, Strip, Present, Expired;
  }

  lemma StepKeepsKeys(s: System, e: Event, c: nat, score: Rounding)
    requires Inv(s, score) && KeysElsewhere(s, c) && Wanting(s, c)
    ensures KeysElsewhere(Step(s, e, score), c) && Wanting(Step(s, e, score), c)
  {
    hide KeysElsewhere, AllHold, QueueOk, PlacesOk, WaitingOk, Advance;
    if e.Move? {
      AdvanceKeepsKeys(s, e.c, c, score);
      MoveKeepsWanting(s, e.c, c, score);
    } else {
      OtherKeepsKeys(s, e, c, score);
    }
  }

  /**
   * In every run a call returns less than it was asked for exactly if at its range read no probe was
   * ready, or if every key it had read was taken by other consumers before it could pop.
   */
  lemma EndsShortIff(start: Nanos, events: seq<Event>, score: Rounding, c: nat)
    ensures var s := Run(Init(start), events, score);
            EndsShort(s, c, score) <==>
              match ConsumerOf(s, c).pc
              case Ranging(_) => Ready(s.queue, score(s.clock)) == 0
              case Popping(_, keys) => forall id :: id in keys ==> TakenByOther(s, id, c)
              case _ => false
  {
    hide Run;
    RunKeeps(start, events, score);
    KeysAreElsewhere(start, events, score, c);
    var s := Run(Init(start), events, score);
    ConsumerHolds(s, c, score);
    hide AllHold, PlacesOk, QueueOk, GotOk, Expired, Strip, Ready;
    if ConsumerOf(s, c).pc.Popping? {
      PresentSound(ConsumerOf(s, c).pc.keys, s.items);
      NothingPresent(ConsumerOf(s, c).pc.keys, s.items);
      hide Present;
    }
  }

  lemma NothingPresent(keys: seq<nat>, items: map<nat, Item>)
    requires Distinct(keys)
    ensures Present(keys, items) == [] <==> forall id :: id in keys ==> id !in items
  {
    PresentSound(keys, items);
    if Present(keys, items) != [] {
      assert Present(keys, items)[0] in Present(keys, items);
    }
    forall id | id in keys && id in items ensures Tagged(id, items[id]) in Present(keys, items) {
    }
  }

  lemma QueueListsItems(s: System)
    requires QueueOk(s.queue, s.items, s.known)
    ensures s.items.Keys == Ids(s.queue)
  {
    hide Ordered;
    forall id ensures id in s.items <==> id in Ids(s.queue) {
      if id in s.items {
        var i :| 0 <= i < |s.queue| && s.queue[i] == Slot(s.known[id].score, id);
        assert s.queue[i].id == id;
      }
      if id in Ids(s.queue) {
        var i :| 0 <= i < |s.queue| && s.queue[i].id == id;
        assert s.queue[i] in s.queue;
      }
    }
  }
}
