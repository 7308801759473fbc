/** What the orders of a use case do to the probe queue. */
module Orders {
  import opened Entities
  import opened Store
  import opened Probes

  // ---- the queue after some orders -----------------------------------------------------

  /** Between the two contents exactly these orders were enqueued, each under an id not in use. */
  ghost predicate Placed(c: Content, c': Content, orders: seq<Order>, now: Nanos, score: Rounding) {
    exists ids: seq<nat> :: |ids| == |orders| && IdsInTurn(c, ids, orders, now, score)
                            && c' == EnqueuedAll(c, ids, orders, now, score)
  }

  /** Each id was unused when its turn came. */
  ghost predicate IdsInTurn(c: Content, ids: seq<nat>, orders: seq<Order>, now: Nanos, score: Rounding)
    requires |ids| == |orders|
  {
    forall i :: 0 <= i < |ids| ==> ids[i] !in EnqueuedAll(c, ids[..i], orders[..i], now, score).items
  }

  lemma PlacedNone(c: Content, now: Nanos, score: Rounding)
    ensures Placed(c, c, [], now, score)
  {
    var ids: seq<nat> := [];
    assert IdsInTurn(c, ids, [], now, score) && c == EnqueuedAll(c, ids, [], now, score);
  }

  lemma OneMoreInTurn(c: Content, ids: seq<nat>, orders: seq<Order>, id: nat, o: Order, now: Nanos, score: Rounding)
    requires |ids| == |orders| && IdsInTurn(c, ids, orders, now, score)
    requires id !in EnqueuedAll(c, ids, orders, now, score).items
    ensures IdsInTurn(c, ids + [id], orders + [o], now, score)
  {
    hide EnqueuedAll;
    var more, all := ids + [id], orders + [o];
    assert more[..|ids|] == ids && all[..|ids|] == orders;
    forall i | 0 <= i < |ids| ensures more[i] !in EnqueuedAll(c, more[..i], all[..i], now, score).items {
      assert more[..i] == ids[..i] && all[..i] == orders[..i];
    }
  }

  lemma EnqueuedOneMore(c: Content, ids: seq<nat>, orders: seq<Order>, id: nat, o: Order, now: Nanos, score: Rounding)
    requires |ids| == |orders|
    ensures EnqueuedAll(c, ids + [id], orders + [o], now, score) ==
      Enqueued(EnqueuedAll(c, ids, orders, now, score), id, o, now, score)
  {
    hide Enqueued;
    assert (ids + [id])[..|ids|] == ids && (orders + [o])[..|ids|] == orders;
  }

  lemma PlacedThen(c: Content, c': Content, orders: seq<Order>, id: nat, o: Order, now: Nanos, score: Rounding)
    requires Placed(c, c', orders, now, score) && id !in c'.items
    ensures Placed(c, Enqueued(c', id, o, now, score), orders + [o], now, score)
  {
    hide Enqueued, EnqueuedAll, IdsInTurn;
    var ids: seq<nat> :| |ids| == |orders| && IdsInTurn(c, ids, orders, now, score)
                         && c' == EnqueuedAll(c, ids, orders, now, score);
    OneMoreInTurn(c, ids, orders, id, o, now, score);
    EnqueuedOneMore(c, ids, orders, id, o, now, score);
    assert |ids + [id]| == |orders + [o]|;
  }

  lemma PlacedOne(c: Content, id: nat, o: Order, now: Nanos, score: Rounding)
    requires id !in c.items
    ensures Placed(c, Enqueued(c, id, o, now, score), [o], now, score)
  {
    PlacedNone(c, now, score);
    PlacedThen(c, c, [], id, o, now, score);
    assert [] + [o] == [o];
  }

  // ---- what the orders put into the queue ------------------------------------------------

  /** An order that would expire before it is ready puts nothing into the queue. */
  predicate Worthwhile(o: Order) {
    o.after.Some? && o.before.Some? ==> o.after.value < o.before.value
  }

  /** The queue lists the stored items. */
  ghost predicate Listed(c: Content) {
    Ordered(c.queue) && c.items.Keys == Ids(c.queue)
  }

  /** Each of these ids is new, and no two are the same. */
  ghost predicate NewIds(c: Content, ids: seq<Option<nat>>) {
    && (forall i :: 0 <= i < |ids| && ids[i].Some? ==> ids[i].value !in c.items)
    && forall i, j :: 0 <= i < j < |ids| && ids[i].Some? ==> ids[i] != ids[j]
  }

  /**
   * Each of these items was added at its score under a new id of its own, if it has one, and nothing
   * else has changed.
   */
  ghost predicate Added(c: Content, c': Content, ids: seq<Option<nat>>, items: seq<Item>, scores: seq<int>) {
    && |ids| == |items| == |scores| && NewIds(c, ids)
    && (forall id :: id in c'.items <==> id in c.items || Some(id) in ids)
    && (forall id :: id in c.items ==> c'.items[id] == c.items[id])
    && (forall i :: 0 <= i < |ids| && ids[i].Some? ==> c'.items[ids[i].value] == items[i])
    && forall slot :: slot in c'.queue <==> slot in c.queue || AddedSlot(slot, ids, scores)
  }

  ghost predicate AddedSlot(slot: Slot, ids: seq<Option<nat>>, scores: seq<int>)
    requires |ids| == |scores|
  {
    exists i :: 0 <= i < |ids| && ids[i] == Some(slot.id) && slot.score == scores[i]
  }

  ghost function ItemsOf(orders: seq<Order>): (items: seq<Item>)
    ensures |items| == |orders|
    ensures forall i :: 0 <= i < |items| ==> items[i] == Item(orders[i].probe, orders[i].before)
  {
    seq(|orders|, i requires 0 <= i < |orders| => Item(orders[i].probe, orders[i].before))
  }

  ghost function ScoresOf(orders: seq<Order>, now: Nanos, score: Rounding): (scores: seq<int>)
    ensures |scores| == |orders|
    ensures forall i :: 0 <= i < |scores| ==>
      scores[i] == score(if orders[i].after.Some? then orders[i].after.value else now)
  {
    seq(|orders|, i requires 0 <= i < |orders| =>
      score(if orders[i].after.Some? then orders[i].after.value else now))
  }

  lemma AddedNothing(c: Content)
    ensures Added(c, c, [], [], [])
  {
  }

  /** Adding one more item. */
  lemma AddedThen(c: Content, mid: Content, c': Content, ids: seq<Option<nat>>, items: seq<Item>, scores: seq<int>,
                  id: nat, item: Item, at: int)
    requires Added(c, mid, ids, items, scores) && id !in mid.items
    requires c'.items == mid.items[id := item]
    requires forall slot :: slot in c'.queue <==> slot in mid.queue || slot == Slot(at, id)
    ensures Added(c, c', ids + [Some(id)], items + [item], scores + [at])
  {
    var ids' := ids + [Some(id)];
    assert Some(id) !in ids;
    assert forall i :: 0 <= i < |ids| ==> ids'[i] == ids[i];
    forall slot ensures AddedSlot(slot, ids', scores + [at]) <==> AddedSlot(slot, ids, scores) || slot == Slot(at, id) {
      if AddedSlot(slot, ids, scores) {
        var i :| 0 <= i < |ids| && ids[i] == Some(slot.id) && slot.score == scores[i];
        assert ids'[i] == Some(slot.id) && slot.score == (scores + [at])[i];
      }
      if slot == Slot(at, id) {
        assert ids'[|ids|] == Some(slot.id) && slot.score == (scores + [at])[|ids|];
      }
    }
    hide AddedSlot;
    assert forall x: Option<nat> :: x in ids' <==> x in ids || x == Some(id);
  }

  /** Leaving one item out. */
  lemma AddedWithout(c: Content, c': Content, ids: seq<Option<nat>>, items: seq<Item>, scores: seq<int>, item: Item,
                     at: int)
    requires Added(c, c', ids, items, scores)
    ensures Added(c, c', ids + [None], items + [item], scores + [at])
  {
    var ids' := ids + [None];
    forall slot ensures AddedSlot(slot, ids', scores + [at]) <==> AddedSlot(slot, ids, scores) {
      if AddedSlot(slot, ids, scores) {
        var i :| 0 <= i < |ids| && ids[i] == Some(slot.id) && slot.score == scores[i];
        assert ids'[i] == Some(slot.id) && slot.score == (scores + [at])[i];
      }
    }
    hide AddedSlot;
    assert forall id :: Some(id) in ids' <==> Some(id) in ids;
  }

  lemma EnqueuedAdds(mid: Content, id: nat, o: Order, now: Nanos, score: Rounding)
    requires Listed(mid) && id !in mid.items
    ensures var c := Enqueued(mid, id, o, now, score);
            && Listed(c)
            && if !Worthwhile(o) then c == mid
               else
                 && c.items == mid.items[id := Item(o.probe, o.before)]
                 && forall slot :: slot in c.queue <==>
                      (slot in mid.queue || slot == Slot(score(if o.after.Some? then o.after.value else now), id))
  {
    if Worthwhile(o) {
      var slot := Slot(score(if o.after.Some? then o.after.value else now), id);
      InsertKeepsOrder(mid.queue, slot);
      InsertIds(mid.queue, slot);
      hide Insert, Ordered, Ids;
    }
  }

  lemma AddedOneMore(c: Content, mid: Content, ids: seq<Option<nat>>, front: seq<Order>, id: nat, o: Order, now: Nanos,
                     score: Rounding)
    requires Listed(mid) && Added(c, mid, ids, ItemsOf(front), ScoresOf(front, now, score)) && id !in mid.items
    ensures var more := ids + [if Worthwhile(o) then Some(id) else None];
            Added(c, Enqueued(mid, id, o, now, score), more, ItemsOf(front + [o]), ScoresOf(front + [o], now, score))
    ensures Listed(Enqueued(mid, id, o, now, score))
  {
    hide Listed, Added, Enqueued, Worthwhile;
    EnqueuedAdds(mid, id, o, now, score);
    var item, at := Item(o.probe, o.before), score(if o.after.Some? then o.after.value else now);
    assert ItemsOf(front + [o]) == ItemsOf(front) + [item];
    assert ScoresOf(front + [o], now, score) == ScoresOf(front, now, score) + [at];
    if Worthwhile(o) {
      AddedThen(c, mid, Enqueued(mid, id, o, now, score), ids, ItemsOf(front), ScoresOf(front, now, score), id, item,
                at);
    } else {
      AddedWithout(c, mid, ids, ItemsOf(front), ScoresOf(front, now, score), item, at);
    }
  }

  lemma {:induction false} EnqueuedAllAdds(c: Content, ids: seq<nat>, orders: seq<Order>, now: Nanos, score: Rounding)
    returns (under: seq<Option<nat>>)
    requires Listed(c) && |ids| == |orders| && IdsInTurn(c, ids, orders, now, score)
    ensures var c' := EnqueuedAll(c, ids, orders, now, score);
            Listed(c') && Added(c, c', under, ItemsOf(orders), ScoresOf(orders, now, score))
    ensures |under| == |orders| && forall i :: 0 <= i < |under| ==> (under[i].Some? <==> Worthwhile(orders[i]))
    decreases |orders|
  {
    hide Listed, Added, Enqueued, Worthwhile, IdsInTurn, ItemsOf, ScoresOf;
    if orders == [] {
      under := [];
      AddedNothing(c);
      assert ItemsOf(orders) == [] && ScoresOf(orders, now, score) == [];
    } else {
      var n := |orders| - 1;
      TurnsBefore(c, ids, orders, now, score);
      under := EnqueuedAllAdds(c, ids[..n], orders[..n], now, score);
      AddedOneMore(c, EnqueuedAll(c, ids[..n], orders[..n], now, score), under, orders[..n], ids[n], orders[n], now,
                   score);
      assert orders == orders[..n] + [orders[n]];
      under := under + [if Worthwhile(orders[n]) then Some(ids[n]) else None];
    }
  }

  lemma TurnsBefore(c: Content, ids: seq<nat>, orders: seq<Order>, now: Nanos, score: Rounding)
    requires |ids| == |orders| > 0 && IdsInTurn(c, ids, orders, now, score)
    ensures var n := |orders| - 1;
            && IdsInTurn(c, ids[..n], orders[..n], now, score)
            && ids[n] !in EnqueuedAll(c, ids[..n], orders[..n], now, score).items
  {
    hide Enqueued;
    var n := |orders| - 1;
    forall i | 0 <= i < n
      ensures ids[..n][i] !in EnqueuedAll(c, ids[..n][..i], orders[..n][..i], now, score).items
    {
      assert ids[..n][..i] == ids[..i] && orders[..n][..i] == orders[..i];
    }
  }

  /** What is placed is added: each order's probe with its deadline, at its earliest time or now. */
  lemma PlacedAdds(c: Content, c': Content, orders: seq<Order>, now: Nanos, score: Rounding)
    returns (under: seq<Option<nat>>)
    requires Listed(c) && Placed(c, c', orders, now, score)
    ensures Added(c, c', under, ItemsOf(orders), ScoresOf(orders, now, score)) && |under| == |orders|
    ensures forall i :: 0 <= i < |under| ==> (under[i].Some? <==> Worthwhile(orders[i]))
  {
    hide Listed, Added, Enqueued, Worthwhile;
    var ids: seq<nat> :| |ids| == |orders| && IdsInTurn(c, ids, orders, now, score)
                         && c' == EnqueuedAll(c, ids, orders, now, score);
    under := EnqueuedAllAdds(c, ids, orders, now, score);
  }
}
