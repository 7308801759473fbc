/** The probe queue: a sorted set of item ids by readiness, and the items themselves. */
module Probes {
  import opened Entities
  import opened Store

  /** A member of the sorted set. Members with equal scores are ordered by id. */
  datatype Slot = Slot(score: int, id: nat)

  predicate Less(a: Slot, b: Slot) {
    a.score < b.score || (a.score == b.score && a.id < b.id)
  }

  ghost predicate Ordered(q: seq<Slot>) {
    && (forall i, j :: 0 <= i < j < |q| ==> Less(q[i], q[j]))
    && (forall i, j :: 0 <= i < j < |q| ==> q[i].id != q[j].id)
  }

  function Ids(q: seq<Slot>): set<nat> {
    set i | 0 <= i < |q| :: q[i].id
  }

  /** ZADD of a new member. */
  function Insert(q: seq<Slot>, s: Slot): seq<Slot> {
    if q == [] || Less(q[|q| - 1], s) then q + [s]
    else Insert(q[..|q| - 1], s) + [q[|q| - 1]]
  }

  lemma {:induction false} InsertKeepsOrder(q: seq<Slot>, s: Slot)
    requires Ordered(q) && s.id !in Ids(q)
    ensures Ordered(Insert(q, s))
    ensures |Insert(q, s)| == |q| + 1 && forall t :: t in Insert(q, s) <==> t in q || t == s
  {
    if q != [] && !Less(q[|q| - 1], s) {
      var front := q[..|q| - 1];
      var last := q[|q| - 1];
      assert q == front + [last];
      assert Ids(front) <= Ids(q);
      assert last.id in Ids(q);
      InsertKeepsOrder(front, s);
      var r := Insert(front, s);
      forall i | 0 <= i < |r| ensures Less(r[i], last) && r[i].id != last.id {
        assert r[i] in r;
      }
    } else if q != [] {
      forall i | 0 <= i < |q| ensures Less(q[i], s) && q[i].id != s.id {
        assert q[i].id in Ids(q);
      }
    }
  }

  /** How many members at the head of the queue are ready. */
  function Ready(q: seq<Slot>, limit: int): (n: nat)
    ensures n <= |q|
    ensures forall i :: 0 <= i < n ==> q[i].score <= limit
    ensures n < |q| ==> q[n].score > limit
  {
    if q == [] || q[0].score > limit then 0 else 1 + Ready(q[1..], limit)
  }

  /** In an ordered queue the ready members are exactly those at the head. */
  lemma ReadyIsPrefix(q: seq<Slot>, limit: int)
    requires Ordered(q)
    ensures forall i :: 0 <= i < |q| ==> (i < Ready(q, limit) <==> q[i].score <= limit)
  {
  }

  /** The ids that ZRANGE BYSCORE -inf limit LIMIT 0 count returns. */
  function Range(q: seq<Slot>, limit: int, count: nat): (ids: seq<nat>)
    ensures |ids| == (if count < Ready(q, limit) then count else Ready(q, limit))
    ensures forall i :: 0 <= i < |ids| ==> ids[i] == q[i].id
  {
    var n := if count < Ready(q, limit) then count else Ready(q, limit);
    seq(n, i requires 0 <= i < n => q[i].id)
  }

  /** ZREM: the members left, in order. */
  function Strip(q: seq<Slot>, ids: set<nat>): seq<Slot> {
    if q == [] then []
    else if q[|q| - 1].id in ids then Strip(q[..|q| - 1], ids)
    else Strip(q[..|q| - 1], ids) + [q[|q| - 1]]
  }

  lemma {:induction false} StripKeepsOrder(q: seq<Slot>, ids: set<nat>)
    requires Ordered(q)
    ensures Ordered(Strip(q, ids))
    ensures forall s :: s in Strip(q, ids) <==> s in q && s.id !in ids
  {
    if q != [] {
      var front := q[..|q| - 1];
      assert q == front + [q[|q| - 1]];
      StripKeepsOrder(front, ids);
      forall s | s in Strip(front, ids) ensures Less(s, q[|q| - 1]) && s.id != q[|q| - 1].id {
        assert s in front;
        var i :| 0 <= i < |front| && front[i] == s;
        assert q[i] == s;
      }
    }
  }

  /** Removing exactly the ids at the head removes the head. */
  lemma {:induction false} StripPrefix(q: seq<Slot>, n: nat, ids: set<nat>)
    requires Ordered(q) && n <= |q| && ids == Ids(q[..n])
    ensures Strip(q, ids) == q[n..]
    decreases |q|
  {
    if q != [] {
      var front := q[..|q| - 1];
      var last := q[|q| - 1];
      if n == |q| {
        assert last.id in ids;
        StripAll(q, ids);
      } else {
        assert front[..n] == q[..n];
        StripPrefix(front, n, ids);
        assert forall i :: 0 <= i < n ==> q[i].id != last.id;
        assert last.id !in ids;
        assert q[n..] == front[n..] + [last];
      }
    }
  }

  lemma {:induction false} StripAll(q: seq<Slot>, ids: set<nat>)
    requires forall i :: 0 <= i < |q| ==> q[i].id in ids
    ensures Strip(q, ids) == []
  {
    if q != [] {
      StripAll(q[..|q| - 1], ids);
    }
  }

  // ---- enqueueing --------------------------------------------------------------------

  /** A probe to be run after one time, if given, and before another, if given. */
  datatype Order = Order(probe: Probe, after: Option<Nanos>, before: Option<Nanos>) {
    /** It would expire before it is ready. */
    predicate Pointless() {
      after.Some? && before.Some? && after.value >= before.value
    }

    /** Without an earliest time the probe is ready at once. */
    function ReadyAt(now: Nanos): Nanos {
      if after.Some? then after.value else now
    }
  }

  /** The two keys of the queue: the sorted set and the items. */
  datatype Content = Content(queue: seq<Slot>, items: map<nat, Item>)

  /** One `enqueue` under the given id; a pointless order changes nothing. */
  function Enqueued(c: Content, id: nat, o: Order, now: Nanos, score: Rounding): Content {
    if o.Pointless() then c
    else Content(Insert(c.queue, Slot(score(o.ReadyAt(now)), id)), c.items[id := Item(o.probe, o.before)])
  }

  /** The orders enqueued one after another. */
  function EnqueuedAll(c: Content, ids: seq<nat>, orders: seq<Order>, now: Nanos, score: Rounding): Content
    requires |ids| == |orders|
  {
    if orders == [] then c
    else
      var n := |orders| - 1;
      Enqueued(EnqueuedAll(c, ids[..n], orders[..n], now, score), ids[n], orders[n], now, score)
  }

  /** What enqueueing an order means: the item is there, and a member of its own at the time that the order asks for. */
  ghost predicate TookIn(c: Content, c': Content, id: nat, o: Order, now: Nanos, score: Rounding) {
    if o.after.Some? && o.before.Some? && o.after.value >= o.before.value then c' == c
    else
      var due := score(if o.after.Some? then o.after.value else now);
      && c'.items == c.items[id := Item(o.probe, o.before)]
      && |c'.queue| == |c.queue| + 1
      && forall slot :: slot in c'.queue <==> slot in c.queue || slot == Slot(due, id)
  }

  // ---- one-at-a-time popping ---------------------------------------------------------

  /** How many ready items are consumed, one at a time, to obtain `n` that have not expired. */
  function Taken(ready: seq<Item>, n: nat, now: Nanos): (k: nat)
    ensures k <= |ready|
  {
    if n == 0 || ready == [] then 0
    else 1 + Taken(ready[1..], if Expired(ready[0], now) then n else n - 1, now)
  }

  /** The probes of the items that have not expired, in order. */
  function Live(items: seq<Item>, now: Nanos): (probes: seq<Probe>)
    ensures |probes| <= |items|
  {
    if items == [] then []
    else if Expired(items[|items| - 1], now) then Live(items[..|items| - 1], now)
    else Live(items[..|items| - 1], now) + [items[|items| - 1].probe]
  }

  lemma {:induction false} LiveAppend(a: seq<Item>, b: seq<Item>, now: Nanos)
    ensures Live(a + b, now) == Live(a, now) + Live(b, now)
  {
    if b == [] {
      assert a + b == a;
    } else {
      LiveAppend(a, b[..|b| - 1], now);
      assert (a + b)[..|a + b| - 1] == a + b[..|b| - 1];
    }
  }

  /** Consumption stops at the shortest prefix that holds `n` live items, or when nothing is left. */
  lemma {:induction false} TakenIsShortest(ready: seq<Item>, n: nat, now: Nanos)
    ensures var k := Taken(ready, n, now);
            && |Live(ready[..k], now)| <= n
            && (k < |ready| ==> |Live(ready[..k], now)| == n)
            && (forall j :: 0 <= j < k ==> |Live(ready[..j], now)| < n)
    decreases |ready|
  {
    if n > 0 && ready != [] {
      var m := if Expired(ready[0], now) then n else n - 1;
      TakenIsShortest(ready[1..], m, now);
      var k := Taken(ready, n, now);
      LiveOne(ready[0], now);
      forall j | 0 <= j < k ensures |Live(ready[..j + 1], now)| == |Live(ready[1..][..j], now)| + n - m {
        LiveAppend(ready[..1], ready[1..][..j], now);
        assert ready[..j + 1] == ready[..1] + ready[1..][..j];
        assert ready[..1] == [ready[0]];
      }
      forall j | 0 <= j < k ensures |Live(ready[..j], now)| < n {
        if j > 0 {
          assert |Live(ready[..(j - 1) + 1], now)| == |Live(ready[1..][..j - 1], now)| + n - m;
        } else {
          assert ready[..0] == [];
        }
      }
    } else {
      assert ready[..0] == [];
    }
  }

  /** The item has no deadline, or one that has not passed: at the deadline itself it is still good. */
  predicate Lasts(item: Item, now: Nanos) {
    item.expires.None? || now <= item.expires.value
  }

  predicate Gives(item: Item, p: Probe, now: Nanos) {
    item.probe == p && Lasts(item, now)
  }

  /** The live probes of some items are those of the items that last. */
  lemma {:induction false} LiveMeans(items: seq<Item>, now: Nanos)
    ensures forall p :: p in Live(items, now) <==> exists i :: 0 <= i < |items| && Gives(items[i], p, now)
  {
    if items != [] {
      var front, last := items[..|items| - 1], items[|items| - 1];
      LiveMeans(front, now);
      assert items == front + [last];
      forall p ensures p in Live(items, now) <==> exists i :: 0 <= i < |items| && Gives(items[i], p, now) {
        if p in Live(front, now) {
          var i :| 0 <= i < |front| && Gives(front[i], p, now);
          assert Gives(items[i], p, now);
        }
        if Gives(last, p, now) {
          assert Gives(items[|front|], p, now);
        }
        if exists i :: 0 <= i < |front| && Gives(items[i], p, now) {
          var i :| 0 <= i < |front| && Gives(items[i], p, now);
          assert Gives(front[i], p, now);
        }
      }
    }
  }

  /** What was given out came from the first `k` members, and only they are gone. */
  lemma GivenAndGone(q: seq<Slot>, all: seq<Item>, n: nat, k: nat, now: Nanos, limit: int)
    requires |q| == |all| && k <= n == Ready(q, limit)
    ensures forall p :: p in Live(all[..n][..k], now) ==>
      exists i :: 0 <= i < |q| && q[i].score <= limit && Gives(all[i], p, now)
    ensures forall i :: 0 <= i < |q| && q[i] !in q[k..] ==>
      q[i].score <= limit && (Lasts(all[i], now) ==> all[i].probe in Live(all[..n][..k], now))
  {
    var taken := all[..n][..k];
    LiveMeans(taken, now);
    hide Live;
    assert forall j :: k <= j < |q| ==> q[k..][j - k] == q[j];
    forall p | p in Live(taken, now)
      ensures exists i :: 0 <= i < |q| && q[i].score <= limit && Gives(all[i], p, now)
    {
      var i :| 0 <= i < |taken| && Gives(taken[i], p, now);
      assert q[i].score <= limit && Gives(all[i], p, now);
    }
    forall i | 0 <= i < |q| && q[i] !in q[k..]
      ensures q[i].score <= limit && (Lasts(all[i], now) ==> all[i].probe in Live(taken, now))
    {
      assert Gives(taken[i], all[i].probe, now) <==> Lasts(all[i], now);
    }
  }

  lemma TakenEdges(now: Nanos)
    ensures Live([], now) == []
    ensures forall n :: Taken([], n, now) == 0
    ensures forall r :: Taken(r, 0, now) == 0
  {
  }

  lemma LiveOne(item: Item, now: Nanos)
    ensures Live([item], now) == if Expired(item, now) then [] else [item.probe]
  {
    assert [item][..0] == [];
  }

  /** A batch of at most `n` items can be consumed at once. */
  lemma {:induction false} TakenSplits(ready: seq<Item>, n: nat, m: nat, now: Nanos)
    requires m <= n && m <= |ready|
    ensures |Live(ready[..m], now)| <= n
    ensures Taken(ready, n, now) == m + Taken(ready[m..], n - |Live(ready[..m], now)|, now)
    decreases m
  {
    if m > 0 {
      var rest := ready[1..];
      LiveOne(ready[0], now);
      LiveAppend(ready[..1], rest[..m - 1], now);
      assert ready[..m] == ready[..1] + rest[..m - 1];
      assert ready[..1] == [ready[0]];
      assert rest[m - 1..] == ready[m..];
      TakenSplits(rest, if Expired(ready[0], now) then n else n - 1, m - 1, now);
    } else {
      assert ready[..0] == [] && ready[0..] == ready;
    }
  }

  // ---- the queue ---------------------------------------------------------------------

  class Queue {
    var queue: seq<Slot>
    var items: map<nat, Item>
    var nextId: nat
    const score: Rounding

    ghost predicate Valid()
      reads this
    {
      && Ordered(queue)
      && items.Keys == Ids(queue)
      && forall id :: id in items ==> id < nextId
    }

    function State(): Content
      reads this
    {
      Content(queue, items)
    }

    /** The items in the order of the queue. */
    ghost function Contents(): (c: seq<Item>)
      reads this
      requires Valid()
      ensures |c| == |queue|
    {
      InOrder(queue, items)
    }

    /** The ready items in the order of the queue. */
    ghost function ReadyItems(now: Nanos): seq<Item>
      reads this
      requires Valid()
    {
      Contents()[..Ready(queue, score(now))]
    }

    constructor (score: Rounding)
      ensures Valid() && queue == [] && this.score == score
    {
      queue, items, nextId := [], map[], 0;
      this.score := score;
    }

    /**
     * Enqueues under an id that is not in use, at the earliest time of the order or at the present time
     * if it has none; an order that would expire before it is ready changes nothing.
     */
    method Enqueue(o: Order, now: Nanos) returns (id: nat)
      requires Valid()
      modifies this
      ensures Valid() && id !in old(items)
      ensures State() == Enqueued(old(State()), id, o, now, score)
      ensures TookIn(old(State()), State(), id, o, now, score)
    {
      id := nextId;
      if o.after.Some? && o.before.Some? && o.after.value >= o.before.value {
        return;
      }
      nextId := nextId + 1;
      var readyAt := if o.after.Some? then o.after.value else now;
      InsertKeepsOrder(queue, Slot(score(readyAt), id));
      InsertIds(queue, Slot(score(readyAt), id));
      items := items[id := Item(o.probe, o.before)];
      queue := Insert(queue, Slot(score(readyAt), id));
    }

    /** One range read and one atomic pop: nothing when no member is ready. */
    method Pop(count: nat, now: Nanos) returns (popped: seq<Item>)
      requires Valid() && count > 0
      modifies this
      ensures Valid()
      ensures var n := |popped|;
              && n == (if count < Ready(old(queue), score(now)) then count else Ready(old(queue), score(now)))
              && popped == old(Contents())[..n] && queue == old(queue)[n..] && Contents() == old(Contents())[n..]
    {
      hide Ready;
      ghost var q, all := queue, items;
      var keys := Range(queue, score(now), count);
      popped := [];
      if |keys| == 0 {
        return;
      }
      popped := Take(keys);
      DropHead(q, all, |keys|);
      hide Ordered, Ids, InOrder;
      assert InOrder(queue, items) == InOrder(q, all)[|keys|..] by {
        HeadDropped(q, all, |keys|);
      }
    }

    /** The transaction of a pop: ZREM, HMGET and HDEL of the keys at the head of the queue. */
    method Take(keys: seq<nat>) returns (popped: seq<Item>)
      requires Valid() && |keys| <= |queue| && forall i :: 0 <= i < |keys| ==> keys[i] == queue[i].id
      modifies this
      ensures popped == old(Contents())[..|keys|] && nextId == old(nextId)
      ensures queue == old(queue)[|keys|..] && items == old(items) - Ids(old(queue)[..|keys|])
    {
      ghost var before := Contents();
      ghost var ids := Ids(queue[..|keys|]);
      var gone := set i | 0 <= i < |keys| :: keys[i];
      assert gone == ids;
      StripPrefix(queue, |keys|, gone);
      hide Ordered, Strip;
      popped := [];
      for i := 0 to |keys|
        invariant popped == before[..i]
      {
        popped := popped + [items[keys[i]]];
      }
      queue := Strip(queue, gone);
      items := items - gone;
    }

    /** The effect of popping the ready items up to the `k`-th: live probes out, expired ones dropped. */
    ghost predicate Consumed(ready: seq<Item>, q: seq<Slot>, all: seq<Item>, k: nat, now: Nanos, probes: seq<Probe>,
            expired: nat)
      reads this
      requires Valid()
    {
      && k <= |ready| <= |q| == |all|
      && probes == Live(ready[..k], now) && expired + |probes| == k
      && queue == q[k..] && Contents() == all[k..]
    }

    /**
     * Pops until `count` live probes are found or nothing is ready; expired items are dropped and
     * counted. A probe is given out only from an item that was ready and has not expired, and no such
     * item is taken away without its probe being given out.
     */
    method PopMany(count: int, now: Nanos) returns (probes: seq<Probe>, expired: nat)
      requires Valid()
      modifies this
      ensures Valid()
      ensures forall p :: p in probes ==> exists i :: 0 <= i < |old(queue)| && old(queue)[i].score <= score(now)
                                                      && Gives(old(Contents())[i], p, now)
      ensures forall i :: 0 <= i < |old(queue)| && old(queue)[i] !in queue ==>
        && old(queue)[i].score <= score(now)
        && (Lasts(old(Contents())[i], now) ==> old(Contents())[i].probe in probes)
      ensures var ready := old(ReadyItems(now));
              var k := if count <= 0 then 0 else Taken(ready, count, now);
              Consumed(ready, old(queue), old(Contents()), k, now, probes, expired)
    {
      hide Taken, Live, Ready, Ordered, Ids, InOrder, Contents;
      probes, expired := [], 0;
      TakenEdges(now);
      ghost var ready := ReadyItems(now);
      ghost var q, all := queue, Contents();
      ghost var k: nat := 0;
      assert ready[..0] == [];
      while |probes| < count
        invariant Valid() && Consumed(ready, q, all, k, now, probes, expired)
        invariant count <= 0 ==> k == 0
        invariant count > 0 ==>
          |probes| <= count && Taken(ready, count, now) == k + Taken(ready[k..], count - |probes|, now)
        decreases |queue|
      {
        var m: nat;
        probes, expired, m := PopBatch(ready, q, all, k, count, now, probes, expired);
        if m == 0 {
          break;
        }
        k := k + m;
      }
      GivenAndGone(q, all, Ready(q, score(now)), k, now, score(now));
    }

    /** One round of the loop of PopMany. */
    method PopBatch(ghost ready: seq<Item>, ghost q: seq<Slot>, ghost all: seq<Item>, ghost k: nat, count: nat,
                    now: Nanos,
                    probes0: seq<Probe>, expired0: nat)
      returns (probes: seq<Probe>, expired: nat, m: nat)
      requires Valid() && |probes0| < count
      requires |q| == |all| && ready == all[..Ready(q, score(now))]
      requires Consumed(ready, q, all, k, now, probes0, expired0)
      modifies this
      ensures Valid() && Consumed(ready, q, all, k + m, now, probes, expired)
      ensures |probes| <= count && |queue| == |old(queue)| - m
      ensures m == 0 ==> k == |ready| && probes == probes0
      ensures Taken(ready[k..], count - |probes0|, now) == m + Taken(ready[k + m..], count - |probes|, now)
    {
      hide Taken, Live, Ready, Ordered, Ids, InOrder, Contents;
      ReadySuffix(q, score(now), k);
      var batch := Pop(count - |probes0|, now);
      m := |batch|;
      assert batch == all[k..][..m] && m <= |ready| - k;
      PrefixSlice(all, |ready|, k, m);
      Progress(ready, k, m, batch, count - |probes0|, now);
      probes, expired := Sift(batch, now, probes0, expired0);
      TakenEdges(now);
    }

    /** Keeps the probes of a batch that have not expired and counts the others. */
    static method Sift(batch: seq<Item>, now: Nanos, probes0: seq<Probe>, expired0: nat)
      returns (probes: seq<Probe>, expired: nat)
      ensures probes == probes0 + Live(batch, now)
      ensures expired + |Live(batch, now)| == expired0 + |batch|
    {
      probes, expired := probes0, expired0;
      for i := 0 to |batch|
        invariant probes == probes0 + Live(batch[..i], now)
        invariant expired + |Live(batch[..i], now)| == expired0 + i
      {
        assert batch[..i + 1][..i] == batch[..i];
        if Expired(batch[i], now) {
          expired := expired + 1;
        } else {
          probes := probes + [batch[i].probe];
        }
      }
      assert batch[..|batch|] == batch;
    }

    method Count() returns (n: nat)
      requires Valid()
      ensures n == |items|
    {
      OneItemEach(queue);
      return |queue|;
    }
  }

  lemma PrefixSlice(all: seq<Item>, n: nat, k: nat, m: nat)
    requires k + m <= n <= |all|
    ensures all[..n][k..][..m] == all[k..][..m]
  {
  }

  lemma HeadDropped(q: seq<Slot>, items: map<nat, Item>, n: nat)
    requires Ordered(q) && items.Keys == Ids(q) && n <= |q|
    ensures forall i :: 0 <= i < |q[n..]| ==> q[n..][i].id in items - Ids(q[..n])
    ensures forall i :: 0 <= i < |q| ==> q[i].id in items
    ensures InOrder(q[n..], items - Ids(q[..n])) == InOrder(q, items)[n..]
  {
    DropHead(q, items, n);
    assert forall i :: 0 <= i < |q| ==> q[i].id in Ids(q);
  }

  /** What one batch contributes to the whole. */
  lemma Progress(ready: seq<Item>, k: nat, m: nat, batch: seq<Item>, need: nat, now: Nanos)
    requires k + m <= |ready| && batch == ready[k..][..m] && m <= need
    ensures |Live(batch, now)| <= need
    ensures Live(ready[..k + m], now) == Live(ready[..k], now) + Live(batch, now)
    ensures Taken(ready[k..], need, now) == m + Taken(ready[k + m..], need - |Live(batch, now)|, now)
  {
    TakenSplits(ready[k..], need, m, now);
    LiveAppend(ready[..k], batch, now);
    assert ready[..k + m] == ready[..k] + batch;
    assert ready[k..][m..] == ready[k + m..];
  }

  ghost function InOrder(q: seq<Slot>, items: map<nat, Item>): (c: seq<Item>)
    requires forall i :: 0 <= i < |q| ==> q[i].id in items
    ensures |c| == |q| && forall i :: 0 <= i < |q| ==> c[i] == items[q[i].id]
  {
    seq(|q|, i requires 0 <= i < |q| => items[q[i].id])
  }

  lemma InsertIds(q: seq<Slot>, s: Slot)
    requires Ordered(q) && s.id !in Ids(q)
    ensures Ids(Insert(q, s)) == Ids(q) + {s.id}
  {
    InsertKeepsOrder(q, s);
    var r := Insert(q, s);
    forall id ensures id in Ids(r) <==> id in Ids(q) + {s.id} {
      if id in Ids(r) {
        var i :| 0 <= i < |r| && r[i].id == id;
        assert r[i] in r;
      }
      if id in Ids(q) {
        var i :| 0 <= i < |q| && q[i].id == id;
        assert q[i] in r;
      }
      assert s in r;
    }
  }

  lemma DropHead(q: seq<Slot>, items: map<nat, Item>, n: nat)
    requires Ordered(q) && items.Keys == Ids(q) && n <= |q|
    ensures var ids := Ids(q[..n]);
            && Ordered(q[n..]) && (items - ids).Keys == Ids(q[n..])
            && forall i :: 0 <= i < |q[n..]| ==>
                 q[n..][i].id in items - ids && (items - ids)[q[n..][i].id] == items[q[i + n].id]
  {
    var ids := Ids(q[..n]);
    forall i | n <= i < |q| ensures q[i].id in items && q[i].id !in ids {
      assert q[i].id in Ids(q);
    }
    IdsSplit(q, n);
  }

  lemma IdsSplit(q: seq<Slot>, n: nat)
    requires n <= |q|
    ensures Ids(q) == Ids(q[..n]) + Ids(q[n..])
  {
    forall id | id in Ids(q) ensures id in Ids(q[..n]) + Ids(q[n..]) {
      var i :| 0 <= i < |q| && q[i].id == id;
      if i < n {
        assert q[..n][i].id == id;
      } else {
        assert q[n..][i - n].id == id;
      }
    }
  }

  lemma {:induction false} ReadySuffix(q: seq<Slot>, limit: int, k: nat)
    requires k <= Ready(q, limit)
    ensures Ready(q[k..], limit) == Ready(q, limit) - k
  {
    if k > 0 {
      ReadySuffix(q[1..], limit, k - 1);
      assert q[1..][k - 1..] == q[k..];
    }
  }

  lemma {:induction false} OneItemEach(q: seq<Slot>)
    requires Ordered(q)
    ensures |Ids(q)| == |q|
  {
    if q != [] {
      var front := q[..|q| - 1];
      OneItemEach(front);
      assert Ids(q) == Ids(front) + {q[|q| - 1].id};
    }
  }
}
