/**
 * What the server repository keeps in Redis, what one exclusive call decides to do with it,
 * and the agreement between the records and their secondary indices.
 */
module Store {
  import opened Entities

  /** The conversion of a nanosecond count to a zset score: any conversion that keeps order. */
  ghost predicate Monotone(f: int -> int) {
    forall x, y :: x <= y ==> f(x) <= f(y)
  }

  type Rounding = f: int -> int | Monotone(f) ghost witness (x => x)

  datatype Db = Db(
    items: map<Addr, Server>,
    updated: map<Addr, int>,
    refreshed: map<Addr, int>,
    sets: Sets)

  /** The nine status sets, in the order of Members. A set that was never written is empty. */
  type Sets = s: seq<set<Addr>> | |s| == 9 witness NoSets()

  function NoSets(): seq<set<Addr>> {
    [{}, {}, {}, {}, {}, {}, {}, {}, {}]
  }

  const EMPTY_DB := Db(map[], map[], map[], NoSets())

  function Lookup(items: map<Addr, Server>, a: Addr): Option<Server> {
    if a in items then Some(items[a]) else None
  }

  /** Every status set, with the address in exactly the sets of the given status. */
  function Retag(sets: Sets, a: Addr, status: Status): Sets {
    seq(9, k requires 0 <= k < 9 => if Has(status, Members()[k]) then sets[k] + {a} else sets[k] - {a})
  }

  function Untag(sets: Sets, a: Addr): Sets {
    seq(9, k requires 0 <= k < 9 => sets[k] - {a})
  }

  /** The transaction of `save`. */
  function Put(db: Db, svr: Server, now: Nanos, score: Rounding): Db {
    Db(db.items[svr.addr := svr],
       db.updated[svr.addr := score(now)],
       if svr.refreshedAt.None? then db.refreshed - {svr.addr}
       else db.refreshed[svr.addr := score(svr.refreshedAt.value)],
       Retag(db.sets, svr.addr, svr.status))
  }

  /** The transaction of `remove`. */
  function Drop(db: Db, a: Addr): Db {
    Db(db.items - {a},
       db.updated - {a},
       db.refreshed - {a},
       Untag(db.sets, a))
  }

  /** The records and the three kinds of index agree. */
  ghost predicate Consistent(db: Db, score: Rounding) {
    && (forall a :: a in db.items ==> db.items[a].addr == a)
    && (forall a :: a in db.updated <==> a in db.items)
    && (forall a :: a in db.refreshed <==> a in db.items && db.items[a].refreshedAt.Some?)
    && (forall a :: a in db.refreshed ==> db.refreshed[a] == score(db.items[a].refreshedAt.value))
    && (forall k, a :: 0 <= k < 9 ==> (a in db.sets[k] <==> a in db.items && Has(db.items[a].status, Members()[k])))
  }

  lemma PutKeepsConsistent(db: Db, svr: Server, now: Nanos, score: Rounding)
    requires Consistent(db, score)
    ensures Consistent(Put(db, svr, now, score), score)
  {
    hide Members, Has;
  }

  lemma DropKeepsConsistent(db: Db, a: Addr, score: Rounding)
    requires Consistent(db, score)
    ensures Consistent(Drop(db, a), score)
  {
    hide Members, Has;
  }

  // ---- one exclusive call ----------------------------------------------------------

  datatype Kind = Add | Update | Remove

  /**
   * A conflict callback. It gets the newer stored record and a clock reading, and answers
   * with the record it turned it into, or with None when it declines.
   */
  type Resolver = (Server, Nanos) -> Option<Server>

  datatype Call = Call(kind: Kind, svr: Server, resolve: Resolver)

  /** Callbacks change a copy of the stored record but neither its address nor its version. */
  ghost predicate Sane(call: Call) {
    forall s: Server, t: Nanos :: call.resolve(s, t).Some? ==>
      call.resolve(s, t).value.addr == s.addr && call.resolve(s, t).value.version == s.version
  }

  datatype Outcome =
    | Saved(svr: Server)      // written, with the version it got
    | Removed                 // deleted
    | Spared                  // Remove: nothing stored, or the callback declined
    | Kept(svr: Server)       // Update: the callback declined, the stored record is returned
    | NotFound                // Update: nothing stored
    | Exists                  // Add: the callback declined
    | Lost                    // the lock was gone when its ownership was checked
    | GaveUp                  // the lock was not obtained in any attempt
  {
    predicate Commits() {
      Saved? || Removed?
    }
  }

  datatype Decision = Write(svr: Server) | Delete | Answer(outcome: Outcome)

  /** The branch that `add`, `update` or `remove` takes on the record it has read. */
  function Decide(call: Call, existing: Option<Server>, now: Nanos): Decision {
    match call.kind
    case Add =>
      if existing.None? then Write(call.svr.Bumped())
      else
        var resolved := call.resolve(existing.value, now);
        if resolved.None? then Answer(Exists) else Write(resolved.value.Bumped())
    case Update =>
      if existing.None? then Answer(NotFound)
      else if existing.value.version > call.svr.version then
        var resolved := call.resolve(existing.value, now);
        if resolved.None? then Answer(Kept(existing.value)) else Write(resolved.value.Bumped())
      else Write(call.svr.Bumped())
    case Remove =>
      if existing.None? then Answer(Spared)
      else if existing.value.version > call.svr.version && call.resolve(existing.value, now).None? then Answer(Spared)
      else Delete
  }

  /** What the decision leaves stored at the address of the call. */
  function After(d: Decision, existing: Option<Server>): Option<Server> {
    match d
    case Write(svr) => Some(svr)
    case Delete => None
    case Answer(_) => existing
  }

  function OutcomeOf(d: Decision): Outcome {
    match d
    case Write(svr) => Saved(svr)
    case Delete => Removed
    case Answer(o) => o
  }

  function Commit(db: Db, d: Decision, a: Addr, stamp: Nanos, score: Rounding): Db {
    match d
    case Write(svr) => Put(db, svr, stamp, score)
    case Delete => Drop(db, a)
    case Answer(_) => db
  }

  /** The sequential map from address to record. */
  function Assign(items: map<Addr, Server>, a: Addr, after: Option<Server>): map<Addr, Server> {
    match after
    case Some(svr) => items[a := svr]
    case None => items - {a}
  }

  lemma DecideKeepsAddr(call: Call, existing: Option<Server>, now: Nanos)
    requires Sane(call) && (existing.Some? ==> existing.value.addr == call.svr.addr)
    ensures Decide(call, existing, now).Write? ==> Decide(call, existing, now).svr.addr == call.svr.addr
  {
  }

  /** Whenever a stored record is overwritten its version grows. */
  lemma DecideRaisesVersion(call: Call, existing: Server, now: Nanos)
    requires Sane(call)
    ensures Decide(call, Some(existing), now).Write? ==>
      Decide(call, Some(existing), now).svr.version > existing.version
  {
  }

  /**
   * An update goes ahead whatever its conflict callback would say exactly if the stored version is
   * not greater than the given one: an equal version passes.
   */
  lemma CallbackIgnoredIff(svr: Server, existing: Server, now: Nanos)
    ensures (forall r: Resolver, q: Resolver ::
               Decide(Call(Update, svr, r), Some(existing), now) == Decide(Call(Update, svr, q), Some(existing), now))
       <==> existing.version <= svr.version
    ensures existing.version <= svr.version ==>
      forall r: Resolver :: Decide(Call(Update, svr, r), Some(existing), now) == Write(svr.Bumped())
  {
    if existing.version > svr.version {
      var never: Resolver, always: Resolver := (s, t) => None, (s, t) => Some(s);
      assert Decide(Call(Update, svr, never), Some(existing), now)
          != Decide(Call(Update, svr, always), Some(existing), now);
    }
  }

  lemma CommitKeepsConsistent(db: Db, d: Decision, a: Addr, stamp: Nanos, score: Rounding)
    requires Consistent(db, score)
    ensures Consistent(Commit(db, d, a, stamp, score), score)
  {
    hide Consistent, Put, Drop;
    match d
    case Write(svr) => PutKeepsConsistent(db, svr, stamp, score);
    case Delete => DropKeepsConsistent(db, a, score);
    case Answer(_) =>
  }

  /** CountByStatus counts the stored records that carry the bit. */
  lemma CardinalityIsScan(db: Db, k: nat, score: Rounding)
    requires Consistent(db, score) && k < 9
    ensures db.sets[k] == set a | a in db.items && Has(db.items[a].status, Members()[k])
  {
    hide Members, Has;
  }
}
