/** The server repository on a quiescent store: records and indices updated in place. */
module Repository {
  import opened Entities
  import opened Store
  import opened Slice

  /** Every criterion is optional; a status criterion without bits is no criterion. */
  datatype FilterSet = FilterSet(
    withStatus: Status,
    noStatus: Status,
    updatedBefore: Option<Nanos>,
    updatedAfter: Option<Nanos>,
    activeBefore: Option<Nanos>,
    activeAfter: Option<Nanos>)

  const NO_FILTER := FilterSet(0, 0, None, None, None, None)

  predicate Below(x: int, bound: Option<Nanos>, score: Rounding) {
    bound.Some? ==> x < score(bound.value)
  }

  predicate NotBelow(x: int, bound: Option<Nanos>, score: Rounding) {
    bound.Some? ==> score(bound.value) <= x
  }

  /** The plain meaning of a filter set for one stored record, in terms of scores. */
  ghost predicate Matches(fs: FilterSet, db: Db, a: Addr, score: Rounding) {
    && a in db.items && a in db.updated
    && Has(db.items[a].status, fs.withStatus)
    && !HasAny(db.items[a].status, fs.noStatus)
    && Below(db.updated[a], fs.updatedBefore, score) && NotBelow(db.updated[a], fs.updatedAfter, score)
    && (fs.activeBefore.Some? || fs.activeAfter.Some? ==>
          && db.items[a].refreshedAt.Some?
          && Below(score(db.items[a].refreshedAt.value), fs.activeBefore, score)
          && NotBelow(score(db.items[a].refreshedAt.value), fs.activeAfter, score))
  }

  /** The same in terms of instants; `saved` tells when each record was last saved. */
  ghost predicate PlainlyMatches(fs: FilterSet, items: map<Addr, Server>, saved: map<Addr, Nanos>, a: Addr) {
    && a in items && a in saved
    && Has(items[a].status, fs.withStatus) && !HasAny(items[a].status, fs.noStatus)
    && (fs.updatedBefore.Some? ==> saved[a] < fs.updatedBefore.value)
    && (fs.updatedAfter.Some? ==> saved[a] >= fs.updatedAfter.value)
    && (fs.activeBefore.Some? ==> items[a].refreshedAt.Some? && items[a].refreshedAt.value < fs.activeBefore.value)
    && (fs.activeAfter.Some? ==> items[a].refreshedAt.Some? && items[a].refreshedAt.value >= fs.activeAfter.value)
  }

  /** Rounding does not confuse the instant with the bound, if there is one. */
  predicate Told(t: Nanos, bound: Option<Nanos>, score: Rounding) {
    bound.Some? && score(t) == score(bound.value) ==> t == bound.value
  }

  /** Neither of the record's instants is confused with a bound of the filter. */
  predicate ToldApart(fs: FilterSet, svr: Server, savedAt: Nanos, score: Rounding) {
    && Told(savedAt, fs.updatedBefore, score) && Told(savedAt, fs.updatedAfter, score)
    && (svr.refreshedAt.Some? ==>
          Told(svr.refreshedAt.value, fs.activeBefore, score) && Told(svr.refreshedAt.value, fs.activeAfter, score))
  }

  /**
   * What rounding does to a filter: exclusive upper bounds stay sound, inclusive lower bounds stay
   * complete, and where no instant of the record is confused with a bound both mean what they say.
   */
  lemma FilterMeansInstants(fs: FilterSet, db: Db, saved: map<Addr, Nanos>, a: Addr, score: Rounding)
    requires a in db.items && a in db.updated && a in saved && db.updated[a] == score(saved[a])
    ensures Matches(fs, db, a, score) ==>
      PlainlyMatches(fs.(updatedAfter := None, activeAfter := None), db.items, saved, a)
    ensures fs.updatedBefore.None? && fs.activeBefore.None? && PlainlyMatches(fs, db.items, saved, a) ==>
      Matches(fs, db, a, score)
    ensures ToldApart(fs, db.items[a], saved[a], score) ==>
      (Matches(fs, db, a, score) <==> PlainlyMatches(fs, db.items, saved, a))
  {
    hide Has, HasAny;
    assert fs.updatedBefore.Some? && Below(score(saved[a]), fs.updatedBefore, score) ==>
      saved[a] < fs.updatedBefore.value;
    if db.items[a].refreshedAt.Some? {
      var t := db.items[a].refreshedAt.value;
      assert fs.activeBefore.Some? && Below(score(t), fs.activeBefore, score) ==> t < fs.activeBefore.value;
    }
  }

  class Repository {
    var items: map<Addr, Server>
    var updated: map<Addr, int>
    var refreshed: map<Addr, int>
    var sets: Sets
    const score: Rounding

    function View(): Db
      reads this
    {
      Db(items, updated, refreshed, sets)
    }

    ghost predicate Valid()
      reads this
    {
      Consistent(View(), score)
    }

    constructor (score: Rounding)
      ensures Valid() && View() == EMPTY_DB && this.score == score
    {
      items, updated, refreshed, sets := map[], map[], map[], NoSets();
      this.score := score;
    }

    method Get(a: Addr) returns (svr: Option<Server>)
      ensures svr == Lookup(items, a)
    {
      if a in items {
        return Some(items[a]);
      }
      return None;
    }

    /** The records are as before, but for this one. */
    ghost predicate WroteOnly(svr: Server, before: map<Addr, Server>)
      reads this
    {
      items == before[svr.addr := svr]
    }

    /** Bumps the version, then writes the record and every index in one transaction. */
    method Save(svr0: Server, now: Nanos) returns (svr: Server)
      requires Valid()
      modifies this
      ensures svr == svr0.Bumped() && View() == Put(old(View()), svr, now, score) && Valid()
    {
      ghost var before := View();
      svr := svr0.(version := svr0.version + 1);
      items := items[svr.addr := svr];
      updated := updated[svr.addr := score(now)];
      if svr.refreshedAt.None? {
        refreshed := refreshed - {svr.addr};
      } else {
        refreshed := refreshed[svr.addr := score(svr.refreshedAt.value)];
      }
      TagSets(svr.addr, svr.status);
      PutKeepsConsistent(before, svr, now, score);
    }

    /** For each status: adds the address to its set or removes it from there. */
    method TagSets(a: Addr, status: Status)
      modifies this`sets
      ensures sets == Retag(old(sets), a, status)
    {
      hide Members, Has;
      ghost var before := sets;
      for k := 0 to 9
        invariant forall i :: k <= i < 9 ==> sets[i] == before[i]
        invariant forall i :: 0 <= i < k ==> sets[i] == Retag(before, a, status)[i]
      {
        if Has(status, Members()[k]) {
          sets := sets[k := sets[k] + {a}];
        } else {
          sets := sets[k := sets[k] - {a}];
        }
      }
    }

    /**
     * A new record is saved as it is. An existing one is never overwritten with it: what the callback
     * makes of the existing one is saved, or nothing when it declines.
     */
    method Add(svr: Server, resolve: Resolver, now: Nanos) returns (outcome: Outcome)
      requires Valid()
      modifies this
      ensures Valid()
      ensures if svr.addr !in old(items) then outcome == Saved(svr.Bumped()) && WroteOnly(outcome.svr, old(items))
              else
                var resolved := resolve(old(items)[svr.addr], now);
                if resolved.None? then outcome == Exists && View() == old(View())
                else outcome == Saved(resolved.value.Bumped()) && WroteOnly(outcome.svr, old(items))
      ensures var d := Decide(Call(Kind.Add, svr, resolve), Lookup(old(items), svr.addr), now);
              outcome == OutcomeOf(d) && View() == Commit(old(View()), d, svr.addr, now, score)
    {
      var existing := Get(svr.addr);
      if existing.None? {
        var saved := Save(svr, now);
        return Saved(saved);
      }
      var resolved := resolve(existing.value, now);
      if resolved.None? {
        return Exists;
      }
      var saved := Save(resolved.value, now);
      return Saved(saved);
    }

    /**
     * The given record replaces a stored one that is not newer; of a newer one, what the callback makes
     * of it is saved, or it is kept when the callback declines.
     */
    method Update(svr: Server, resolve: Resolver, now: Nanos) returns (outcome: Outcome)
      requires Valid()
      modifies this
      ensures Valid()
      ensures if svr.addr !in old(items) then outcome == NotFound && View() == old(View())
              else
                var stored := old(items)[svr.addr];
                if stored.version <= svr.version then
                  outcome == Saved(svr.Bumped()) && WroteOnly(outcome.svr, old(items))
                else
                  var resolved := resolve(stored, now);
                  if resolved.None? then outcome == Kept(stored) && View() == old(View())
                  else outcome == Saved(resolved.value.Bumped()) && WroteOnly(outcome.svr, old(items))
      ensures var d := Decide(Call(Kind.Update, svr, resolve), Lookup(old(items), svr.addr), now);
              outcome == OutcomeOf(d) && View() == Commit(old(View()), d, svr.addr, now, score)
    {
      var existing := Get(svr.addr);
      if existing.None? {
        return NotFound;
      }
      var subject := svr;
      if existing.value.version > svr.version {
        var resolved := resolve(existing.value, now);
        if resolved.None? {
          return Kept(existing.value);
        }
        subject := resolved.value;
      }
      var saved := Save(subject, now);
      return Saved(saved);
    }

    /**
     * A stored record that is not newer is deleted, and a newer one exactly if the callback agrees; the
     * address is gone afterwards in these cases and when it was not there.
     */
    method Remove(svr: Server, resolve: Resolver, now: Nanos) returns (outcome: Outcome)
      requires Valid()
      modifies this
      ensures Valid()
      ensures outcome.Removed? || outcome.Spared?
      ensures outcome.Removed? <==>
        && svr.addr in old(items)
        && (old(items)[svr.addr].version <= svr.version || resolve(old(items)[svr.addr], now).Some?)
      ensures svr.addr !in items <==> svr.addr !in old(items) || outcome.Removed?
      ensures items == if outcome.Removed? then old(items) - {svr.addr} else old(items)
      ensures var d := Decide(Call(Kind.Remove, svr, resolve), Lookup(old(items), svr.addr), now);
              outcome == OutcomeOf(d) && View() == Commit(old(View()), d, svr.addr, now, score)
    {
      var existing := Get(svr.addr);
      if existing.None? {
        return Spared;
      }
      if existing.value.version > svr.version {
        var resolved := resolve(existing.value, now);
        if resolved.None? {
          return Spared;
        }
      }
      ghost var before := View();
      items := items - {svr.addr};
      updated := updated - {svr.addr};
      refreshed := refreshed - {svr.addr};
      UntagSets(svr.addr);
      DropKeepsConsistent(before, svr.addr, score);
      return Removed;
    }

    method UntagSets(a: Addr)
      modifies this`sets
      ensures sets == Untag(old(sets), a)
    {
      ghost var before := sets;
      for k := 0 to 9
        invariant forall i :: k <= i < 9 ==> sets[i] == before[i]
        invariant forall i :: 0 <= i < k ==> sets[i] == before[i] - {a}
      {
        sets := sets[k := sets[k] - {a}];
      }
    }

    // ---- filtering -----------------------------------------------------------------

    /** ZRANGE by score: the members below an exclusive or not below an inclusive bound. */
    method RangeByScore(zset: map<Addr, int>, below: Option<Nanos>, notBelow: Option<Nanos>) returns (keys: seq<Addr>)
      ensures NoDuplicates(keys)
      ensures forall a :: a in keys <==> a in zset && Below(zset[a], below, score) && NotBelow(zset[a], notBelow, score)
    {
      keys := Enumerate(set a | a in zset && Below(zset[a], below, score) && NotBelow(zset[a], notBelow, score));
    }

    /** The ranges that the timestamp criteria ask for, one for each criterion that is set. */
    method TimestampFilters(fs: FilterSet) returns (wanted: seq<seq<Addr>>)
      ensures forall a :: InAll(a, wanted) <==> InRanges(a, fs)
      ensures wanted == [] <==>
        fs.activeBefore.None? && fs.activeAfter.None? && fs.updatedBefore.None? && fs.updatedAfter.None?
    {
      wanted := [];
      if fs.activeBefore.Some? {
        var keys := RangeByScore(refreshed, fs.activeBefore, None);
        InAllAppend(wanted, keys);
        wanted := wanted + [keys];
      }
      if fs.activeAfter.Some? {
        var keys := RangeByScore(refreshed, None, fs.activeAfter);
        InAllAppend(wanted, keys);
        wanted := wanted + [keys];
      }
      if fs.updatedBefore.Some? {
        var keys := RangeByScore(updated, fs.updatedBefore, None);
        InAllAppend(wanted, keys);
        wanted := wanted + [keys];
      }
      if fs.updatedAfter.Some? {
        var keys := RangeByScore(updated, None, fs.updatedAfter);
        InAllAppend(wanted, keys);
        wanted := wanted + [keys];
      }
    }

    ghost predicate InRanges(a: Addr, fs: FilterSet)
      reads this
    {
      && (fs.activeBefore.Some? ==> a in refreshed && Below(refreshed[a], fs.activeBefore, score))
      && (fs.activeAfter.Some? ==> a in refreshed && NotBelow(refreshed[a], fs.activeAfter, score))
      && (fs.updatedBefore.Some? ==> a in updated && Below(updated[a], fs.updatedBefore, score))
      && (fs.updatedAfter.Some? ==> a in updated && NotBelow(updated[a], fs.updatedAfter, score))
    }

    /** SINTER of the sets of the bits. */
    method InterSets(bits: seq<Status>) returns (keys: seq<Addr>)
      requires bits != [] && forall b :: b in bits ==> b in Members()
      ensures NoDuplicates(keys)
      ensures forall a :: a in keys <==> forall b :: b in bits ==> a in sets[IndexOf(b)]
    {
      hide Members;
      var common := sets[IndexOf(bits[0])];
      for i := 1 to |bits|
        invariant forall a :: a in common <==> forall b :: b in bits[..i] ==> a in sets[IndexOf(b)]
      {
        assert bits[..i + 1] == bits[..i] + [bits[i]];
        common := common * sets[IndexOf(bits[i])];
      }
      assert bits[..|bits|] == bits;
      keys := Enumerate(common);
    }

    /** SUNION of the sets of the bits. */
    method UnionSets(bits: seq<Status>) returns (keys: seq<Addr>)
      requires forall b :: b in bits ==> b in Members()
      ensures NoDuplicates(keys)
      ensures forall a :: a in keys <==> exists b :: b in bits && a in sets[IndexOf(b)]
    {
      hide Members;
      var all: set<Addr> := {};
      for i := 0 to |bits|
        invariant forall a :: a in all <==> exists b :: b in bits[..i] && a in sets[IndexOf(b)]
      {
        assert bits[..i + 1] == bits[..i] + [bits[i]];
        all := all + sets[IndexOf(bits[i])];
      }
      assert bits[..|bits|] == bits;
      keys := Enumerate(all);
    }

    /** The address is in the set of every bit of the status. */
    ghost predicate TaggedAll(a: Addr, bits: Status)
      reads this
    {
      forall b :: b in Members() && Has(bits, b) ==> a in sets[IndexOf(b)]
    }

    ghost predicate TaggedAny(a: Addr, bits: Status)
      reads this
    {
      exists b :: b in Members() && Has(bits, b) && a in sets[IndexOf(b)]
    }

    /** Adds the intersection of the wanted sets to the inclusions, and lists the union of the unwanted sets. */
    method StatusFilters(fs: FilterSet, wanted0: seq<seq<Addr>>)
      returns (wanted: seq<seq<Addr>>, unwanted: seq<seq<Addr>>)
      ensures forall a :: InAll(a, wanted) <==> InAll(a, wanted0) && TaggedAll(a, fs.withStatus)
      ensures forall a :: NotInAny(a, unwanted) <==> !TaggedAny(a, fs.noStatus)
      ensures wanted == [] ==> wanted0 == []
      ensures wanted != [] ==> wanted0 != [] || exists b :: b in Members() && Has(fs.withStatus, b)
    {
      hide Members, Has;
      wanted, unwanted := wanted0, [];
      var bits := Bits(fs.withStatus);
      if |bits| > 0 {
        var tagged := InterSets(bits);
        InAllAppend(wanted, tagged);
        wanted := wanted + [tagged];
        assert bits[0] in bits;
      }
      bits := Bits(fs.noStatus);
      if |bits| > 0 {
        var tagged := UnionSets(bits);
        unwanted := unwanted + [tagged];
        assert unwanted[0] == tagged;
        assert forall a :: NotInAny(a, unwanted) <==> a !in tagged;
      } else {
        assert forall a :: !TaggedAny(a, fs.noStatus);
      }
    }

    /** The keys of the servers that pass: the ranges and sets asked for, without the excluded sets. */
    method FilterKeys(fs: FilterSet) returns (keys: seq<Addr>)
      requires Valid()
      ensures NoDuplicates(keys)
      ensures forall a :: a in keys <==> Matches(fs, View(), a, score)
    {
      hide Members, Has, HasAny, Consistent, InRanges, TaggedAll, TaggedAny, Matches;
      var wanted := TimestampFilters(fs);
      var unwanted;
      wanted, unwanted := StatusFilters(fs, wanted);
      AllStored(fs);
      if |wanted| == 0 {
        var everything := RangeByScore(updated, None, None);
        InAllAppend(wanted, everything);
        wanted := wanted + [everything];
      }
      var common := Intersection(wanted);
      assert forall a :: a in common <==> InAll(a, wanted);
      keys := Difference(common, unwanted);
      assert forall a :: a in keys <==> a in common && NotInAny(a, unwanted);
      forall a ensures a in keys <==> Matches(fs, View(), a, score) {
        KeysMatch(fs, a);
      }
    }

    /** Whatever an index lists is stored, and every stored record is in the update index. */
    lemma AllStored(fs: FilterSet)
      requires Valid()
      ensures forall a :: a in updated <==> a in items
      ensures (exists b :: b in Members() && Has(fs.withStatus, b)) ==> forall a :: TaggedAll(a, fs.withStatus) ==>
        a in items
      ensures fs.activeBefore.Some? || fs.activeAfter.Some? || fs.updatedBefore.Some? || fs.updatedAfter.Some? ==>
        forall a :: InRanges(a, fs) ==> a in items
    {
      hide Has, Members;
    }

    /** Membership in the indices says what the criteria say about the record. */
    lemma KeysMatch(fs: FilterSet, a: Addr)
      requires Valid()
      ensures Matches(fs, View(), a, score) <==>
        a in items && InRanges(a, fs) && TaggedAll(a, fs.withStatus) && !TaggedAny(a, fs.noStatus)
    {
      if a in items {
        WithBits(items[a].status, fs.withStatus);
        NoBits(items[a].status, fs.noStatus);
      }
      hide Members, Has, HasAny;
    }

    /** Filter on a quiescent store: the matching records, each once. HMGET finds every key it is given. */
    method Filter(fs: FilterSet) returns (servers: seq<Server>)
      requires Valid()
      ensures forall i, j :: 0 <= i < j < |servers| ==> servers[i].addr != servers[j].addr
      ensures forall svr :: svr in servers <==> Matches(fs, View(), svr.addr, score) && svr == items[svr.addr]
    {
      var keys := FilterKeys(fs);
      hide Members, Has, HasAny;
      assert forall a :: a in items ==> items[a].addr == a;
      servers := [];
      for i := 0 to |keys|
        invariant |servers| == i && forall k :: 0 <= k < i ==> keys[k] in items && servers[k] == items[keys[k]]
      {
        assert keys[i] in keys;
        servers := servers + [items[keys[i]]];
      }
      forall svr ensures svr in servers <==> Matches(fs, View(), svr.addr, score) && svr == items[svr.addr] {
        if Matches(fs, View(), svr.addr, score) {
          var k :| 0 <= k < |keys| && keys[k] == svr.addr;
          assert servers[k] == items[svr.addr];
        }
      }
    }

    method Count() returns (n: nat)
      ensures n == |items|
    {
      return |items|;
    }

    /** For each status, how many stored records carry it. */
    method CountByStatus() returns (counts: seq<nat>)
      requires Valid()
      ensures |counts| == 9
      ensures forall k :: 0 <= k < 9 ==> counts[k] == |set a | a in items && Has(items[a].status, Members()[k])|
    {
      hide Members, Has;
      counts := [];
      for k := 0 to 9
        invariant |counts| == k
        invariant forall i :: 0 <= i < k ==> counts[i] == |sets[i]|
      {
        counts := counts + [|sets[k]|];
      }
      forall k | 0 <= k < 9 ensures counts[k] == |set a | a in items && Has(items[a].status, Members()[k])| {
        CardinalityIsScan(View(), k, score);
      }
    }
  }

  ghost predicate InAll(a: Addr, slices: seq<seq<Addr>>) {
    forall i :: 0 <= i < |slices| ==> a in slices[i]
  }

  ghost predicate NotInAny(a: Addr, slices: seq<seq<Addr>>) {
    forall i :: 0 <= i < |slices| ==> a !in slices[i]
  }

  lemma InAllAppend(slices: seq<seq<Addr>>, keys: seq<Addr>)
    ensures forall a :: InAll(a, slices + [keys]) <==> InAll(a, slices) && a in keys
  {
    forall a ensures InAll(a, slices + [keys]) <==> InAll(a, slices) && a in keys {
      if InAll(a, slices + [keys]) {
        assert (slices + [keys])[|slices|] == keys;
        assert forall i :: 0 <= i < |slices| ==> (slices + [keys])[i] == slices[i];
      }
    }
  }

  /** The place of a status set. */
  function IndexOf(bit: Status): (k: nat)
    requires bit in Members()
    ensures k < 9 && Members()[k] == bit
  {
    var k :| 0 <= k < 9 && Members()[k] == bit; k
  }

  /** Containment of one word in another, bit by bit. */
  lemma BitByBit(s: Status, bits: Status)
    ensures Has(s, bits) <==>
      && (Has(bits, 1) ==> Has(s, 1)) && (Has(bits, 2) ==> Has(s, 2)) && (Has(bits, 4) ==> Has(s, 4))
      && (Has(bits, 8) ==> Has(s, 8)) && (Has(bits, 16) ==> Has(s, 16)) && (Has(bits, 32) ==> Has(s, 32))
      && (Has(bits, 64) ==> Has(s, 64)) && (Has(bits, 128) ==> Has(s, 128)) && (Has(bits, 256) ==> Has(s, 256))
    ensures HasAny(s, bits) <==>
      || (Has(bits, 1) && Has(s, 1)) || (Has(bits, 2) && Has(s, 2)) || (Has(bits, 4) && Has(s, 4))
      || (Has(bits, 8) && Has(s, 8)) || (Has(bits, 16) && Has(s, 16)) || (Has(bits, 32) && Has(s, 32))
      || (Has(bits, 64) && Has(s, 64)) || (Has(bits, 128) && Has(s, 128)) || (Has(bits, 256) && Has(s, 256))
  {
  }

  lemma MembersAre()
    ensures forall b :: b in Members() <==>
      b == 1 || b == 2 || b == 4 || b == 8 || b == 16 || b == 32 || b == 64 || b == 128 || b == 256
  {
    var m := Members();
    assert m[0] == 1 && m[1] == 2 && m[2] == 4 && m[3] == 8 && m[4] == 16 && m[5] == 32 && m[6] == 64 && m[7] == 128
      && m[8] == 256;
  }

  /** A status has all the wanted bits if it has each of them. */
  lemma WithBits(s: Status, bits: Status)
    ensures Has(s, bits) <==> forall b :: b in Members() && Has(bits, b) ==> Has(s, b)
  {
    BitByBit(s, bits);
    MembersAre();
    hide Has, Members;
  }

  lemma NoBits(s: Status, bits: Status)
    ensures HasAny(s, bits) <==> exists b :: b in Members() && Has(bits, b) && Has(s, b)
  {
    BitByBit(s, bits);
    MembersAre();
    hide Has, HasAny, Members;
  }
}
