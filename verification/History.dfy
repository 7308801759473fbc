/**
 * What follows from a serial history: versions grow within one life of an address, no update
 * is lost there, and what the cleaner's conflict callback does and does not protect.
 */
module History {
  import opened Entities
  import opened Store
  import opened LockProtocol

  /** No record is removed from the address between two points of the history. */
  ghost predicate Lives(log: seq<Entry>, i: nat, j: nat, a: Addr) {
    forall k :: i <= k < j && k < |log| && log[k].addr == a ==> log[k].after.Some?
  }

  lemma ReplaySnoc(log: seq<Entry>, n: nat)
    requires n < |log|
    ensures Replay(log[..n + 1]) == Assign(Replay(log[..n]), log[n].addr, log[n].after)
  {
    assert log[..n + 1][..n] == log[..n];
  }

  /** One entry either leaves the record of an address alone, or raises its version, or removes it. */
  lemma EntryRaisesVersion(log: seq<Entry>, n: nat, a: Addr)
    requires SerialLog(log) && n < |log|
    ensures log[n].addr != a ==> Lookup(Replay(log[..n + 1]), a) == Lookup(Replay(log[..n]), a)
    ensures log[n].addr == a ==>
      && log[n].before == Lookup(Replay(log[..n]), a) && Lookup(Replay(log[..n + 1]), a) == log[n].after
      && (log[n].before.Some? && log[n].after.Some? ==> log[n].after.value.version > log[n].before.value.version)
  {
    var e := log[n];
    ReplaySnoc(log, n);
    assert Serial(e, Replay(log[..n]));
    hide Replay, Decide;
    if e.before.Some? {
      DecideRaisesVersion(e.call, e.before.value, e.decidedAt);
    }
  }

  /** While an address lives, its record either stays the same or gets a greater version. */
  lemma {:induction false} StoredVersionGrows(log: seq<Entry>, i: nat, j: nat, a: Addr)
    requires SerialLog(log) && i <= j <= |log| && Lives(log, i, j, a)
    requires Lookup(Replay(log[..i]), a).Some?
    ensures Lookup(Replay(log[..j]), a).Some?
    ensures Lookup(Replay(log[..j]), a) == Lookup(Replay(log[..i]), a)
         || Lookup(Replay(log[..j]), a).value.version > Lookup(Replay(log[..i]), a).value.version
  {
    hide SerialLog, Replay, Lookup;
    if i < j {
      StoredVersionGrows(log, i, j - 1, a);
      EntryRaisesVersion(log, j - 1, a);
    }
  }

  /** Within one life of an address the versions written strictly increase. */
  lemma VersionsIncrease(log: seq<Entry>, i: nat, j: nat)
    requires SerialLog(log) && i < j < |log| && log[i].addr == log[j].addr
    requires Lives(log, i, j + 1, log[i].addr)
    ensures log[i].after.Some? && log[j].after.Some? && log[i].after.value.version < log[j].after.value.version
  {
    hide SerialLog, Replay, Lookup;
    EntryRaisesVersion(log, i, log[i].addr);
    StoredVersionGrows(log, i + 1, j, log[i].addr);
    EntryRaisesVersion(log, j, log[i].addr);
  }

  // ---- lost updates ----------------------------------------------------------------

  /** The update was applied to the very record its caller had read. */
  ghost predicate AppliedToBase(e: Entry, base: Server) {
    e.before == Some(base) && e.after == Some(e.call.svr.Bumped())
  }

  /** The update was resolved by the caller's conflict callback on the record that was stored. */
  ghost predicate Resolved(e: Entry) {
    && e.before.Some? && e.before.value.version > e.call.svr.version
    && e.call.resolve(e.before.value, e.decidedAt).Some?
    && e.after == Some(e.call.resolve(e.before.value, e.decidedAt).value.Bumped())
  }

  /** An update made from a record that was read at some point of the history, keeping its address and version. */
  ghost predicate UpdateFrom(log: seq<Entry>, j: nat, base: Server, at: nat) {
    && j < |log| && at <= j && log[j].call.kind.Update?
    && Lookup(Replay(log[..at]), log[j].addr) == Some(base)
    && log[j].call.svr.version == base.version
  }

  /**
   * No update is lost while the address lives: every committed update either applies to exactly
   * the record its caller had read, or has gone through the conflict callback.
   */
  lemma NoLostUpdate(log: seq<Entry>, j: nat, base: Server, at: nat)
    requires SerialLog(log) && UpdateFrom(log, j, base, at) && Lives(log, at, j, log[j].addr)
    ensures AppliedToBase(log[j], base) || Resolved(log[j])
  {
    StoredVersionGrows(log, at, j, log[j].addr);
    assert Serial(log[j], Replay(log[..j]));
  }

  /**
   * In general an update is sound exactly if the stored record is the one that was read or has a
   * greater version; a version that is not greater on another record means the address died in between.
   */
  lemma UpdateSoundIff(log: seq<Entry>, j: nat, base: Server, at: nat)
    requires SerialLog(log) && UpdateFrom(log, j, base, at)
    ensures log[j].before.Some?
    ensures AppliedToBase(log[j], base) || Resolved(log[j])
       <==> log[j].before == Some(base) || log[j].before.value.version > base.version
    ensures !(AppliedToBase(log[j], base) || Resolved(log[j])) ==> !Lives(log, at, j, log[j].addr)
  {
    var e := log[j];
    assert Serial(e, Replay(log[..j]));
    if Lives(log, at, j, e.addr) {
      NoLostUpdate(log, j, base, at);
    }
  }

  // ---- the cleaner -----------------------------------------------------------------

  /** The cleaner's conflict callback: a record refreshed after the cutoff is not to be removed. */
  function Spare(cutoff: Nanos): Resolver {
    (s: Server, t: Nanos) => if Fresh(s, cutoff) then None else Some(s)
  }

  predicate Fresh(s: Server, cutoff: Nanos) {
    s.refreshedAt.Some? && s.refreshedAt.value > cutoff
  }

  /** A removal made by the cleaner with the record it fetched at some point of the history. */
  ghost predicate CleanedFrom(log: seq<Entry>, j: nat, base: Server, at: nat, cutoff: Nanos) {
    && j < |log| && at <= j && log[j].call == Call(Remove, base, Spare(cutoff))
    && Lookup(Replay(log[..at]), log[j].addr) == Some(base)
  }

  /**
   * While the address lives, the cleaner deletes a fresh record exactly if that is the record
   * it fetched and it was already fresh then.
   */
  lemma CleanerDeletesFreshIff(log: seq<Entry>, j: nat, base: Server, at: nat, cutoff: Nanos)
    requires SerialLog(log) && CleanedFrom(log, j, base, at, cutoff) && Lives(log, at, j, log[j].addr)
    ensures log[j].before.Some? && log[j].after.None?
    ensures Fresh(log[j].before.value, cutoff) <==> log[j].before == Some(base) && Fresh(base, cutoff)
  {
    StoredVersionGrows(log, at, j, log[j].addr);
    assert Serial(log[j], Replay(log[..j]));
  }

  /**
   * In general it deletes a fresh record only if that one's version is not greater than the fetched
   * one's; and if it is not the fetched one itself, the address died in between.
   */
  lemma CleanerDeletesFreshOnlyIf(log: seq<Entry>, j: nat, base: Server, at: nat, cutoff: Nanos)
    requires SerialLog(log) && CleanedFrom(log, j, base, at, cutoff)
    ensures log[j].before.Some? && log[j].after.None?
    ensures Fresh(log[j].before.value, cutoff) ==> log[j].before.value.version <= base.version
    ensures Fresh(log[j].before.value, cutoff) && log[j].before != Some(base) ==> !Lives(log, at, j, log[j].addr)
  {
    assert Serial(log[j], Replay(log[..j]));
    if Lives(log, at, j, log[j].addr) {
      CleanerDeletesFreshIff(log, j, base, at, cutoff);
    }
  }

  /** Every stored record was refreshed no later than it was saved. */
  ghost predicate Timely(log: seq<Entry>) {
    forall i :: 0 <= i < |log| && log[i].after.Some? && log[i].after.value.refreshedAt.Some? ==>
      log[i].after.value.refreshedAt.value <= log[i].stamp
  }

  lemma {:induction false} StampCoversRefresh(log: seq<Entry>, n: nat, a: Addr)
    requires Timely(log) && n <= |log| && a in Replay(log[..n])
    ensures a in Stamps(log[..n])
    ensures Replay(log[..n])[a].refreshedAt.Some? ==> Replay(log[..n])[a].refreshedAt.value <= Stamps(log[..n])[a]
  {
    if n > 0 {
      ReplaySnoc(log, n - 1);
      assert log[..n][..n - 1] == log[..n - 1];
      if log[n - 1].addr != a {
        StampCoversRefresh(log, n - 1, a);
      }
    }
  }

  /**
   * A cleaner whose fetched record is the one its filter selected never deletes a server
   * refreshed after the cutoff, whatever commits between its filter and its removal.
   */
  lemma CleanerSparesFresh(log: seq<Entry>, j: nat, base: Server, at: nat, cutoff: Nanos, score: Rounding)
    requires SerialLog(log) && Timely(log)
    requires CleanedFrom(log, j, base, at, cutoff) && Lives(log, at, j, log[j].addr)
    requires log[j].addr in Stamps(log[..at]) && score(Stamps(log[..at])[log[j].addr]) < score(cutoff)
    ensures log[j].before.Some? && log[j].after.None? && !Fresh(log[j].before.value, cutoff)
  {
    CleanerDeletesFreshIff(log, j, base, at, cutoff);
    StampCoversRefresh(log, at, log[j].addr);
  }

  lemma {:induction false} UntouchedStays(log: seq<Entry>, i: nat, j: nat, a: Addr)
    requires i <= j <= |log| && forall k :: i <= k < j ==> log[k].addr != a
    ensures Lookup(Replay(log[..j]), a) == Lookup(Replay(log[..i]), a)
    decreases j - i
  {
    if i < j {
      UntouchedStays(log, i, j - 1, a);
      ReplaySnoc(log, j - 1);
    }
  }

  /** A record that is fresh although a filter had selected its address before was saved in between. */
  lemma FreshFetchedWasSaved(log: seq<Entry>, f: nat, at: nat, a: Addr, cutoff: Nanos, score: Rounding)
    requires Timely(log) && f <= at <= |log| && a in Replay(log[..at])
    requires a in Stamps(log[..f]) && score(Stamps(log[..f])[a]) < score(cutoff)
    ensures Fresh(Replay(log[..at])[a], cutoff) ==> exists k :: f <= k < at && log[k].addr == a
  {
    if forall k :: f <= k < at ==> log[k].addr != a {
      UntouchedStays(log, f, at, a);
      StampCoversRefresh(log, f, a);
    }
  }

  // ---- concrete histories in which the guarantees above do not apply ------------------

  const HOME := Addr(1, 10480)

  function Record(status: Status, refreshed: Nanos, version: int): Server {
    Server(HOME, 10481, status, BLANK_INFO, BLANK_DETAILS, Some(refreshed), version)
  }

  function Always(): Resolver {
    (s: Server, t: Nanos) => Some(s)
  }

  function Logged(i: nat, call: Call, before: Option<Server>, after: Option<Server>, stamp: Nanos): Entry {
    Entry(HOME, i, i, call, None, before, after, stamp, stamp, 2 * i, 2 * i + 1)
  }

  /** A record is read, removed and added again; the stale update then overwrites the new record unseen. */
  function Reborn(): seq<Entry> {
    [Logged(0, Call(Add, Record(MASTER, 1, 0), Always()), None, Some(Record(MASTER, 1, 1)), 1),
     Logged(1, Call(Remove, Record(MASTER, 1, 1), Always()), Some(Record(MASTER, 1, 1)), None, 2),
     Logged(2, Call(Add, Record(INFO, 3, 0), Always()), None, Some(Record(INFO, 3, 1)), 3),
     Logged(3, Call(Update, Record(NO_PORT, 1, 1), Always()), Some(Record(INFO, 3, 1)), Some(Record(NO_PORT, 1, 2)), 4)]
  }

  lemma Replay4(log: seq<Entry>)
    requires |log| == 4 && forall i :: 0 <= i < 4 ==> log[i].addr == HOME
    ensures Lookup(Replay(log[..0]), HOME) == None
    ensures forall i :: 0 <= i < 4 ==> Lookup(Replay(log[..i + 1]), HOME) == log[i].after
  {
    ReplaySnoc(log, 0);
    ReplaySnoc(log, 1);
    ReplaySnoc(log, 2);
    ReplaySnoc(log, 3);
  }

  lemma RebornBegins()
    ensures var log := Reborn(); Serial(log[0], Replay(log[..0])) && Serial(log[1], Replay(log[..1]))
  {
    Replay4(Reborn());
    hide Replay;
  }

  lemma RebornEnds()
    ensures var log := Reborn(); Serial(log[2], Replay(log[..2])) && Serial(log[3], Replay(log[..3]))
  {
    Replay4(Reborn());
    hide Replay;
  }

  lemma UpdateLostAcrossLives()
    ensures SerialLog(Reborn()) && UpdateFrom(Reborn(), 3, Record(MASTER, 1, 1), 1)
    ensures !AppliedToBase(Reborn()[3], Record(MASTER, 1, 1)) && !Resolved(Reborn()[3])
  {
    RebornBegins();
    RebornEnds();
    Replay4(Reborn());
    hide Replay, Serial;
  }

  /**
   * The cleaner scans the index when only the first entry is there and fetches the record after
   * the second: the fetched record is fresh, and is deleted.
   */
  function ScannedThenFetched(): seq<Entry> {
    [Logged(0, Call(Add, Record(MASTER, 1, 0), Always()), None, Some(Record(MASTER, 1, 1)), 1),
     Logged(1, Call(Update, Record(MASTER, 9, 1), Always()), Some(Record(MASTER, 1, 1)), Some(Record(MASTER, 9, 2)), 9),
     Logged(2, Call(Remove, Record(MASTER, 9, 2), Spare(5)), Some(Record(MASTER, 9, 2)), None, 10),
     Logged(3, Call(Add, Record(MASTER, 11, 0), Always()), None, Some(Record(MASTER, 11, 1)), 11)]
  }

  lemma ScannedThenFetchedBegins()
    ensures var log := ScannedThenFetched(); Serial(log[0], Replay(log[..0])) && Serial(log[1], Replay(log[..1]))
  {
    Replay4(ScannedThenFetched());
    hide Replay;
  }

  lemma ScannedThenFetchedEnds()
    ensures var log := ScannedThenFetched(); Serial(log[2], Replay(log[..2])) && Serial(log[3], Replay(log[..3]))
    ensures Lookup(Replay(ScannedThenFetched()[..2]), HOME) == Some(Record(MASTER, 9, 2))
  {
    Replay4(ScannedThenFetched());
    hide Replay;
  }

  lemma ScannedThenFetchedIsSerial()
    ensures SerialLog(ScannedThenFetched()) && Timely(ScannedThenFetched())
  {
    ScannedThenFetchedBegins();
    ScannedThenFetchedEnds();
    hide Replay, Serial;
  }

  lemma CleanerDeletesFreshAfterSplitRead()
    ensures var log := ScannedThenFetched();
            && SerialLog(log) && Timely(log)
            && HOME in Stamps(log[..1]) && Stamps(log[..1])[HOME] < 5
            && CleanedFrom(log, 2, Record(MASTER, 9, 2), 2, 5) && Lives(log, 1, 2, HOME)
            && Fresh(log[2].before.value, 5) && log[2].after == None
  {
    ScannedThenFetchedIsSerial();
    ScannedThenFetchedEnds();
    hide Replay, SerialLog, Timely;
    assert ScannedThenFetched()[..1][..0] == [];
  }
}

/** The same for the history of any run of the protocol. */
module RunHistory {
  import opened Entities
  import opened Store
  import opened LockProtocol
  import opened LockSafety
  import opened Serializability
  import opened History

  /**
   * Whatever a client holds, and whatever it held when it began its current or latest call, was the
   * stored record at the point of the history that is noted with it.
   */
  lemma HeldIsGenuine(start: Nanos, events: seq<Event>, score: Rounding, c: nat)
    requires SaneRun(events)
    ensures var s := Run(Init(start), events, score);
            && Genuine(s.log, ClientOf(s, c).held)
            && Genuine(s.log, ClientOf(s, c).base)
            && ClientOf(s, c).entered <= |s.log|
  {
    hide Run, Genuine, Linearized, Decide, Sane;
    RunKeeps(start, events, score);
    ClientOfOk(Run(Init(start), events, score), c, score);
    hide Inv, LockOk, SightOk;
  }

  /** The same of the record that the call of a committed entry began from. */
  lemma BaseIsGenuine(start: Nanos, events: seq<Event>, score: Rounding, j: nat)
    requires SaneRun(events) && j < |Run(Init(start), events, score).log|
    ensures var log := Run(Init(start), events, score).log;
            && SerialLog(log)
            && (log[j].base.Some? ==>
                  && log[j].base.value.at <= j
                  && Lookup(Replay(log[..log[j].base.value.at]), log[j].base.value.svr.addr) ==
                       Some(log[j].base.value.svr))
  {
    hide Run, SerialLog, Exclusive, OncePerCall, Replay, Consistent, StampOk, ClientOk, Apart;
    RunKeeps(start, events, score);
    var log := Run(Init(start), events, score).log;
    assert Genuine(log[..j], log[j].base);
    if log[j].base.Some? {
      assert log[..j][..log[j].base.value.at] == log[..log[j].base.value.at];
    }
  }

  /**
   * No run loses an update: a committed update made from the record its client held, read by
   * whatever call at whatever time before, applies to exactly that record or went through the
   * conflict callback, if the address lived on in between.
   */
  lemma RunLosesNoUpdate(start: Nanos, events: seq<Event>, score: Rounding, j: nat)
    requires SaneRun(events)
    requires var log := Run(Init(start), events, score).log;
             && j < |log| && log[j].call.kind.Update? && log[j].base.Some?
             && var base := log[j].base.value;
             && log[j].addr == base.svr.addr && log[j].call.svr.version == base.svr.version
             && Lives(log, base.at, j, log[j].addr)
    ensures var e := Run(Init(start), events, score).log[j];
            AppliedToBase(e, e.base.value.svr) || Resolved(e)
  {
    hide Run, SerialLog, Replay, Lives, AppliedToBase, Resolved, SaneRun;
    BaseIsGenuine(start, events, score, j);
    var log := Run(Init(start), events, score).log;
    NoLostUpdate(log, j, log[j].base.value.svr, log[j].base.value.at);
  }
}
