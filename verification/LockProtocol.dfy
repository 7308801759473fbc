/**
 * Any number of clients running exclusive calls against one Redis, command by command.
 *
 * A run is a sequence of events: a client reads a record, begins a call, or moves one command
 * further; a lock expires; the clock advances. Every command is atomic, nothing else is.
 */
module LockProtocol {
  import opened Entities
  import opened Store

  const MAX_ATTEMPTS := 5

  /** A record in a client's hands, and the length of the history when it was read. */
  datatype Held = Held(svr: Server, at: nat)

  /** What the operation guarded by the lock comes to: ErrNotAcquired, or an answer for the caller. */
  datatype Verdict = Again | Settled(outcome: Outcome)

  /** What the HGET saw, and the length of the history at that moment. */
  datatype Sight = Sight(svr: Option<Server>, at: nat)

  /** The next command of a client. */
  datatype Pc =
    | Idle
    | Knocking                                                // SET key token NX
    | Acquired(token: nat)                                    // WATCH key
    | Watching(token: nat)                                    // GET key, compare
    | Owning(token: nat, since: nat)                          // HGET record
    | Deciding(token: nat, since: nat, seen: Sight)           // pick the branch, maybe call back
    | Stamping(token: nat, since: nat, seen: Sight, decidedAt: Nanos)               // read the clock
    | Ready(token: nat, since: nat, seen: Sight, decidedAt: Nanos, stamp: Nanos)    // EXEC
    | Checking(token: nat, verdict: Verdict)                  // release: GET key, compare
    | Deleting(token: nat, verdict: Verdict)                  // release: DEL key
  {
    predicate HasToken() {
      !Idle? && !Knocking?
    }

    /** The key is being watched. */
    predicate Watches() {
      Watching? || Owns()
    }

    /** The ownership check has passed and the transaction is still to come. */
    predicate Owns() {
      Owning? || HasSeen()
    }

    predicate HasSeen() {
      Deciding? || HasDecided()
    }

    /** A write was decided on. */
    predicate HasDecided() {
      Stamping? || Ready?
    }
  }

  /**
   * `attempts` counts the attempts left, `dirty` is the server-side flag set when the watched
   * key changes, `base` is what the client held when it began the call, `entered` the length
   * of the history at that moment, and `last` the answer to the most recent call.
   */
  datatype Client = Client(
    held: Option<Held>, id: nat, call: Call, base: Option<Held>, entered: nat,
    attempts: nat, pc: Pc, dirty: bool, last: Option<Outcome>)
  {
    function Addr(): Addr {
      call.svr.addr
    }

    predicate Called() {
      !pc.Idle? || last.Some?
    }

    /** The answer of the most recent call, as soon as it is settled. */
    function Answer(): Option<Outcome> {
      if pc.Idle? then last
      else if (pc.Checking? || pc.Deleting?) && pc.verdict.Settled? then Some(pc.verdict.outcome)
      else None
    }
  }

  /** One committed transaction. `since` and `at` number the steps of its ownership check and of its EXEC. */
  datatype Entry = Entry(
    addr: Addr, client: nat, id: nat, call: Call, base: Option<Held>,
    before: Option<Server>, after: Option<Server>,
    decidedAt: Nanos, stamp: Nanos, since: nat, at: nat)

  datatype System = System(
    db: Db, locks: map<Addr, nat>, clock: Nanos, tokens: nat, calls: nat, steps: nat,
    clients: map<nat, Client>, log: seq<Entry>)

  /** How a client turns what it holds and the time into a call. */
  type Maker = (Option<Server>, Nanos) -> Call

  datatype Event =
    | Fetch(c: nat, a: Addr)
    | Begin(c: nat, make: Maker)
    | Move(c: nat)
    | Expire(a: Addr)
    | Tick(d: nat)

  const NOBODY := Server(Addr(0, 0), 0, 0, BLANK_INFO, BLANK_DETAILS, None, 0)
  const FRESH := Client(None, 0, Call(Remove, NOBODY, (s, t) => None), None, 0, 0, Idle, false, None)

  function ClientOf(s: System, c: nat): Client {
    if c in s.clients then s.clients[c] else FRESH
  }

  function Init(clock: Nanos): System {
    System(EMPTY_DB, map[], clock, 0, 0, 0, map[], [])
  }

  /** Redis flags every connection that watches the key. */
  function Touch(clients: map<nat, Client>, a: Addr): map<nat, Client> {
    map c | c in clients ::
      if clients[c].pc.Watches() && clients[c].Addr() == a then clients[c].(dirty := true) else clients[c]
  }

  /** End of an attempt: the call is over, or the retry loop goes round once more. */
  function Conclude(k: Client, v: Verdict): Client {
    match v
    case Again => k.(pc := Knocking)
    case Settled(o) => k.(pc := Idle, last := Some(o))
  }

  function With(s: System, c: nat, k: Client): System {
    s.(clients := s.clients[c := k])
  }

  /** SET key token NX, when the key is free. */
  function Lock(s: System, c: nat): System
    requires ClientOf(s, c).attempts > 0
  {
    var k := ClientOf(s, c);
    With(s.(clients := Touch(s.clients, k.Addr()), locks := s.locks[k.Addr() := s.tokens], tokens := s.tokens + 1),
         c, k.(attempts := k.attempts - 1, pc := Acquired(s.tokens)))
  }

  /** The key disappears: deleted or expired. */
  function Unlock(s: System, a: Addr): System {
    if a in s.locks then s.(clients := Touch(s.clients, a), locks := s.locks - {a}) else s
  }

  /** The entry that EXEC adds. */
  function NewEntry(s: System, c: nat): Entry
    requires ClientOf(s, c).pc.Ready?
  {
    var k := ClientOf(s, c);
    var d := Decide(k.call, k.pc.seen.svr, k.pc.decidedAt);
    Entry(k.Addr(), c, k.id, k.call, k.base, k.pc.seen.svr, After(d, k.pc.seen.svr),
          k.pc.decidedAt, k.pc.stamp, k.pc.since, s.steps)
  }

  /** EXEC on a clean connection, with the entry it adds to the history. */
  function Exec(s: System, c: nat, score: Rounding): System
    requires ClientOf(s, c).pc.Ready?
  {
    var k := ClientOf(s, c);
    var d := Decide(k.call, k.pc.seen.svr, k.pc.decidedAt);
    var held := if d.Write? then Some(Held(d.svr, |s.log| + 1)) else k.held;
    With(s, c, k.(pc := Checking(k.pc.token, Settled(OutcomeOf(d))), held := held))
      .(db := Commit(s.db, d, k.Addr(), k.pc.stamp, score), log := s.log + [NewEntry(s, c)])
  }

  /** The branch taken on the record that was read: an answer ends the attempt, a write goes on to EXEC. */
  function Branch(k: Client, clock: Nanos): Client
    requires k.pc.Deciding?
  {
    match Decide(k.call, k.pc.seen.svr, clock)
    case Answer(o) =>
      k.(pc := Checking(k.pc.token, Settled(o)), held := if o.Kept? then Some(Held(o.svr, k.pc.seen.at)) else k.held)
    case _ => k.(pc := Stamping(k.pc.token, k.pc.since, k.pc.seen, clock))
  }

  /** The three results of the ownership check. */
  function Judge(s: System, k: Client): Client
    requires k.pc.Watching?
  {
    if k.Addr() !in s.locks then k.(pc := Checking(k.pc.token, Settled(Lost)))
    else if s.locks[k.Addr()] != k.pc.token then k.(pc := Checking(k.pc.token, Again))
    else k.(pc := Owning(k.pc.token, s.steps))
  }

  /** The next command of client `c`. */
  function Advance(s: System, c: nat, score: Rounding): System {
    var k := ClientOf(s, c);
    var a := k.Addr();
    match k.pc
    case Idle => s
    case Knocking =>
      if k.attempts == 0 then With(s, c, Conclude(k, Settled(GaveUp)))
      else if a in s.locks then With(s, c, k.(attempts := k.attempts - 1))
      else Lock(s, c)
    case Acquired(token) => With(s, c, k.(pc := Watching(token), dirty := false))
    case Watching(_) => With(s, c, Judge(s, k))
    case Owning(token, since) =>
      With(s, c, k.(pc := Deciding(token, since, Sight(Lookup(s.db.items, a), |s.log|))))
    case Deciding(_, _, _) => With(s, c, Branch(k, s.clock))
    case Stamping(token, since, seen, decidedAt) =>
      With(s, c, k.(pc := Ready(token, since, seen, decidedAt, s.clock)))
    case Ready(token, _, _, _, _) =>
      if k.dirty then With(s, c, k.(pc := Checking(token, Again))) else Exec(s, c, score)
    case Checking(token, v) =>
      if a in s.locks && s.locks[a] == token then With(s, c, k.(pc := Deleting(token, v)))
      else With(s, c, Conclude(k, v))
    case Deleting(_, v) => With(Unlock(s, a), c, Conclude(k, v))
  }

  /** A call begins with all its attempts, and remembers what the client held. */
  function Enter(s: System, c: nat, make: Maker): System {
    var k := ClientOf(s, c);
    var call := make(if k.held.Some? then Some(k.held.value.svr) else None, s.clock);
    With(s, c, k.(id := s.calls, call := call, base := k.held, entered := |s.log|,
                  attempts := MAX_ATTEMPTS, pc := Knocking, last := None))
      .(calls := s.calls + 1)
  }

  function Read(s: System, c: nat, a: Addr): System {
    var held := if a in s.db.items then Some(Held(s.db.items[a], |s.log|)) else None;
    With(s, c, ClientOf(s, c).(held := held))
  }

  function Apply(s: System, e: Event, score: Rounding): System {
    match e
    case Fetch(c, a) => if ClientOf(s, c).pc.Idle? then Read(s, c, a) else s
    case Begin(c, make) => if ClientOf(s, c).pc.Idle? then Enter(s, c, make) else s
    case Move(c) => Advance(s, c, score)
    case Expire(a) => Unlock(s, a)
    case Tick(d) => s.(clock := s.clock + d)
  }

  function Step(s: System, e: Event, score: Rounding): System {
    Apply(s, e, score).(steps := s.steps + 1)
  }

  /** The system after a whole run. */
  function Run(s: System, events: seq<Event>, score: Rounding): System {
    if events == [] then s else Step(Run(s, events[..|events| - 1], score), events[|events| - 1], score)
  }

  /** The only demand on clients: their callbacks leave the address and the version of a record alone. */
  ghost predicate SaneEvent(e: Event) {
    e.Begin? ==> forall held, t :: Sane(e.make(held, t))
  }

  // ---- the history -----------------------------------------------------------------

  /** The map that results from executing the entries one after the other. */
  function Replay(log: seq<Entry>): map<Addr, Server> {
    if log == [] then map[]
    else Assign(Replay(log[..|log| - 1]), log[|log| - 1].addr, log[|log| - 1].after)
  }

  /** When each stored record was last saved. */
  function Stamps(log: seq<Entry>): map<Addr, Nanos> {
    if log == [] then map[]
    else
      var e := log[|log| - 1];
      if e.after.Some? then Stamps(log[..|log| - 1])[e.addr := e.stamp] else Stamps(log[..|log| - 1]) - {e.addr}
  }

  /** The entry is what the sequential call does to the map. */
  ghost predicate Serial(e: Entry, items: map<Addr, Server>) {
    && e.addr == e.call.svr.addr
    && Sane(e.call)
    && e.before == Lookup(items, e.addr)
    && !Decide(e.call, e.before, e.decidedAt).Answer?
    && e.after == After(Decide(e.call, e.before, e.decidedAt), e.before)
  }

  ghost predicate SerialLog(log: seq<Entry>) {
    forall i :: 0 <= i < |log| ==> Serial(log[i], Replay(log[..i]))
  }

  /** The check-to-commit intervals of the entries for one address do not overlap. */
  ghost predicate Exclusive(log: seq<Entry>) {
    && (forall i :: 0 <= i < |log| ==> log[i].since < log[i].at)
    && (forall i, j :: 0 <= i < j < |log| && log[i].addr == log[j].addr ==> log[i].at < log[j].since)
  }

  /** No call has two entries. */
  ghost predicate OncePerCall(log: seq<Entry>) {
    forall i, j :: 0 <= i < j < |log| ==> log[i].id != log[j].id
  }

  /** A held record was the stored one at the point of the history that is noted with it. */
  ghost predicate Genuine(log: seq<Entry>, held: Option<Held>) {
    held.Some? ==>
      held.value.at <= |log| && Lookup(Replay(log[..held.value.at]), held.value.svr.addr) == Some(held.value.svr)
  }

  ghost predicate Unlogged(log: seq<Entry>, id: nat) {
    forall i :: 0 <= i < |log| ==> log[i].id != id
  }

  /** The entry of the call, made since the call began. */
  ghost predicate LoggedAt(log: seq<Entry>, k: Client, o: Outcome, i: nat) {
    && k.entered <= i < |log| && log[i].id == k.id && log[i].call == k.call
    && OutcomeOf(Decide(log[i].call, log[i].before, log[i].decidedAt)) == o
  }

  /** The answer that the sequential call gives at a point of the history passed since the call began. */
  ghost predicate ReadAt(log: seq<Entry>, k: Client, o: Outcome, n: nat, t: Nanos) {
    k.entered <= n <= |log| && Decide(k.call, Lookup(Replay(log[..n]), k.Addr()), t) == Answer(o)
  }

  /**
   * A settled call took effect exactly once if it wrote; if it did not write, it answered from
   * the map as it was at one moment of the call, or it never got hold of the lock.
   */
  ghost predicate Linearized(log: seq<Entry>, k: Client) {
    match k.Answer()
    case None => !k.pc.Idle? ==> Unlogged(log, k.id)
    case Some(o) =>
      if o.Commits() then exists i :: LoggedAt(log, k, o, i)
      else Unlogged(log, k.id) && (o.Lost? || o.GaveUp? || exists n, t :: ReadAt(log, k, o, n, t))
  }

  // ---- the invariant ---------------------------------------------------------------

  ghost predicate LogOk(s: System) {
    && SerialLog(s.log) && Replay(s.log) == s.db.items
    && Exclusive(s.log) && OncePerCall(s.log)
    && (forall i :: 0 <= i < |s.log| ==>
         s.log[i].at < s.steps && s.log[i].id < s.calls && Genuine(s.log[..i], s.log[i].base))
  }

  /** The scores of the update index are the rounded stamps of the history. */
  ghost predicate StampOk(s: System, score: Rounding) {
    forall a :: (a in s.db.updated <==> a in Stamps(s.log))
      && (a in s.db.updated ==> s.db.updated[a] == score(Stamps(s.log)[a]))
  }

  /** While its connection is clean, a client that has passed the check still owns the lock. */
  ghost predicate LockOk(s: System, k: Client) {
    && (k.pc.HasToken() ==> k.pc.token < s.tokens)
    && (k.pc.Owns() && !k.dirty ==> k.Addr() in s.locks && s.locks[k.Addr()] == k.pc.token)
  }

  /** While its connection is clean, no commit at its address falls after its check, and what it read is current. */
  ghost predicate SightOk(s: System, k: Client) {
    && (k.pc.Owns() ==> k.pc.since < s.steps)
    && (k.pc.Owns() && !k.dirty ==> forall i :: 0 <= i < |s.log| && s.log[i].addr == k.Addr() ==>
         s.log[i].at < k.pc.since)
    && (k.pc.HasSeen() ==> k.pc.seen.at <= |s.log| && k.pc.seen.svr == Lookup(Replay(s.log[..k.pc.seen.at]), k.Addr()))
    && (k.pc.HasSeen() && k.pc.seen.svr.Some? ==> k.pc.seen.svr.value.addr == k.Addr())
    && (k.pc.HasSeen() && !k.dirty ==> k.pc.seen.svr == Lookup(s.db.items, k.Addr()))
  }

  ghost predicate CallOk(s: System, k: Client) {
    && Genuine(s.log, k.held) && Genuine(s.log, k.base)
    && (k.Called() ==> Sane(k.call) && k.id < s.calls)
    && k.entered <= |s.log| && (k.pc.HasSeen() ==> k.entered <= k.pc.seen.at)
    && Linearized(s.log, k)
    && (k.pc.HasDecided() ==> !Decide(k.call, k.pc.seen.svr, k.pc.decidedAt).Answer? && k.pc.decidedAt <= s.clock)
    && (k.pc.Ready? ==> k.pc.decidedAt <= k.pc.stamp <= s.clock)
  }

  ghost predicate ClientOk(s: System, k: Client) {
    LockOk(s, k) && SightOk(s, k) && CallOk(s, k)
  }

  ghost predicate Apart(k: Client, l: Client) {
    && (k.pc.HasToken() && l.pc.HasToken() ==> k.pc.token != l.pc.token)
    && (k.Called() && l.Called() ==> k.id != l.id)
  }

  ghost predicate Inv(s: System, score: Rounding) {
    && Consistent(s.db, score) && LogOk(s) && StampOk(s, score)
    && (forall a :: a in s.locks ==> s.locks[a] < s.tokens)
    && (forall c :: c in s.clients ==> ClientOk(s, s.clients[c]))
    && (forall c, d :: c in s.clients && d in s.clients && c != d ==> Apart(s.clients[c], s.clients[d]))
  }
}
