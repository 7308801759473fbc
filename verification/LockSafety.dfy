/** Every reachable state of the protocol satisfies the invariant. */
module LockSafety {
  import opened Entities
  import opened Store
  import opened LockProtocol

  /** Nothing that the invariant says about a client depends on more than what is kept equal here. */
  ghost predicate Calm(s: System, t: System) {
    && t.db == s.db && t.log == s.log
    && s.clock <= t.clock && s.tokens <= t.tokens && s.calls <= t.calls && s.steps <= t.steps
  }

  lemma CalmClient(s: System, t: System, k: Client)
    requires Calm(s, t) && t.locks == s.locks && ClientOk(s, k)
    ensures ClientOk(t, k)
  {
    hide Linearized, Genuine, Decide, Sane, Replay;
  }

  function Touched(k: Client, a: Addr): Client {
    if k.pc.Watches() && k.Addr() == a then k.(dirty := true) else k
  }

  /** A client is unaffected by a change of a lock key, once the flag of that key's watchers is raised. */
  lemma TouchedClient(s: System, t: System, k: Client, a: Addr)
    requires Calm(s, t) && ClientOk(s, k)
    requires forall b :: b != a ==> (b in s.locks <==> b in t.locks) && (b in s.locks ==> s.locks[b] == t.locks[b])
    ensures ClientOk(t, Touched(k, a))
  {
    hide Genuine, Decide, Sane, Replay;
    var l := Touched(k, a);
    assert Linearized(t.log, l) by {
      hide Unlogged;
      assert l.Answer() == k.Answer();
      if l.Answer().Some? {
        var o := l.Answer().value;
        if o.Commits() {
          var i :| LoggedAt(s.log, k, o, i);
          assert LoggedAt(t.log, l, o, i);
        } else if !o.Lost? && !o.GaveUp? {
          var n, w :| ReadAt(s.log, k, o, n, w);
          assert ReadAt(t.log, l, o, n, w);
        }
      }
    }
  }

  lemma Frame(s: System, t: System, c: nat, score: Rounding)
    requires Inv(s, score) && Calm(s, t) && t.locks == s.locks
    requires c in t.clients && t.clients == s.clients[c := t.clients[c]]
    requires ClientOk(t, t.clients[c])
    requires forall d :: d in s.clients && d != c ==> Apart(t.clients[c], s.clients[d])
    ensures Inv(t, score)
  {
    hide ClientOk, Apart, Consistent, SerialLog, Replay, Exclusive, OncePerCall, Genuine;
    forall d | d in t.clients ensures ClientOk(t, t.clients[d]) {
      if d != c { CalmClient(s, t, s.clients[d]); }
    }
    ApartSymmetric();
  }

  lemma ApartSymmetric()
    ensures forall k, l :: Apart(k, l) ==> Apart(l, k)
  {
  }

  lemma ClientOfOk(s: System, c: nat, score: Rounding)
    requires Inv(s, score)
    ensures ClientOk(s, ClientOf(s, c))
    ensures forall d :: d in s.clients && d != c ==> Apart(ClientOf(s, c), s.clients[d])
  {
    if c in s.clients {
      hide ClientOk, Apart;
    }
  }

  /** A change of one lock key `a`, with its watchers flagged. */
  ghost predicate LockChange(s: System, t: System, a: Addr) {
    && Calm(s, t)
    && (forall b :: b != a ==> (b in s.locks <==> b in t.locks) && (b in s.locks ==> s.locks[b] == t.locks[b]))
    && (a in t.locks ==> t.locks[a] < t.tokens)
  }

  lemma LockFrameClients(s: System, t: System, c: nat, a: Addr, score: Rounding)
    requires Inv(s, score) && LockChange(s, t, a)
    requires c in t.clients && t.clients == Touch(s.clients, a)[c := t.clients[c]]
    requires ClientOk(t, t.clients[c])
    ensures forall d :: d in t.clients ==> ClientOk(t, t.clients[d])
  {
    hide ClientOk, Apart, Consistent, LogOk, StampOk, Calm;
    forall d | d in t.clients ensures ClientOk(t, t.clients[d]) {
      if d != c {
        TouchedClient(s, t, s.clients[d], a);
        assert t.clients[d] == Touched(s.clients[d], a);
      }
    }
  }

  lemma TouchKeepsApart(k: Client, l: Client, a: Addr)
    requires Apart(k, l)
    ensures Apart(k, Touched(l, a)) && Apart(Touched(l, a), k) && Apart(Touched(k, a), Touched(l, a))
  {
  }

  lemma LockFrameApart(s: System, t: System, c: nat, a: Addr)
    requires forall x, y :: x in s.clients && y in s.clients && x != y ==> Apart(s.clients[x], s.clients[y])
    requires c in t.clients && t.clients == Touch(s.clients, a)[c := t.clients[c]]
    requires forall d :: d in s.clients && d != c ==> Apart(t.clients[c], s.clients[d])
    ensures forall x, y :: x in t.clients && y in t.clients && x != y ==> Apart(t.clients[x], t.clients[y])
  {
    hide Apart;
    assert forall d :: d in t.clients && d != c ==> d in s.clients && t.clients[d] == Touched(s.clients[d], a);
    forall x, y | x in t.clients && y in t.clients && x != y ensures Apart(t.clients[x], t.clients[y]) {
      if x == c {
        TouchKeepsApart(t.clients[c], s.clients[y], a);
      } else if y == c {
        TouchKeepsApart(t.clients[c], s.clients[x], a);
      } else {
        TouchKeepsApart(s.clients[x], s.clients[y], a);
      }
    }
  }

  /** A change of one lock key and of one client. */
  lemma LockFrame(s: System, t: System, c: nat, a: Addr, score: Rounding)
    requires Inv(s, score) && LockChange(s, t, a)
    requires c in t.clients && t.clients == Touch(s.clients, a)[c := t.clients[c]]
    requires ClientOk(t, t.clients[c])
    requires forall d :: d in s.clients && d != c ==> Apart(t.clients[c], s.clients[d])
    ensures Inv(t, score)
  {
    hide ClientOk, Apart, Consistent, SerialLog, Replay, Exclusive, OncePerCall, Genuine, Touch;
    LockFrameClients(s, t, c, a, score);
    LockFrameApart(s, t, c, a);
  }

  // ---- one client at a time ----------------------------------------------------------

  ghost predicate SameCall(k: Client, l: Client) {
    && l.held == k.held && l.base == k.base && l.id == k.id && l.call == k.call && l.entered == k.entered
    && (l.Called() ==> k.Called())
  }

  /** A command that changes nothing but its own client, which keeps its token or gives it up. */
  lemma QuietMove(s: System, t: System, c: nat, l: Client, score: Rounding)
    requires Inv(s, score) && t == With(s, c, l).(steps := s.steps + 1)
    requires ClientOk(t, l) && l.id == ClientOf(s, c).id && (l.Called() ==> ClientOf(s, c).Called())
    requires l.pc.HasToken() ==> ClientOf(s, c).pc.HasToken() && ClientOf(s, c).pc.token == l.pc.token
    ensures Inv(t, score)
  {
    hide ClientOk, Consistent, SerialLog, Replay, Exclusive, OncePerCall, Genuine;
    ClientOfOk(s, c, score);
    Frame(s, t, c, score);
  }

  /** The answer does not change while it is passed on. */
  lemma SameAnswer(s: System, t: System, k: Client, l: Client)
    requires Calm(s, t) && SameCall(k, l) && l.Answer() == k.Answer() && Linearized(s.log, k)
    requires k.pc.Idle? ==> l.pc.Idle?
    ensures Linearized(t.log, l)
  {
    hide Unlogged, Decide, Replay;
    if l.Answer().Some? {
      var o := l.Answer().value;
      if o.Commits() {
        var i :| LoggedAt(s.log, k, o, i);
        assert LoggedAt(t.log, l, o, i);
      } else if !o.Lost? && !o.GaveUp? {
        var n, w :| ReadAt(s.log, k, o, n, w);
        assert ReadAt(t.log, l, o, n, w);
      }
    }
  }

  /** A command that leaves the call and its answer as they are; only the lock and the sight are left to check. */
  lemma Carried(s: System, t: System, k: Client, l: Client)
    requires Calm(s, t) && ClientOk(s, k) && SameCall(k, l) && l.Answer() == k.Answer()
    requires k.pc.Idle? ==> l.pc.Idle?
    requires l.pc.HasSeen() ==> k.entered <= l.pc.seen.at
    requires l.pc.HasDecided() ==> k.pc.HasDecided() && k.pc.decidedAt == l.pc.decidedAt && k.pc.seen == l.pc.seen
    requires l.pc.Ready? ==> l.pc.decidedAt <= l.pc.stamp <= t.clock
    requires LockOk(t, l) && SightOk(t, l)
    ensures ClientOk(t, l)
  {
    hide Replay, Genuine, Decide, Sane, LockOk, SightOk;
    SameAnswer(s, t, k, l);
    hide Linearized;
  }

  /** Losing the lock before the ownership check is an answer without an effect. */
  lemma LostIsLinear(s: System, t: System, k: Client, l: Client)
    requires Calm(s, t) && ClientOk(s, k) && k.pc.Watching? && l == k.(pc := Checking(k.pc.token, Settled(Lost)))
    ensures ClientOk(t, l)
  {
    hide Replay, Genuine, Decide, Sane;
  }

  lemma VerdictOk(s: System, t: System, k: Client)
    requires Calm(s, t) && ClientOk(s, k) && k.pc.Watching? && s.steps < t.steps && s.locks == t.locks
    requires forall i :: 0 <= i < |s.log| ==> s.log[i].at < s.steps
    ensures ClientOk(t, Judge(s, k)) && Judge(s, k).pc.token == k.pc.token && Judge(s, k).id == k.id
  {
    hide Decide, Replay, Genuine, Sane, Linearized;
    if k.Addr() !in s.locks {
      LostIsLinear(s, t, k, Judge(s, k));
    } else {
      Carried(s, t, k, Judge(s, k));
    }
  }

  lemma WholePrefix(log: seq<Entry>)
    ensures log[..|log|] == log
  {
  }

  lemma AnswersDoNotCommit(call: Call, existing: Option<Server>, now: Nanos)
    ensures var d := Decide(call, existing, now);
            d.Answer? ==> !d.outcome.Commits() && (d.outcome.Kept? ==> existing == Some(d.outcome.svr))
    ensures var d := Decide(call, existing, now); !d.Answer? ==> OutcomeOf(d).Commits()
  {
  }

  /** An answer given without writing is the answer of the sequential call at the moment of the HGET. */
  lemma BranchIsLinear(s: System, t: System, k: Client, l: Client)
    requires Calm(s, t) && ClientOk(s, k) && k.pc.Deciding? && l == Branch(k, s.clock)
    ensures CallOk(t, l)
  {
    hide Replay, Sane;
    AnswersDoNotCommit(k.call, k.pc.seen.svr, s.clock);
    hide Decide;
    if l.Answer() == k.Answer() {
      SameAnswer(s, t, k, l);
    } else {
      assert ReadAt(t.log, l, l.pc.verdict.outcome, k.pc.seen.at, s.clock);
    }
  }

  /** The two commands of the release only pass the verdict on. */
  lemma PassedOn(s: System, t: System, k: Client, l: Client)
    requires Calm(s, t) && ClientOk(s, k) && (k.pc.Checking? || k.pc.Deleting?)
    requires l == k.(pc := Deleting(k.pc.token, k.pc.verdict)) || l == Conclude(k, k.pc.verdict)
    ensures ClientOk(t, l) && l.id == k.id && (l.pc.HasToken() ==> l.pc.token == k.pc.token)
      && (l.Called() ==> k.Called())
  {
    hide Decide, Replay, Genuine, Sane;
    SameAnswer(s, t, k, l);
    hide Linearized;
  }

  lemma GiveUpOk(s: System, t: System, k: Client)
    requires Calm(s, t) && t.locks == s.locks && ClientOk(s, k) && k.pc.Knocking?
    ensures ClientOk(t, Conclude(k, Settled(GaveUp)))
  {
    hide Replay, Genuine, Decide, Sane;
  }

  /** A client that stays without the lock, or goes from holding it to watching it. */
  lemma WaitingOk(s: System, t: System, k: Client, l: Client)
    requires Calm(s, t) && t.locks == s.locks && ClientOk(s, k)
    requires || (k.pc.Knocking? && l == k.(attempts := l.attempts))
             || (k.pc.Acquired? && l == k.(pc := Watching(k.pc.token), dirty := false))
    ensures ClientOk(t, l)
  {
    hide Replay, Genuine, Decide, Sane;
    SameAnswer(s, t, k, l);
    hide Linearized;
  }

  /** What the HGET returns is the record that the history so far leaves at the address. */
  lemma SightingOk(s: System, t: System, k: Client, l: Client)
    requires Calm(s, t) && t.locks == s.locks && ClientOk(s, k) && k.pc.Owning?
    requires Replay(s.log) == s.db.items
    requires Lookup(s.db.items, k.Addr()).Some? ==> Lookup(s.db.items, k.Addr()).value.addr == k.Addr()
    requires l == k.(pc := Deciding(k.pc.token, k.pc.since, Sight(Lookup(s.db.items, k.Addr()), |s.log|)))
    ensures ClientOk(t, l)
  {
    WholePrefix(s.log);
    hide Replay, Genuine, Decide, Sane;
    SameAnswer(s, t, k, l);
    hide Linearized;
  }

  lemma BranchOk(s: System, t: System, k: Client)
    requires Calm(s, t) && t.locks == s.locks && ClientOk(s, k) && k.pc.Deciding?
    ensures ClientOk(t, Branch(k, s.clock))
  {
    hide Decide, Replay, Genuine, Sane, Linearized;
    assert LockOk(t, Branch(k, s.clock)) && SightOk(t, Branch(k, s.clock)) by {
      hide CallOk;
    }
    hide LockOk, SightOk;
    BranchIsLinear(s, t, k, Branch(k, s.clock));
  }

  lemma StampingOk(s: System, t: System, k: Client)
    requires Calm(s, t) && t.locks == s.locks && ClientOk(s, k) && k.pc.Stamping?
    ensures ClientOk(t, k.(pc := Ready(k.pc.token, k.pc.since, k.pc.seen, k.pc.decidedAt, s.clock)))
  {
    hide Decide, Replay, Genuine, Sane, Linearized;
    Carried(s, t, k, k.(pc := Ready(k.pc.token, k.pc.since, k.pc.seen, k.pc.decidedAt, s.clock)));
  }

  lemma AbortOk(s: System, t: System, k: Client)
    requires Calm(s, t) && t.locks == s.locks && ClientOk(s, k) && k.pc.Ready?
    ensures ClientOk(t, k.(pc := Checking(k.pc.token, Again)))
  {
    hide Decide, Replay, Genuine, Sane, Linearized;
    Carried(s, t, k, k.(pc := Checking(k.pc.token, Again)));
  }

  // ---- commands that change nothing but the client ---------------------------------

  predicate Quiet(s: System, k: Client) {
    match k.pc
    case Idle => false
    case Knocking => k.attempts == 0 || k.Addr() in s.locks
    case Ready(_, _, _, _, _) => k.dirty
    case Deleting(_, _) => false
    case _ => true
  }

  /** The client after such a command. */
  function Turned(s: System, k: Client): Client
    requires Quiet(s, k)
  {
    match k.pc
    case Knocking => if k.attempts == 0 then Conclude(k, Settled(GaveUp)) else k.(attempts := k.attempts - 1)
    case Acquired(token) => k.(pc := Watching(token), dirty := false)
    case Watching(_) => Judge(s, k)
    case Owning(token, since) => k.(pc := Deciding(token, since, Sight(Lookup(s.db.items, k.Addr()), |s.log|)))
    case Deciding(_, _, _) => Branch(k, s.clock)
    case Stamping(token, since, seen, decidedAt) => k.(pc := Ready(token, since, seen, decidedAt, s.clock))
    case Ready(token, _, _, _, _) => k.(pc := Checking(token, Again))
    case Checking(token, v) =>
      if k.Addr() in s.locks && s.locks[k.Addr()] == token then k.(pc := Deleting(token, v)) else Conclude(k, v)
  }

  lemma QuietStepIs(s: System, c: nat, score: Rounding)
    requires Quiet(s, ClientOf(s, c))
    ensures Step(s, Move(c), score) == With(s, c, Turned(s, ClientOf(s, c))).(steps := s.steps + 1)
  {
    hide Judge, Branch, Conclude, Lookup, ClientOf, Exec, Lock, Unlock;
  }

  /** No command hands out a token, a call or a number of its own. */
  lemma TurnedKeepsIdentity(s: System, k: Client)
    requires Quiet(s, k)
    ensures var l := Turned(s, k);
            && l.id == k.id && (l.Called() ==> k.Called())
            && (l.pc.HasToken() ==> k.pc.HasToken() && k.pc.token == l.pc.token)
  {
    hide Lookup, Decide;
  }

  lemma TurnedOk(s: System, t: System, k: Client)
    requires Calm(s, t) && t.locks == s.locks && s.steps < t.steps && ClientOk(s, k) && Quiet(s, k)
    requires Replay(s.log) == s.db.items && forall i :: 0 <= i < |s.log| ==> s.log[i].at < s.steps
    requires Lookup(s.db.items, k.Addr()).Some? ==> Lookup(s.db.items, k.Addr()).value.addr == k.Addr()
    ensures ClientOk(t, Turned(s, k))
  {
    hide Calm, ClientOk, Judge, Branch, Conclude, Lookup, Replay;
    match k.pc
    case Knocking => if k.attempts == 0 { GiveUpOk(s, t, k); } else { WaitingOk(s, t, k, Turned(s, k)); }
    case Acquired(_) => WaitingOk(s, t, k, Turned(s, k));
    case Watching(_) => VerdictOk(s, t, k);
    case Owning(_, _) => SightingOk(s, t, k, Turned(s, k));
    case Deciding(_, _, _) => BranchOk(s, t, k);
    case Stamping(_, _, _, _) => StampingOk(s, t, k);
    case Ready(_, _, _, _, _) => AbortOk(s, t, k);
    case Checking(_, _) => PassedOn(s, t, k, Turned(s, k));
  }

  /** What the invariant says about the store as a whole. */
  lemma StoreFacts(s: System, a: Addr, score: Rounding)
    requires Inv(s, score)
    ensures Replay(s.log) == s.db.items && forall i :: 0 <= i < |s.log| ==> s.log[i].at < s.steps
    ensures Lookup(s.db.items, a).Some? ==> Lookup(s.db.items, a).value.addr == a
  {
    hide ClientOk, Apart, SerialLog, Exclusive, OncePerCall, Genuine, Replay;
  }

  lemma QuietKeeps(s: System, c: nat, score: Rounding)
    requires Inv(s, score) && Quiet(s, ClientOf(s, c))
    ensures Inv(Step(s, Move(c), score), score)
  {
    hide Inv, ClientOk, Step, Turned, Quiet, ClientOf, Replay;
    ClientOfOk(s, c, score);
    StoreFacts(s, ClientOf(s, c).Addr(), score);
    QuietStepIs(s, c, score);
    var t := Step(s, Move(c), score);
    TurnedOk(s, t, ClientOf(s, c));
    TurnedKeepsIdentity(s, ClientOf(s, c));
    QuietMove(s, t, c, Turned(s, ClientOf(s, c)), score);
  }

  // ---- taking the lock and giving it back ------------------------------------------

  lemma LockedOk(s: System, t: System, k: Client, l: Client)
    requires Calm(s, t) && ClientOk(s, k) && k.pc.Knocking? && k.attempts > 0
    requires l == k.(attempts := k.attempts - 1, pc := Acquired(s.tokens)) && t.tokens == s.tokens + 1
    ensures ClientOk(t, l)
  {
    hide Replay, Genuine, Decide, Sane;
    SameAnswer(s, t, k, l);
    hide Linearized;
  }

  /** A new token is nobody else's. */
  lemma NewTokenIsApart(s: System, k: Client, l: Client, m: Client)
    requires ClientOk(s, m) && Apart(k, m) && k.Called() && l.id == k.id && l.pc == Acquired(s.tokens)
    ensures Apart(l, m)
  {
    hide SightOk, CallOk;
  }

  lemma LockStepIs(s: System, c: nat, score: Rounding)
    requires ClientOf(s, c).pc.Knocking? && ClientOf(s, c).attempts > 0 && ClientOf(s, c).Addr() !in s.locks
    ensures Step(s, Move(c), score) == Lock(s, c).(steps := s.steps + 1)
  {
    hide Lock;
  }

  lemma LockKeeps(s: System, c: nat, score: Rounding)
    requires Inv(s, score) && ClientOf(s, c).pc.Knocking? && ClientOf(s, c).attempts > 0
      && ClientOf(s, c).Addr() !in s.locks
    ensures Inv(Step(s, Move(c), score), score)
  {
    hide ClientOk, Apart, Consistent, LogOk, StampOk, Step, ClientOf;
    LockStepIs(s, c, score);
    ClientOfOk(s, c, score);
    var k := ClientOf(s, c);
    var t := Step(s, Move(c), score);
    var l := t.clients[c];
    LockedOk(s, t, k, l);
    forall d | d in s.clients && d != c ensures Apart(l, s.clients[d]) {
      NewTokenIsApart(s, k, l, s.clients[d]);
    }
    hide Inv;
    LockFrame(s, t, c, k.Addr(), score);
  }

  lemma DeleteStepIs(s: System, c: nat, score: Rounding)
    requires ClientOf(s, c).pc.Deleting?
    ensures Step(s, Move(c), score) ==
      With(Unlock(s, ClientOf(s, c).Addr()), c, Conclude(ClientOf(s, c), ClientOf(s, c).pc.verdict))
      .(steps := s.steps + 1)
  {
    hide Unlock, Conclude, ClientOf;
  }

  /** A client that keeps its number and its token stays apart from the others. */
  lemma StaysApart(k: Client, l: Client, m: Client)
    requires Apart(k, m) && l.id == k.id && (l.Called() ==> k.Called())
    requires l.pc.HasToken() ==> k.pc.HasToken() && k.pc.token == l.pc.token
    ensures Apart(l, m)
  {
  }

  lemma ReleaseDeleteKeeps(s: System, c: nat, score: Rounding)
    requires Inv(s, score) && ClientOf(s, c).pc.Deleting?
    ensures Inv(Step(s, Move(c), score), score)
  {
    hide ClientOk, Apart, Consistent, LogOk, StampOk, Step, ClientOf, Conclude;
    DeleteStepIs(s, c, score);
    ClientOfOk(s, c, score);
    var k := ClientOf(s, c);
    var t := Step(s, Move(c), score);
    var l := Conclude(k, k.pc.verdict);
    PassedOn(s, t, k, l);
    forall d | d in s.clients && d != c ensures Apart(l, s.clients[d]) {
      StaysApart(k, l, s.clients[d]);
    }
    if k.Addr() in s.locks {
      LockFrame(s, t, c, k.Addr(), score);
    } else {
      Frame(s, t, c, score);
    }
  }

  // ---- EXEC ------------------------------------------------------------------------

  lemma PrefixOfAppend(log: seq<Entry>, e: Entry, n: nat)
    requires n <= |log|
    ensures (log + [e])[..n] == log[..n]
  {
  }

  lemma GenuineAppend(log: seq<Entry>, e: Entry, held: Option<Held>)
    requires Genuine(log, held)
    ensures Genuine(log + [e], held)
  {
    if held.Some? {
      PrefixOfAppend(log, e, held.value.at);
    }
  }

  lemma LinearizedAppend(log: seq<Entry>, e: Entry, k: Client)
    requires Linearized(log, k) && (k.Called() ==> e.id != k.id)
    ensures Linearized(log + [e], k)
  {
    hide Decide, Replay;
    if k.Answer().Some? {
      var o := k.Answer().value;
      if o.Commits() {
        var i :| LoggedAt(log, k, o, i);
        assert LoggedAt(log + [e], k, o, i);
      } else if !o.Lost? && !o.GaveUp? {
        var n, w :| ReadAt(log, k, o, n, w);
        PrefixOfAppend(log, e, n);
        assert ReadAt(log + [e], k, o, n, w);
      }
    }
  }

  lemma CommitIsAssign(db: Db, d: Decision, a: Addr, stamp: Nanos, score: Rounding)
    requires !d.Answer? && (d.Write? ==> d.svr.addr == a)
    ensures Commit(db, d, a, stamp, score).items == Assign(db.items, a, After(d, Lookup(db.items, a)))
  {
  }

  lemma ExecLogIsSerial(log: seq<Entry>, e: Entry, items: map<Addr, Server>)
    requires SerialLog(log) && Serial(e, Replay(log)) && items == Assign(Replay(log), e.addr, e.after)
    ensures SerialLog(log + [e]) && Replay(log + [e]) == items
  {
    hide Serial, Assign;
    PrefixOfAppend(log, e, |log|);
    WholePrefix(log);
    forall i | 0 <= i < |log + [e]| ensures Serial((log + [e])[i], Replay((log + [e])[..i])) {
      hide Replay;
      PrefixOfAppend(log, e, i);
    }
  }

  lemma ExecLogIsGenuine(log: seq<Entry>, e: Entry)
    requires (forall i :: 0 <= i < |log| ==> Genuine(log[..i], log[i].base)) && Genuine(log, e.base)
    ensures forall i :: 0 <= i < |log + [e]| ==> Genuine((log + [e])[..i], (log + [e])[i].base)
  {
    hide Genuine;
    WholePrefix(log);
    forall i | 0 <= i < |log + [e]| ensures Genuine((log + [e])[..i], (log + [e])[i].base) {
      PrefixOfAppend(log, e, i);
    }
  }

  /** The history with the new entry is still serial, exclusive and free of repetitions. */
  lemma ExecLog(s: System, e: Entry, items: map<Addr, Server>)
    requires LogOk(s) && Serial(e, s.db.items) && Genuine(s.log, e.base)
    requires items == Assign(s.db.items, e.addr, e.after)
    requires e.since < e.at == s.steps && e.id < s.calls && Unlogged(s.log, e.id)
    requires forall i :: 0 <= i < |s.log| && s.log[i].addr == e.addr ==> s.log[i].at < e.since
    ensures var log := s.log + [e];
            && SerialLog(log) && Replay(log) == items && Exclusive(log) && OncePerCall(log)
            && forall i :: 0 <= i < |log| ==>
                 log[i].at <= s.steps && log[i].id < s.calls && Genuine(log[..i], log[i].base)
  {
    hide Serial, Assign, SerialLog, Replay, Genuine;
    ExecLogIsSerial(s.log, e, items);
    ExecLogIsGenuine(s.log, e);
  }

  /** Two clients never hold a clean check on the same key. */
  lemma OthersAreDirty(s: System, c: nat, d: nat, score: Rounding)
    requires Inv(s, score) && d in s.clients && c != d
    requires ClientOf(s, c).pc.Owns() && !ClientOf(s, c).dirty
    requires s.clients[d].pc.Owns() && s.clients[d].Addr() == ClientOf(s, c).Addr()
    ensures s.clients[d].dirty
  {
    ClientOfOk(s, c, score);
    assert LockOk(s, s.clients[d]);
    assert Apart(ClientOf(s, c), s.clients[d]);
  }

  /** Another client keeps its invariant across a commit it did not make. */
  lemma ExecOther(s: System, t: System, e: Entry, k: Client)
    requires ClientOk(s, k) && (k.Called() ==> e.id != k.id)
    requires t.log == s.log + [e] && t.locks == s.locks && t.steps == s.steps + 1
    requires t.clock == s.clock && t.tokens == s.tokens && t.calls == s.calls
    requires forall a :: a != e.addr ==> Lookup(t.db.items, a) == Lookup(s.db.items, a)
    requires k.pc.Owns() && k.Addr() == e.addr ==> k.dirty
    ensures ClientOk(t, k)
  {
    hide Decide, Replay, Sane, Genuine, Linearized, Lookup;
    GenuineAppend(s.log, e, k.held);
    GenuineAppend(s.log, e, k.base);
    LinearizedAppend(s.log, e, k);
    if k.pc.HasSeen() {
      PrefixOfAppend(s.log, e, k.pc.seen.at);
    }
  }

  /** The committing client: its write is logged, and what it now holds is the record it wrote. */
  lemma ExecSelf(s: System, t: System, e: Entry, k: Client, l: Client, d: Decision)
    requires ClientOk(s, k) && k.pc.Ready? && d == Decide(k.call, k.pc.seen.svr, k.pc.decidedAt)
    requires e.addr == k.Addr() && e.id == k.id && e.call == k.call
    requires e.before == k.pc.seen.svr && e.decidedAt == k.pc.decidedAt
    requires e.after == After(d, e.before) && (d.Write? ==> d.svr.addr == e.addr)
    requires t.log == s.log + [e] && t.tokens == s.tokens && t.calls == s.calls && t.db.items == Replay(t.log)
    requires l == k.(pc := Checking(k.pc.token, Settled(OutcomeOf(d))),
                     held := if d.Write? then Some(Held(d.svr, |s.log| + 1)) else k.held)
    requires Replay(t.log) == Assign(s.db.items, e.addr, e.after)
    ensures ClientOk(t, l)
  {
    hide Decide, Replay, Sane;
    AnswersDoNotCommit(k.call, k.pc.seen.svr, k.pc.decidedAt);
    WholePrefix(t.log);
    GenuineAppend(s.log, e, k.held);
    GenuineAppend(s.log, e, k.base);
    assert LoggedAt(t.log, l, OutcomeOf(d), |s.log|);
  }

  /** The commit is serial: the record was read under the lock and is still the stored one. */
  lemma ExecIsSerial(s: System, c: nat, score: Rounding)
    requires Inv(s, score) && ClientOf(s, c).pc.Ready? && !ClientOf(s, c).dirty
    ensures Serial(NewEntry(s, c), s.db.items)
    ensures Exec(s, c, score).db.items == Assign(s.db.items, NewEntry(s, c).addr, NewEntry(s, c).after)
    ensures Consistent(Exec(s, c, score).db, score)
  {
    ClientOfOk(s, c, score);
    var k := ClientOf(s, c);
    var d := Decide(k.call, k.pc.seen.svr, k.pc.decidedAt);
    hide LogOk, Consistent, Decide, Sane;
    DecideKeepsAddr(k.call, k.pc.seen.svr, k.pc.decidedAt);
    CommitIsAssign(s.db, d, k.Addr(), k.pc.stamp, score);
    CommitKeepsConsistent(s.db, d, k.Addr(), k.pc.stamp, score);
    hide Commit, Assign;
  }

  lemma ExecKeepsLog(s: System, c: nat, score: Rounding)
    requires Inv(s, score) && ClientOf(s, c).pc.Ready? && !ClientOf(s, c).dirty
    ensures LogOk(Exec(s, c, score).(steps := s.steps + 1))
  {
    hide Consistent, Decide, Commit, Assign, SerialLog, Exclusive, OncePerCall, Replay, Genuine, Sane, Serial;
    ClientOfOk(s, c, score);
    ExecIsSerial(s, c, score);
    var e := NewEntry(s, c);
    var t := Exec(s, c, score).(steps := s.steps + 1);
    assert t.log == s.log + [e];
    assert Unlogged(s.log, e.id) && LogOk(s) && Genuine(s.log, e.base);
    ExecLog(s, e, t.db.items);
  }

  lemma ExecKeepsClient(s: System, c: nat, score: Rounding)
    requires Inv(s, score) && ClientOf(s, c).pc.Ready? && !ClientOf(s, c).dirty
    ensures var t := Exec(s, c, score).(steps := s.steps + 1); ClientOk(t, t.clients[c])
  {
    ClientOfOk(s, c, score);
    ExecIsSerial(s, c, score);
    ExecKeepsLog(s, c, score);
    var k := ClientOf(s, c);
    var e := NewEntry(s, c);
    var t := Exec(s, c, score).(steps := s.steps + 1);
    var d := Decide(k.call, k.pc.seen.svr, k.pc.decidedAt);
    DecideKeepsAddr(k.call, k.pc.seen.svr, k.pc.decidedAt);
    assert Replay(t.log) == t.db.items;
    hide Serial, Consistent, Decide, Commit, Assign, SerialLog, Exclusive, OncePerCall, Replay, Genuine, Sane, ClientOk;
    ExecSelf(s, t, e, k, t.clients[c], d);
  }

  lemma ExecKeepsOthers(s: System, c: nat, score: Rounding)
    requires Inv(s, score) && ClientOf(s, c).pc.Ready? && !ClientOf(s, c).dirty
    ensures var t := Exec(s, c, score).(steps := s.steps + 1);
            forall b :: b in s.clients && b != c ==> ClientOk(t, s.clients[b])
  {
    hide LogOk, Consistent, Decide, Replay, Genuine, Sane, Linearized;
    ClientOfOk(s, c, score);
    ExecIsSerial(s, c, score);
    var t := Exec(s, c, score).(steps := s.steps + 1);
    var e := NewEntry(s, c);
    assert forall a :: a != e.addr ==> Lookup(t.db.items, a) == Lookup(s.db.items, a);
    assert t.log == s.log + [e];
    hide Serial, Commit, Assign;
    forall b | b in s.clients && b != c ensures ClientOk(t, s.clients[b]) {
      if s.clients[b].pc.Owns() && s.clients[b].Addr() == e.addr {
        OthersAreDirty(s, c, b, score);
      }
      assert Apart(ClientOf(s, c), s.clients[b]);
      hide ClientOk;
      ExecOther(s, t, e, s.clients[b]);
    }
  }

  lemma ExecKeepsApart(s: System, c: nat, score: Rounding)
    requires Inv(s, score) && ClientOf(s, c).pc.Ready? && !ClientOf(s, c).dirty
    ensures var t := Exec(s, c, score);
            forall x, y :: x in t.clients && y in t.clients && x != y ==> Apart(t.clients[x], t.clients[y])
  {
    hide LogOk, Consistent, ClientOk, Decide, Commit;
    ClientOfOk(s, c, score);
    var k := ClientOf(s, c);
    var t := Exec(s, c, score);
    var l := t.clients[c];
    assert t.clients == s.clients[c := l];
    assert l.id == k.id && l.pc.token == k.pc.token && k.pc.HasToken() && k.Called();
    hide Exec;
    ApartSymmetric();
  }

  lemma ExecKeepsStamps(s: System, c: nat, score: Rounding)
    requires Inv(s, score) && ClientOf(s, c).pc.Ready? && !ClientOf(s, c).dirty
    ensures StampOk(Exec(s, c, score).(steps := s.steps + 1), score)
  {
    hide Consistent, Decide, Replay, SerialLog, Exclusive, OncePerCall, Genuine, Sane, Linearized;
    ClientOfOk(s, c, score);
    var k := ClientOf(s, c);
    DecideKeepsAddr(k.call, k.pc.seen.svr, k.pc.decidedAt);
    PrefixOfAppend(s.log, NewEntry(s, c), |s.log|);
    WholePrefix(s.log);
    hide LogOk, ClientOk;
  }

  lemma ExecKeepsInv(s: System, c: nat, score: Rounding)
    requires Inv(s, score) && ClientOf(s, c).pc.Ready? && !ClientOf(s, c).dirty
    ensures Inv(Exec(s, c, score).(steps := s.steps + 1), score)
  {
    hide LogOk, Consistent, StampOk, ClientOk, Apart, Decide, Commit;
    ExecIsSerial(s, c, score);
    ExecKeepsLog(s, c, score);
    ExecKeepsStamps(s, c, score);
    ExecKeepsClient(s, c, score);
    ExecKeepsOthers(s, c, score);
    ExecKeepsApart(s, c, score);
  }

  lemma StepIsExec(s: System, c: nat, score: Rounding)
    requires ClientOf(s, c).pc.Ready? && !ClientOf(s, c).dirty
    ensures Step(s, Move(c), score) == Exec(s, c, score).(steps := s.steps + 1)
  {
    hide Exec;
  }

  lemma ExecKeeps(s: System, c: nat, score: Rounding)
    requires Inv(s, score) && ClientOf(s, c).pc.Ready? && !ClientOf(s, c).dirty
    ensures Inv(Step(s, Move(c), score), score)
  {
    hide Inv, Exec;
    StepIsExec(s, c, score);
    hide Step;
    ExecKeepsInv(s, c, score);
  }

  // ---- the other events ------------------------------------------------------------

  lemma MoveKeeps(s: System, c: nat, score: Rounding)
    requires Inv(s, score)
    ensures Inv(Step(s, Move(c), score), score)
  {
    var k := ClientOf(s, c);
    hide Inv, ClientOf, Advance, Step;
    if k.pc.Idle? {
      IdleKeeps(s, c, score);
    } else if Quiet(s, k) {
      QuietKeeps(s, c, score);
    } else if k.pc.Knocking? {
      LockKeeps(s, c, score);
    } else if k.pc.Deleting? {
      ReleaseDeleteKeeps(s, c, score);
    } else {
      ExecKeeps(s, c, score);
    }
  }

  /** The clock and the step counter move. */
  lemma PassingKeeps(s: System, t: System, score: Rounding)
    requires Inv(s, score) && Calm(s, t) && t.locks == s.locks && t.clients == s.clients
    ensures Inv(t, score)
  {
    hide ClientOk, Apart, Consistent, SerialLog, Replay, Exclusive, OncePerCall, Genuine;
    forall d | d in t.clients ensures ClientOk(t, t.clients[d]) {
      CalmClient(s, t, s.clients[d]);
    }
  }

  lemma IdleKeeps(s: System, c: nat, score: Rounding)
    requires Inv(s, score) && ClientOf(s, c).pc.Idle?
    ensures Inv(Step(s, Move(c), score), score)
  {
    hide Inv;
    PassingKeeps(s, Step(s, Move(c), score), score);
  }

  lemma FetchKeeps(s: System, c: nat, a: Addr, score: Rounding)
    requires Inv(s, score)
    ensures Inv(Step(s, Fetch(c, a), score), score)
  {
    var t := Step(s, Fetch(c, a), score);
    if ClientOf(s, c).pc.Idle? {
      ClientOfOk(s, c, score);
      WholePrefix(s.log);
      var k := ClientOf(s, c);
      var l := t.clients[c];
      assert Genuine(t.log, l.held);
      assert t == With(s, c, l).(steps := s.steps + 1);
      hide Inv, Replay, Genuine, Decide, Sane, Step, Apply;
      HeldIsFree(s, t, k, l);
      hide ClientOk;
      QuietMove(s, t, c, l, score);
    } else {
      hide Inv;
      PassingKeeps(s, t, score);
    }
  }

  lemma HeldIsFree(s: System, t: System, k: Client, l: Client)
    requires Calm(s, t) && t.locks == s.locks && ClientOk(s, k) && k.pc.Idle? && l == k.(held := l.held)
      && Genuine(t.log, l.held)
    ensures ClientOk(t, l)
  {
    hide Replay, Genuine, Decide, Sane;
    if l.Answer().Some? {
      var o := l.Answer().value;
      if o.Commits() {
        var i :| LoggedAt(s.log, k, o, i);
        assert LoggedAt(t.log, l, o, i);
      } else if !o.Lost? && !o.GaveUp? {
        var n, w :| ReadAt(s.log, k, o, n, w);
        assert ReadAt(t.log, l, o, n, w);
      }
    }
  }

  lemma EnterKeepsClient(s: System, c: nat, make: Maker, score: Rounding)
    requires Inv(s, score) && SaneEvent(Begin(c, make)) && ClientOf(s, c).pc.Idle?
    ensures var t := Enter(s, c, make).(steps := s.steps + 1); ClientOk(t, t.clients[c])
  {
    hide Consistent, Replay, Genuine, Decide, Sane, SerialLog, Exclusive, OncePerCall;
    ClientOfOk(s, c, score);
    var t := Enter(s, c, make).(steps := s.steps + 1);
    assert t.log == s.log && t.calls == s.calls + 1;
    var l := t.clients[c];
    assert Sane(l.call) && l.pc == Knocking && l.id == s.calls && l.entered == |s.log|;
    assert Genuine(s.log, l.base) && Genuine(s.log, l.held);
    assert Unlogged(s.log, s.calls);
    hide Inv, Enter, ClientOf, SaneEvent;
  }

  lemma EnterKeepsApart(s: System, c: nat, make: Maker, score: Rounding)
    requires Inv(s, score) && ClientOf(s, c).pc.Idle?
    ensures var l := Enter(s, c, make).clients[c]; forall d :: d in s.clients && d != c ==> Apart(l, s.clients[d])
  {
    var l := Enter(s, c, make).clients[c];
    assert l.id == s.calls && l.pc == Knocking;
    hide Enter, LogOk, Consistent, Replay, Genuine, Decide, Sane, Linearized, LockOk, SightOk;
    forall d | d in s.clients && d != c ensures Apart(l, s.clients[d]) {
      assert ClientOk(s, s.clients[d]);
    }
  }

  lemma BeginKeeps(s: System, c: nat, make: Maker, score: Rounding)
    requires Inv(s, score) && SaneEvent(Begin(c, make))
    ensures Inv(Step(s, Begin(c, make), score), score)
  {
    var t := Step(s, Begin(c, make), score);
    if ClientOf(s, c).pc.Idle? {
      assert t == Enter(s, c, make).(steps := s.steps + 1);
      hide Step, Apply;
      EnterKeepsClient(s, c, make, score);
      EnterKeepsApart(s, c, make, score);
      hide ClientOk, Apart, Consistent, SerialLog, Replay, Exclusive, OncePerCall, Genuine, SaneEvent;
      Frame(s, t, c, score);
    } else {
      hide Inv;
      PassingKeeps(s, t, score);
    }
  }

  lemma UnlockKeepsClients(s: System, t: System, a: Addr, score: Rounding)
    requires Inv(s, score) && a in s.locks && t == Unlock(s, a).(steps := s.steps + 1)
    ensures forall d :: d in t.clients ==> ClientOk(t, t.clients[d])
  {
    hide ClientOk, Apart, Consistent, SerialLog, Replay, Exclusive, OncePerCall, Genuine;
    forall d | d in t.clients ensures ClientOk(t, t.clients[d]) {
      TouchedClient(s, t, s.clients[d], a);
    }
  }

  lemma UnlockKeepsApart(s: System, t: System, a: Addr)
    requires forall c, d :: c in s.clients && d in s.clients && c != d ==> Apart(s.clients[c], s.clients[d])
    requires a in s.locks && t == Unlock(s, a).(steps := s.steps + 1)
    ensures forall c, d :: c in t.clients && d in t.clients && c != d ==> Apart(t.clients[c], t.clients[d])
  {
    forall c, d | c in t.clients && d in t.clients && c != d ensures Apart(t.clients[c], t.clients[d]) {
      assert Apart(s.clients[c], s.clients[d]);
    }
  }

  lemma ExpireKeeps(s: System, a: Addr, score: Rounding)
    requires Inv(s, score)
    ensures Inv(Step(s, Expire(a), score), score)
  {
    var t := Step(s, Expire(a), score);
    if a in s.locks {
      hide Consistent, LogOk;
      UnlockKeepsClients(s, t, a, score);
      UnlockKeepsApart(s, t, a);
      hide ClientOk, Apart;
    } else {
      hide Inv;
      PassingKeeps(s, t, score);
    }
  }

  lemma StepKeeps(s: System, e: Event, score: Rounding)
    requires Inv(s, score) && SaneEvent(e)
    ensures Inv(Step(s, e, score), score)
  {
    hide Inv, Advance;
    match e
    case Fetch(c, a) => FetchKeeps(s, c, a, score);
    case Begin(c, make) => BeginKeeps(s, c, make, score);
    case Move(c) => MoveKeeps(s, c, score);
    case Expire(a) => ExpireKeeps(s, a, score);
    case Tick(d) => PassingKeeps(s, Step(s, e, score), score);
  }

  /** The invariant holds in every state of every run of any number of clients. */
  lemma {:induction false} RunKeeps(start: Nanos, events: seq<Event>, score: Rounding)
    requires forall i :: 0 <= i < |events| ==> SaneEvent(events[i])
    ensures Inv(Run(Init(start), events, score), score)
    decreases |events|
  {
    hide Inv, SaneEvent, Step;
    if events == [] {
      InitOk(start, score);
    } else {
      RunKeeps(start, events[..|events| - 1], score);
      StepKeeps(Run(Init(start), events[..|events| - 1], score), events[|events| - 1], score);
    }
  }

  lemma InitOk(start: Nanos, score: Rounding)
    ensures Inv(Init(start), score)
  {
  }
}
