/**
 * Lifting a property of single records to the whole system: if every change that a call can
 * make keeps the property, then every record that is ever stored, read or written has it.
 */
module RecordSafety {
  import opened Entities
  import opened Store
  import opened LockProtocol
  import opened LockSafety

  /** A property of a record at a time. */
  type Property = (Server, Nanos) -> bool

  /** It outlasts the passing of time and does not look at the version. */
  ghost predicate Lasting(P: Property) {
    && (forall s, t, u :: t <= u && P(s, t) ==> P(s, u))
    && (forall s: Server, t, v :: P(s, t) ==> P(s.(version := v), t))
  }

  /** From `now` on, whatever the call writes has the property. */
  ghost predicate Keeps(P: Property, call: Call, now: Nanos) {
    && (!call.kind.Remove? ==> P(call.svr, now))
    && (forall s, t :: now <= t && P(s, t) && call.resolve(s, t).Some? ==> P(call.resolve(s, t).value, t))
  }

  ghost predicate Respectful(P: Property, make: Maker) {
    forall held: Option<Server>, t :: (held.Some? ==> P(held.value, t)) ==> Keeps(P, make(held, t), t)
  }

  ghost predicate RespectfulRun(P: Property, events: seq<Event>) {
    forall i :: 0 <= i < |events| && events[i].Begin? ==> Respectful(P, events[i].make)
  }

  ghost predicate ClientHas(P: Property, k: Client, clock: Nanos) {
    && (k.held.Some? ==> P(k.held.value.svr, clock))
    && (k.Called() ==> Keeps(P, k.call, clock))
    && (k.pc.HasSeen() && k.pc.seen.svr.Some? ==> P(k.pc.seen.svr.value, clock))
    && (k.pc.HasDecided() ==>
          var d := Decide(k.call, k.pc.seen.svr, k.pc.decidedAt);
          && k.pc.decidedAt <= clock && (d.Write? ==> P(d.svr, k.pc.decidedAt)))
    && (k.pc.Ready? ==> k.pc.decidedAt <= k.pc.stamp <= clock)
  }

  ghost predicate SystemHas(P: Property, s: System) {
    && (forall a :: a in s.db.items ==> P(s.db.items[a], s.clock))
    && (forall c :: c in s.clients ==> ClientHas(P, s.clients[c], s.clock))
    && (forall i :: 0 <= i < |s.log| && s.log[i].after.Some? ==> P(s.log[i].after.value, s.log[i].stamp))
  }

  lemma ClientHasLater(P: Property, k: Client, t: Nanos, u: Nanos)
    requires Lasting(P) && ClientHas(P, k, t) && t <= u
    ensures ClientHas(P, k, u)
  {
    hide Decide;
  }

  lemma TouchKeepsHas(P: Property, k: Client, a: Addr, clock: Nanos)
    requires ClientHas(P, k, clock)
    ensures ClientHas(P, Touched(k, a), clock)
  {
    hide Decide, Keeps;
  }

  lemma DecisionHas(P: Property, call: Call, seen: Option<Server>, now: Nanos)
    requires Lasting(P) && Keeps(P, call, now) && (seen.Some? ==> P(seen.value, now))
    ensures var d := Decide(call, seen, now);
            && (d.Write? ==> P(d.svr, now))
            && (d.Answer? && d.outcome.Kept? ==> P(d.outcome.svr, now))
  {
  }

  lemma BranchHas(P: Property, k: Client, clock: Nanos)
    requires Lasting(P) && ClientHas(P, k, clock) && k.pc.Deciding?
    ensures ClientHas(P, Branch(k, clock), clock)
  {
    DecisionHas(P, k.call, k.pc.seen.svr, clock);
    hide Decide, Keeps;
  }

  lemma TouchAllHas(P: Property, s: System, a: Addr)
    requires SystemHas(P, s)
    ensures forall c :: c in s.clients ==>
      Touch(s.clients, a)[c] == Touched(s.clients[c], a) && ClientHas(P, Touch(s.clients, a)[c], s.clock)
  {
    forall c | c in s.clients ensures ClientHas(P, Touch(s.clients, a)[c], s.clock) {
      TouchKeepsHas(P, s.clients[c], a, s.clock);
    }
  }

  /** One client changes, and the watchers of one key may be flagged. */
  lemma ClientsHave(P: Property, s: System, t: System, c: nat, a: Addr)
    requires SystemHas(P, s) && t.db == s.db && t.log == s.log && t.clock == s.clock
    requires c in t.clients && ClientHas(P, t.clients[c], s.clock)
    requires t.clients == s.clients[c := t.clients[c]] || t.clients == Touch(s.clients, a)[c := t.clients[c]]
    ensures SystemHas(P, t)
  {
    TouchAllHas(P, s, a);
    hide ClientHas, Touch;
  }

  lemma TurnedHas(P: Property, s: System, k: Client)
    requires Lasting(P) && ClientHas(P, k, s.clock) && Quiet(s, k)
    requires Lookup(s.db.items, k.Addr()).Some? ==> P(Lookup(s.db.items, k.Addr()).value, s.clock)
    ensures ClientHas(P, Turned(s, k), s.clock)
  {
    hide Decide, Keeps, Lookup;
    if k.pc.Deciding? {
      BranchHas(P, k, s.clock);
      hide Branch;
    }
  }

  lemma QuietIsKnown(s: System, c: nat)
    requires Quiet(s, ClientOf(s, c))
    ensures c in s.clients
  {
  }

  lemma QuietMoveHas(P: Property, s: System, c: nat, score: Rounding)
    requires Lasting(P) && SystemHas(P, s) && Quiet(s, ClientOf(s, c))
    ensures SystemHas(P, Step(s, Move(c), score))
  {
    hide ClientHas, Turned, Quiet, Step;
    QuietStepIs(s, c, score);
    QuietIsKnown(s, c);
    assert ClientHas(P, ClientOf(s, c), s.clock);
    TurnedHas(P, s, ClientOf(s, c));
    hide SystemHas;
    ClientsHave(P, s, Step(s, Move(c), score), c, NOBODY.addr);
  }

  lemma LockMoveHas(P: Property, s: System, c: nat, score: Rounding)
    requires SystemHas(P, s) && ClientOf(s, c).pc.Knocking? && !Quiet(s, ClientOf(s, c))
    ensures SystemHas(P, Step(s, Move(c), score))
  {
    hide Step, Decide, Keeps;
    LockStepIs(s, c, score);
    var k := ClientOf(s, c);
    assert ClientHas(P, k, s.clock);
    assert ClientHas(P, k.(attempts := k.attempts - 1, pc := Acquired(s.tokens)), s.clock);
    hide SystemHas, ClientHas, Touch, ClientOf;
    ClientsHave(P, s, Step(s, Move(c), score), c, k.Addr());
  }

  lemma UnlockMoveHas(P: Property, s: System, c: nat, score: Rounding)
    requires SystemHas(P, s) && ClientOf(s, c).pc.Deleting?
    ensures SystemHas(P, Step(s, Move(c), score))
  {
    hide Step, Decide, Keeps;
    DeleteStepIs(s, c, score);
    var k := ClientOf(s, c);
    assert ClientHas(P, k, s.clock);
    assert ClientHas(P, Conclude(k, k.pc.verdict), s.clock);
    hide SystemHas, ClientHas, Touch, ClientOf, Conclude;
    ClientsHave(P, s, Step(s, Move(c), score), c, k.Addr());
  }

  lemma IdleMoveHas(P: Property, s: System, c: nat, score: Rounding)
    requires SystemHas(P, s) && ClientOf(s, c).pc.Idle?
    ensures SystemHas(P, Step(s, Move(c), score))
  {
    hide ClientHas;
  }

  lemma ExecHas(P: Property, s: System, c: nat, score: Rounding)
    requires Lasting(P) && SystemHas(P, s) && ClientOf(s, c).pc.Ready?
    requires !Decide(ClientOf(s, c).call, ClientOf(s, c).pc.seen.svr, ClientOf(s, c).pc.decidedAt).Answer?
    ensures SystemHas(P, Exec(s, c, score).(steps := s.steps + 1))
  {
    var k := ClientOf(s, c);
    var d := Decide(k.call, k.pc.seen.svr, k.pc.decidedAt);
    assert ClientHas(P, k, s.clock);
    assert d.Write? ==> P(d.svr, k.pc.stamp) && P(d.svr, s.clock);
    hide Decide, Keeps, Retag, Untag;
  }

  lemma MoveHas(P: Property, s: System, c: nat, score: Rounding)
    requires Lasting(P) && SystemHas(P, s) && Inv(s, score)
    ensures SystemHas(P, Step(s, Move(c), score))
  {
    var k := ClientOf(s, c);
    ClientOfOk(s, c, score);
    assert k.pc.Ready? ==> !Decide(k.call, k.pc.seen.svr, k.pc.decidedAt).Answer?;
    hide Inv, ClientOf, Advance, Step, SystemHas, ClientOk, Decide;
    if k.pc.Idle? {
      IdleMoveHas(P, s, c, score);
    } else if Quiet(s, k) {
      QuietMoveHas(P, s, c, score);
    } else if k.pc.Knocking? {
      LockMoveHas(P, s, c, score);
    } else if k.pc.Deleting? {
      UnlockMoveHas(P, s, c, score);
    } else {
      StepIsExec(s, c, score);
      ExecHas(P, s, c, score);
    }
  }

  lemma BeginHas(P: Property, s: System, c: nat, make: Maker, score: Rounding)
    requires Lasting(P) && SystemHas(P, s) && Respectful(P, make)
    ensures SystemHas(P, Step(s, Begin(c, make), score))
  {
    hide Decide, Keeps, Exec;
  }

  lemma ExpireHas(P: Property, s: System, a: Addr, score: Rounding)
    requires SystemHas(P, s)
    ensures SystemHas(P, Step(s, Expire(a), score))
  {
    hide Decide, Keeps, Exec;
    TouchAllHas(P, s, a);
    hide Touch, ClientHas;
  }

  lemma TickHas(P: Property, s: System, d: nat, score: Rounding)
    requires Lasting(P) && SystemHas(P, s)
    ensures SystemHas(P, Step(s, Tick(d), score))
  {
    hide Decide, Keeps, Exec;
    forall c | c in s.clients ensures ClientHas(P, s.clients[c], s.clock + d) {
      ClientHasLater(P, s.clients[c], s.clock, s.clock + d);
    }
  }

  lemma FetchHas(P: Property, s: System, c: nat, a: Addr, score: Rounding)
    requires SystemHas(P, s)
    ensures SystemHas(P, Step(s, Fetch(c, a), score))
  {
    hide Decide, Keeps, Exec;
  }

  lemma StepHas(P: Property, s: System, e: Event, score: Rounding)
    requires Lasting(P) && SystemHas(P, s) && Inv(s, score) && (e.Begin? ==> Respectful(P, e.make))
    ensures SystemHas(P, Step(s, e, score))
  {
    hide SystemHas, Inv, Lasting, Respectful, Step;
    match e
    case Fetch(c, a) => FetchHas(P, s, c, a, score);
    case Begin(c, make) => BeginHas(P, s, c, make, score);
    case Move(c) => MoveHas(P, s, c, score);
    case Expire(a) => ExpireHas(P, s, a, score);
    case Tick(d) => TickHas(P, s, d, score);
  }

  /** In every reachable state every stored record has the property, and had it when it was stored. */
  lemma {:induction false} RunHas(P: Property, start: Nanos, events: seq<Event>, score: Rounding)
    requires Lasting(P) && RespectfulRun(P, events)
    requires forall i :: 0 <= i < |events| ==> SaneEvent(events[i])
    ensures SystemHas(P, Run(Init(start), events, score))
    decreases |events|
  {
    hide SystemHas, Lasting, Respectful, Inv, Step, SaneEvent;
    if events == [] {
      InitHas(P, start);
    } else {
      var front := events[..|events| - 1];
      RunHas(P, start, front, score);
      RunKeeps(start, front, score);
      StepHas(P, Run(Init(start), front, score), events[|events| - 1], score);
    }
  }

  lemma InitHas(P: Property, start: Nanos)
    ensures SystemHas(P, Init(start))
  {
  }
}
