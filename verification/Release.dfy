/**
 * What becomes of a lock key between two commands of its owner: from taking the lock to the
 * ownership check, and from the token check of the release to its DEL.
 */
module Release {
  import opened Entities
  import opened Store
  import opened LockProtocol
  import opened LockSafety
  import opened Serializability
  import opened Guard

  /** The event deletes the key: it expires, or some client's release gets to its DEL. */
  predicate Removes(s: System, e: Event, a: Addr) {
    && a in s.locks
    && match e
       case Expire(b) => b == a
       case Move(d) => ClientOf(s, d).pc.Deleting? && ClientOf(s, d).Addr() == a
       case _ => false
  }

  /** The event is a SETNX that gets the key. */
  predicate Takes(s: System, e: Event, a: Addr) {
    && a !in s.locks
    && e.Move? && ClientOf(s, e.c).pc.Knocking? && ClientOf(s, e.c).attempts > 0 && ClientOf(s, e.c).Addr() == a
  }

  /** Event `i` of the run deletes the key. */
  ghost predicate RemovedAt(s: System, events: seq<Event>, a: Addr, i: int, score: Rounding) {
    0 <= i < |events| && Removes(Run(s, events[..i], score), events[i], a)
  }

  ghost predicate TakenAt(s: System, events: seq<Event>, a: Addr, i: int, score: Rounding) {
    0 <= i < |events| && Takes(Run(s, events[..i], score), events[i], a)
  }

  ghost predicate Removed(s: System, events: seq<Event>, a: Addr, score: Rounding) {
    exists i :: RemovedAt(s, events, a, i, score)
  }

  /** The key is deleted, then taken again, and not deleted after that. */
  ghost predicate Retaken(s: System, events: seq<Event>, a: Addr, score: Rounding) {
    exists i, j :: i < j && RemovedAt(s, events, a, i, score) && TakenAt(s, events, a, j, score)
                   && forall k :: j < k ==> !RemovedAt(s, events, a, k, score)
  }

  predicate Holds(s: System, a: Addr, token: nat) {
    a in s.locks && s.locks[a] == token
  }

  // ---- one event ---------------------------------------------------------------------------

  /** An event deletes the key, takes it under a new token, or leaves it as it is. */
  lemma StepOnKey(s: System, e: Event, a: Addr, score: Rounding)
    ensures var t := Step(s, e, score);
            && s.tokens <= t.tokens
            && (Removes(s, e, a) ==> a !in t.locks)
            && (Takes(s, e, a) ==> Holds(t, a, s.tokens) && s.tokens < t.tokens)
            && (!Removes(s, e, a) && !Takes(s, e, a) ==>
                  (a in t.locks <==> a in s.locks) && (a in s.locks ==> t.locks[a] == s.locks[a]))
  {
    hide Touch, Commit, Decide, Conclude, Judge, Branch, Lookup;
  }

  // ---- a whole run ---------------------------------------------------------------------------

  /** What the last event adds to the removals and takings of a run. */
  lemma LastEvent(s: System, events: seq<Event>, a: Addr, score: Rounding)
    requires events != []
    ensures var n := |events| - 1;
            var v := Run(s, events[..n], score);
            && (forall i :: RemovedAt(s, events, a, i, score) <==>
                  RemovedAt(s, events[..n], a, i, score) || (i == n && Removes(v, events[n], a)))
            && (forall i :: TakenAt(s, events, a, i, score) <==>
                  TakenAt(s, events[..n], a, i, score) || (i == n && Takes(v, events[n], a)))
  {
    hide Removes, Takes, Run;
    assert forall i :: 0 <= i < |events| - 1 ==> events[..|events| - 1][..i] == events[..i];
  }

  /** The last event deletes the key: it is not taken again yet. */
  lemma RemovalEnds(s: System, events: seq<Event>, a: Addr, score: Rounding)
    requires events != [] && Removes(Run(s, events[..|events| - 1], score), events[|events| - 1], a)
    ensures Removed(s, events, a, score) && !Retaken(s, events, a, score)
  {
    hide Run;
    var n := |events| - 1;
    assert events[..n] == events[..|events| - 1];
    assert RemovedAt(s, events, a, n, score);
    assert !TakenAt(s, events, a, n, score);
  }

  /** The last event takes the key after it had been deleted. */
  lemma TakingEnds(s: System, events: seq<Event>, a: Addr, score: Rounding)
    requires events != [] && Takes(Run(s, events[..|events| - 1], score), events[|events| - 1], a)
    requires Removed(s, events[..|events| - 1], a, score)
    ensures Removed(s, events, a, score) && Retaken(s, events, a, score)
  {
    hide Run, Removes, Takes;
    var n := |events| - 1;
    LastEvent(s, events, a, score);
    var i :| RemovedAt(s, events[..n], a, i, score);
    assert RemovedAt(s, events, a, i, score) && TakenAt(s, events, a, n, score) && i < n;
  }

  /** The last event leaves the key alone. */
  lemma NothingEnds(s: System, events: seq<Event>, a: Addr, score: Rounding)
    requires events != []
    requires !Removes(Run(s, events[..|events| - 1], score), events[|events| - 1], a)
    requires !Takes(Run(s, events[..|events| - 1], score), events[|events| - 1], a)
    ensures Removed(s, events, a, score) <==> Removed(s, events[..|events| - 1], a, score)
    ensures Retaken(s, events, a, score) <==> Retaken(s, events[..|events| - 1], a, score)
  {
    LastEvent(s, events, a, score);
    hide Run, Removes, Takes, RemovedAt, TakenAt;
  }

  /**
   * A key that is held under some token is still held under it after any run exactly if nothing
   * deleted it on the way; and after a deletion it is held at all, then under another token,
   * exactly if it was taken again since it was last deleted.
   */
  lemma {:induction false} KeyFate(s: System, events: seq<Event>, a: Addr, token: nat, score: Rounding)
    requires Holds(s, a, token) && token < s.tokens
    ensures var t := Run(s, events, score);
            && s.tokens <= t.tokens
            && (Holds(t, a, token) <==> !Removed(s, events, a, score))
            && (a in t.locks && t.locks[a] != token <==> Retaken(s, events, a, score))
            && (Retaken(s, events, a, score) ==> Removed(s, events, a, score))
    decreases |events|
  {
    hide Step, Removes, Takes;
    if events != [] {
      var n := |events| - 1;
      KeyFate(s, events[..n], a, token, score);
      StepOnKey(Run(s, events[..n], score), events[n], a, score);
      hide Retaken, Removed;
      if Removes(Run(s, events[..n], score), events[n], a) {
        RemovalEnds(s, events, a, score);
      } else if Takes(Run(s, events[..n], score), events[n], a) {
        TakesWhenFree(Run(s, events[..n], score), events[n], a);
        TakingEnds(s, events, a, score);
      } else {
        NothingEnds(s, events, a, score);
      }
    }
  }

  lemma TakesWhenFree(s: System, e: Event, a: Addr)
    ensures Takes(s, e, a) ==> a !in s.locks
    ensures Removes(s, e, a) ==> a in s.locks
  {
  }

  // ---- the release -----------------------------------------------------------------------------

  /**
   * A release has read its own token and is about to delete the key; others act before it does.
   * Its DEL removes its own lock exactly if no event in between deleted the key, and it removes
   * somebody else's exactly if the key was deleted and taken again.
   */
  lemma ReleaseHitsForeignLockIff(s: System, others: seq<Event>, c: nat, score: Rounding)
    requires ClientOf(s, c).pc.Deleting? && Holds(s, ClientOf(s, c).Addr(), ClientOf(s, c).pc.token)
    requires ClientOf(s, c).pc.token < s.tokens
    requires forall i :: 0 <= i < |others| ==> Elsewhere(others[i], c)
    ensures var k := ClientOf(s, c);
            var a := k.Addr();
            var t := Run(s, others, score);
            && ClientOf(t, c).pc == k.pc && ClientOf(t, c).Addr() == a
            && a !in Step(t, Move(c), score).locks
            && (Holds(t, a, k.pc.token) <==> !Removed(s, others, a, score))
            && (a in t.locks && t.locks[a] != k.pc.token <==> Retaken(s, others, a, score))
  {
    hide Run, Step, Removed, Retaken, Elsewhere;
    var t := Run(s, others, score);
    OthersRun(s, others, c, score);
    KeyFate(s, others, ClientOf(s, c).Addr(), ClientOf(s, c).pc.token, score);
    DeleteStepIs(t, c, score);
  }

  /** In every reachable state tokens that are in use have been handed out before. */
  lemma TokensAreOld(start: Nanos, events: seq<Event>, score: Rounding, c: nat)
    requires SaneRun(events)
    ensures var s := Run(Init(start), events, score);
            ClientOf(s, c).pc.HasToken() ==> ClientOf(s, c).pc.token < s.tokens
  {
    hide Run;
    RunKeeps(start, events, score);
    ClientOfOk(Run(Init(start), events, score), c, score);
    hide Inv, SightOk, CallOk;
  }

  /** The same in any run: `before` leads to the token check, `others` happens between it and the DEL. */
  lemma RunReleaseHitsForeignLockIff(start: Nanos, before: seq<Event>, others: seq<Event>, c: nat, score: Rounding)
    requires SaneRun(before)
    requires var s := Run(Init(start), before, score);
             ClientOf(s, c).pc.Deleting? && Holds(s, ClientOf(s, c).Addr(), ClientOf(s, c).pc.token)
    requires forall i :: 0 <= i < |others| ==> Elsewhere(others[i], c)
    ensures var s := Run(Init(start), before, score);
            var k := ClientOf(s, c);
            var t := Run(s, others, score);
            && (Holds(t, k.Addr(), k.pc.token) <==> !Removed(s, others, k.Addr(), score))
            && (k.Addr() in t.locks && t.locks[k.Addr()] != k.pc.token <==> Retaken(s, others, k.Addr(), score))
            && k.Addr() !in Step(t, Move(c), score).locks
  {
    hide Run, Step, Removed, Retaken, Elsewhere, SaneRun;
    TokensAreOld(start, before, score, c);
    ReleaseHitsForeignLockIff(Run(Init(start), before, score), others, c, score);
  }

  // ---- the ownership check -----------------------------------------------------------------------

  /** From SETNX to the ownership check: others act before and after the WATCH. */
  function UpToCheck(early: seq<Event>, c: nat, late: seq<Event>): seq<Event> {
    early + [Move(c)] + late
  }

  lemma WatchesNext(s: System, early: seq<Event>, c: nat, late: seq<Event>, score: Rounding)
    requires ClientOf(s, c).pc.Acquired?
    requires forall i :: 0 <= i < |early| ==> Elsewhere(early[i], c)
    requires forall i :: 0 <= i < |late| ==> Elsewhere(late[i], c)
    ensures var k := ClientOf(Run(s, UpToCheck(early, c, late), score), c);
            k.pc == Watching(ClientOf(s, c).pc.token) && k.Addr() == ClientOf(s, c).Addr()
  {
    hide Run, Step, Elsewhere;
    OthersRun(s, early, c, score);
    var v := Run(s, early, score);
    var w := Step(v, Move(c), score);
    QuietStepIs(v, c, score);
    assert Run(s, early + [Move(c)], score) == w by {
      StepAfter(s, early, Move(c), score);
    }
    RunsCompose(s, early + [Move(c)], late, score);
    OthersRun(w, late, c, score);
  }

  lemma StepAfter(s: System, events: seq<Event>, e: Event, score: Rounding)
    ensures Run(s, events + [e], score) == Step(Run(s, events, score), e, score)
  {
    hide Step;
    assert (events + [e])[..|events|] == events;
  }

  /**
   * The three results of the ownership check of a client that has got its lock: it goes on exactly
   * if the key was not deleted since; it tries again exactly if the key was deleted and taken again;
   * and it fails with the error that nobody retries exactly if the key was deleted and is free.
   */
  lemma OwnershipCheckIff(s: System, early: seq<Event>, c: nat, late: seq<Event>, score: Rounding)
    requires ClientOf(s, c).pc.Acquired? && Holds(s, ClientOf(s, c).Addr(), ClientOf(s, c).pc.token)
    requires ClientOf(s, c).pc.token < s.tokens
    requires forall i :: 0 <= i < |early| ==> Elsewhere(early[i], c)
    requires forall i :: 0 <= i < |late| ==> Elsewhere(late[i], c)
    ensures var events := UpToCheck(early, c, late);
            var k := ClientOf(s, c);
            var pc := ClientOf(Step(Run(s, events, score), Move(c), score), c).pc;
            && (pc.Owning? <==> !Removed(s, events, k.Addr(), score))
            && (pc == Checking(k.pc.token, Again) <==> Retaken(s, events, k.Addr(), score))
            && (pc == Checking(k.pc.token, Settled(Lost)) <==>
                  Removed(s, events, k.Addr(), score) && !Retaken(s, events, k.Addr(), score))
  {
    hide Run, Step, Removed, Retaken, Elsewhere, UpToCheck;
    var events := UpToCheck(early, c, late);
    var t := Run(s, events, score);
    WatchesNext(s, early, c, late, score);
    KeyFate(s, events, ClientOf(s, c).Addr(), ClientOf(s, c).pc.token, score);
    QuietStepIs(t, c, score);
  }

  /** A successful SETNX is such a start: the client then holds the key under a token just handed out. */
  lemma SetNxStarts(s: System, c: nat, score: Rounding)
    requires ClientOf(s, c).pc.Knocking? && ClientOf(s, c).attempts > 0 && ClientOf(s, c).Addr() !in s.locks
    ensures var t := Step(s, Move(c), score);
            && ClientOf(t, c).pc == Acquired(s.tokens) && ClientOf(t, c).Addr() == ClientOf(s, c).Addr()
            && Holds(t, ClientOf(s, c).Addr(), s.tokens) && s.tokens < t.tokens
  {
    hide Step, Touch;
    LockStepIs(s, c, score);
  }

  // ---- no lock is left behind --------------------------------------------------------------------

  /** The lock on the key, if there is one, is that of a client in the middle of a call for it. */
  ghost predicate Owned(s: System, a: Addr) {
    a in s.locks ==> exists c :: IsOwner(s, c, a)
  }

  ghost predicate IsOwner(s: System, c: nat, a: Addr)
    requires a in s.locks
  {
    && c in s.clients && s.clients[c].pc.HasToken()
    && s.clients[c].pc.token == s.locks[a] && s.clients[c].Addr() == a
  }

  /** A client keeps its token and its key from SETNX to the end of the attempt. */
  lemma StepOnOwner(s: System, e: Event, c: nat, a: Addr, score: Rounding)
    requires a in s.locks && IsOwner(s, c, a)
    ensures var t := Step(s, e, score);
            a in t.locks && t.locks[a] == s.locks[a] ==> IsOwner(t, c, a)
  {
    if Elsewhere(e, c) {
      hide Step, Elsewhere;
      OtherStep(s, e, c, score);
    } else {
      OwnStepOnOwner(s, e, c, a, score);
    }
  }

  lemma OwnStepOnOwner(s: System, e: Event, c: nat, a: Addr, score: Rounding)
    requires a in s.locks && IsOwner(s, c, a) && !Elsewhere(e, c)
    ensures var t := Step(s, e, score);
            a in t.locks && t.locks[a] == s.locks[a] ==> IsOwner(t, c, a)
  {
    hide Commit, Decide, Lookup, Touch;
  }

  lemma StepKeepsOwned(s: System, e: Event, a: Addr, score: Rounding)
    requires Owned(s, a)
    ensures Owned(Step(s, e, score), a)
  {
    hide Step, Takes, Removes;
    var t := Step(s, e, score);
    StepOnKey(s, e, a, score);
    if a in t.locks {
      if Takes(s, e, a) {
        TakerOwns(s, e, a, score);
      } else {
        var c :| a in s.locks && IsOwner(s, c, a);
        StepOnOwner(s, e, c, a, score);
      }
    }
  }

  lemma TakerOwns(s: System, e: Event, a: Addr, score: Rounding)
    requires Takes(s, e, a)
    ensures var t := Step(s, e, score); a in t.locks && IsOwner(t, e.c, a)
  {
    hide Touch, Step;
    LockStepIs(s, e.c, score);
  }

  /** So in every run no lock outlives the call that took it, unless its client stops in the middle. */
  lemma {:induction false} LocksAreOwned(start: Nanos, events: seq<Event>, a: Addr, score: Rounding)
    ensures Owned(Run(Init(start), events, score), a)
    decreases |events|
  {
    hide Step;
    if events == [] {
    } else {
      hide Owned;
      LocksAreOwned(start, events[..|events| - 1], a, score);
      StepKeepsOwned(Run(Init(start), events[..|events| - 1], score), events[|events| - 1], a, score);
    }
  }

  /** The first command of a release deletes nothing, and leads to the DEL exactly if it read its own token. */
  lemma ReleaseChecksFirst(s: System, c: nat, score: Rounding)
    requires ClientOf(s, c).pc.Checking?
    ensures var k, t := ClientOf(s, c), Step(s, Move(c), score);
            && t.locks == s.locks
            && (ClientOf(t, c).pc == Deleting(k.pc.token, k.pc.verdict) <==> Holds(s, k.Addr(), k.pc.token))
            && (!Holds(s, k.Addr(), k.pc.token) ==> !ClientOf(t, c).pc.HasToken())
  {
    hide Step;
    QuietStepIs(s, c, score);
  }

  // ---- the retry loop ------------------------------------------------------------------------------

  /** A call starts with five attempts, from what the client holds. */
  lemma CallsHaveFiveAttempts(s: System, c: nat, make: Maker, score: Rounding)
    requires ClientOf(s, c).pc.Idle?
    ensures var k, t := ClientOf(s, c), ClientOf(Step(s, Event.Begin(c, make), score), c);
            && t.pc == Knocking && t.attempts == 5 && t.last.None?
            && t.call == make(if k.held.Some? then Some(k.held.value.svr) else None, s.clock)
            && t.base == k.held && t.entered == |s.log|
  {
  }

  /**
   * What makes a call try again, and what ends it: a SETNX that does not get the key costs an attempt,
   * and without attempts the call gives up; a refused transaction changes nothing and is an attempt that
   * failed; an attempt that failed goes back to the SETNX once its release is done, and one that settled
   * the call ends it with that answer.
   */
  lemma RetryLoop(s: System, c: nat, score: Rounding)
    ensures var k, t := ClientOf(s, c), Step(s, Move(c), score);
            var l := ClientOf(t, c);
            && (k.pc.Knocking? && k.attempts == 0 ==> l.pc == Idle && l.last == Some(GaveUp))
            && (k.pc.Knocking? && k.attempts > 0 && k.Addr() in s.locks ==>
                  l.pc == Knocking && l.attempts == k.attempts - 1)
            && (k.pc.Ready? && k.dirty ==> l.pc == Checking(k.pc.token, Again) && t.db == s.db && t.log == s.log)
            && ((k.pc.Deleting? || (k.pc.Checking? && !Holds(s, k.Addr(), k.pc.token))) ==>
                  match k.pc.verdict
                  case Again => l.pc == Knocking && l.attempts == k.attempts
                  case Settled(o) => l.pc == Idle && l.last == Some(o))
  {
    hide Decide, Commit, Lookup, Touch, Exec, Judge, Branch;
  }
}
