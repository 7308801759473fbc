/** Filtering a store that a run of the protocol has produced, in terms of instants instead of scores. */
module Instants {
  import opened Entities
  import opened Store
  import opened LockProtocol
  import opened LockSafety
  import opened Serializability
  import opened Repository

  /** In every reachable state exactly the stored records have a last save, and their index scores are its rounding. */
  lemma SavesAreKnown(start: Nanos, events: seq<Event>, score: Rounding)
    requires SaneRun(events)
    ensures var s := Run(Init(start), events, score);
            && Consistent(s.db, score)
            && forall a :: (a in s.db.items <==> a in Stamps(s.log)) && (a in s.db.items <==> a in s.db.updated)
                           && (a in s.db.items ==> s.db.updated[a] == score(Stamps(s.log)[a]))
  {
    hide Run, LogOk, ClientOk, Apart, Has, Members;
    RunKeeps(start, events, score);
  }

  /**
   * Filter on the quiet store at the end of any run, with `saved` the instant each record was last
   * saved in that run: what it returns was not saved or refreshed at or after an upper bound; with
   * lower bounds only it misses no server; and where no instant is confused with a bound it returns
   * exactly the servers that meet all criteria as plain instants. Each server is returned once, as stored.
   */
  method FilterAfterRun(servers: Repository, fs: FilterSet, ghost start: Nanos, ghost events: seq<Event>)
    returns (found: seq<Server>)
    requires SaneRun(events) && servers.View() == Run(Init(start), events, servers.score).db
    ensures forall i, j :: 0 <= i < j < |found| ==> found[i].addr != found[j].addr
    ensures forall svr :: svr in found ==> Lookup(servers.items, svr.addr) == Some(svr)
    ensures var saved := Stamps(Run(Init(start), events, servers.score).log);
            && (forall a :: a in servers.items <==> a in saved)
            && (forall svr :: svr in found ==>
                  PlainlyMatches(fs.(updatedAfter := None, activeAfter := None), servers.items, saved, svr.addr))
            && (fs.updatedBefore.None? && fs.activeBefore.None? ==>
                  forall a :: PlainlyMatches(fs, servers.items, saved, a) ==> servers.items[a] in found)
            && (forall a :: a in servers.items && ToldApart(fs, servers.items[a], saved[a], servers.score) ==>
                  (servers.items[a] in found <==> PlainlyMatches(fs, servers.items, saved, a)))
  {
    hide Run, Matches, PlainlyMatches, ToldApart, Consistent;
    ghost var saved := Stamps(Run(Init(start), events, servers.score).log);
    SavesAreKnown(start, events, servers.score);
    found := servers.Filter(fs);
    forall a | a in servers.items
      ensures servers.items[a] in found <==> Matches(fs, servers.View(), a, servers.score)
      ensures Matches(fs, servers.View(), a, servers.score) ==>
        PlainlyMatches(fs.(updatedAfter := None, activeAfter := None), servers.items, saved, a)
      ensures fs.updatedBefore.None? && fs.activeBefore.None? && PlainlyMatches(fs, servers.items, saved, a) ==>
        Matches(fs, servers.View(), a, servers.score)
      ensures ToldApart(fs, servers.items[a], saved[a], servers.score) ==>
        (Matches(fs, servers.View(), a, servers.score) <==> PlainlyMatches(fs, servers.items, saved, a))
    {
      StoredAddressIs(servers.View(), a, servers.score);
      FilterMeansInstants(fs, servers.View(), saved, a, servers.score);
    }
    MatchesStored(fs, servers.View(), saved, servers.score);
  }

  lemma StoredAddressIs(db: Db, a: Addr, score: Rounding)
    requires Consistent(db, score) && a in db.items
    ensures db.items[a].addr == a
  {
  }

  lemma MatchesStored(fs: FilterSet, db: Db, saved: map<Addr, Nanos>, score: Rounding)
    ensures forall a :: Matches(fs, db, a, score) ==> a in db.items
    ensures forall a :: PlainlyMatches(fs, db.items, saved, a) ==> a in db.items
  {
    hide Has, HasAny;
  }
}
