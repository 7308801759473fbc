/** The instances that game servers announce themselves with: an id, and the address it was reported from. */
module Instances {
  import opened Bytes
  import opened Entities

  const ID_LENGTH := 4

  /** What is known about the id that a request presents. */
  datatype Identity = Malformed | Unknown | Known(addr: Addr)

  function Identify(entries: map<Bytes, Addr>, id: Bytes): Identity {
    if |id| != ID_LENGTH then Malformed
    else if id in entries then Known(entries[id])
    else Unknown
  }

  /** An instance needs an id of the right length and an address that is in order. */
  predicate CanRegister(id: Bytes, a: Addr, usable: bool) {
    |id| == ID_LENGTH && 1 <= a.port <= 65535 && usable
  }

  class Registry {
    var entries: map<Bytes, Addr>

    constructor ()
      ensures entries == map[]
    {
      entries := map[];
    }

    /** An id of another length is refused unseen; of the others exactly the registered ones are known. */
    method Get(id: Bytes) returns (who: Identity)
      ensures who == Identify(entries, id)
      ensures (who.Malformed? <==> |id| != 4) && (who.Known? <==> |id| == 4 && id in entries)
      ensures who.Known? ==> who.addr == entries[id]
    {
      if |id| != ID_LENGTH {
        return Malformed;
      }
      if id !in entries {
        return Unknown;
      }
      return Known(entries[id]);
    }

    method Add(id: Bytes, a: Addr)
      modifies this
      ensures entries == old(entries)[id := a]
    {
      entries := entries[id := a];
    }

    method Remove(id: Bytes)
      modifies this
      ensures entries == old(entries) - {id}
    {
      entries := entries - {id};
    }
  }
}
