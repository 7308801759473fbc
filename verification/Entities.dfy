/** The values the discovery system passes around: times, statuses and server records. */
module Entities {

  datatype Option<+T> = None | Some(value: T)

  /** Instants in nanoseconds. The zero instant, "never", is modelled by an Option where it can occur. */
  type Nanos = int

  datatype Addr = Addr(ip: int, port: int)

  // ---- discovery status ------------------------------------------------------------

  /** A set of discovery bits, one machine word in the source; nine bits are in use. */
  type Status = s: bv16 | s < 512

  const NEW: Status := 1
  const MASTER: Status := 2
  const INFO: Status := 4
  const DETAILS: Status := 8
  const DETAILS_RETRY: Status := 16
  const NO_DETAILS: Status := 32
  const PORT: Status := 64
  const PORT_RETRY: Status := 128
  const NO_PORT: Status := 256

  function Members(): (m: seq<Status>)
    ensures |m| == 9
  {
    [NEW, MASTER, INFO, DETAILS, DETAILS_RETRY, NO_DETAILS, PORT, PORT_RETRY, NO_PORT]
  }

  /** All the given bits are set. */
  predicate Has(s: Status, bits: Status) {
    s & bits == bits
  }

  predicate HasAny(s: Status, bits: Status) {
    s & bits != 0
  }

  predicate HasNo(s: Status, bits: Status) {
    s & !(bits as bv16) == s
  }

  function UpdateStatus(s: Status, bits: Status): Status {
    (s & !(NEW as bv16)) | bits
  }

  function ClearStatus(s: Status, bits: Status): Status {
    s & !(bits as bv16)
  }

  /** The bit of weight 2^k. */
  function Bit(k: nat): (b: bv16)
    requires k <= 9
    ensures k < 9 ==> b == Members()[k]
  {
    if k == 9 then 512 else Members()[k]
  }

  /** The first `k` members that are set in `s`, in order. */
  function Select(s: Status, k: nat): (bits: seq<Status>)
    requires k <= 9
    ensures forall b :: b in bits <==> b in Members()[..k] && HasAny(s, b)
  {
    if k == 0 then []
    else
      assert Members()[..k] == Members()[..k - 1] + [Members()[k - 1]];
      if HasAny(s, Members()[k - 1]) then Select(s, k - 1) + [Members()[k - 1]] else Select(s, k - 1)
  }

  /** The loop of `Bits`: a bit is shifted left until it passes the word. */
  method Bits(s: Status) returns (bits: seq<Status>)
    ensures bits == Select(s, 9)
    ensures forall b :: b in bits <==> b in Members() && Has(s, b)
  {
    hide *;
    BitEdges();
    bits := [];
    var bit: bv16 := 1;
    ghost var k := 0;
    NothingSelected(s);
    while bit <= s
      invariant 0 <= k <= 9 && bit == Bit(k)
      invariant bits == Select(s, k)
      decreases 9 - k
    {
      BitWithin(s, k);
      ShiftStep(k);
      SelectNext(s, bit, k);
      if s & bit != 0 {
        bits := bits + [bit];
      }
      bit := bit << 1;
      k := k + 1;
    }
    AboveIsClear(s, k, 9);
    SelectIsHas(s);
  }

  lemma BitEdges()
    ensures Bit(0) == 1
  {
  }

  lemma NothingSelected(s: Status)
    ensures Select(s, 0) == []
  {
  }

  /** A bit that does not pass the word is one of the nine. */
  lemma BitWithin(s: Status, k: nat)
    requires k <= 9 && Bit(k) <= s
    ensures k < 9
  {
    hide Members;
  }

  lemma SelectNext(s: Status, bit: bv16, k: nat)
    requires k < 9 && bit == Bit(k)
    ensures Select(s, k + 1) == if s & bit != 0 then Select(s, k) + [bit] else Select(s, k)
  {
    hide Select, HasAny, Has, Members, Bit;
    SelectMember(s, Members()[k], k);
  }

  lemma SelectMember(s: Status, b: Status, k: nat)
    requires k < 9 && b == Members()[k]
    ensures Select(s, k + 1) == if s & b != 0 then Select(s, k) + [b] else Select(s, k)
  {
    hide Members;
  }

  lemma ShiftStep(k: nat)
    requires k < 9
    ensures Bit(k) << 1 == Bit(k + 1)
  {
  }

  lemma {:induction false} AboveIsClear(s: Status, k: nat, n: nat)
    requires k <= n <= 9 && Bit(k) > s
    ensures Select(s, n) == Select(s, k)
  {
    if k < n {
      AboveIsClear(s, k, n - 1);
      BitsGrow(s, k, n - 1);
    }
  }

  lemma BitsGrow(s: Status, k: nat, n: nat)
    requires k <= n < 9 && Bit(k) > s
    ensures s & Bit(n) == 0
  {
    var w, v := Bit(k), Bit(n);
    assert w <= v;
    assert v == 1 || v == 2 || v == 4 || v == 8 || v == 16 || v == 32 || v == 64 || v == 128 || v == 256;
    assert v > s;
  }

  lemma SelectIsHas(s: Status)
    ensures forall b :: b in Select(s, 9) <==> b in Members() && Has(s, b)
  {
    hide Select;
    assert Members()[..9] == Members();
    forall b | b in Members() ensures HasAny(s, b) <==> Has(s, b) {
      var i :| 0 <= i < 9 && Members()[i] == b;
      SingleBit(s, i);
    }
  }

  lemma SingleBit(s: Status, i: nat)
    requires i < 9
    ensures HasAny(s, Members()[i]) <==> Has(s, Members()[i])
  {
  }

  // ---- server records --------------------------------------------------------------

  /** A parsed info block together with the validator's verdict on it. */
  datatype Info = Info(text: string, passes: bool)

  /** A parsed details block. It passes validation only if its info does. */
  datatype Details = Details(info: Info, text: string, listsPass: bool) {
    predicate Passes() {
      info.passes && listsPass
    }
  }

  const BLANK_INFO := Info("", false)
  const BLANK_DETAILS := Details(BLANK_INFO, "", false)

  /** A server record: a value that is copied, changed and stored whole. */
  datatype Server = Server(
    addr: Addr,
    queryPort: int,
    status: Status,
    info: Info,
    details: Details,
    refreshedAt: Option<Nanos>,
    version: int)
  {
    function Bumped(): Server {
      this.(version := version + 1)
    }

    function WithInfo(i: Info): Server {
      this.(info := i)
    }

    function WithDetails(d: Details): Server {
      this.(details := d, info := d.info)
    }

    function Refreshed(at: Nanos): Server {
      this.(refreshedAt := Some(at))
    }

    function Marked(bits: Status): Server {
      this.(status := UpdateStatus(status, bits))
    }

    function Cleared(bits: Status): Server {
      this.(status := ClearStatus(status, bits))
    }
  }

  /** `NewFromAddr`; the port check is its only error. */
  function NewServer(addr: Addr, queryPort: int): Option<Server> {
    if queryPort < 1 || queryPort > 65535 then None
    else Some(Server(addr, queryPort, NEW, BLANK_INFO, BLANK_DETAILS, None, 0))
  }

  // ---- probes ----------------------------------------------------------------------

  datatype Goal = GoalDetails | GoalPort

  datatype Probe = Probe(addr: Addr, port: int, goal: Goal, retries: int, maxRetries: int)

  /** `probe.New`. */
  function NewProbe(a: Addr, port: int, goal: Goal, maxRetries: int): Probe {
    Probe(a, port, goal, 0, maxRetries)
  }

  /** `IncRetries`: None when the limit is reached. */
  function IncRetries(p: Probe): Option<Probe> {
    if p.retries >= p.maxRetries then None else Some(p.(retries := p.retries + 1))
  }

  /** A probe with the time after which it is no longer worth running, if any. */
  datatype Item = Item(probe: Probe, expires: Option<Nanos>)

  predicate Expired(item: Item, now: Nanos) {
    item.expires.Some? && item.expires.value < now
  }
}
