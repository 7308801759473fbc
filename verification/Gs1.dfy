/** Backslash-delimited fields and parameters. */
module Params {
  import opened Bytes
  import opened Entities

  const SLASH: byte := 92

  datatype Param = Param(name: Bytes, value: Bytes)

  predicate Plain(field: Bytes) {
    SLASH !in field
  }

  function IndexOf(s: Bytes, b: byte): (i: int)
    ensures -1 <= i < |s|
    ensures i == -1 <==> b !in s
    ensures i >= 0 ==> s[i] == b && forall k :: 0 <= k < i ==> s[k] != b
  {
    if s == [] then -1
    else if s[0] == b then 0
    else
      var i := IndexOf(s[1..], b);
      if i == -1 then -1 else i + 1
  }

  function LastIndexOf(s: Bytes, b: byte): (i: int)
    ensures -1 <= i < |s|
    ensures i == -1 <==> b !in s
    ensures i >= 0 ==> s[i] == b && forall k :: i < k < |s| ==> s[k] != b
  {
    if s == [] then -1
    else if s[|s| - 1] == b then |s| - 1
    else
      LastIndexOf(s[..|s| - 1], b)
  }

  predicate HasSuffix(s: Bytes, t: Bytes) {
    |t| <= |s| && s[|s| - |t|..] == t
  }

  function TrimSuffix(s: Bytes, t: Bytes): Bytes {
    if HasSuffix(s, t) then s[..|s| - |t|] else s
  }

  /** A field and what follows it, from its backslash on; None stands for nil. */
  function ConsumeField(payload: Bytes): (Bytes, Option<Bytes>) {
    if payload == [] then ([], None)
    else
      var consumed := payload[1..];
      var i := IndexOf(consumed, SLASH);
      if i != -1 then (consumed[..i], Some(consumed[i..])) else (consumed, None)
  }

  function ConsumeFieldFromRight(payload: Bytes): (Bytes, Option<Bytes>) {
    if payload == [] then ([], None)
    else
      var i := LastIndexOf(payload, SLASH);
      if i != -1 then (payload[i + 1..], Some(payload[..i])) else (payload, None)
  }

  function ConsumeParam(payload: Bytes): Option<(Param, Option<Bytes>)> {
    var (name, rest) := ConsumeField(payload);
    if rest.None? || name == [] then None
    else
      var (value, rest') := ConsumeField(rest.value);
      Some((Param(name, value), rest'))
  }

  function ConsumeParamFromRight(payload: Bytes): Option<(Param, Option<Bytes>)> {
    var (value, rest) := ConsumeFieldFromRight(payload);
    if rest.None? then None
    else
      var (name, rest') := ConsumeFieldFromRight(rest.value);
      if name == [] then None else Some((Param(name, value), rest'))
  }

  predicate Printable(p: Param) {
    Plain(p.name) && Plain(p.value) && p.name != []
  }

  /** `\name\value`. */
  function Print(p: Param): Bytes {
    [SLASH] + p.name + [SLASH] + p.value
  }

  lemma FirstField(name: Bytes, rest: Bytes)
    requires Plain(name) && (rest == [] || rest[0] == SLASH)
    ensures ConsumeField([SLASH] + name + rest) == (name, if rest == [] then None else Some(rest))
  {
    var payload := [SLASH] + name + rest;
    assert payload[1..] == name + rest;
    var i := IndexOf(name + rest, SLASH);
    if rest == [] {
      assert name + rest == name;
    } else {
      assert (name + rest)[|name|] == SLASH;
      assert forall k :: 0 <= k < |name| ==> (name + rest)[k] == name[k];
      assert (name + rest)[..|name|] == name && (name + rest)[|name|..] == rest;
    }
  }

  lemma LastField(rest: Bytes, value: Bytes)
    requires Plain(value)
    ensures ConsumeFieldFromRight(rest + [SLASH] + value) == (value, Some(rest))
  {
    var payload := rest + [SLASH] + value;
    var i := LastIndexOf(payload, SLASH);
    assert payload[|rest|] == SLASH;
    assert forall k :: |rest| < k < |payload| ==> payload[k] == value[k - |rest| - 1];
    assert payload[|rest| + 1..] == value && payload[..|rest|] == rest;
  }

  /** A parameter printed in front is the one consumed from the left. */
  lemma FirstParam(p: Param, rest: Bytes)
    requires Printable(p) && (rest == [] || rest[0] == SLASH)
    ensures ConsumeParam(Print(p) + rest) == Some((p, if rest == [] then None else Some(rest)))
  {
    assert Print(p) + rest == [SLASH] + p.name + ([SLASH] + p.value + rest);
    FirstField(p.name, [SLASH] + p.value + rest);
    FirstField(p.value, rest);
  }

  /** A parameter printed at the end is the one consumed from the right. */
  lemma LastParam(rest: Bytes, p: Param)
    requires Printable(p)
    ensures ConsumeParamFromRight(rest + Print(p)) == Some((p, Some(rest)))
  {
    assert rest + Print(p) == (rest + [SLASH] + p.name) + [SLASH] + p.value;
    LastField(rest + [SLASH] + p.name, p.value);
    LastField(rest, p.name);
  }

  /** So a text that ends in a printed parameter ends in no other one. */
  lemma SuffixIsParam(payload: Bytes, p: Param)
    requires Printable(p)
    ensures HasSuffix(payload, Print(p)) ==>
      ConsumeParamFromRight(payload) == Some((p, Some(TrimSuffix(payload, Print(p)))))
  {
    if HasSuffix(payload, Print(p)) {
      var rest := TrimSuffix(payload, Print(p));
      assert payload == rest + Print(p);
      LastParam(rest, p);
    }
  }

  lemma EndsInParam(rest: Bytes, p: Param, q: Param)
    requires Printable(p) && Printable(q)
    ensures HasSuffix(rest + Print(p), Print(q)) <==> p == q
    ensures TrimSuffix(rest + Print(p), Print(p)) == rest
  {
    LastParam(rest, p);
    SuffixIsParam(rest + Print(p), q);
    assert (rest + Print(p))[|rest|..] == Print(p) && (rest + Print(p))[..|rest|] == rest;
  }

  // ---- lists of parameters -------------------------------------------------------------

  function Fields(data: Bytes): (fields: seq<Bytes>)
    ensures |fields| >= 1
    decreases |data|
  {
    var (field, rest) := ConsumeField(data);
    if rest.None? then [field] else [field] + Fields(rest.value)
  }

  /** Every two fields make a parameter; a last single field is dropped. */
  function Pairs(fields: seq<Bytes>): (params: seq<Param>)
    ensures |params| == |fields| / 2
  {
    if |fields| < 2 then [] else [Param(fields[0], fields[1])] + Pairs(fields[2..])
  }

  function Parsed(data: Bytes): seq<Param> {
    Pairs(Fields(data))
  }

  lemma {:induction false} PairAt(fields: seq<Bytes>, k: nat)
    requires k < |fields| / 2
    ensures Pairs(fields)[k] == Param(fields[2 * k], fields[2 * k + 1])
  {
    if k > 0 {
      PairAt(fields[2..], k - 1);
    }
  }

  /** The first byte is taken for a backslash, whatever it is. */
  lemma FirstByteIsSkipped(data: Bytes)
    requires data != []
    ensures Parsed(data) == Parsed([SLASH] + data[1..])
    ensures ConsumeParam(data) == ConsumeParam([SLASH] + data[1..])
  {
    assert ([SLASH] + data[1..])[1..] == data[1..];
    hide Pairs, IndexOf;
  }

  method ParseParams(data: Bytes) returns (params: seq<Param>)
    ensures params == Parsed(data)
  {
    var fields: seq<Bytes> := [];
    var unparsed := Some(data);
    while unparsed.Some?
      invariant Fields(data) == if unparsed.Some? then fields + Fields(unparsed.value) else fields
      decreases if unparsed.Some? then 1 + |unparsed.value| else 0
    {
      var (field, rest) := ConsumeField(unparsed.value);
      hide ConsumeField, IndexOf;
      ghost var before, tail := fields, unparsed.value;
      fields := fields + [field];
      unparsed := rest;
      assert before + Fields(tail) == before + [field] + if rest.Some? then Fields(rest.value) else [];
    }
    params := PairUp(fields);
  }

  method PairUp(fields: seq<Bytes>) returns (params: seq<Param>)
    ensures params == Pairs(fields)
  {
    hide Pairs;
    params := [];
    var i := 1;
    while i < |fields|
      invariant i == 2 * |params| + 1 && |params| <= |fields| / 2
      invariant forall k :: 0 <= k < |params| ==> params[k] == Param(fields[2 * k], fields[2 * k + 1])
    {
      params := params + [Param(fields[i - 1], fields[i])];
      i := i + 2;
    }
    forall k | 0 <= k < |params| ensures params[k] == Pairs(fields)[k] {
      PairAt(fields, k);
    }
  }

  function PrintAll(params: seq<Param>): Bytes {
    if params == [] then [] else Print(params[0]) + PrintAll(params[1..])
  }

  ghost predicate AllPlain(params: seq<Param>) {
    forall i :: 0 <= i < |params| ==> Plain(params[i].name) && Plain(params[i].value)
  }

  lemma FieldsStep(field: Bytes, rest: Bytes)
    requires Plain(field) && (rest == [] || rest[0] == SLASH)
    ensures Fields([SLASH] + field + rest) == [field] + (if rest == [] then [] else Fields(rest))
  {
    FirstField(field, rest);
    hide ConsumeField, Plain;
  }

  /** The fields of a printed parameter come first. */
  lemma ParamFields(p: Param, rest: Bytes)
    requires Plain(p.name) && Plain(p.value) && (rest == [] || rest[0] == SLASH)
    ensures Fields(Print(p) + rest) == [p.name, p.value] + (if rest == [] then [] else Fields(rest))
  {
    hide Fields, Plain;
    var second := [SLASH] + p.value + rest;
    FieldsStep(p.name, second);
    FieldsStep(p.value, rest);
    Regroup([SLASH] + p.name, [SLASH] + p.value, rest);
    Regroup([SLASH] + p.name, [SLASH], p.value);
  }

  lemma PrintedStart(params: seq<Param>)
    ensures PrintAll(params) == [] <==> params == []
    ensures params != [] ==> PrintAll(params)[0] == SLASH
  {
  }

  lemma PrintedFields(params: seq<Param>)
    requires params != [] && AllPlain(params)
    ensures Fields(PrintAll(params)) ==
      [params[0].name, params[0].value] + (if |params| == 1 then [] else Fields(PrintAll(params[1..])))
  {
    hide Fields, Plain, Print;
    PrintedStart(params[1..]);
    ParamFields(params[0], PrintAll(params[1..]));
  }

  lemma NoParams()
    ensures Parsed([]) == []
  {
  }

  /** Printing parameters without backslashes and parsing the text gives them back. */
  lemma {:induction false} ParsePrinted(params: seq<Param>)
    requires AllPlain(params)
    ensures Parsed(PrintAll(params)) == params
    decreases |params|
  {
    hide ConsumeField, Fields, Plain;
    if params == [] {
      NoParams();
    } else {
      PrintedFields(params);
      var fields := Fields(PrintAll(params));
      hide PrintAll;
      if |params| > 1 {
        ParsePrinted(params[1..]);
        assert fields[2..] == Fields(PrintAll(params[1..]));
      } else {
        assert fields[2..] == [];
      }
      assert params == [params[0]] + params[1..];
    }
  }

  lemma {:induction false} PrintAllAppend(a: seq<Param>, b: seq<Param>)
    ensures PrintAll(a + b) == PrintAll(a) + PrintAll(b)
  {
    hide Print;
    if a == [] {
      assert a + b == b;
      assert PrintAll(a) + PrintAll(b) == PrintAll(b);
    } else {
      PrintAllAppend(a[1..], b);
      assert (a + b)[1..] == a[1..] + b;
      Regroup(Print(a[0]), PrintAll(a[1..]), PrintAll(b));
    }
  }
}

/** Decimal integers as strconv.Atoi reads them. */
module Decimal {
  import opened Bytes
  import opened Entities

  const MAX_INT64: int := 0x7fff_ffff_ffff_ffff
  const MIN_INT64: int := -0x8000_0000_0000_0000

  /** Conversion of a mathematical integer to a 64-bit one. */
  function Wrap64(x: int): int {
    if x > MAX_INT64 then x - 0x1_0000_0000_0000_0000 else x
  }

  predicate Digits(s: Bytes) {
    forall i :: 0 <= i < |s| ==> 48 <= s[i] <= 57
  }

  function NumberOf(s: Bytes): nat
    requires Digits(s)
  {
    if s == [] then 0 else 10 * NumberOf(s[..|s| - 1]) + (s[|s| - 1] - 48)
  }

  /** An optional sign and at least one digit, within 64 bits. */
  function Atoi(s: Bytes): Option<int> {
    var signed := s != [] && (s[0] == 43 || s[0] == 45);
    var digits := if signed then s[1..] else s;
    if digits == [] || !Digits(digits) then None
    else
      var n: int := NumberOf(digits);
      var v := if s[0] == 45 then -n else n;
      if MIN_INT64 <= v <= MAX_INT64 then Some(v) else None
  }

  function Itoa(n: nat): (s: Bytes)
    ensures s != [] && Digits(s)
  {
    if n < 10 then [48 + n] else Itoa(n / 10) + [48 + n % 10]
  }

  lemma {:induction false} ValueOfItoa(n: nat)
    ensures NumberOf(Itoa(n)) == n
  {
    if n >= 10 {
      ValueOfItoa(n / 10);
      assert Itoa(n)[..|Itoa(n)| - 1] == Itoa(n / 10);
    } else {
      assert Itoa(n)[..0] == [];
    }
  }

  /** The last digit is the number of units, and the digits before it are those of the tens. */
  lemma ItoaAppends(n: nat, d: nat)
    requires d < 10
    ensures Itoa(10 * n + d) == if n == 0 then [48 + d] else Itoa(n) + [48 + d]
  {
    assert (10 * n + d) / 10 == n && (10 * n + d) % 10 == d;
  }

  lemma AtoiOfItoa(n: nat)
    requires n <= MAX_INT64
    ensures Atoi(Itoa(n)) == Some(n)
  {
    ValueOfItoa(n);
  }

  /** Digits are read as they are, or negated after a minus sign. */
  lemma AtoiOfDigits(digits: Bytes)
    requires digits != [] && Digits(digits) && NumberOf(digits) <= MAX_INT64 + 1
    ensures NumberOf(digits) <= MAX_INT64 ==> Atoi(digits) == Some(NumberOf(digits))
    ensures Atoi([45] + digits) == Some(-(NumberOf(digits) as int))
  {
    hide NumberOf;
    assert ([45] + digits)[1..] == digits;
  }
}

/** Reassembly of a server's response from the datagrams it came in. */
module Gs1 {
  import opened Bytes
  import opened Entities
  import opened Params
  import opened Decimal

  datatype Version = VerUnknown | VerVanilla | VerAM | VerGS1

  datatype Fragment = Fragment(isFinal: bool, order: int, version: Version, data: Bytes)

  // `\final\`, `\eof\` and `\queryid\1.1` are all printed parameters.
  function StatusName(): Bytes {
    Ascii("statusresponse")
  }

  function QueryIdName(): Bytes {
    Ascii("queryid")
  }

  function FinalMark(): Param {
    Param(Ascii("final"), [])
  }

  function EofMark(): Param {
    Param(Ascii("eof"), [])
  }

  function VanillaMark(): Param {
    Param(QueryIdName(), Ascii("1.1"))
  }

  function OrEmpty(rest: Option<Bytes>): Bytes {
    if rest.None? then [] else rest.value
  }

  /** The order that a statusresponse announces: they count from zero. */
  function InspectStatusResponse(value: Bytes): Option<int> {
    var n := Atoi(value);
    if n.None? || n.value < 0 then None else Some(Wrap64(n.value + 1))
  }

  function InspectQueryId(value: Bytes): Option<(int, Version)> {
    var n := Atoi(value);
    if n.None? then Some((1, VerVanilla))
    else if n.value <= 0 then None
    else Some((n.value, VerGS1))
  }

  /** It begins with a statusresponse field. */
  predicate LooksLikeAmMod(payload: Bytes) {
    [SLASH] + StatusName() + [SLASH] <= payload
  }

  function InspectFragment(payload: Bytes): Option<Fragment> {
    if HasSuffix(payload, Print(VanillaMark())) then Some(Fragment(true, 1, VerVanilla, payload))
    else if LooksLikeAmMod(payload) then InspectAmMod(payload)
    else InspectGs1(payload)
  }

  function InspectAmMod(payload: Bytes): Option<Fragment> {
    var first := ConsumeParam(TrimSuffix(payload, Print(EofMark())));
    if first.None? || first.value.0.name != StatusName() then None
    else
      var order := InspectStatusResponse(first.value.0.value);
      if order.None? then None
      else
        var rest := WithoutQueryId(OrEmpty(first.value.1));
        Some(Fragment(HasSuffix(rest, Print(FinalMark())), order.value, VerAM, TrimSuffix(rest, Print(FinalMark()))))
  }

  /** Drops a trailing queryid, if there is one. */
  function WithoutQueryId(payload: Bytes): Bytes {
    var last := ConsumeParamFromRight(payload);
    if last.Some? && last.value.0.name == QueryIdName() then OrEmpty(last.value.1) else payload
  }

  function InspectGs1(payload: Bytes): Option<Fragment> {
    var last := ConsumeParamFromRight(TrimSuffix(payload, Print(FinalMark())));
    if last.None? || last.value.0.name != QueryIdName() then None
    else
      var order := InspectQueryId(last.value.0.value);
      if order.None? then None
      else Some(Fragment(HasSuffix(payload, Print(FinalMark())), order.value.0, order.value.1, OrEmpty(last.value.1)))
  }

  // ---- collecting ----------------------------------------------------------------------

  datatype Reply = Malformed | Incomplete | Complete(payload: Bytes, version: Version)

  /** What the loop of `collectPayload` has gathered; `count` is -1 until the final fragment is seen. */
  datatype Gathered = Gathered(count: int, version: Version, ordered: map<int, Bytes>)

  function Gather(fragments: seq<Bytes>): Option<Gathered> {
    if fragments == [] then Some(Gathered(-1, VerUnknown, map[]))
    else
      var g := Gather(fragments[..|fragments| - 1]);
      var f := InspectFragment(fragments[|fragments| - 1]);
      if g.None? || f.None? || f.value.order == -1 then None
      else Some(Absorb(g.value, f.value))
  }

  function Absorb(g: Gathered, f: Fragment): Gathered {
    Gathered(if f.isFinal then f.order else g.count, f.version, g.ordered[f.order := f.data])
  }

  /** The pieces 1 to `n` in order; a missing one adds nothing. */
  function Joined(ordered: map<int, Bytes>, n: nat): Bytes {
    if n == 0 then [] else Joined(ordered, n - 1) + if n in ordered then ordered[n] else []
  }

  function Reassembled(fragments: seq<Bytes>): Reply {
    var g := Gather(fragments);
    if g.None? then Malformed
    else if g.value.count < 0 || g.value.count != |g.value.ordered| then Incomplete
    else Complete(Joined(g.value.ordered, g.value.count), g.value.version)
  }

  method CollectPayload(fragments: seq<Bytes>) returns (reply: Reply)
    ensures reply == Reassembled(fragments)
  {
    hide InspectFragment;
    var version, count := VerUnknown, -1;
    var ordered: map<int, Bytes> := map[];
    for i := 0 to |fragments|
      invariant Gather(fragments[..i]) == Some(Gathered(count, version, ordered))
    {
      assert fragments[..i + 1][..i] == fragments[..i];
      var inspected := InspectFragment(fragments[i]);
      if inspected.None? || inspected.value.order == -1 {
        GatherFails(fragments, i + 1);
        return Malformed;
      }
      if inspected.value.isFinal {
        count := inspected.value.order;
      }
      version := inspected.value.version;
      ordered := ordered[inspected.value.order := inspected.value.data];
    }
    assert fragments[..|fragments|] == fragments;
    if count == -1 || count != |ordered| {
      return Incomplete;
    }
    var payload: Bytes := [];
    var i := 1;
    while i <= count
      invariant 1 <= i <= count + 1
      invariant payload == Joined(ordered, i - 1)
    {
      payload := payload + if i in ordered then ordered[i] else [];
      i := i + 1;
    }
    return Complete(payload, version);
  }

  /** One fragment that cannot be read spoils the whole reply. */
  lemma {:induction false} GatherFails(fragments: seq<Bytes>, n: nat)
    requires n <= |fragments| && Gather(fragments[..n]) == None
    ensures Gather(fragments) == None
  {
    hide InspectFragment;
    if n < |fragments| {
      var front := fragments[..|fragments| - 1];
      assert front[..n] == fragments[..n];
      GatherFails(front, n);
    } else {
      assert fragments[..n] == fragments;
    }
  }

  // ---- honest senders --------------------------------------------------------------------

  /** Fragment `order` of a GS1 response. */
  function Gs1Frame(piece: Bytes, order: nat, isFinal: bool): Bytes {
    piece + Print(Param(QueryIdName(), Itoa(order))) + if isFinal then Print(FinalMark()) else []
  }

  /** How an AdminMod fragment may end: with a final marker before or after a queryid, either, or neither. */
  datatype Trailer = Bare | QueryId(q: Bytes) | Final | QueryIdFinal(q: Bytes) | FinalQueryId(q: Bytes)

  predicate IsFinal(t: Trailer) {
    !t.Bare? && !t.QueryId?
  }

  function Tail(t: Trailer): Bytes {
    match t
    case Bare => []
    case QueryId(q) => Print(Param(QueryIdName(), q))
    case Final => Print(FinalMark())
    case QueryIdFinal(q) => Print(Param(QueryIdName(), q)) + Print(FinalMark())
    case FinalQueryId(q) => Print(FinalMark()) + Print(Param(QueryIdName(), q))
  }

  /** A queryid in front of the final marker is not recognised; it stays in the data. */
  function Kept(t: Trailer): Bytes {
    if t.QueryIdFinal? then Print(Param(QueryIdName(), t.q)) else []
  }

  function AmHeader(order: nat): Bytes
    requires order > 0
  {
    Print(Param(StatusName(), Itoa(order - 1)))
  }

  function AmFrame(piece: Bytes, order: nat, t: Trailer, eof: bool): Bytes
    requires order > 0
  {
    AmHeader(order) + piece + Tail(t) + if eof then Print(EofMark()) else []
  }

  predicate EndsWithQueryId(piece: Bytes) {
    var last := ConsumeParamFromRight(piece);
    last.Some? && last.value.0.name == QueryIdName()
  }

  /** The piece starts at a field, and where it is not marked off by its trailer it does not look like one. */
  predicate AmHonest(piece: Bytes, t: Trailer, eof: bool) {
    && (piece == [] || piece[0] == SLASH)
    && match t
       case Bare => !EndsWithQueryId(piece) && !HasSuffix(piece, Print(FinalMark()))
         && (!eof ==> !HasSuffix(piece, Print(EofMark())))
       case QueryId(q) => Plain(q) && !HasSuffix(piece, Print(FinalMark())) && (!eof ==> q != VanillaMark().value)
       case Final => true
       case QueryIdFinal(q) => Plain(q)
       case FinalQueryId(q) => Plain(q) && (!eof ==> q != VanillaMark().value)
  }

  lemma NamesArePlain()
    ensures Plain(StatusName()) && StatusName() != []
    ensures Printable(FinalMark()) && Printable(EofMark()) && Printable(VanillaMark())
    ensures VanillaMark().name == QueryIdName() && FinalMark().name != QueryIdName() && EofMark().name != QueryIdName()
    ensures FinalMark() != EofMark() && FinalMark().value == []
    ensures Plain(QueryIdName()) && QueryIdName() != []
  {
    assert QueryIdName()[0] == 113 && FinalMark().name[0] == 102 && EofMark().name[0] == 101;
    hide Ascii;
  }

  /** The markers as they are written. */
  lemma MarksAre()
    ensures Print(FinalMark()) == Ascii("\\final\\") && Print(EofMark()) == Ascii("\\eof\\")
    ensures Print(VanillaMark()) == Ascii("\\queryid\\1.1")
    ensures [SLASH] + StatusName() + [SLASH] == Ascii("\\statusresponse\\")
  {
  }

  lemma ShortMarks()
    ensures |Print(VanillaMark())| == 12 && |Print(EofMark())| == 5 && |StatusName()| == 14
    ensures VanillaMark().name != [] && EofMark().name != [] && VanillaMark().name[0] == 113 && EofMark().name[0] == 101
  {
  }

  lemma ItoaIsPlain(n: nat)
    ensures Plain(Itoa(n)) && Itoa(n) != VanillaMark().value
  {
    var s := Itoa(n);
    assert VanillaMark().value[1] == 46;
  }

  /** What a GS1 fragment ends in. */
  lemma Gs1FrameIsTrimmed(piece: Bytes, order: nat, isFinal: bool)
    ensures var frame := Gs1Frame(piece, order, isFinal);
            && !HasSuffix(frame, Print(VanillaMark()))
            && HasSuffix(frame, Print(FinalMark())) == isFinal
            && TrimSuffix(frame, Print(FinalMark())) == piece + Print(Param(QueryIdName(), Itoa(order)))
  {
    hide StatusName, QueryIdName, FinalMark, EofMark, VanillaMark, Itoa, Plain, HasSuffix, Print;
    var id := Param(QueryIdName(), Itoa(order));
    NamesArePlain();
    ItoaIsPlain(order);
    assert Printable(id);
    hide Printable;
    if isFinal {
      EndsInParam(piece + Print(id), FinalMark(), VanillaMark());
      EndsInParam(piece + Print(id), FinalMark(), FinalMark());
    } else {
      assert Gs1Frame(piece, order, isFinal) == piece + Print(id);
      EndsInParam(piece, id, VanillaMark());
      EndsInParam(piece, id, FinalMark());
    }
  }

  lemma Gs1BodyIsRead(piece: Bytes, order: nat)
    requires 0 < order <= MAX_INT64
    ensures var last := ConsumeParamFromRight(piece + Print(Param(QueryIdName(), Itoa(order))));
            && last.Some? && last.value.0.name == QueryIdName() && OrEmpty(last.value.1) == piece
            && InspectQueryId(last.value.0.value) == Some((order, VerGS1))
  {
    hide StatusName, QueryIdName, FinalMark, EofMark, VanillaMark, Itoa, Atoi, Plain, ConsumeParamFromRight, Print;
    NamesArePlain();
    ItoaIsPlain(order);
    AtoiOfItoa(order);
    LastParam(piece, Param(QueryIdName(), Itoa(order)));
  }

  /** What is inspected as AdminMod is never taken for GS1. */
  lemma AmModIsNotGs1(payload: Bytes)
    ensures InspectAmMod(payload).Some? ==> InspectAmMod(payload).value.version == VerAM
  {
    hide StatusName, QueryIdName, FinalMark, EofMark, HasSuffix, TrimSuffix, ConsumeParam, Print, WithoutQueryId,
         InspectStatusResponse, OrEmpty;
  }

  lemma StatusAndQueryId()
    ensures |StatusName()| > 0 && |QueryIdName()| > 0 && StatusName()[0] != QueryIdName()[0]
  {
  }

  /** The framing begins with a backslash, so it can complete a statusresponse that the piece leaves open. */
  lemma LooksLikeAmModIff(piece: Bytes, order: nat, isFinal: bool)
    ensures LooksLikeAmMod(Gs1Frame(piece, order, isFinal)) <==> LooksLikeAmMod(piece + [SLASH])
  {
    var frame, mark := Gs1Frame(piece, order, isFinal), [SLASH] + StatusName() + [SLASH];
    NamesArePlain();
    StatusAndQueryId();
    hide StatusName, QueryIdName, FinalMark, Itoa, Ascii;
    assert piece + [SLASH] <= frame && frame[|piece| + 1] == QueryIdName()[0];
    if |piece| + 1 < |mark| {
      var k := if piece == [] then 1 else |piece|;
      assert frame[k] != mark[k];
    }
  }

  /**
   * A GS1 fragment is read as what was framed - its order, its finality and the piece - exactly if
   * the piece, followed by a backslash, does not begin with a statusresponse field.
   */
  lemma Gs1FrameIsReadIff(piece: Bytes, order: nat, isFinal: bool)
    requires 0 < order <= MAX_INT64
    ensures InspectFragment(Gs1Frame(piece, order, isFinal)) == Some(Fragment(isFinal, order, VerGS1, piece))
       <==> !LooksLikeAmMod(piece + [SLASH])
  {
    hide StatusName, QueryIdName, FinalMark, EofMark, VanillaMark, Itoa, HasSuffix, TrimSuffix, ConsumeParamFromRight,
         Print, Gs1Frame, InspectQueryId, InspectAmMod, OrEmpty, LooksLikeAmMod;
    LooksLikeAmModIff(piece, order, isFinal);
    Gs1FrameIsTrimmed(piece, order, isFinal);
    Gs1BodyIsRead(piece, order);
    AmModIsNotGs1(Gs1Frame(piece, order, isFinal));
  }

  /** The header has two backslashes, and a digit after the second. */
  lemma HeaderShape(order: nat)
    requires order > 0
    ensures var header := AmHeader(order);
            && |header| >= |StatusName()| + 3 && 48 <= header[|StatusName()| + 2] <= 57
            && forall k :: 0 <= k < |header| && header[k] == SLASH ==> k == 0 || k == |StatusName()| + 1
  {
    var header, digits := AmHeader(order), Itoa(order - 1);
    NamesArePlain();
    assert header == [SLASH] + StatusName() + ([SLASH] + digits);
    assert forall k :: 0 < k <= |StatusName()| ==> header[k] == StatusName()[k - 1];
    assert forall k :: |StatusName()| + 2 <= k < |header| ==> header[k] == digits[k - |StatusName()| - 2];
  }

  /** A short suffix that starts a field with something other than a digit does not reach into the header. */
  lemma SuffixIsInPiece(order: nat, piece: Bytes, p: Param)
    requires order > 0 && p.name != [] && !(48 <= p.name[0] <= 57) && |Print(p)| <= |StatusName()|
    ensures HasSuffix(AmHeader(order) + piece, Print(p)) ==> HasSuffix(piece, Print(p))
  {
    HeaderShape(order);
    hide AmHeader, Ascii;
    var frame := AmHeader(order) + piece;
    if HasSuffix(frame, Print(p)) {
      var at := |frame| - |Print(p)|;
      assert Print(p)[0] == SLASH && Print(p)[1] == p.name[0];
      assert frame[at..][0] == SLASH && frame[at..][1] == p.name[0];
      assert at >= |AmHeader(order)|;
      assert piece[|piece| - |Print(p)|..] == frame[at..];
    }
  }

  /** The frame of an AdminMod fragment ends as its trailer says, and is not taken for a vanilla response. */
  lemma AmFrameIsTrimmed(piece: Bytes, order: nat, t: Trailer, eof: bool)
    requires order > 0 && AmHonest(piece, t, eof)
    ensures var frame := AmFrame(piece, order, t, eof);
            && !HasSuffix(frame, Print(VanillaMark()))
            && TrimSuffix(frame, Print(EofMark())) == AmHeader(order) + piece + Tail(t)
  {
    hide StatusName, QueryIdName, FinalMark, EofMark, VanillaMark, AmHeader, Plain, HasSuffix, TrimSuffix,
         ConsumeParamFromRight, Print, AmHonest, Tail;
    var plain := AmHeader(order) + piece + Tail(t);
    if eof {
      NamesArePlain();
      EndsInParam(plain, EofMark(), VanillaMark());
      EndsInParam(plain, EofMark(), EofMark());
    } else {
      assert AmFrame(piece, order, t, eof) == plain;
      AmTailIsNoMarker(piece, order, t);
    }
  }

  lemma AmTailIsNoMarker(piece: Bytes, order: nat, t: Trailer)
    requires order > 0 && AmHonest(piece, t, false)
    ensures var frame := AmHeader(order) + piece + Tail(t);
            && !HasSuffix(frame, Print(VanillaMark())) && !HasSuffix(frame, Print(EofMark()))
            && TrimSuffix(frame, Print(EofMark())) == frame
  {
    var head := AmHeader(order) + piece;
    NamesArePlain();
    ShortMarks();
    hide StatusName, QueryIdName, FinalMark, EofMark, VanillaMark, AmHeader, Plain, HasSuffix, ConsumeParamFromRight,
      Print;
    match t
    case Bare =>
      assert head + Tail(t) == head;
      SuffixIsInPiece(order, piece, VanillaMark());
      SuffixIsInPiece(order, piece, EofMark());
      SuffixIsParam(piece, VanillaMark());
    case QueryId(q) =>
      EndsInParam(head, Param(QueryIdName(), q), VanillaMark());
      EndsInParam(head, Param(QueryIdName(), q), EofMark());
    case Final =>
      EndsInParam(head, FinalMark(), VanillaMark());
      EndsInParam(head, FinalMark(), EofMark());
    case QueryIdFinal(q) =>
      Regroup(head, Print(Param(QueryIdName(), q)), Print(FinalMark()));
      EndsInParam(head + Print(Param(QueryIdName(), q)), FinalMark(), VanillaMark());
      EndsInParam(head + Print(Param(QueryIdName(), q)), FinalMark(), EofMark());
    case FinalQueryId(q) =>
      Regroup(head, Print(FinalMark()), Print(Param(QueryIdName(), q)));
      EndsInParam(head + Print(FinalMark()), Param(QueryIdName(), q), VanillaMark());
      EndsInParam(head + Print(FinalMark()), Param(QueryIdName(), q), EofMark());
  }

  /** Without its header, a fragment gives up its queryid and its final marker. */
  lemma AmBodyIsRead(piece: Bytes, t: Trailer, eof: bool)
    requires AmHonest(piece, t, eof)
    ensures var rest := WithoutQueryId(piece + Tail(t));
            HasSuffix(rest, Print(FinalMark())) == IsFinal(t) && TrimSuffix(rest, Print(FinalMark())) == piece + Kept(t)
  {
    NamesArePlain();
    hide StatusName, QueryIdName, FinalMark, EofMark, VanillaMark, Plain, Printable, HasSuffix, ConsumeParamFromRight,
      Print;
    assert piece + [] == piece;
    match t
    case Bare =>
    case QueryId(q) => LastParam(piece, Param(QueryIdName(), q));
    case Final =>
      LastParam(piece, FinalMark());
      EndsInParam(piece, FinalMark(), FinalMark());
    case QueryIdFinal(q) =>
      var kept := piece + Print(Param(QueryIdName(), q));
      Regroup(piece, Print(Param(QueryIdName(), q)), Print(FinalMark()));
      LastParam(kept, FinalMark());
      EndsInParam(kept, FinalMark(), FinalMark());
    case FinalQueryId(q) =>
      Regroup(piece, Print(FinalMark()), Print(Param(QueryIdName(), q)));
      LastParam(piece + Print(FinalMark()), Param(QueryIdName(), q));
      EndsInParam(piece, FinalMark(), FinalMark());
  }

  lemma TailStartsField(piece: Bytes, t: Trailer)
    requires piece == [] || piece[0] == SLASH
    ensures piece + Tail(t) == [] || (piece + Tail(t))[0] == SLASH
  {
  }

  lemma AmHeaderIsRead(order: nat, rest: Bytes)
    requires 0 < order <= MAX_INT64 && (rest == [] || rest[0] == SLASH)
    ensures var first := ConsumeParam(AmHeader(order) + rest);
            && first.Some? && first.value.0.name == StatusName()
            && InspectStatusResponse(first.value.0.value) == Some(order)
            && OrEmpty(first.value.1) == rest
  {
    hide StatusName, QueryIdName, FinalMark, EofMark, VanillaMark, Itoa, Atoi, Plain, ConsumeParam, Print;
    NamesArePlain();
    ItoaIsPlain(order - 1);
    AtoiOfItoa(order - 1);
    FirstParam(Param(StatusName(), Itoa(order - 1)), rest);
  }

  lemma AmPartsAreRead(frame: Bytes, order: nat, body: Bytes)
    requires 0 < order <= MAX_INT64 && (body == [] || body[0] == SLASH)
    requires !HasSuffix(frame, Print(VanillaMark())) && LooksLikeAmMod(frame)
    requires TrimSuffix(frame, Print(EofMark())) == AmHeader(order) + body
    ensures var rest := WithoutQueryId(body);
            InspectFragment(frame) ==
              Some(Fragment(HasSuffix(rest, Print(FinalMark())), order, VerAM, TrimSuffix(rest, Print(FinalMark()))))
  {
    hide StatusName, QueryIdName, FinalMark, EofMark, VanillaMark, HasSuffix, TrimSuffix, ConsumeParam, Print,
         AmHeader, WithoutQueryId, InspectStatusResponse, InspectGs1, OrEmpty;
    AmHeaderIsRead(order, body);
  }

  /** An AdminMod fragment is read as what was framed. */
  lemma AmFrameIsRead(piece: Bytes, order: nat, t: Trailer, eof: bool)
    requires 0 < order <= MAX_INT64 && AmHonest(piece, t, eof)
    ensures InspectFragment(AmFrame(piece, order, t, eof)) == Some(Fragment(IsFinal(t), order, VerAM, piece + Kept(t)))
  {
    assert piece == [] || piece[0] == SLASH;
    hide StatusName, QueryIdName, FinalMark, EofMark, VanillaMark, HasSuffix, TrimSuffix, Print, Tail,
         AmHeader, AmFrame, WithoutQueryId, AmHonest, InspectFragment, IsFinal, Kept, LooksLikeAmMod;
    AmFrameIsTrimmed(piece, order, t, eof);
    AmPrefix(piece, order, t, eof);
    TailStartsField(piece, t);
    Regroup(AmHeader(order), piece, Tail(t));
    AmPartsAreRead(AmFrame(piece, order, t, eof), order, piece + Tail(t));
    AmBodyIsRead(piece, t, eof);
  }

  lemma AmPrefix(piece: Bytes, order: nat, t: Trailer, eof: bool)
    requires order > 0
    ensures LooksLikeAmMod(AmFrame(piece, order, t, eof))
  {
    hide StatusName, QueryIdName, FinalMark, EofMark, VanillaMark, Itoa, Tail;
  }

  // ---- vanilla responses, and fragments that nobody should send -----------------------------

  /** What a payload with any queryid at its end is read as, unless it looks like AdminMod. */
  lemma QueryIdsAreRead(piece: Bytes, q: Bytes, isFinal: bool)
    requires Plain(q)
    requires var frame := piece + Print(Param(QueryIdName(), q)) + if isFinal then Print(FinalMark()) else [];
             !HasSuffix(frame, Ascii("\\queryid\\1.1")) && !(Ascii("\\statusresponse\\") <= frame)
    ensures var frame := piece + Print(Param(QueryIdName(), q)) + if isFinal then Print(FinalMark()) else [];
            InspectFragment(frame) ==
              if Atoi(q).None? then Some(Fragment(isFinal, 1, VerVanilla, piece))
              else if Atoi(q).value <= 0 then None
              else Some(Fragment(isFinal, Atoi(q).value, VerGS1, piece))
  {
    hide StatusName, QueryIdName, FinalMark, EofMark, VanillaMark, Ascii, Plain, HasSuffix, TrimSuffix, Print, Atoi,
         ConsumeParamFromRight, InspectAmMod;
    MarksAre();
    NamesArePlain();
    var body := piece + Print(Param(QueryIdName(), q));
    FramedByFinal(piece, q, isFinal);
    LastParam(piece, Param(QueryIdName(), q));
    assert !isFinal ==> body + [] == body;
  }

  lemma FramedByFinal(piece: Bytes, q: Bytes, isFinal: bool)
    requires Plain(q)
    ensures var body := piece + Print(Param(QueryIdName(), q));
            var frame := body + if isFinal then Print(FinalMark()) else [];
            HasSuffix(frame, Print(FinalMark())) == isFinal && TrimSuffix(frame, Print(FinalMark())) == body
  {
    hide StatusName, QueryIdName, FinalMark, EofMark, VanillaMark, Plain, HasSuffix, Print;
    NamesArePlain();
    var id := Param(QueryIdName(), q);
    assert Printable(id);
    hide Printable;
    if isFinal {
      EndsInParam(piece + Print(id), FinalMark(), FinalMark());
    } else {
      assert piece + Print(id) + [] == piece + Print(id);
      EndsInParam(piece, id, FinalMark());
    }
  }

  /** An AdminMod order that is no number, or a negative one, spoils the fragment. */
  lemma BadOrdersAreRefused(n: Bytes, rest: Bytes)
    requires Plain(n) && (rest == [] || rest[0] == SLASH) && (Atoi(n).None? || Atoi(n).value < 0)
    ensures InspectAmMod(Print(Param(StatusName(), n)) + rest + Print(EofMark())) == None
  {
    hide StatusName, QueryIdName, FinalMark, EofMark, Plain, HasSuffix, TrimSuffix, Print, Atoi, ConsumeParam,
         WithoutQueryId;
    NamesArePlain();
    var p := Param(StatusName(), n);
    assert Printable(p);
    EndsInParam(Print(p) + rest, EofMark(), EofMark());
    FirstParam(p, rest);
  }

  /** The orders count from one where a statusresponse counts from zero; the greatest wraps around. */
  lemma StatusResponsesAre(n: nat)
    requires n <= MAX_INT64
    ensures InspectStatusResponse(Itoa(n)) == Some(if n == MAX_INT64 then MIN_INT64 else n + 1)
  {
    AtoiOfItoa(n);
    hide Itoa, Atoi;
  }

  /** A text without a single backslash is no fragment. */
  lemma PlainIsRefused(payload: Bytes)
    requires Plain(payload)
    ensures InspectFragment(payload) == None
  {
    MarksEndInSlash();
    assert ([SLASH] + StatusName() + [SLASH])[0] == SLASH;
    NoParamIn(payload);
    hide ConsumeParamFromRight;
    hide StatusName, QueryIdName, FinalMark, EofMark, VanillaMark, Print, Ascii, InspectAmMod;
    PlainHasNoMark(payload, Print(VanillaMark()));
    PlainHasNoMark(payload, Print(FinalMark()));
  }

  lemma NoParamIn(payload: Bytes)
    requires Plain(payload)
    ensures ConsumeParamFromRight(payload) == None
  {
  }

  lemma PlainHasNoMark(payload: Bytes, mark: Bytes)
    requires Plain(payload) && SLASH in mark
    ensures !HasSuffix(payload, mark)
  {
    if |mark| <= |payload| {
      var k :| 0 <= k < |mark| && mark[k] == SLASH;
      assert payload[|payload| - |mark|..][k] == payload[|payload| - |mark| + k] != SLASH;
    }
  }

  lemma MarksEndInSlash()
    ensures SLASH in Print(VanillaMark()) && SLASH in Print(FinalMark())
  {
    assert Print(VanillaMark())[0] == SLASH && Print(FinalMark())[0] == SLASH;
  }

  /** A vanilla response is one datagram, complete by itself, and however often it comes; the marker stays in it. */
  lemma VanillaIsComplete(payload: Bytes, fragments: seq<Bytes>)
    requires fragments != []
    requires forall k :: 0 <= k < |fragments| ==> fragments[k] == payload + Ascii("\\queryid\\1.1")
    ensures Reassembled(fragments) == Complete(payload + Ascii("\\queryid\\1.1"), VerVanilla)
  {
    hide Reassembled, StatusName, QueryIdName, FinalMark, EofMark, Ascii, Print, InspectAmMod, InspectGs1, Concat;
    MarksAre();
    var whole := payload + Print(VanillaMark());
    assert HasSuffix(whole, Print(VanillaMark()));
    assert InspectFragment(whole) == Some(Fragment(true, 1, VerVanilla, whole));
    var orders: seq<nat> := seq(|fragments|, i => 1);
    assert orders[0] == 1;
    hide InspectFragment, HasSuffix;
    DeliveryIsReassembled(fragments, orders, [whole], VerVanilla);
    OnePiece(whole);
  }

  lemma OnePiece(piece: Bytes)
    ensures Concat([piece]) == piece
  {
    assert [piece][..0] == [];
  }

  /** So the parameters of a vanilla response come back as they were printed, the queryid among them. */
  lemma VanillaRoundTrip(params: seq<Param>, fragments: seq<Bytes>)
    requires AllPlain(params) && fragments != []
    requires var sent := params + [Param(Ascii("queryid"), Ascii("1.1"))];
             forall k :: 0 <= k < |fragments| ==> fragments[k] == PrintAll(sent)
    ensures var sent := params + [Param(Ascii("queryid"), Ascii("1.1"))];
            Reassembled(fragments) == Complete(PrintAll(sent), VerVanilla) && Parsed(PrintAll(sent)) == sent
  {
    hide Reassembled, Parsed, PrintAll;
    var mark := Param(Ascii("queryid"), Ascii("1.1"));
    assert mark == VanillaMark();
    NamesArePlain();
    MarksAre();
    hide Ascii, VanillaMark;
    PrintAllAppend(params, [mark]);
    PrintOne(mark);
    VanillaIsComplete(PrintAll(params), fragments);
    ParsePrinted(params + [mark]);
  }

  lemma PrintOne(p: Param)
    ensures PrintAll([p]) == Print(p)
  {
    hide Print;
    assert [p][1..] == [];
    assert Print(p) + [] == Print(p);
  }

  // ---- delivery in any order, with duplicates ----------------------------------------------

  /** Each datagram is a fragment of the same response: its order, and whether it is the last one, are right. */
  ghost predicate FragmentsOf(fragments: seq<Bytes>, orders: seq<nat>, pieces: seq<Bytes>, v: Version) {
    && |orders| == |fragments|
    && forall k :: 0 <= k < |fragments| ==>
         && 1 <= orders[k] <= |pieces|
         && InspectFragment(fragments[k]) == Some(Fragment(orders[k] == |pieces|, orders[k], v, pieces[orders[k] - 1]))
  }

  function Concat(pieces: seq<Bytes>): Bytes {
    if pieces == [] then [] else Concat(pieces[..|pieces| - 1]) + pieces[|pieces| - 1]
  }

  /** The pieces of the fragments with these orders have been gathered. */
  ghost predicate Holds(g: Gathered, orders: seq<nat>, pieces: seq<Bytes>, v: Version) {
    && (forall i :: i in g.ordered <==> i in orders)
    && (forall i :: i in g.ordered ==> 1 <= i <= |pieces| && g.ordered[i] == pieces[i - 1])
    && g.count == (if |pieces| in orders then |pieces| else -1)
    && (orders != [] ==> g.version == v)
  }

  lemma AbsorbHonest(g: Gathered, orders: seq<nat>, o: nat, pieces: seq<Bytes>, v: Version)
    requires Holds(g, orders, pieces, v) && 1 <= o <= |pieces|
    ensures Holds(Absorb(g, Fragment(o == |pieces|, o, v, pieces[o - 1])), orders + [o], pieces, v)
  {
  }

  lemma {:induction false} GatherHonest(fragments: seq<Bytes>, orders: seq<nat>, pieces: seq<Bytes>, v: Version)
    requires FragmentsOf(fragments, orders, pieces, v)
    ensures Gather(fragments).Some? && Holds(Gather(fragments).value, orders, pieces, v)
  {
    hide InspectFragment, Absorb;
    if fragments == [] {
      assert orders == [];
    } else {
      var n := |fragments| - 1;
      GatherHonest(fragments[..n], orders[..n], pieces, v);
      hide Holds;
      AbsorbHonest(Gather(fragments[..n]).value, orders[..n], orders[n], pieces, v);
      assert orders == orders[..n] + [orders[n]];
    }
  }

  lemma {:induction false} UpToSize(keys: set<int>, n: nat)
    requires forall i :: i in keys ==> 1 <= i <= n
    ensures |keys| <= n
    ensures |keys| == n <==> forall i :: 1 <= i <= n ==> i in keys
  {
    if n > 0 {
      UpToSize(keys - {n}, n - 1);
      if n in keys {
        assert |keys| == |keys - {n}| + 1;
      } else {
        assert keys - {n} == keys;
      }
    } else {
      assert forall i :: i !in keys;
      assert keys == {};
    }
  }

  lemma {:induction false} JoinedIsConcat(ordered: map<int, Bytes>, pieces: seq<Bytes>, n: nat)
    requires n <= |pieces| && forall i :: 1 <= i <= n ==> i in ordered && ordered[i] == pieces[i - 1]
    ensures Joined(ordered, n) == Concat(pieces[..n])
  {
    if n > 0 {
      JoinedIsConcat(ordered, pieces, n - 1);
      assert pieces[..n][..n - 1] == pieces[..n - 1];
    }
  }

  /**
   * The fragments of a response may come in any order and any of them several times: the reply is
   * incomplete until all of them have come, and from then on it is the pieces in order.
   */
  lemma DeliveryIsReassembled(fragments: seq<Bytes>, orders: seq<nat>, pieces: seq<Bytes>, v: Version)
    requires FragmentsOf(fragments, orders, pieces, v) && pieces != []
    ensures Reassembled(fragments) ==
      if forall i :: 1 <= i <= |pieces| ==> i in orders then Complete(Concat(pieces), v) else Incomplete
  {
    hide FragmentsOf, Gather, Joined, Concat;
    GatherHonest(fragments, orders, pieces, v);
    var g := Gather(fragments).value;
    UpToSize(g.ordered.Keys, |pieces|);
    if forall i :: 1 <= i <= |pieces| ==> i in orders {
      assert |pieces| in orders;
      JoinedIsConcat(g.ordered, pieces, |pieces|);
      assert pieces[..|pieces|] == pieces;
    }
  }

  // ---- whole responses -----------------------------------------------------------------------

  /** Datagrams of one GS1 response: `orders[k]` is the order of the k-th to arrive. */
  ghost predicate Gs1Datagrams(fragments: seq<Bytes>, orders: seq<nat>, pieces: seq<Bytes>) {
    && |orders| == |fragments|
    && forall k :: 0 <= k < |fragments| ==>
         && 1 <= orders[k] <= |pieces| <= MAX_INT64
         && fragments[k] == Gs1Frame(pieces[orders[k] - 1], orders[k], orders[k] == |pieces|)
         && !LooksLikeAmMod(pieces[orders[k] - 1] + [SLASH])
  }

  /** Datagrams of one AdminMod response; each may come with its own trailer and with or without eof. */
  ghost predicate AmDatagrams(fragments: seq<Bytes>, orders: seq<nat>, pieces: seq<Bytes>, trailers: seq<Trailer>,
          eofs: seq<bool>) {
    && |orders| == |fragments| == |eofs| && |trailers| == |pieces| <= MAX_INT64
    && (forall i :: 0 <= i < |pieces| ==> (IsFinal(trailers[i]) <==> i == |pieces| - 1))
    && forall k :: 0 <= k < |fragments| ==>
         && 1 <= orders[k] <= |pieces|
         && AmHonest(pieces[orders[k] - 1], trailers[orders[k] - 1], eofs[k])
         && fragments[k] == AmFrame(pieces[orders[k] - 1], orders[k], trailers[orders[k] - 1], eofs[k])
  }

  predicate AllIn(n: nat, orders: seq<nat>) {
    forall i :: 1 <= i <= n ==> i in orders
  }

  /**
   * Parameters printed, cut into any pieces, framed as GS1 fragments, delivered in any order and with
   * any duplicates, reassembled and parsed, are the same parameters, once every fragment has arrived.
   */
  lemma Gs1RoundTrip(params: seq<Param>, pieces: seq<Bytes>, fragments: seq<Bytes>, orders: seq<nat>)
    requires AllPlain(params) && pieces != [] && Concat(pieces) == PrintAll(params)
    requires Gs1Datagrams(fragments, orders, pieces)
    ensures var reply := Reassembled(fragments);
            if AllIn(|pieces|, orders)
            then reply == Complete(PrintAll(params), VerGS1) && Parsed(reply.payload) == params
            else reply == Incomplete
  {
    hide InspectFragment, Gs1Frame, Reassembled, Parsed, Concat;
    forall k | 0 <= k < |fragments|
      ensures InspectFragment(fragments[k]) ==
        Some(Fragment(orders[k] == |pieces|, orders[k], VerGS1, pieces[orders[k] - 1]))
    {
      Gs1FrameIsReadIff(pieces[orders[k] - 1], orders[k], orders[k] == |pieces|);
    }
    DeliveryIsReassembled(fragments, orders, pieces, VerGS1);
    ParsePrinted(params);
  }

  function LastTrailer(trailers: seq<Trailer>): Trailer
    requires trailers != []
  {
    trailers[|trailers| - 1]
  }

  /** The parameter that a queryid in front of the final marker leaves in the data. */
  function LeftOver(t: Trailer): seq<Param> {
    if t.QueryIdFinal? then [Param(QueryIdName(), t.q)] else []
  }

  function WithKept(pieces: seq<Bytes>, trailers: seq<Trailer>): (kept: seq<Bytes>)
    requires |trailers| == |pieces|
    ensures |kept| == |pieces|
  {
    seq(|pieces|, i requires 0 <= i < |pieces| => pieces[i] + Kept(trailers[i]))
  }

  /** Only the last piece can keep something of its trailer. */
  lemma KeptAtTheEnd(pieces: seq<Bytes>, trailers: seq<Trailer>)
    requires |trailers| == |pieces| > 0
    requires forall i :: 0 <= i < |pieces| ==> (IsFinal(trailers[i]) <==> i == |pieces| - 1)
    ensures Concat(WithKept(pieces, trailers)) == Concat(pieces) + Kept(LastTrailer(trailers))
  {
    hide Kept, Concat, IsFinal;
    var kept, n := WithKept(pieces, trailers), |pieces| - 1;
    forall i | 0 <= i < n ensures kept[i] == pieces[i] {
      NothingKept(pieces[i], trailers[i]);
    }
    assert kept[..n] == pieces[..n];
    ConcatLast(kept);
    ConcatLast(pieces);
    Regroup(Concat(pieces[..n]), pieces[n], Kept(trailers[n]));
  }

  lemma NothingKept(piece: Bytes, t: Trailer)
    requires !IsFinal(t)
    ensures piece + Kept(t) == piece
  {
  }

  lemma ConcatLast(pieces: seq<Bytes>)
    requires pieces != []
    ensures Concat(pieces) == Concat(pieces[..|pieces| - 1]) + pieces[|pieces| - 1]
  {
  }

  lemma LeftOverIsPrinted(params: seq<Param>, t: Trailer)
    ensures PrintAll(params + LeftOver(t)) == PrintAll(params) + Kept(t)
  {
    PrintAllAppend(params, LeftOver(t));
    hide Print, StatusName, QueryIdName, FinalMark, EofMark, VanillaMark;
    if t.QueryIdFinal? {
      assert LeftOver(t)[1..] == [];
      assert PrintAll(LeftOver(t)) == Kept(t) + [];
    }
  }

  lemma AmDatagramIsRead(fragments: seq<Bytes>, orders: seq<nat>, pieces: seq<Bytes>, trailers: seq<Trailer>,
          eofs: seq<bool>, k: nat)
    requires AmDatagrams(fragments, orders, pieces, trailers, eofs) && k < |fragments|
    ensures InspectFragment(fragments[k]) ==
      Some(Fragment(orders[k] == |pieces|, orders[k], VerAM, WithKept(pieces, trailers)[orders[k] - 1]))
    ensures orders[k] == |pieces| && LastTrailer(trailers).QueryIdFinal? ==> Plain(LastTrailer(trailers).q)
  {
    hide InspectFragment, AmFrame, Kept, EndsWithQueryId, HasSuffix, StatusName, QueryIdName, FinalMark, EofMark,
      VanillaMark;
    AmFrameIsRead(pieces[orders[k] - 1], orders[k], trailers[orders[k] - 1], eofs[k]);
  }

  /**
   * The same for AdminMod fragments cut at fields, whatever mix of queryid, final and eof markers
   * they carry. A queryid in front of the final marker arrives as one more parameter.
   */
  lemma AmRoundTrip(params: seq<Param>, pieces: seq<Bytes>, fragments: seq<Bytes>, orders: seq<nat>,
                    trailers: seq<Trailer>, eofs: seq<bool>)
    requires AllPlain(params) && pieces != [] && Concat(pieces) == PrintAll(params)
    requires AmDatagrams(fragments, orders, pieces, trailers, eofs)
    ensures var reply := Reassembled(fragments);
            var sent := params + LeftOver(LastTrailer(trailers));
            if AllIn(|pieces|, orders) then reply == Complete(PrintAll(sent), VerAM) && Parsed(reply.payload) == sent
            else reply == Incomplete
  {
    hide InspectFragment, AmFrame, Kept, AmHonest, Reassembled, Parsed, Concat, Print, WithKept,
         StatusName, QueryIdName, FinalMark, EofMark, VanillaMark;
    forall k | 0 <= k < |fragments|
      ensures InspectFragment(fragments[k]) ==
        Some(Fragment(orders[k] == |pieces|, orders[k], VerAM, WithKept(pieces, trailers)[orders[k] - 1]))
    {
      AmDatagramIsRead(fragments, orders, pieces, trailers, eofs, k);
    }
    DeliveryIsReassembled(fragments, orders, WithKept(pieces, trailers), VerAM);
    if AllIn(|pieces|, orders) {
      assert |pieces| in orders;
      var k :| 0 <= k < |orders| && orders[k] == |pieces|;
      AmDatagramIsRead(fragments, orders, pieces, trailers, eofs, k);
      KeptAtTheEnd(pieces, trailers);
      LeftOverIsPrinted(params, LastTrailer(trailers));
      LeftOverIsPlain(params, LastTrailer(trailers));
      ParsePrinted(params + LeftOver(LastTrailer(trailers)));
    }
  }

  lemma LeftOverIsPlain(params: seq<Param>, t: Trailer)
    requires AllPlain(params) && (t.QueryIdFinal? ==> Plain(t.q))
    ensures AllPlain(params + LeftOver(t))
  {
    NamesArePlain();
    hide Plain;
  }

  // ---- when the completeness test is right -----------------------------------------------------

  /** A fragment with that order is among those that have come. */
  ghost predicate Arrived(fragments: seq<Bytes>, order: int) {
    exists k :: 0 <= k < |fragments| && InspectFragment(fragments[k]).Some?
      && InspectFragment(fragments[k]).value.order == order
  }

  lemma {:induction false} GatheredHaveArrived(fragments: seq<Bytes>)
    requires Gather(fragments).Some?
    ensures forall i :: i in Gather(fragments).value.ordered <==> Arrived(fragments, i)
  {
    hide InspectFragment;
    if fragments != [] {
      var front := fragments[..|fragments| - 1];
      GatheredHaveArrived(front);
      forall i ensures Arrived(fragments, i) <==>
        Arrived(front, i) || InspectFragment(fragments[|front|]).value.order == i {
        if Arrived(front, i) {
          var k :| 0 <= k < |front| && InspectFragment(front[k]).Some? && InspectFragment(front[k]).value.order == i;
          assert fragments[k] == front[k];
        }
        if Arrived(fragments, i) && InspectFragment(fragments[|front|]).value.order != i {
          var k :| 0 <= k < |fragments| && InspectFragment(fragments[k]).Some?
            && InspectFragment(fragments[k]).value.order == i;
          assert front[k] == fragments[k];
        }
      }
    }
  }

  /** Orders are positive, but for the greatest statusresponse, whose increment wraps around. */
  lemma OrdersArePositive(raw: Bytes)
    ensures InspectFragment(raw).Some? ==>
      InspectFragment(raw).value.order >= 1 || InspectFragment(raw).value.order == MIN_INT64
  {
    hide HasSuffix, TrimSuffix, ConsumeParam, ConsumeParamFromRight, Print, Ascii, StatusName, QueryIdName, Digits,
      NumberOf;
  }

  /** As many distinct numbers as the range has: they are all of it exactly if none is outside. */
  lemma Pigeonhole(keys: set<int>, n: nat)
    requires |keys| == n
    ensures (forall i :: 1 <= i <= n ==> i in keys) <==> (forall i :: i in keys ==> 1 <= i <= n)
  {
    var inside := set i | i in keys && 1 <= i <= n;
    UpToSize(inside, n);
    assert keys == inside + (keys - inside);
    assert |keys| == |inside| + |keys - inside|;
    if |inside| == n {
      assert keys - inside == {};
    }
  }

  /**
   * When a reply is given as complete, every fragment up to the final one has come exactly if
   * none has come with an order beyond the final one, nor with the one order that wraps around.
   */
  lemma CompleteIsWholeIff(fragments: seq<Bytes>)
    requires Reassembled(fragments).Complete?
    ensures var count := Gather(fragments).value.count;
            (forall i :: 1 <= i <= count ==> Arrived(fragments, i)) <==>
            (forall i :: Arrived(fragments, i) ==> i <= count) && !Arrived(fragments, MIN_INT64)
  {
    hide InspectFragment, Gather, Joined;
    var g := Gather(fragments).value;
    GatheredHaveArrived(fragments);
    Pigeonhole(g.ordered.Keys, g.count);
    forall i | Arrived(fragments, i) ensures i >= 1 || i == MIN_INT64 {
      var k :| 0 <= k < |fragments| && InspectFragment(fragments[k]).Some?
        && InspectFragment(fragments[k]).value.order == i;
      OrdersArePositive(fragments[k]);
    }
  }

  lemma GatherTwo(a: Bytes, b: Bytes)
    requires InspectFragment(a).Some? && InspectFragment(a).value.order != -1
    requires InspectFragment(b).Some? && InspectFragment(b).value.order != -1
    ensures Gather([a, b]) ==
      Some(Absorb(Absorb(Gathered(-1, VerUnknown, map[]), InspectFragment(a).value), InspectFragment(b).value))
  {
    hide InspectFragment, Absorb;
    assert [a, b][..1] == [a];
    assert Gather([a]) == Some(Absorb(Gathered(-1, VerUnknown, map[]), InspectFragment(a).value)) by {
      assert [a][..0] == [];
      assert Gather([a][..0]) == Some(Gathered(-1, VerUnknown, map[]));
    }
  }

  /** The completeness test only counts: two fragments may pass for a whole response with a piece missing. */
  lemma GapGoesUnnoticed(last: Bytes, stray: Bytes, order: nat)
    requires 2 < order <= MAX_INT64
    requires !LooksLikeAmMod(last + [SLASH]) && !LooksLikeAmMod(stray + [SLASH])
    ensures Reassembled([Gs1Frame(stray, order, false), Gs1Frame(last, 2, true)]) == Complete(last, VerGS1)
  {
    hide InspectFragment, Gs1Frame, StatusName, Gather;
    Gs1FrameIsReadIff(last, 2, true);
    Gs1FrameIsReadIff(stray, order, false);
    GatherTwo(Gs1Frame(stray, order, false), Gs1Frame(last, 2, true));
    var ordered: map<int, Bytes> := map[order := stray][2 := last];
    assert |ordered| == 2;
    assert Joined(ordered, 0) == [];
    assert Joined(ordered, 1) == [];
    assert Joined(ordered, 2) == last;
  }
}
