/** One filter of a browser query: a field, an operator and a value. */
module Filters {
  import opened Bytes
  import opened Entities
  import opened Decimal

  const QUOTE: byte := 39

  datatype Operator = EQ | NE | LT | GT

  datatype Value = Num(n: int) | Text(t: Bytes) | FieldRef(name: Bytes)

  datatype Filter = Filter(field: Bytes, op: Operator, value: Value)

  datatype Error = InvalidFormat | UnknownField | UnsupportedOperator | InvalidValue | NoFilters

  datatype Parsing = Good(filter: Filter) | Failed(error: Error)

  predicate IsQueryField(field: Bytes) {
    || field == Ascii("gamename") || field == Ascii("hostname") || field == Ascii("numplayers")
    || field == Ascii("maxplayers") || field == Ascii("gametype") || field == Ascii("gamevariant")
    || field == Ascii("mapname") || field == Ascii("hostport") || field == Ascii("password")
    || field == Ascii("statsenabled") || field == Ascii("gamever")
  }

  /** `!`, `=`, `<` and `>`. */
  predicate IsOpChar(c: byte) {
    c == 33 || c == 61 || c == 60 || c == 62
  }

  // ---- what parsing yields ---------------------------------------------------------------

  /** How many bytes precede the first operator character. */
  function NameLength(s: Bytes): (n: nat)
    ensures n <= |s| && (n < |s| ==> IsOpChar(s[n]))
    ensures forall k :: 0 <= k < n ==> !IsOpChar(s[k])
  {
    if s == [] || IsOpChar(s[0]) then 0 else 1 + NameLength(s[1..])
  }

  /** How many operator characters the text starts with. */
  function OpLength(s: Bytes): (n: nat)
    ensures n <= |s| && (n < |s| ==> !IsOpChar(s[n]))
    ensures forall k :: 0 <= k < n ==> IsOpChar(s[k])
  {
    if s == [] || !IsOpChar(s[0]) then 0 else 1 + OpLength(s[1..])
  }

  /** Name, operator and value; operator characters after the first run belong to the value. */
  function Split(s: Bytes): Option<(Bytes, Bytes, Bytes)> {
    var n := NameLength(s);
    var m := OpLength(s[n..]);
    if n == 0 || n + m == |s| then None else Some((s[..n], s[n..n + m], s[n + m..]))
  }

  /** A number, a quoted text that is not empty, or the name of a field. */
  function ParseValue(raw: Bytes): Option<Value> {
    if Atoi(raw).Some? then Some(Num(Atoi(raw).value))
    else if |raw| > 2 && raw[0] == QUOTE && raw[|raw| - 1] == QUOTE then Some(Text(raw[1..|raw| - 1]))
    else if IsQueryField(raw) then Some(FieldRef(raw))
    else None
  }

  function OperatorOf(raw: Bytes): Option<Operator> {
    if raw == [61] then Some(EQ)
    else if raw == [33, 61] then Some(NE)
    else if raw == [60] then Some(LT)
    else if raw == [62] then Some(GT)
    else None
  }

  function New(field: Bytes, rawOp: Bytes, value: Value): Parsing {
    if !IsQueryField(field) then Failed(UnknownField)
    else if OperatorOf(rawOp).None? then Failed(UnsupportedOperator)
    else Good(Filter(field, OperatorOf(rawOp).value, value))
  }

  function ParseFilter(s: Bytes): Parsing {
    var parts := Split(s);
    if parts.None? then Failed(InvalidFormat)
    else
      var value := ParseValue(parts.value.2);
      if value.None? then Failed(InvalidValue)
      else New(parts.value.0, parts.value.1, value.value)
  }

  // ---- the parser --------------------------------------------------------------------------

  datatype Stage = NameStage | OpStage | ValueStage

  method Parse(s: Bytes) returns (parsing: Parsing)
    ensures parsing == ParseFilter(s)
  {
    var field, op, value := SplitParts(s);
    hide NameLength, OpLength, ParseValue, New;
    if value.None? {
      return Failed(InvalidFormat);
    }
    var parsed := ParseValue(value.value);
    if parsed.None? {
      return Failed(InvalidValue);
    }
    return New(field, op, parsed.value);
  }

  /** The loop of `Parse`, which moves from the name to the operator to the value. */
  method SplitParts(s: Bytes) returns (field: Bytes, op: Bytes, value: Option<Bytes>)
    ensures Split(s) == if value.None? then None else Some((field, op, value.value))
  {
    field, op := [], [];
    var i, j := 0, 0;
    var stage := NameStage;
    while j < |s|
      invariant 0 <= i <= j <= |s|
      invariant stage == NameStage ==> i == 0 && field == [] && forall k :: 0 <= k < j ==> !IsOpChar(s[k])
      invariant stage != NameStage ==> i < j
      invariant stage == OpStage ==> i == NameLength(s) && field == s[..i] && forall k :: i <= k < j ==> IsOpChar(s[k])
      invariant stage == ValueStage ==>
        && NameLength(s) <= i && field == s[..NameLength(s)]
        && i - NameLength(s) == OpLength(s[NameLength(s)..]) && op == s[NameLength(s)..i]
    {
      if IsOpChar(s[j]) {
        if stage == NameStage {
          NameEnds(s, j);
          field := s[i..j];
          stage := OpStage;
          i := j;
        }
      } else if stage == OpStage {
        OpEnds(s, i, j);
        op := s[i..j];
        stage := ValueStage;
        i := j;
      }
      j := j + 1;
    }
    Unfinished(s, i, stage);
    if |field| == 0 || stage != ValueStage {
      return [], [], None;
    }
    return field, op, Some(s[i..]);
  }

  lemma NameEnds(s: Bytes, j: nat)
    requires j < |s| && IsOpChar(s[j]) && forall k :: 0 <= k < j ==> !IsOpChar(s[k])
    ensures NameLength(s) == j
  {
  }

  lemma OpEnds(s: Bytes, i: nat, j: nat)
    requires i < j < |s| && !IsOpChar(s[j]) && forall k :: i <= k < j ==> IsOpChar(s[k])
    ensures OpLength(s[i..]) == j - i
  {
    assert forall k :: 0 <= k < j - i ==> s[i..][k] == s[i + k];
    assert s[i..][j - i] == s[j];
  }

  /** A text that ends before its value starts has no parts. */
  lemma Unfinished(s: Bytes, i: nat, stage: Stage)
    requires i <= |s|
    requires stage == NameStage ==> forall k :: 0 <= k < |s| ==> !IsOpChar(s[k])
    requires stage == OpStage ==> i == NameLength(s) && forall k :: i <= k < |s| ==> IsOpChar(s[k])
    ensures stage == NameStage || stage == OpStage ==> Split(s) == None
  {
    var n := NameLength(s);
    var m := OpLength(s[n..]);
    assert forall k :: 0 <= k < |s[n..]| ==> s[n..][k] == s[n + k];
  }

  // ---- printing ----------------------------------------------------------------------------

  function PrintNum(n: int): Bytes {
    if n < 0 then [45] + Itoa(-n) else Itoa(n)
  }

  function PrintOp(op: Operator): Bytes {
    match op
    case EQ => [61]
    case NE => [33, 61]
    case LT => [60]
    case GT => [62]
  }

  function PrintValue(v: Value): Bytes {
    match v
    case Num(n) => PrintNum(n)
    case Text(t) => [QUOTE] + t + [QUOTE]
    case FieldRef(name) => name
  }

  function Print(f: Filter): Bytes {
    f.field + PrintOp(f.op) + PrintValue(f.value)
  }

  /** What a filter can hold: nothing else is ever parsed. */
  predicate Printable(f: Filter) {
    && IsQueryField(f.field)
    && match f.value
       case Num(n) => MIN_INT64 <= n <= MAX_INT64
       case Text(t) => t != []
       case FieldRef(name) => IsQueryField(name)
  }

  lemma ParsedIsPrintable(s: Bytes)
    ensures ParseFilter(s).Good? ==> Printable(ParseFilter(s).filter)
  {
    hide Ascii, IsQueryField, Split;
  }

  predicate Letters(s: Bytes) {
    s != [] && forall i :: 0 <= i < |s| ==> 97 <= s[i] <= 122
  }

  predicate LowerCaseText(s: string) {
    s != [] && forall i :: 0 <= i < |s| ==> 'a' <= s[i] <= 'z'
  }

  lemma LowerCase(s: string)
    requires LowerCaseText(s)
    ensures Letters(Ascii(s))
  {
  }

  lemma FieldNamesAreLowerCase()
    ensures LowerCaseText("gamename") && LowerCaseText("hostname") && LowerCaseText("numplayers")
      && LowerCaseText("maxplayers")
    ensures LowerCaseText("gametype") && LowerCaseText("gamevariant") && LowerCaseText("mapname")
      && LowerCaseText("hostport")
    ensures LowerCaseText("password") && LowerCaseText("statsenabled") && LowerCaseText("gamever")
  {
  }

  lemma FieldsAreLetters(field: Bytes)
    requires IsQueryField(field)
    ensures Letters(field)
  {
    hide Ascii, Letters, LowerCaseText;
    FieldNamesAreLowerCase();
    LowerCase("gamename");
    LowerCase("hostname");
    LowerCase("numplayers");
    LowerCase("maxplayers");
    LowerCase("gametype");
    LowerCase("gamevariant");
    LowerCase("mapname");
    LowerCase("hostport");
    LowerCase("password");
    LowerCase("statsenabled");
    LowerCase("gamever");
  }

  lemma AtoiOfPrint(n: int)
    requires MIN_INT64 <= n <= MAX_INT64
    ensures Atoi(PrintNum(n)) == Some(n)
  {
    hide Itoa, NumberOf, Atoi;
    var size := if n < 0 then -n else n;
    ValueOfItoa(size);
    AtoiOfDigits(Itoa(size));
  }

  lemma ValueIsRead(v: Value, field: Bytes, op: Operator)
    requires Printable(Filter(field, op, v))
    ensures ParseValue(PrintValue(v)) == Some(v)
    ensures PrintValue(v) != [] && !IsOpChar(PrintValue(v)[0])
  {
    match v
    case Num(n) =>
      AtoiOfPrint(n);
      hide IsQueryField;
    case Text(t) =>
      hide IsQueryField;
      assert PrintValue(v)[0] == QUOTE && PrintValue(v)[1..|PrintValue(v)| - 1] == t;
    case FieldRef(name) =>
      FieldsAreLetters(name);
      hide IsQueryField;
      assert PrintValue(v)[0] == name[0];
  }

  lemma NameIsRead(name: Bytes, rest: Bytes)
    requires Letters(name) && rest != [] && IsOpChar(rest[0])
    ensures NameLength(name + rest) == |name|
    ensures (name + rest)[..|name|] == name && (name + rest)[|name|..] == rest
  {
    assert forall k :: 0 <= k < |name| ==> (name + rest)[k] == name[k];
    assert (name + rest)[|name|] == rest[0];
    NameEnds(name + rest, |name|);
  }

  lemma OpIsRead(op: Operator, value: Bytes)
    requires value != [] && !IsOpChar(value[0])
    ensures var raw := PrintOp(op);
            && OpLength(raw + value) == |raw| && IsOpChar(raw[0]) && OperatorOf(raw) == Some(op)
            && (raw + value)[..|raw|] == raw && (raw + value)[|raw|..] == value
  {
    var raw := PrintOp(op);
    assert forall k :: 0 <= k < |raw| ==> (raw + value)[k] == raw[k];
    assert (raw + value)[|raw|] == value[0];
  }

  lemma PartsAreRead(name: Bytes, op: Operator, value: Bytes)
    requires Letters(name) && value != [] && !IsOpChar(value[0])
    ensures Split(name + PrintOp(op) + value) == Some((name, PrintOp(op), value))
    ensures OperatorOf(PrintOp(op)) == Some(op)
  {
    var raw := PrintOp(op);
    OpIsRead(op, value);
    NameIsRead(name, raw + value);
    hide NameLength, OpLength, PrintOp, OperatorOf;
    Regroup(name, raw, value);
    var s := name + (raw + value);
    assert s[|name|..|name| + |raw|] == (raw + value)[..|raw|] && s[|name| + |raw|..] == (raw + value)[|raw|..];
  }

  /** A filter printed and parsed is the same filter. */
  lemma FilterRoundTrip(f: Filter)
    requires Printable(f)
    ensures ParseFilter(Print(f)) == Good(f)
  {
    ValueIsRead(f.value, f.field, f.op);
    FieldsAreLetters(f.field);
    hide IsQueryField, Letters, ParseValue, PrintValue, PrintOp, Split;
    PartsAreRead(f.field, f.op, PrintValue(f.value));
  }

  // ---- every error -------------------------------------------------------------------------

  predicate OpChars(op: Bytes) {
    op != [] && forall i :: 0 <= i < |op| ==> op[i] in Ascii("!=<>")
  }

  predicate NoOpChars(s: Bytes) {
    forall i :: 0 <= i < |s| ==> s[i] !in Ascii("!=<>")
  }

  lemma OpCharsAre()
    ensures forall c: byte :: IsOpChar(c) <==> c in Ascii("!=<>")
    ensures PrintOp(EQ) == Ascii("=") && PrintOp(NE) == Ascii("!=")
    ensures PrintOp(LT) == Ascii("<") && PrintOp(GT) == Ascii(">")
  {
    var ops := Ascii("!=<>");
    assert ops == [33, 61, 60, 62];
    assert PrintOp(NE) == Ascii("!=");
  }

  /** Only the four operators are known, whatever else the run of operator characters may be. */
  lemma OperatorsAre(op: Bytes)
    ensures OperatorOf(op) ==
      if op == Ascii("=") then Some(EQ) else if op == Ascii("!=") then Some(NE)
      else if op == Ascii("<") then Some(LT) else if op == Ascii(">") then Some(GT) else None
  {
    OpCharsAre();
    hide Ascii;
  }

  /** A name, a run of operator characters and a value are told apart, and the first thing wrong is reported. */
  lemma FilterMeans(name: Bytes, op: Bytes, value: Bytes)
    requires name != [] && NoOpChars(name) && OpChars(op) && value != [] && NoOpChars(value[..1])
    ensures ParseFilter(name + op + value) ==
      if ParseValue(value).None? then Failed(InvalidValue)
      else if !IsQueryField(name) then Failed(UnknownField)
      else if OperatorOf(op).None? then Failed(UnsupportedOperator)
      else Good(Filter(name, OperatorOf(op).value, ParseValue(value).value))
  {
    OpCharsAre();
    hide Ascii, IsQueryField, ParseValue, PrintOp, OperatorOf, IsOpChar;
    var s := name + op + value;
    assert value[..1][0] == value[0];
    assert forall k :: 0 <= k < |name| ==> s[k] == name[k];
    assert s[|name|] == op[0];
    NameEnds(s, |name|);
    assert s[|name|..] == op + value;
    assert forall k :: 0 <= k < |op| ==> s[|name| + k] == op[k];
    assert s[|name| + |op|] == value[0];
    OpEnds(s, |name|, |name| + |op|);
    assert s[..|name|] == name && s[|name|..|name| + |op|] == op && s[|name| + |op|..] == value;
  }

  /** Without an operator, without a name or without a value there is no filter. */
  lemma NoFilterWithout(name: Bytes, op: Bytes)
    requires NoOpChars(name)
    ensures ParseFilter(name) == Failed(InvalidFormat)
    ensures OpChars(op) ==> ParseFilter(name + op) == Failed(InvalidFormat)
    ensures forall value: Bytes :: OpChars(op) ==> ParseFilter(op + value) == Failed(InvalidFormat)
  {
    OpCharsAre();
    hide Ascii, IsQueryField, ParseValue, OperatorOf, IsOpChar, PrintOp;
    Unfinished(name, 0, NameStage);
    if OpChars(op) {
      var s := name + op;
      assert forall k :: 0 <= k < |name| ==> s[k] == name[k];
      assert forall k :: |name| <= k < |s| ==> s[k] == op[k - |name|];
      NameEnds(s, |name|);
      Unfinished(s, |name|, OpStage);
      forall value: Bytes ensures ParseFilter(op + value) == Failed(InvalidFormat) {
        assert (op + value)[0] == op[0];
        NameEnds(op + value, 0);
      }
    }
  }

  /** A value in quotes is a text, the quotes not included, if there is something between them. */
  lemma QuotedIsText(t: Bytes)
    ensures ParseValue(Ascii("'") + t + Ascii("'")) == if t == [] then None else Some(Text(t))
  {
    var raw := Ascii("'") + t + Ascii("'");
    assert raw[0] == 39 && raw[|raw| - 1] == 39 && raw[1..|raw| - 1] == t;
    FieldsHaveNoQuote(raw);
    hide IsQueryField;
  }

  lemma FieldsHaveNoQuote(raw: Bytes)
    requires raw != [] && raw[0] == 39
    ensures !IsQueryField(raw)
  {
    if IsQueryField(raw) {
      FieldsAreLetters(raw);
      assert false;
    }
  }
}

/** A query: filters joined by " and ". */
module Query {
  import opened Bytes
  import opened Entities
  import opened Filters

  // The separator " and ".
  const SEP: Bytes := [32, 97, 110, 100, 32]

  datatype Reading = Ok(filters: seq<Filter>) | Bad(error: Error)

  // ---- what parsing yields ---------------------------------------------------------------

  predicate SepAt(s: Bytes, i: int) {
    0 <= i && i + 5 <= |s| && s[i..i + 5] == SEP
  }

  predicate Occurs(s: Bytes) {
    exists i :: 0 <= i < |s| && SepAt(s, i)
  }

  /** The first separator, or -1. */
  function FindSep(s: Bytes): (i: int)
    ensures i == -1 <==> forall k :: 0 <= k < |s| ==> !SepAt(s, k)
    ensures i != -1 ==> 0 <= i < |s| && SepAt(s, i) && forall k :: 0 <= k < i ==> !SepAt(s, k)
  {
    if s == [] then -1
    else if SepAt(s, 0) then 0
    else
      var i := FindSep(s[1..]);
      ShiftSep(s);
      if i == -1 then -1 else i + 1
  }

  lemma ShiftSep(s: Bytes)
    requires s != []
    ensures forall k :: k > 0 ==> (SepAt(s, k) <==> SepAt(s[1..], k - 1))
    ensures forall k :: k >= 0 ==> (SepAt(s[1..], k) <==> SepAt(s, k + 1))
  {
    forall k | k > 0 ensures SepAt(s, k) <==> SepAt(s[1..], k - 1) {
      if k + 5 <= |s| {
        assert s[k..k + 5] == s[1..][k - 1..k + 4];
      }
    }
    forall k | k >= 0 ensures SepAt(s[1..], k) <==> SepAt(s, k + 1) {
      if k + 6 <= |s| {
        assert s[k + 1..k + 6] == s[1..][k..k + 5];
      }
    }
  }

  /** strings.Cut: without a separator nothing comes after. */
  function Cut(s: Bytes): (Bytes, Bytes) {
    var i := FindSep(s);
    if i == -1 then (s, []) else (s[..i], s[i + 5..])
  }

  function Pieces(s: Bytes): (pieces: seq<Bytes>)
    decreases |s|
  {
    if s == [] then [] else [Cut(s).0] + Pieces(Cut(s).1)
  }

  /** All pieces parsed, or the error of the first that cannot be. */
  function ParseAll(pieces: seq<Bytes>): Reading {
    if pieces == [] then Ok([])
    else
      var front := ParseAll(pieces[..|pieces| - 1]);
      if front.Bad? then front
      else
        match ParseFilter(pieces[|pieces| - 1])
        case Good(f) => Ok(front.filters + [f])
        case Failed(e) => Bad(e)
  }

  function ParseQuery(s: Bytes): Reading {
    var all := ParseAll(Pieces(s));
    if all == Ok([]) then Bad(NoFilters) else all
  }

  /** The separator is the word "and" between two spaces. */
  lemma SeparatorIs()
    ensures SEP == Ascii(" and ")
  {
  }

  /** All pieces are good and in order, or the error is that of the first one that is not. */
  lemma {:induction false} FirstErrorCounts(pieces: seq<Bytes>)
    ensures match ParseAll(pieces)
            case Ok(filters) =>
              |filters| == |pieces| && forall i :: 0 <= i < |pieces| ==> ParseFilter(pieces[i]) == Good(filters[i])
            case Bad(e) =>
              exists k :: 0 <= k < |pieces| && ParseFilter(pieces[k]) == Failed(e)
                          && forall i :: 0 <= i < k ==> ParseFilter(pieces[i]).Good?
  {
    hide ParseFilter;
    if pieces != [] {
      var front := pieces[..|pieces| - 1];
      FirstErrorCounts(front);
      assert forall i :: 0 <= i < |front| ==> front[i] == pieces[i];
    }
  }

  lemma {:induction false} BadStaysBad(pieces: seq<Bytes>, n: nat)
    requires n <= |pieces| && ParseAll(pieces[..n]).Bad?
    ensures ParseAll(pieces) == ParseAll(pieces[..n])
    decreases |pieces|
  {
    hide ParseFilter;
    if n < |pieces| {
      var front := pieces[..|pieces| - 1];
      assert front[..n] == pieces[..n];
      BadStaysBad(front, n);
    } else {
      assert pieces[..n] == pieces;
    }
  }

  method NewFromString(query: Bytes) returns (reading: Reading)
    ensures reading == ParseQuery(query)
  {
    hide ParseFilter, FindSep;
    var unscanned := query;
    var filters: seq<Filter> := [];
    ghost var pieces := Pieces(query);
    ghost var k := 0;
    while |unscanned| > 0
      invariant k <= |pieces| && pieces[k..] == Pieces(unscanned)
      invariant ParseAll(pieces[..k]) == Ok(filters)
      decreases |unscanned|
    {
      var (rawFilter, rest) := Cut(unscanned);
      assert pieces[k] == rawFilter && pieces[k + 1..] == Pieces(rest);
      assert pieces[..k + 1][..k] == pieces[..k];
      var parsed := Parse(rawFilter);
      if parsed.Failed? {
        BadStaysBad(pieces, k + 1);
        return Bad(parsed.error);
      }
      filters := filters + [parsed.filter];
      unscanned := rest;
      k := k + 1;
    }
    assert pieces[..k] == pieces;
    if |filters| == 0 {
      return Bad(NoFilters);
    }
    return Ok(filters);
  }

  // ---- printing ----------------------------------------------------------------------------

  function PrintQuery(filters: seq<Filter>): Bytes {
    if filters == [] then []
    else if |filters| == 1 then Print(filters[0])
    else Print(filters[0]) + (SEP + PrintQuery(filters[1..]))
  }

  ghost predicate AllPrintable(filters: seq<Filter>) {
    forall i :: 0 <= i < |filters| ==> Printable(filters[i])
  }

  /** A text value with the separator inside. */
  predicate Ambiguous(f: Filter) {
    f.value.Text? && Occurs(f.value.t)
  }

  /** No separator can begin in the text and end beyond it. */
  predicate Closed(p: Bytes) {
    p != [] && (32 !in p || p[|p| - 1] == QUOTE)
  }

  lemma NoSpaceNoSep(s: Bytes)
    requires 32 !in s
    ensures !Occurs(s)
  {
    forall i | 0 <= i < |s| ensures !SepAt(s, i) {
      if i + 5 <= |s| {
        assert s[i..i + 5][0] == s[i] != SEP[0];
      }
    }
  }

  lemma NumHasNoSpace(n: int)
    ensures 32 !in PrintNum(n)
  {
  }

  /** Around a quoted text nothing can be taken for a separator. */
  lemma QuotedOccurs(front: Bytes, t: Bytes)
    requires 32 !in front
    ensures Occurs(front + ([QUOTE] + t + [QUOTE])) <==> Occurs(t)
  {
    var p, o := front + ([QUOTE] + t + [QUOTE]), |front| + 1;
    assert p == front + [QUOTE] + t + [QUOTE];
    forall i | 0 <= i < |t| ensures SepAt(t, i) ==> SepAt(p, o + i) {
      if SepAt(t, i) {
        assert p[o + i..o + i + 5] == t[i..i + 5];
      }
    }
    forall i | 0 <= i < |p| && SepAt(p, i) ensures i >= o && SepAt(t, i - o) {
      assert p[i] == p[i..i + 5][0] == 32;
      assert i >= o;
      LastIsQuote(p, i);
      assert p[i..i + 5] == t[i - o..i - o + 5];
    }
  }

  /** A separator does not reach a quote at the end. */
  lemma LastIsQuote(p: Bytes, i: nat)
    requires SepAt(p, i) && p[|p| - 1] == QUOTE
    ensures i + 5 < |p|
  {
    assert p[i..i + 5][4] == p[i + 4];
  }

  lemma PrintIsClosed(f: Filter)
    requires Printable(f)
    ensures Closed(Print(f)) && (Occurs(Print(f)) <==> Ambiguous(f))
  {
    FieldsAreLetters(f.field);
    var front := f.field + PrintOp(f.op);
    hide IsQueryField, PrintNum, SepAt;
    match f.value
    case Num(n) =>
      NumHasNoSpace(n);
      NoSpaceNoSep(Print(f));
    case Text(t) =>
      QuotedOccurs(front, t);
    case FieldRef(name) =>
      FieldsAreLetters(name);
      NoSpaceNoSep(Print(f));
  }

  // ---- where a printed query is cut ----------------------------------------------------------

  /** The first separator after a closed text is the one that was put there, unless there is one inside. */
  lemma SepAfterClosed(p: Bytes, r: Bytes)
    requires Closed(p)
    ensures FindSep(p + SEP + r) == if FindSep(p) != -1 then FindSep(p) else |p|
  {
    var s := p + SEP + r;
    assert s[|p|..|p| + 5] == SEP;
    assert SepAt(s, |p|);
    forall i | 0 <= i < |p| ensures SepAt(s, i) <==> SepAt(p, i) {
      ClosedSep(p, r, i);
    }
    hide SepAt;
  }

  lemma ClosedSep(p: Bytes, r: Bytes, i: nat)
    requires Closed(p) && i < |p|
    ensures SepAt(p + SEP + r, i) <==> SepAt(p, i)
  {
    var s := p + SEP + r;
    if i + 5 <= |p| {
      assert s[i..i + 5] == p[i..i + 5];
    } else {
      assert s[i] == p[i] && s[|p| - 1] == p[|p| - 1];
      if i + 5 <= |s| {
        assert s[i..i + 5][0] == p[i] && s[i..i + 5][|p| - 1 - i] == p[|p| - 1];
        assert SEP[|p| - 1 - i] != QUOTE;
      }
    }
  }

  /** What remains of a closed text behind a separator is closed. */
  lemma ClosedTail(p: Bytes, i: nat)
    requires Closed(p) && SepAt(p, i)
    ensures Closed(p[i + 5..])
  {
    assert p[i..i + 5][0] == p[i];
    assert 32 in p;
    LastIsQuote(p, i);
  }

  lemma PiecesStep(s: Bytes)
    requires s != []
    ensures var i := FindSep(s);
            Pieces(s) == if i == -1 then [s] else [s[..i]] + Pieces(s[i + 5..])
  {
    hide FindSep, SepAt;
    assert Pieces([]) == [];
  }

  lemma SlicesAround(p: Bytes, r: Bytes)
    ensures (p + SEP + r)[..|p|] == p && (p + SEP + r)[|p| + 5..] == r
    ensures forall i :: 0 <= i && i + 5 <= |p| ==>
      (p + SEP + r)[..i] == p[..i] && (p + SEP + r)[i + 5..] == p[i + 5..] + SEP + r
  {
  }

  lemma {:induction false} PiecesAfterClosed(p: Bytes, r: Bytes)
    requires Closed(p)
    ensures Pieces(p + SEP + r) == Pieces(p) + Pieces(r)
    decreases |p|
  {
    hide FindSep, SepAt, Pieces;
    var i := FindSep(p);
    SepAfterClosed(p, r);
    PiecesStep(p);
    PiecesStep(p + SEP + r);
    SlicesAround(p, r);
    if i != -1 {
      FindSepIn(p);
      ClosedTail(p, i);
      PiecesAfterClosed(p[i + 5..], r);
    }
  }

  lemma FindSepIn(p: Bytes)
    ensures FindSep(p) != -1 ==> 0 <= FindSep(p) && FindSep(p) + 5 <= |p| && SepAt(p, FindSep(p))
    ensures FindSep(p) == -1 <==> !Occurs(p)
  {
  }

  /** A closed text is one piece exactly if no separator occurs in it. */
  lemma PiecesOfClosed(p: Bytes)
    requires Closed(p)
    ensures Pieces(p) != [] && (Pieces(p) == [p] || |Pieces(p)| > 1)
    ensures |Pieces(p)| == 1 <==> !Occurs(p)
  {
    FindSepIn(p);
    var i := FindSep(p);
    hide FindSep, SepAt, Occurs;
    if i == -1 {
      assert Pieces(p) == [p] + Pieces([]);
    } else {
      ClosedTail(p, i);
      assert Pieces(p[i + 5..]) != [];
    }
  }

  /** Of a printed query there are as many pieces as filters, or more if a text value contains the separator. */
  lemma {:induction false} PiecesOfQuery(filters: seq<Filter>)
    requires AllPrintable(filters)
    ensures |Pieces(PrintQuery(filters))| >= |filters|
    ensures |Pieces(PrintQuery(filters))| == |filters| <==> forall i :: 0 <= i < |filters| ==> !Ambiguous(filters[i])
    ensures |Pieces(PrintQuery(filters))| == |filters| ==>
      forall i :: 0 <= i < |filters| ==> Pieces(PrintQuery(filters))[i] == Print(filters[i])
    decreases |filters|
  {
    hide FindSep, SepAt, Closed, Ambiguous, Print, Printable;
    if filters == [] {
    } else {
      PrintIsClosed(filters[0]);
      PiecesOfClosed(Print(filters[0]));
      if |filters| > 1 {
        PiecesOfQuery(filters[1..]);
        PiecesAfterClosed(Print(filters[0]), PrintQuery(filters[1..]));
        Regroup(Print(filters[0]), SEP, PrintQuery(filters[1..]));
      }
    }
  }

  lemma {:induction false} ParsedCount(pieces: seq<Bytes>)
    ensures ParseAll(pieces).Ok? ==> |ParseAll(pieces).filters| == |pieces|
  {
    hide ParseFilter;
    if pieces != [] {
      ParsedCount(pieces[..|pieces| - 1]);
    }
  }

  lemma {:induction false} PrintedPiecesAreRead(filters: seq<Filter>, pieces: seq<Bytes>)
    requires AllPrintable(filters) && |pieces| == |filters|
    requires forall i :: 0 <= i < |filters| ==> pieces[i] == Print(filters[i])
    ensures ParseAll(pieces) == Ok(filters)
  {
    hide ParseFilter, Print, Printable;
    if filters != [] {
      var n := |filters| - 1;
      PrintedPiecesAreRead(filters[..n], pieces[..n]);
      FilterRoundTrip(filters[n]);
      assert filters == filters[..n] + [filters[n]];
    }
  }

  /**
   * A list of filters joined by " and " is read back as the same list exactly if no text value
   * contains " and " itself.
   */
  lemma QueryRoundTripIff(filters: seq<Filter>)
    requires filters != [] && AllPrintable(filters)
    ensures ParseQuery(PrintQuery(filters)) == Ok(filters) <==> forall i :: 0 <= i < |filters| ==>
      !Ambiguous(filters[i])
  {
    hide ParseFilter, Print, Printable, Ambiguous, Pieces, ParseAll;
    var pieces := Pieces(PrintQuery(filters));
    PiecesOfQuery(filters);
    ParsedCount(pieces);
    if forall i :: 0 <= i < |filters| ==> !Ambiguous(filters[i]) {
      PrintedPiecesAreRead(filters, pieces);
    }
  }

  // ---- parsing, printing and parsing again -----------------------------------------------------

  lemma SliceOfSlice(s: Bytes, i: nat, j: nat, a: nat, b: nat)
    requires i <= j <= |s| && a <= b <= j - i
    ensures s[i..j][a..b] == s[i + a..i + b]
  {
    assert forall k :: 0 <= k < b - a ==> s[i..j][a..b][k] == s[i + a..i + b][k];
  }

  lemma NoSepBefore(s: Bytes, i: nat)
    requires i <= |s| && forall k :: 0 <= k < i ==> !SepAt(s, k)
    ensures !Occurs(s[..i])
  {
    assert s[..i] == s[0..i];
    forall k | 0 <= k < i ensures !SepAt(s[..i], k) {
      assert !SepAt(s, k);
      if k + 5 <= i {
        SliceOfSlice(s, 0, i, k, k + 5);
      }
    }
  }

  lemma NoPieces()
    ensures Pieces([]) == []
  {
  }

  /** No piece of a query contains the separator. */
  lemma {:induction false} PiecesHaveNoSep(s: Bytes)
    ensures forall i :: 0 <= i < |Pieces(s)| ==> !Occurs(Pieces(s)[i])
    decreases |s|
  {
    hide Occurs, SepAt, Pieces;
    if s == [] {
      NoPieces();
    } else {
      PiecesStep(s);
      var i := FindSep(s);
      if i == -1 {
        NoSepBefore(s, |s|);
        assert s[..|s|] == s;
      } else {
        NoSepBefore(s, i);
        FindSepIn(s);
        PiecesHaveNoSep(s[i + 5..]);
      }
    }
  }

  lemma SubtextHasNoSep(s: Bytes, i: nat, j: nat)
    requires i <= j <= |s| && !Occurs(s)
    ensures !Occurs(s[i..j])
  {
    forall k | 0 <= k < j - i ensures !SepAt(s[i..j], k) {
      assert !SepAt(s, i + k);
      if k + 5 <= j - i {
        SliceOfSlice(s, i, j, k, k + 5);
      }
    }
  }

  lemma ValueHasNoSep(raw: Bytes)
    requires !Occurs(raw)
    ensures ParseValue(raw).Some? && ParseValue(raw).value.Text? ==> !Occurs(ParseValue(raw).value.t)
  {
    hide Occurs, IsQueryField;
    if |raw| > 2 {
      SubtextHasNoSep(raw, 1, |raw| - 1);
    }
  }

  lemma ParsedIsUnambiguous(s: Bytes)
    requires !Occurs(s) && ParseFilter(s).Good?
    ensures !Ambiguous(ParseFilter(s).filter)
  {
    hide Occurs, IsQueryField, NameLength, OpLength, ParseValue, OperatorOf;
    var n := NameLength(s);
    var m := OpLength(s[n..]);
    SubtextHasNoSep(s, n + m, |s|);
    assert s[n + m..|s|] == s[n + m..];
    ValueHasNoSep(s[n + m..]);
  }

  lemma {:induction false} ParsedAllAreGood(pieces: seq<Bytes>)
    requires ParseAll(pieces).Ok? && forall i :: 0 <= i < |pieces| ==> !Occurs(pieces[i])
    ensures AllPrintable(ParseAll(pieces).filters)
    ensures forall i :: 0 <= i < |ParseAll(pieces).filters| ==> !Ambiguous(ParseAll(pieces).filters[i])
  {
    hide Occurs, ParseFilter, Printable, Ambiguous;
    if pieces != [] {
      ParsedAllAreGood(pieces[..|pieces| - 1]);
      ParsedIsPrintable(pieces[|pieces| - 1]);
      ParsedIsUnambiguous(pieces[|pieces| - 1]);
    }
  }

  /** Whatever can be parsed survives printing: the printed filters are parsed to the same filters. */
  lemma ReprintedIsTheSame(s: Bytes)
    requires ParseQuery(s).Ok?
    ensures ParseQuery(PrintQuery(ParseQuery(s).filters)) == ParseQuery(s)
  {
    hide ParseAll, Pieces, Ambiguous, Printable;
    PiecesHaveNoSep(s);
    ParsedAllAreGood(Pieces(s));
    QueryRoundTripIff(ParseQuery(s).filters);
  }
}
