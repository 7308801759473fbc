/** Delimited strings at the head of a buffer. */
module Binutils {
  import opened Bytes
  import opened Entities

  /** The bytes before the first delimiter, and those after it; None when there is no delimiter. */
  method ScanString(data: Bytes, delim: byte) returns (head: Bytes, rest: Option<Bytes>)
    ensures (head, rest) == ConsumeString(data, delim)
  {
    for i := 0 to |data|
      invariant delim !in data[..i]
    {
      if data[i] == delim {
        SplitAt(data[..i], data[i + 1..], delim);
        assert data == data[..i] + [delim] + data[i + 1..];
        return data[..i], Some(data[i + 1..]);
      }
    }
    NoSplit(data, delim);
    assert data[..|data|] == data;
    return data, None;
  }

  function ConsumeString(data: Bytes, delim: byte): (r: (Bytes, Option<Bytes>))
    ensures r.1.Some? ==> |r.0| + 1 + |r.1.value| == |data|
  {
    if data == [] then ([], None)
    else if data[0] == delim then ([], Some(data[1..]))
    else
      var (head, rest) := ConsumeString(data[1..], delim);
      ([data[0]] + head, rest)
  }

  function ConsumeCString(data: Bytes): (r: (Bytes, Option<Bytes>))
    ensures r.1.Some? ==> |r.0| + 1 + |r.1.value| == |data|
  {
    ConsumeString(data, 0)
  }

  lemma {:induction false} SplitAt(head: Bytes, rest: Bytes, delim: byte)
    requires delim !in head
    ensures ConsumeString(head + [delim] + rest, delim) == (head, Some(rest))
  {
    var data := head + [delim] + rest;
    if head == [] {
      assert data[1..] == rest;
    } else {
      SplitAt(head[1..], rest, delim);
      assert data[1..] == head[1..] + [delim] + rest;
      assert [head[0]] + head[1..] == head;
    }
  }

  /** The head has no delimiter, and head and rest have only bytes of the whole. */
  lemma {:induction false} HeadIsPart(data: Bytes, delim: byte)
    ensures var (head, rest) := ConsumeString(data, delim);
            && delim !in head
            && (forall b :: b in head ==> b in data)
            && (rest.Some? ==> forall b :: b in rest.value ==> b in data)
  {
    if data != [] && data[0] != delim {
      HeadIsPart(data[1..], delim);
    }
  }

  /** A string is cut out exactly if that is how the buffer begins. */
  lemma {:induction false} CutIff(data: Bytes, delim: byte, head: Bytes, rest: Bytes)
    ensures ConsumeString(data, delim) == (head, Some(rest)) <==> data == head + [delim] + rest && delim !in head
  {
    if data == head + [delim] + rest && delim !in head {
      SplitAt(head, rest, delim);
    } else if ConsumeString(data, delim) == (head, Some(rest)) {
      HeadIsPart(data, delim);
      Rejoined(data, delim);
    }
  }

  lemma {:induction false} Rejoined(data: Bytes, delim: byte)
    ensures var (head, rest) := ConsumeString(data, delim);
            data == if rest.Some? then head + [delim] + rest.value else head
  {
    if data != [] && data[0] != delim {
      Rejoined(data[1..], delim);
      var (head, rest) := ConsumeString(data[1..], delim);
      assert data == [data[0]] + data[1..];
      if rest.Some? {
        Regroup([data[0]], head, [delim]);
        Regroup([data[0]], head + [delim], rest.value);
      }
    }
  }

  lemma {:induction false} NoSplit(data: Bytes, delim: byte)
    requires delim !in data
    ensures ConsumeString(data, delim) == (data, None)
  {
    if data != [] {
      NoSplit(data[1..], delim);
      assert [data[0]] + data[1..] == data;
    }
  }

  /** A 16-bit number, most significant byte first; what does not fit is cut off. */
  function BigEndian16(n: nat): (b: Bytes)
    ensures |b| == 2
  {
    [n / 256 % 256, n % 256]
  }

  function Uint16(b: Bytes): (n: nat)
    requires |b| == 2
    ensures n < 65536
  {
    var high: int := b[0];
    high * 256 + b[1]
  }

  lemma Uint16OfBigEndian(n: nat)
    ensures Uint16(BigEndian16(n)) == n % 65536
  {
  }
}

/** A browser's request for the server list. */
module Browsing {
  import opened Bytes
  import opened Entities
  import opened Binutils
  import opened Filters

  const SLASH: byte := 92
  const MIN_REQUEST_LENGTH := 26
  const MAX_FIELDS := 20

  datatype Request = Request(filters: Bytes, fields: seq<Bytes>, challenge: Bytes)

  datatype Error = InvalidRequest | NoFields | TooManyFields

  datatype Reading = Ok(request: Request) | Bad(error: Error)

  // ---- what parsing yields ---------------------------------------------------------------

  /** The query fields in a list separated by backslashes; other names are dropped. */
  function KnownFields(list: Bytes): seq<Bytes>
    decreases |list|
  {
    if list == [] then []
    else
      var (field, rest) := ConsumeString(list, SLASH);
      (if IsQueryField(field) then [field] else []) + if rest.None? then [] else KnownFields(rest.value)
  }

  lemma KnownNothing()
    ensures KnownFields([]) == []
  {
  }

  lemma KnownStep(list: Bytes)
    requires list != []
    ensures var (field, rest) := ConsumeString(list, SLASH);
            KnownFields(list) ==
              (if IsQueryField(field) then [field] else []) + KnownFields(if rest.None? then [] else rest.value)
  {
    hide IsQueryField, ConsumeString;
    KnownNothing();
  }

  function ReadFields(unparsed: Bytes): (Reading, Bytes) {
    var (list, rest) := ConsumeCString(unparsed);
    if rest.None? || list == [] || list[0] != SLASH then (Bad(InvalidRequest), [])
    else
      var fields := KnownFields(list[1..]);
      if |fields| > MAX_FIELDS then (Bad(TooManyFields), [])
      else if fields == [] then (Bad(NoFields), [])
      else (Ok(Request([], fields, [])), rest.value)
  }

  /** The last four bytes must be the number 0 or 1. */
  predicate GoodOptions(unparsed: Bytes) {
    unparsed == [0, 0, 0, 0] || unparsed == [0, 0, 0, 1]
  }

  function ReadBody(unparsed: Bytes): Reading {
    var first := ConsumeCString(unparsed).1;
    if first.None? then Bad(InvalidRequest)
    else
      var second := ConsumeCString(first.value).1;
      if second.None? || |second.value| < 8 then Bad(InvalidRequest)
      else
        var challenge := second.value[..8];
        var (filters, third) := ConsumeCString(second.value[8..]);
        if third.None? then Bad(InvalidRequest)
        else
          var (fields, rest) := ReadFields(third.value);
          if fields.Bad? then fields
          else if !GoodOptions(rest) then Bad(InvalidRequest)
          else Ok(Request(filters, fields.request.fields, challenge))
  }

  function ReadRequest(data: Bytes): Reading {
    if |data| < 2 then Bad(InvalidRequest)
    else
      var length := Uint16(data[..2]);
      if length < MIN_REQUEST_LENGTH || length > |data| then Bad(InvalidRequest)
      else ReadBody(data[9..length])
  }

  lemma {:induction false} KnownFieldsAreClean(list: Bytes)
    requires 0 !in list
    ensures forall field :: field in KnownFields(list) ==> IsQueryField(field) && 0 !in field
    decreases |list|
  {
    hide IsQueryField;
    if list != [] {
      var rest := ConsumeString(list, SLASH).1;
      HeadIsPart(list, SLASH);
      if rest.Some? {
        KnownFieldsAreClean(rest.value);
      }
    }
  }

  /** What a request that is accepted asks for: one to twenty query fields, under a challenge of eight bytes. */
  lemma AcceptedIsWellFormed(data: Bytes)
    requires ReadRequest(data).Ok?
    ensures var r := ReadRequest(data).request;
            && |r.challenge| == 8 && 0 < |r.fields| <= MAX_FIELDS
            && forall field :: field in r.fields ==> IsQueryField(field) && 0 !in field
  {
    hide ConsumeString, KnownFields, GoodOptions, Uint16, IsQueryField;
    var length := Uint16(data[..2]);
    var first := ConsumeCString(data[9..length]).1;
    var second := ConsumeCString(first.value).1;
    var third := ConsumeCString(second.value[8..]).1;
    var list := ConsumeCString(third.value).0;
    HeadIsPart(third.value, 0);
    KnownFieldsAreClean(list[1..]);
  }

  /**
   * How a request is laid out behind its first nine bytes: two names, eight bytes of challenge, the
   * filters, and the list of fields, each ended by a zero byte but for the challenge; the list begins with
   * a backslash, and the number 0 or 1 comes last.
   */
  ghost predicate LaidOut(body: Bytes, r: Request, game: Bytes, name: Bytes, list: Bytes, option: byte) {
    && body ==
         game + [0] + (name + [0] + (r.challenge + (r.filters + [0] + ([92] + list + [0] + [0, 0, 0, option]))))
    && 0 !in game && 0 !in name && |r.challenge| == 8 && 0 !in r.filters && 0 !in list && option <= 1
  }

  /** The length in front is at least 26 and does not exceed what has come; behind it, there is such a body. */
  ghost predicate IsRequest(data: Bytes, r: Request) {
    && |data| >= 2
    && var high: int := data[0];
       var length := high * 256 + data[1];
    && 26 <= length <= |data|
    && exists game, name, list, option ::
         LaidOut(data[9..length], r, game, name, list, option) && r.fields == KnownFields(list) && 1 <= |r.fields| <= 20
  }

  lemma BodyIsCut(body: Bytes, r: Request) returns (game: Bytes, name: Bytes, list: Bytes, option: byte)
    requires ReadBody(body) == Ok(r)
    ensures LaidOut(body, r, game, name, list, option)
    ensures r.fields == KnownFields(list) && 1 <= |r.fields| <= 20
  {
    hide ConsumeString, KnownFields;
    var (first, rest) := ConsumeCString(body);
    CutIff(body, 0, first, rest.value);
    var (next, second) := ConsumeCString(rest.value);
    game, name := first, next;
    CutIff(rest.value, 0, name, second.value);
    var third := ConsumeCString(second.value[8..]).1;
    CutIff(second.value[8..], 0, r.filters, third.value);
    var (fields, options) := ConsumeCString(third.value);
    CutIff(third.value, 0, fields, options.value);
    list := fields[1..];
    option := options.value[3];
    assert second.value == r.challenge + second.value[8..];
    assert fields == [92] + list;
  }

  lemma LaidOutIsRead(body: Bytes, r: Request, game: Bytes, name: Bytes, list: Bytes, option: byte)
    requires LaidOut(body, r, game, name, list, option)
    requires r.fields == KnownFields(list) && 1 <= |r.fields| <= 20
    ensures ReadBody(body) == Ok(r)
  {
    hide ConsumeString, KnownFields;
    var options := [0, 0, 0, option];
    var fourth := [92] + list + [0] + options;
    var third := r.filters + [0] + fourth;
    var second := r.challenge + third;
    CutIff(body, 0, game, name + [0] + second);
    CutIff(name + [0] + second, 0, name, second);
    assert second[..8] == r.challenge && second[8..] == third;
    CutIff(third, 0, r.filters, fourth);
    CutIff(fourth, 0, [92] + list, options);
    assert ([92] + list)[1..] == list;
  }

  /** Exactly what is laid out like that is accepted, and the request is what stands in these places. */
  lemma AcceptedIff(data: Bytes, r: Request)
    ensures ReadRequest(data) == Ok(r) <==> IsRequest(data, r)
  {
    hide ReadBody, LaidOut, KnownFields;
    if ReadRequest(data) == Ok(r) {
      var length := Uint16(data[..2]);
      var game, name, list, option := BodyIsCut(data[9..length], r);
      assert LaidOut(data[9..length], r, game, name, list, option);
    }
    if IsRequest(data, r) {
      var length := Uint16(data[..2]);
      var game, name, list, option :|
        LaidOut(data[9..length], r, game, name, list, option) && r.fields == KnownFields(list) && 1 <= |r.fields| <= 20;
      LaidOutIsRead(data[9..length], r, game, name, list, option);
    }
  }

  // ---- the parser --------------------------------------------------------------------------

  /** A request that is being parsed: what has been filled in, and the bytes still to be parsed. */
  class Parser {
    var filters: Bytes
    var fields: seq<Bytes>
    var challenge: Bytes
    var unparsed: Bytes

    constructor (unparsed: Bytes)
      ensures this.unparsed == unparsed && filters == [] && fields == [] && challenge == []
    {
      this.unparsed := unparsed;
      filters, fields, challenge := [], [], [];
    }

    method Parse() returns (error: Option<Error>)
      modifies this
      ensures error == match ReadBody(old(unparsed)) case Ok(_) => None case Bad(e) => Some(e)
      ensures error.None? ==> ReadBody(old(unparsed)) == Ok(Request(filters, fields, challenge)) && unparsed == []
    {
      hide ConsumeString, ReadFields, GoodOptions, Uint16;
      for i := 0 to 2
        invariant i == 0 ==> unparsed == old(unparsed)
        invariant i == 1 ==> ConsumeCString(old(unparsed)).1 == Some(unparsed)
        invariant i == 2 ==> (
          && ConsumeCString(old(unparsed)).1.Some?
          && ConsumeCString(ConsumeCString(old(unparsed)).1.value).1 == Some(unparsed))
      {
        var name, rest := ScanString(unparsed, 0);
        if rest.None? {
          return Some(InvalidRequest);
        }
        unparsed := rest.value;
      }
      error := ParseChallenge();
      if error.Some? {
        return;
      }
      error := ParseFilters();
      if error.Some? {
        return;
      }
      error := ParseFields();
      if error.Some? {
        return;
      }
      error := ValidateOptionsMask();
    }

    method ParseChallenge() returns (error: Option<Error>)
      modifies this
      ensures error == if |old(unparsed)| < 8 then Some(InvalidRequest) else None
      ensures error.None? ==> challenge == old(unparsed)[..8] && unparsed == old(unparsed)[8..]
      ensures filters == old(filters) && fields == old(fields)
    {
      if |unparsed| < 8 {
        return Some(InvalidRequest);
      }
      challenge := unparsed[..8];
      unparsed := unparsed[8..];
      return None;
    }

    method ParseFilters() returns (error: Option<Error>)
      modifies this
      ensures var (text, rest) := ConsumeCString(old(unparsed));
              if rest.None? then error == Some(InvalidRequest)
              else error == None && filters == text && unparsed == rest.value
      ensures challenge == old(challenge) && fields == old(fields)
    {
      var text, rest := ScanString(unparsed, 0);
      if rest.None? {
        return Some(InvalidRequest);
      }
      filters := text;
      unparsed := rest.value;
      return None;
    }

    method ParseFields() returns (error: Option<Error>)
      modifies this
      ensures var (read, rest) := ReadFields(old(unparsed));
              if read.Bad? then error == Some(read.error)
              else error == None && fields == read.request.fields && unparsed == rest
      ensures challenge == old(challenge) && filters == old(filters)
    {
      hide ConsumeString, KnownFields;
      var list, rest := ScanString(unparsed, 0);
      if rest.None? || |list| < 1 || list[0] != SLASH {
        return Some(InvalidRequest);
      }
      var names := FieldsIn(list[1..]);
      if |names| > MAX_FIELDS {
        return Some(TooManyFields);
      }
      if |names| == 0 {
        return Some(NoFields);
      }
      fields := names;
      unparsed := rest.value;
      return None;
    }

    /** The loop of `parseFields`: it stops at the first field beyond the limit. */
    static method FieldsIn(list: Bytes) returns (names: seq<Bytes>)
      ensures |KnownFields(list)| <= MAX_FIELDS ==> names == KnownFields(list)
      ensures |names| > MAX_FIELDS <==> |KnownFields(list)| > MAX_FIELDS
    {
      hide ConsumeString, IsQueryField, KnownFields;
      var unread := list;
      names := [];
      while |unread| > 0
        invariant KnownFields(list) == names + KnownFields(unread)
        invariant |names| <= MAX_FIELDS
        decreases |unread|
      {
        KnownStep(unread);
        var field, more := ScanString(unread, SLASH);
        if IsQueryField(field) {
          names := names + [field];
        }
        unread := if more.None? then [] else more.value;
        assert KnownFields(list) == names + KnownFields(unread);
        if |names| > MAX_FIELDS {
          return;
        }
      }
      KnownNothing();
    }

    method ValidateOptionsMask() returns (error: Option<Error>)
      modifies this
      ensures error == if GoodOptions(old(unparsed)) then None else Some(InvalidRequest)
      ensures error.None? ==> unparsed == []
      ensures challenge == old(challenge) && filters == old(filters) && fields == old(fields)
    {
      if |unparsed| != 4 {
        return Some(InvalidRequest);
      }
      var options: int := unparsed[0];
      options := options * 256 + unparsed[1];
      options := options * 256 + unparsed[2];
      options := options * 256 + unparsed[3];
      if options != 0 && options != 1 {
        return Some(InvalidRequest);
      }
      unparsed := [];
      return None;
    }
  }

  method NewRequest(data: Bytes) returns (reading: Reading)
    ensures reading == ReadRequest(data)
  {
    hide ReadBody;
    if |data| < 2 {
      return Bad(InvalidRequest);
    }
    var length := Uint16(data[..2]);
    if length < MIN_REQUEST_LENGTH || length > |data| {
      return Bad(InvalidRequest);
    }
    var parser := new Parser(data[9..length]);
    var error := parser.Parse();
    if error.Some? {
      return Bad(error.value);
    }
    return Ok(Request(parser.filters, parser.fields, parser.challenge));
  }

  // ---- packing -----------------------------------------------------------------------------

  function Join(fields: seq<Bytes>): Bytes {
    if fields == [] then []
    else if |fields| == 1 then fields[0]
    else fields[0] + [SLASH] + Join(fields[1..])
  }

  function Prologue(): Bytes {
    [0, 1, 3, 0, 0, 0, 0]
  }

  function GameName(): Bytes {
    Ascii("swat4")
  }

  function RequestBody(fields: seq<Bytes>, filters: Bytes, options: Bytes, challenge: Bytes): Bytes {
    GameName() + [0] + (GameName() + [0] + (challenge + (filters + [0] + ([SLASH] + Join(fields) + [0] + options))))
  }

  /** The request with its own length in front. */
  function Packed(fields: seq<Bytes>, filters: Bytes, options: Bytes, challenge: Bytes): Bytes {
    var body := RequestBody(fields, filters, options, challenge);
    BigEndian16(9 + |body|) + Prologue() + body
  }

  method PackBrowserRequest(fields: seq<Bytes>, filters: Bytes, options: Bytes, challenge: Bytes) returns (req: Bytes)
    ensures req == Packed(fields, filters, options, challenge)
  {
    hide Ascii, GameName, RequestBody, Join, BigEndian16;
    req := [0, 0];
    req := req + [0];
    req := req + [1];
    req := req + [3];
    req := req + [0, 0, 0, 0];
    ghost var header := req;
    assert header == [0, 0] + Prologue();
    var body := GameName() + [0];
    body := body + GameName() + [0];
    body := body + challenge;
    body := body + filters + [0];
    body := body + [SLASH] + Join(fields) + [0];
    body := body + options;
    BodyInOrder(fields, filters, options, challenge);
    req := req + body;
    assert req[2..] == Prologue() + body;
    req := BigEndian16(|req|) + req[2..];
    Regroup(BigEndian16(9 + |body|), Prologue(), body);
  }

  /** The parts of the body, appended one by one. */
  lemma BodyInOrder(fields: seq<Bytes>, filters: Bytes, options: Bytes, challenge: Bytes)
    ensures GameName() + [0] + GameName() + [0] + challenge + filters + [0] + [SLASH] + Join(fields) + [0] + options ==
      RequestBody(fields, filters, options, challenge)
  {
    hide Ascii, GameName, Join;
    var name, list := GameName() + [0], [SLASH] + Join(fields) + [0] + options;
    var front := name + name + challenge;
    Regroup(name, GameName(), [0]);
    Regroup(front + filters + [0], [SLASH], Join(fields));
    Regroup(front + filters + [0], [SLASH] + Join(fields), [0]);
    Regroup(front + filters + [0], [SLASH] + Join(fields) + [0], options);
    Regroup(front, filters, [0]);
    Regroup(front, filters + [0], list);
    Regroup(name + name, challenge, filters + [0] + list);
    Regroup(name, name, challenge + (filters + [0] + list));
  }

  /** The field names that a request keeps. */
  function Kept(fields: seq<Bytes>): seq<Bytes> {
    if fields == [] then []
    else (if IsQueryField(fields[0]) then [fields[0]] else []) + Kept(fields[1..])
  }

  ghost predicate FieldNames(fields: seq<Bytes>) {
    forall i :: 0 <= i < |fields| ==> SLASH !in fields[i] && 0 !in fields[i]
  }

  lemma EmptyIsNoField()
    ensures !IsQueryField([])
  {
  }

  /** Reading the joined names keeps the query fields, in order. */
  lemma {:induction false} JoinedFieldsAreRead(fields: seq<Bytes>)
    requires FieldNames(fields)
    ensures KnownFields(Join(fields)) == Kept(fields)
    decreases |fields|
  {
    hide IsQueryField;
    EmptyIsNoField();
    if |fields| == 1 {
      NoSplit(fields[0], SLASH);
      assert fields[1..] == [];
    } else if |fields| > 1 {
      JoinedFieldsAreRead(fields[1..]);
      SplitAt(fields[0], Join(fields[1..]), SLASH);
    }
  }

  lemma {:induction false} JoinHasNoNul(fields: seq<Bytes>)
    requires FieldNames(fields)
    ensures 0 !in Join(fields)
    decreases |fields|
  {
    if |fields| > 1 {
      JoinHasNoNul(fields[1..]);
    }
  }

  lemma FieldsAreRead(fields: seq<Bytes>, options: Bytes)
    requires FieldNames(fields)
    ensures ReadFields([SLASH] + Join(fields) + [0] + options) ==
      if |Kept(fields)| > MAX_FIELDS then (Bad(TooManyFields), [])
      else if Kept(fields) == [] then (Bad(NoFields), [])
      else (Ok(Request([], Kept(fields), [])), options)
  {
    hide IsQueryField, Join;
    var list := [SLASH] + Join(fields);
    JoinHasNoNul(fields);
    SplitAt(list, options, 0);
    JoinedFieldsAreRead(fields);
    hide ConsumeString;
    assert list[1..] == Join(fields);
  }

  lemma GameNameHasNoNul()
    ensures 0 !in GameName()
  {
  }

  lemma BodyIsRead(fields: seq<Bytes>, filters: Bytes, options: Bytes, challenge: Bytes)
    requires FieldNames(fields) && 0 !in filters && |challenge| == 8
    ensures ReadBody(RequestBody(fields, filters, options, challenge)) ==
      if |Kept(fields)| > MAX_FIELDS then Bad(TooManyFields)
      else if Kept(fields) == [] then Bad(NoFields)
      else if !GoodOptions(options) then Bad(InvalidRequest)
      else Ok(Request(filters, Kept(fields), challenge))
  {
    hide ConsumeString, ReadFields, GoodOptions, GameName, Kept, Join;
    var fourth := [SLASH] + Join(fields) + [0] + options;
    var third := filters + [0] + fourth;
    var second := challenge + third;
    GameNameHasNoNul();
    SplitAt(GameName(), GameName() + [0] + second, 0);
    SplitAt(GameName(), second, 0);
    assert second[..8] == challenge && second[8..] == third;
    SplitAt(filters, fourth, 0);
    FieldsAreRead(fields, options);
  }

  /** A packed request has that layout, with the game's name twice and seven bytes in front that nobody reads. */
  lemma PackedIsLaidOut(fields: seq<Bytes>, filters: Bytes, option: byte, challenge: Bytes)
    requires FieldNames(fields) && 0 !in filters && |challenge| == 8 && option <= 1
    ensures var req := Packed(fields, filters, [0, 0, 0, option], challenge);
            && |req| >= 9 && req[..2] == BigEndian16(|req|) && req[2..9] == [0, 1, 3, 0, 0, 0, 0]
            && LaidOut(req[9..], Request(filters, Kept(fields), challenge), Ascii("swat4"), Ascii("swat4"),
                       Join(fields), option)
  {
    JoinHasNoNul(fields);
    GameNameHasNoNul();
    hide Ascii, Join, Kept, BigEndian16;
    var req, body := Packed(fields, filters, [0, 0, 0, option], challenge),
                     RequestBody(fields, filters, [0, 0, 0, option], challenge);
    assert req[9..] == body;
  }

  /**
   * Whatever is packed is read back: the challenge, the filters and those of the fields that can be
   * queried; or the error that the number of fields or the options call for.
   */
  lemma RequestRoundTrip(fields: seq<Bytes>, filters: Bytes, options: Bytes, challenge: Bytes)
    requires FieldNames(fields) && 0 !in filters && |challenge| == 8 && |options| == 4
    requires |Packed(fields, filters, options, challenge)| < 65536
    ensures ReadRequest(Packed(fields, filters, options, challenge)) ==
      if |Kept(fields)| > MAX_FIELDS then Bad(TooManyFields)
      else if Kept(fields) == [] then Bad(NoFields)
      else if !GoodOptions(options) then Bad(InvalidRequest)
      else Ok(Request(filters, Kept(fields), challenge))
  {
    hide ReadBody, GoodOptions, Kept, Join, Ascii;
    var req, body := Packed(fields, filters, options, challenge), RequestBody(fields, filters, options, challenge);
    BodyIsRead(fields, filters, options, challenge);
    assert req[..2] == BigEndian16(|req|) && req[9..] == body;
    assert |body| >= 27;
    Uint16OfBigEndian(|req|);
    hide BigEndian16, Uint16, RequestBody;
    assert req[9..|req|] == body;
  }
}

/** The server list that answers a request: packed by the browser, unpacked by its clients. */
module ServerList {
  import opened Bytes
  import opened Entities
  import opened Binutils
  import opened Decimal
  import Filters
  import Browsing
  import Cipher
  import Crypt

  const RECORD: byte := 0x51
  const MAX_DECLARED := 255
  const DOT: byte := 46

  /** A server to list; `params` is None when its info cannot be turned into parameters. */
  datatype Listed = Listed(ip: Bytes, queryPort: nat, params: Option<map<Bytes, Bytes>>)

  /** What a client learns about a server: a text for each name. */
  type Row = map<Bytes, Bytes>

  function HostName(): Bytes {
    Ascii("host")
  }

  function PortName(): Bytes {
    Ascii("port")
  }

  /** An IPv4 address in dotted decimal. */
  function HostText(ip: Bytes): Bytes
    requires |ip| == 4
  {
    Itoa(ip[0]) + [DOT] + (Itoa(ip[1]) + [DOT] + (Itoa(ip[2]) + [DOT] + Itoa(ip[3])))
  }

  /** The two entries that every row starts with; a field of the same name overwrites them. */
  function Address(ip: Bytes, port: nat): Row
    requires |ip| == 4
  {
    map[HostName() := HostText(ip), PortName() := Itoa(port)]
  }

  // ---- packing -----------------------------------------------------------------------------

  /** As many fields as one byte can count. */
  function Declared(fields: seq<Bytes>): (d: seq<Bytes>)
    ensures |d| <= MAX_DECLARED
  {
    if |fields| > MAX_DECLARED then fields[..MAX_DECLARED] else fields
  }

  function Declarations(fields: seq<Bytes>): Bytes {
    if fields == [] then [] else fields[0] + [0, 0] + Declarations(fields[1..])
  }

  /** The value of a field; a field the server does not have is empty. */
  function ValueOf(params: map<Bytes, Bytes>, field: Bytes): Bytes {
    if field in params then params[field] else []
  }

  function Values(params: map<Bytes, Bytes>, fields: seq<Bytes>): Bytes {
    if fields == [] then [] else [255] + ValueOf(params, fields[0]) + [0] + Values(params, fields[1..])
  }

  function Record(svr: Listed, fields: seq<Bytes>): Bytes
    requires |svr.ip| == 4 && svr.params.Some?
  {
    [RECORD] + svr.ip + BigEndian16(svr.queryPort) + Values(svr.params.value, fields)
  }

  function Records(servers: seq<Listed>, fields: seq<Bytes>): Bytes
    requires forall i :: 0 <= i < |servers| ==> |servers[i].ip| == 4
  {
    if servers == [] then []
    else (if servers[0].params.None? then [] else Record(servers[0], fields)) + Records(servers[1..], fields)
  }

  function Terminator(): Bytes {
    [0, 255, 255, 255, 255]
  }

  /** The client's own address, the declarations, the records and the terminator. */
  function Packed(servers: seq<Listed>, clientIp: Bytes, clientPort: nat, fields: seq<Bytes>): Bytes
    requires forall i :: 0 <= i < |servers| ==> |servers[i].ip| == 4
  {
    clientIp + BigEndian16(clientPort) + [|Declared(fields)|, 0] +
    (Declarations(Declared(fields)) + (Records(servers, Declared(fields)) + Terminator()))
  }

  lemma {:induction false} DeclarationsAppend(fields: seq<Bytes>, field: Bytes)
    ensures Declarations(fields + [field]) == Declarations(fields) + (field + [0, 0])
  {
    if fields == [] {
      assert [field][1..] == [];
    } else {
      DeclarationsAppend(fields[1..], field);
      assert (fields + [field])[1..] == fields[1..] + [field];
      Regroup(fields[0] + [0, 0], Declarations(fields[1..]), field + [0, 0]);
    }
  }

  lemma {:induction false} ValuesAppend(params: map<Bytes, Bytes>, fields: seq<Bytes>, field: Bytes)
    ensures Values(params, fields + [field]) == Values(params, fields) + ([255] + ValueOf(params, field) + [0])
  {
    if fields == [] {
      assert [field][1..] == [];
    } else {
      ValuesAppend(params, fields[1..], field);
      assert (fields + [field])[1..] == fields[1..] + [field];
      hide ValueOf;
      Regroup([255] + ValueOf(params, fields[0]) + [0], Values(params, fields[1..]),
              [255] + ValueOf(params, field) + [0]);
    }
  }

  lemma {:induction false} RecordsAppend(servers: seq<Listed>, svr: Listed, fields: seq<Bytes>)
    requires |svr.ip| == 4 && forall i :: 0 <= i < |servers| ==> |servers[i].ip| == 4
    ensures Records(servers + [svr], fields) ==
      Records(servers, fields) + if svr.params.None? then [] else Record(svr, fields)
  {
    hide Record;
    if servers == [] {
      assert [svr][1..] == [];
    } else {
      RecordsAppend(servers[1..], svr, fields);
      assert (servers + [svr])[1..] == servers[1..] + [svr];
      Regroup(if servers[0].params.None? then [] else Record(servers[0], fields), Records(servers[1..], fields),
              if svr.params.None? then [] else Record(svr, fields));
    }
  }

  method PackServers(servers: seq<Listed>, clientIp: Bytes, clientPort: nat, fields0: seq<Bytes>)
    returns (payload: Bytes)
    requires |clientIp| == 4 && forall i :: 0 <= i < |servers| ==> |servers[i].ip| == 4
    ensures payload == Packed(servers, clientIp, clientPort, fields0)
  {
    hide BigEndian16, Record, Declarations, Records;
    var fields := fields0;
    payload := clientIp + BigEndian16(clientPort);
    if |fields| > 255 {
      fields := fields[..255];
    }
    payload := payload + [|fields|, 0];
    ghost var head := payload;
    payload := PackDeclarations(payload, fields);
    payload := PackRecords(payload, servers, fields);
    payload := payload + Terminator();
    Regroup(head, Declarations(fields), Records(servers, fields));
    Regroup(head, Declarations(fields) + Records(servers, fields), Terminator());
    Regroup(Declarations(fields), Records(servers, fields), Terminator());
  }

  /** The loop that declares the fields. */
  method PackDeclarations(payload0: Bytes, fields: seq<Bytes>) returns (payload: Bytes)
    ensures payload == payload0 + Declarations(fields)
  {
    hide Declarations;
    payload := payload0;
    DeclareNothing();
    for i := 0 to |fields|
      invariant payload == payload0 + Declarations(fields[..i])
    {
      DeclarationsAppend(fields[..i], fields[i]);
      assert fields[..i + 1] == fields[..i] + [fields[i]];
      Regroup(payload0, Declarations(fields[..i]), fields[i] + [0, 0]);
      Regroup(payload, fields[i], [0, 0]);
      payload := payload + fields[i];
      payload := payload + [0, 0];
    }
    assert fields[..|fields|] == fields;
  }

  lemma DeclareNothing()
    ensures Declarations([]) == [] && forall p :: Values(p, []) == []
    ensures forall f :: Records([], f) == []
  {
  }

  /** The loop over the servers; a server without parameters is left out. */
  method PackRecords(payload0: Bytes, servers: seq<Listed>, fields: seq<Bytes>) returns (payload: Bytes)
    requires forall i :: 0 <= i < |servers| ==> |servers[i].ip| == 4
    ensures payload == payload0 + Records(servers, fields)
  {
    hide Record, Records;
    payload := payload0;
    DeclareNothing();
    for i := 0 to |servers|
      invariant payload == payload0 + Records(servers[..i], fields)
    {
      RecordsAppend(servers[..i], servers[i], fields);
      assert servers[..i + 1] == servers[..i] + [servers[i]];
      if servers[i].params.Some? {
        Regroup(payload0, Records(servers[..i], fields), Record(servers[i], fields));
        payload := PackRecord(payload, servers[i], fields);
      }
    }
    assert servers[..|servers|] == servers;
  }

  method PackRecord(payload0: Bytes, svr: Listed, fields: seq<Bytes>) returns (payload: Bytes)
    requires |svr.ip| == 4 && svr.params.Some?
    ensures payload == payload0 + Record(svr, fields)
  {
    hide BigEndian16, Values, ValueOf;
    var params := svr.params.value;
    var address := [RECORD] + svr.ip + BigEndian16(svr.queryPort);
    payload := payload0 + address;
    DeclareNothing();
    for i := 0 to |fields|
      invariant payload == payload0 + (address + Values(params, fields[..i]))
    {
      ghost var value := [255] + ValueOf(params, fields[i]) + [0];
      ValuesAppend(params, fields[..i], fields[i]);
      assert fields[..i + 1] == fields[..i] + [fields[i]];
      Regroup(address, Values(params, fields[..i]), value);
      Regroup(payload0, address + Values(params, fields[..i]), value);
      payload := PackValue(payload, params, fields[i]);
    }
    assert fields[..|fields|] == fields;
  }

  method PackValue(payload0: Bytes, params: map<Bytes, Bytes>, field: Bytes) returns (payload: Bytes)
    ensures payload == payload0 + ([255] + ValueOf(params, field) + [0])
  {
    payload := payload0 + [255];
    if field in params {
      payload := payload + params[field];
    }
    payload := payload + [0];
  }

  // ---- unpacking -----------------------------------------------------------------------------

  // None stands for running off the end of the response.

  function ReadNames(unparsed: Bytes, count: nat): Option<(seq<Bytes>, Bytes)>
    decreases count
  {
    if count == 0 then Some(([], unparsed))
    else
      var (name, rest) := ConsumeCString(unparsed);
      if rest.None? || rest.value == [] then None
      else FollowNames([name], ReadNames(rest.value[1..], count - 1))
  }

  function FollowNames(names: seq<Bytes>, more: Option<(seq<Bytes>, Bytes)>): Option<(seq<Bytes>, Bytes)> {
    if more.None? then None else Some((names + more.value.0, more.value.1))
  }

  function ReadValues(unparsed: Bytes, fields: seq<Bytes>, values: Row): (r: Option<(Row, Bytes)>)
    ensures r.Some? ==> |r.value.1| <= |unparsed|
    decreases |fields|
  {
    if fields == [] then Some((values, unparsed))
    else if unparsed == [] then None
    else
      var (value, rest) := ConsumeCString(unparsed[1..]);
      if rest.None? then None else ReadValues(rest.value, fields[1..], values[fields[0] := value])
  }

  function ReadRecords(unparsed: Bytes, fields: seq<Bytes>): Option<seq<Row>>
    decreases |unparsed|
  {
    if unparsed == [] then None
    else if unparsed[0] != RECORD then Some([])
    else if |unparsed| < 7 then None
    else
      var read := ReadValues(unparsed[7..], fields, Address(unparsed[1..5], Uint16(unparsed[5..7])));
      if read.None? then None else Follow([read.value.0], ReadRecords(read.value.1, fields))
  }

  function Follow(rows: seq<Row>, more: Option<seq<Row>>): Option<seq<Row>> {
    if more.None? then None else Some(rows + more.value)
  }

  function Unpacked(resp: Bytes): Option<seq<Row>> {
    if |resp| < 8 then None
    else
      var names := ReadNames(resp[8..], resp[6]);
      if names.None? then None else ReadRecords(names.value.1, names.value.0)
  }

  method UnpackServerList(resp: Bytes) returns (rows: Option<seq<Row>>)
    ensures rows == Unpacked(resp)
  {
    hide ReadRecords, ReadNames;
    if |resp| < 8 {
      return None;
    }
    var fields, unparsed := UnpackNames(resp[8..], resp[6]);
    if unparsed.None? {
      return None;
    }
    rows := UnpackRecords(unparsed.value, fields);
  }

  method UnpackNames(data: Bytes, count: nat) returns (fields: seq<Bytes>, unparsed: Option<Bytes>)
    ensures ReadNames(data, count) == if unparsed.None? then None else Some((fields, unparsed.value))
  {
    hide ConsumeCString;
    fields := [];
    var rest := data;
    NamesFollow([], [], ReadNames(data, count));
    for i := 0 to count
      invariant |fields| == i
      invariant ReadNames(data, count) == FollowNames(fields, ReadNames(rest, count - i))
    {
      var field, rem := ScanString(rest, 0);
      ConsumeCStringIs(rest);
      if rem.None? || |rem.value| == 0 {
        return [], None;
      }
      rest := rem.value[1..];
      NamesFollow(fields, [field], ReadNames(rest, count - i - 1));
      fields := fields + [field];
    }
    assert fields + [] == fields;
    return fields, Some(rest);
  }

  lemma NamesFollow(a: seq<Bytes>, b: seq<Bytes>, more: Option<(seq<Bytes>, Bytes)>)
    ensures FollowNames(a, FollowNames(b, more)) == FollowNames(a + b, more)
    ensures FollowNames([], more) == more
  {
    if more.Some? {
      assert a + (b + more.value.0) == a + b + more.value.0;
      assert [] + more.value.0 == more.value.0;
    }
  }

  lemma ConsumeCStringIs(data: Bytes)
    ensures ConsumeCString(data) == ConsumeString(data, 0)
  {
  }

  method UnpackRecords(data: Bytes, fields: seq<Bytes>) returns (rows: Option<seq<Row>>)
    ensures rows == ReadRecords(data, fields)
  {
    hide ReadValues, Uint16, Address;
    var servers: seq<Row> := [];
    var unparsed := data;
    FollowFollows([], [], ReadRecords(data, fields));
    if |unparsed| == 0 {
      return None;
    }
    while unparsed[0] == RECORD
      invariant |unparsed| > 0
      invariant ReadRecords(data, fields) == Follow(servers, ReadRecords(unparsed, fields))
      decreases |unparsed|
    {
      if |unparsed| < 7 {
        return None;
      }
      ghost var before := servers;
      var address := Address(unparsed[1..5], Uint16(unparsed[5..7]));
      var row, rem := UnpackValues(unparsed[7..], fields, address);
      if rem.None? || |rem.value| == 0 {
        return None;
      }
      unparsed := rem.value;
      servers := servers + [row];
      FollowFollows(before, [row], ReadRecords(unparsed, fields));
    }
    assert servers + [] == servers;
    return Some(servers);
  }

  lemma FollowFollows(a: seq<Row>, b: seq<Row>, more: Option<seq<Row>>)
    ensures Follow(a, Follow(b, more)) == Follow(a + b, more)
    ensures Follow([], more) == more
  {
    if more.Some? {
      assert a + (b + more.value) == a + b + more.value;
      assert [] + more.value == more.value;
    }
  }

  /** The loop over the fields, which fills in a row that has its address already. */
  method UnpackValues(data: Bytes, fields: seq<Bytes>, address: Row) returns (row: Row, unparsed: Option<Bytes>)
    ensures unparsed.None? <==> ReadValues(data, fields, address).None?
    ensures unparsed.Some? ==> ReadValues(data, fields, address) == Some((row, unparsed.value))
  {
    hide ConsumeCString;
    row := address;
    var rest := data;
    assert fields[0..] == fields;
    for i := 0 to |fields|
      invariant ReadValues(data, fields, address) == ReadValues(rest, fields[i..], row)
    {
      if |rest| == 0 {
        return map[], None;
      }
      var value, rem := ScanString(rest[1..], 0);
      ConsumeCStringIs(rest[1..]);
      if rem.None? {
        return map[], None;
      }
      assert fields[i..][1..] == fields[i + 1..];
      row := row[fields[i] := value];
      rest := rem.value;
    }
    return row, Some(rest);
  }

  // ---- the round trip --------------------------------------------------------------------------

  function ValuesOf(params: map<Bytes, Bytes>, fields: seq<Bytes>): map<Bytes, Bytes> {
    map field | field in fields :: ValueOf(params, field)
  }

  /** The address and then the fields, which take precedence. */
  function RowOf(svr: Listed, fields: seq<Bytes>): Row
    requires |svr.ip| == 4 && svr.params.Some?
  {
    Address(svr.ip, svr.queryPort % 65536) + ValuesOf(svr.params.value, fields)
  }

  /** What a client should learn about the servers that have parameters. */
  function RowsOf(servers: seq<Listed>, fields: seq<Bytes>): seq<Row>
    requires forall i :: 0 <= i < |servers| ==> |servers[i].ip| == 4
  {
    if servers == [] then []
    else (if servers[0].params.None? then [] else [RowOf(servers[0], fields)]) + RowsOf(servers[1..], fields)
  }

  /** The addresses are IPv4, and the values of these fields contain no zero byte. */
  ghost predicate CleanValues(servers: seq<Listed>, fields: seq<Bytes>) {
    && (forall i, field :: 0 <= i < |servers| && servers[i].params.Some? && field in fields ==>
          0 !in ValueOf(servers[i].params.value, field))
    && (forall i :: 0 <= i < |servers| ==> |servers[i].ip| == 4)
  }

  /** Neither do the names of the fields. */
  ghost predicate Clean(servers: seq<Listed>, fields: seq<Bytes>) {
    (forall i :: 0 <= i < |fields| ==> 0 !in fields[i]) && CleanValues(servers, fields)
  }

  lemma FirstNameIsRead(name: Bytes, rest: Bytes, count: nat)
    requires 0 !in name
    ensures ReadNames(name + [0, 0] + rest, count + 1) == FollowNames([name], ReadNames(rest, count))
  {
    SplitAt(name, [0] + rest, 0);
    assert name + [0, 0] + rest == name + [0] + ([0] + rest);
    hide ConsumeString;
    assert ([0] + rest)[1..] == rest;
  }

  lemma {:induction false} NamesAreRead(fields: seq<Bytes>, tail: Bytes)
    requires forall i :: 0 <= i < |fields| ==> 0 !in fields[i]
    ensures ReadNames(Declarations(fields) + tail, |fields|) == Some((fields, tail))
  {
    hide ConsumeCString;
    if fields == [] {
      assert Declarations(fields) + tail == tail;
    } else {
      hide ReadNames;
      NamesAreRead(fields[1..], tail);
      FirstNameIsRead(fields[0], Declarations(fields[1..]) + tail, |fields| - 1);
      Regroup(fields[0] + [0, 0], Declarations(fields[1..]), tail);
      assert [fields[0]] + fields[1..] == fields;
    }
  }

  lemma FirstValueIsRead(params: map<Bytes, Bytes>, fields: seq<Bytes>, tail: Bytes, before: map<Bytes, Bytes>)
    requires fields != [] && 0 !in ValueOf(params, fields[0])
    ensures ReadValues(Values(params, fields) + tail, fields, before) ==
      ReadValues(Values(params, fields[1..]) + tail, fields[1..], before[fields[0] := ValueOf(params, fields[0])])
  {
    hide ValueOf;
    var value, rest := ValueOf(params, fields[0]), Values(params, fields[1..]) + tail;
    var unparsed := Values(params, fields) + tail;
    assert unparsed == [255] + (value + [0] + rest);
    SplitAt(value, rest, 0);
    hide ConsumeString, Values;
    assert unparsed[1..] == value + [0] + rest;
  }

  lemma FirstOfValues(params: map<Bytes, Bytes>, fields: seq<Bytes>, before: map<Bytes, Bytes>)
    requires fields != []
    ensures before[fields[0] := ValueOf(params, fields[0])] + ValuesOf(params, fields[1..]) ==
      before + ValuesOf(params, fields)
  {
    hide ValueOf;
    assert fields == [fields[0]] + fields[1..];
  }

  lemma NoValues(params: map<Bytes, Bytes>, tail: Bytes, before: map<Bytes, Bytes>)
    ensures ReadValues(Values(params, []) + tail, [], before) == Some((before + ValuesOf(params, []), tail))
  {
    assert Values(params, []) + tail == tail;
    assert before + ValuesOf(params, []) == before;
  }

  /** The values read in order, over those read before. */
  lemma {:induction false} ValuesAreRead(params: map<Bytes, Bytes>, fields: seq<Bytes>, tail: Bytes, before: Row)
    requires forall field :: field in fields ==> 0 !in ValueOf(params, field)
    ensures ReadValues(Values(params, fields) + tail, fields, before) == Some((before + ValuesOf(params, fields), tail))
    decreases |fields|
  {
    hide ValueOf, ValuesOf, ReadValues, Values;
    if fields == [] {
      NoValues(params, tail, before);
    } else {
      FirstValueIsRead(params, fields, tail, before);
      ValuesAreRead(params, fields[1..], tail, before[fields[0] := ValueOf(params, fields[0])]);
      FirstOfValues(params, fields, before);
    }
  }

  lemma RecordIsRead(svr: Listed, fields: seq<Bytes>, tail: Bytes)
    requires |svr.ip| == 4 && svr.params.Some?
    requires forall field :: field in fields ==> 0 !in ValueOf(svr.params.value, field)
    ensures ReadRecords(Record(svr, fields) + tail, fields) == Follow([RowOf(svr, fields)], ReadRecords(tail, fields))
  {
    hide ReadValues, ValueOf, Values, ValuesOf, Address;
    var unparsed := Record(svr, fields) + tail;
    var head := [RECORD] + svr.ip + BigEndian16(svr.queryPort);
    ValuesAreRead(svr.params.value, fields, tail, Address(svr.ip, svr.queryPort % 65536));
    Uint16OfBigEndian(svr.queryPort);
    Regroup(head, Values(svr.params.value, fields), tail);
    hide BigEndian16, Uint16;
    assert unparsed[7..] == Values(svr.params.value, fields) + tail;
    assert unparsed[1..5] == svr.ip && unparsed[5..7] == BigEndian16(svr.queryPort);
  }

  lemma {:induction false} RecordsAreRead(servers: seq<Listed>, fields: seq<Bytes>)
    requires Clean(servers, fields)
    ensures ReadRecords(Records(servers, fields) + Terminator(), fields) == Some(RowsOf(servers, fields))
    decreases |servers|
  {
    hide Record, RowOf, ValueOf;
    if servers == [] {
      assert Records(servers, fields) + Terminator() == Terminator();
    } else {
      RecordsAreRead(servers[1..], fields);
      var rest := Records(servers[1..], fields) + Terminator();
      if servers[0].params.Some? {
        RecordIsRead(servers[0], fields, rest);
        Regroup(Record(servers[0], fields), Records(servers[1..], fields), Terminator());
      } else {
        assert Records(servers, fields) == Records(servers[1..], fields);
        assert RowsOf(servers, fields) == RowsOf(servers[1..], fields);
      }
    }
  }

  /**
   * A client learns every server that was packed, in order: its address, its query port and the
   * value of every field.
   */
  lemma ServerListRoundTrip(servers: seq<Listed>, clientIp: Bytes, clientPort: nat, fields: seq<Bytes>)
    requires |clientIp| == 4 && Clean(servers, Declared(fields))
    ensures Unpacked(Packed(servers, clientIp, clientPort, fields)) == Some(RowsOf(servers, Declared(fields)))
  {
    hide Records, Declarations, ReadNames, ReadRecords, BigEndian16, RowsOf, ValueOf;
    var declared := Declared(fields);
    var resp := Packed(servers, clientIp, clientPort, fields);
    var lists := Declarations(declared) + (Records(servers, declared) + Terminator());
    assert resp[6] == |declared| && resp[8..] == lists;
    NamesAreRead(declared, Records(servers, declared) + Terminator());
    RecordsAreRead(servers, declared);
  }

  /** Dotted decimal tells addresses apart. */
  lemma HostTextIsInjective(x: Bytes, y: Bytes)
    requires |x| == 4 && |y| == 4 && HostText(x) == HostText(y)
    ensures x == y
  {
    hide Itoa, ConsumeString;
    DottedHead(x[0], Itoa(x[1]) + [DOT] + (Itoa(x[2]) + [DOT] + Itoa(x[3])));
    DottedHead(y[0], Itoa(y[1]) + [DOT] + (Itoa(y[2]) + [DOT] + Itoa(y[3])));
    DottedHead(x[1], Itoa(x[2]) + [DOT] + Itoa(x[3]));
    DottedHead(y[1], Itoa(y[2]) + [DOT] + Itoa(y[3]));
    DottedHead(x[2], Itoa(x[3]));
    DottedHead(y[2], Itoa(y[3]));
    forall i | 0 <= i < 4 ensures x[i] == y[i] {
      ValueOfItoa(x[i]);
      ValueOfItoa(y[i]);
    }
  }

  lemma DottedHead(n: nat, rest: Bytes)
    ensures ConsumeString(Itoa(n) + [DOT] + rest, DOT) == (Itoa(n), Some(rest))
  {
    hide Itoa;
    assert DOT !in Itoa(n);
    SplitAt(Itoa(n), rest, DOT);
  }

  lemma NamesDiffer()
    ensures HostName() != PortName()
  {
    assert HostName()[0] == 104 && PortName()[0] == 112;
  }

  /**
   * A client finds the address of a server in its row exactly if no declared field of that name
   * has put another text there; and a row that has them tells address and port apart from any other.
   */
  lemma AddressIsFoundIff(svr: Listed, fields: seq<Bytes>)
    requires |svr.ip| == 4 && svr.params.Some?
    ensures var row := RowOf(svr, fields);
            && HostName() in row && PortName() in row
            && (row[HostName()] == HostText(svr.ip) <==>
                  HostName() !in fields || ValueOf(svr.params.value, HostName()) == HostText(svr.ip))
            && (row[PortName()] == Itoa(svr.queryPort % 65536) <==>
                  PortName() !in fields || ValueOf(svr.params.value, PortName()) == Itoa(svr.queryPort % 65536))
  {
    NamesDiffer();
    hide HostName, PortName, HostText, Itoa, ValueOf;
  }

  /** A field that can be queried is never one of the two. */
  lemma QueryFieldsKeepAddress(field: Bytes)
    requires Filters.IsQueryField(field)
    ensures field != HostName() && field != PortName()
  {
    assert |field| >= 7;
    assert |HostName()| == 4 && |PortName()| == 4;
    hide Ascii;
  }

  /** Without fields of those names, rows with the same two entries are about the same address and port. */
  lemma AddressIsRecovered(one: Listed, other: Listed, fields: seq<Bytes>)
    requires |one.ip| == 4 && |other.ip| == 4 && one.params.Some? && other.params.Some?
    requires HostName() !in fields && PortName() !in fields
    requires RowOf(one, fields)[HostName()] == RowOf(other, fields)[HostName()]
    requires RowOf(one, fields)[PortName()] == RowOf(other, fields)[PortName()]
    ensures one.ip == other.ip && one.queryPort % 65536 == other.queryPort % 65536
  {
    hide HostName, PortName, HostText, Itoa, ValueOf, RowOf;
    AddressIsFoundIff(one, fields);
    AddressIsFoundIff(other, fields);
    HostTextIsInjective(one.ip, other.ip);
    ValueOfItoa(one.queryPort % 65536);
    ValueOfItoa(other.queryPort % 65536);
  }

  /** The same through the stream cipher, as the browser sends the list and a client receives it. */
  lemma EncryptedListRoundTrip(secret: Cipher.Secret, key: Cipher.Key, random: Bytes,
                               servers: seq<Listed>, clientIp: Bytes, clientPort: nat, fields: seq<Bytes>)
    requires |random| == Cipher.HEADER_LENGTH && |clientIp| == 4 && Clean(servers, Declared(fields))
    ensures var sent := Crypt.Packet(secret, key, random, Packed(servers, clientIp, clientPort, fields));
            Crypt.Readable(sent) && Unpacked(Crypt.Unpack(secret, key, sent)) == Some(RowsOf(servers, Declared(fields)))
  {
    hide Unpacked, Packed, RowsOf, Crypt.Packet, Crypt.Unpack, Crypt.Readable;
    Crypt.PacketRoundTrip(secret, key, random, Packed(servers, clientIp, clientPort, fields));
    ServerListRoundTrip(servers, clientIp, clientPort, fields);
  }

  // ---- the packed list, byte by byte, with what its readers skip -----------------------------------

  function Flat(parts: seq<Bytes>): Bytes {
    if parts == [] then [] else parts[0] + Flat(parts[1..])
  }

  /** The servers that get a row. */
  function Listable(servers: seq<Listed>): seq<Listed> {
    if servers == [] then []
    else (if servers[0].params.None? then [] else [servers[0]]) + Listable(servers[1..])
  }

  function FieldParts(fields: seq<Bytes>): (parts: seq<Bytes>)
    ensures |parts| == |fields| && forall i :: 0 <= i < |parts| ==> parts[i] == fields[i] + [0, 0]
  {
    seq(|fields|, i requires 0 <= i < |fields| => fields[i] + [0, 0])
  }

  function ValueParts(params: map<Bytes, Bytes>, fields: seq<Bytes>): (parts: seq<Bytes>)
    ensures |parts| == |fields|
    ensures forall i :: 0 <= i < |parts| ==>
      parts[i] == [255] + (if fields[i] in params then params[fields[i]] else []) + [0]
  {
    seq(|fields|, i requires 0 <= i < |fields| =>
      [255] + (if fields[i] in params then params[fields[i]] else []) + [0])
  }

  function ServerParts(told: seq<Listed>, fields: seq<Bytes>): (parts: seq<Bytes>)
    requires forall i :: 0 <= i < |told| ==> |told[i].ip| == 4 && told[i].params.Some?
    ensures |parts| == |told|
    ensures forall i :: 0 <= i < |parts| ==>
      parts[i] == [0x51] + told[i].ip + [told[i].queryPort / 256 % 256, told[i].queryPort % 256]
                  + Flat(ValueParts(told[i].params.value, fields))
  {
    seq(|told|, i requires 0 <= i < |told| =>
      [0x51] + told[i].ip + [told[i].queryPort / 256 % 256, told[i].queryPort % 256]
      + Flat(ValueParts(told[i].params.value, fields)))
  }

  lemma {:induction false} DeclarationsAre(fields: seq<Bytes>)
    ensures Declarations(fields) == Flat(FieldParts(fields))
  {
    if fields != [] {
      DeclarationsAre(fields[1..]);
      assert FieldParts(fields)[1..] == FieldParts(fields[1..]);
    }
  }

  lemma {:induction false} ValuesAre(params: map<Bytes, Bytes>, fields: seq<Bytes>)
    ensures Values(params, fields) == Flat(ValueParts(params, fields))
  {
    if fields != [] {
      ValuesAre(params, fields[1..]);
      assert ValueParts(params, fields)[1..] == ValueParts(params, fields[1..]);
    }
  }

  lemma ListableAre(servers: seq<Listed>)
    requires forall i :: 0 <= i < |servers| ==> |servers[i].ip| == 4
    ensures forall i :: 0 <= i < |Listable(servers)| ==>
      |Listable(servers)[i].ip| == 4 && Listable(servers)[i].params.Some?
  {
  }

  lemma {:induction false} RecordsAre(servers: seq<Listed>, fields: seq<Bytes>)
    requires forall i :: 0 <= i < |servers| ==> |servers[i].ip| == 4
    ensures forall i :: 0 <= i < |Listable(servers)| ==>
      |Listable(servers)[i].ip| == 4 && Listable(servers)[i].params.Some?
    ensures Records(servers, fields) == Flat(ServerParts(Listable(servers), fields))
    decreases |servers|
  {
    ListableAre(servers);
    hide Values, ValueParts;
    if servers != [] {
      RecordsAre(servers[1..], fields);
      if servers[0].params.Some? {
        ValuesAre(servers[0].params.value, fields);
        var told := Listable(servers);
        assert told[1..] == Listable(servers[1..]);
        assert ServerParts(told, fields)[1..] == ServerParts(told[1..], fields);
      } else {
        assert Listable(servers) == Listable(servers[1..]);
      }
    }
  }

  /**
   * The packed list: the client's address and port, the number of the fields and a zero, the fields with
   * two zeros each, a record for each server with parameters, and the five bytes of the end.
   */
  lemma PackedBytes(servers: seq<Listed>, clientIp: Bytes, clientPort: nat, fields: seq<Bytes>)
    requires |clientIp| == 4 && forall i :: 0 <= i < |servers| ==> |servers[i].ip| == 4
    ensures forall i :: 0 <= i < |Listable(servers)| ==>
      |Listable(servers)[i].ip| == 4 && Listable(servers)[i].params.Some?
    ensures var declared := if |fields| > 255 then fields[..255] else fields;
            Packed(servers, clientIp, clientPort, fields) ==
              clientIp + [clientPort / 256 % 256, clientPort % 256] + [|declared|, 0]
              + (Flat(FieldParts(declared))
                 + (Flat(ServerParts(Listable(servers), declared)) + [0, 255, 255, 255, 255]))
  {
    hide Declarations, Records, Flat, FieldParts, ServerParts, Listable;
    DeclarationsAre(Declared(fields));
    RecordsAre(servers, Declared(fields));
  }

  // ---- the answer to a request -------------------------------------------------------------------

  /** A row tells the address and query port of the server, and the value of every field. */
  ghost predicate Tells(row: Row, svr: Listed, fields: seq<Bytes>)
    requires |svr.ip| == 4 && svr.params.Some?
  {
    && HostName() in row && row[HostName()] == HostText(svr.ip)
    && PortName() in row && row[PortName()] == Itoa(svr.queryPort % 65536)
    && forall field :: field in fields ==> field in row && row[field] == ValueOf(svr.params.value, field)
  }

  lemma RowTells(svr: Listed, fields: seq<Bytes>)
    requires |svr.ip| == 4 && svr.params.Some? && HostName() !in fields && PortName() !in fields
    ensures Tells(RowOf(svr, fields), svr, fields)
  {
    AddressIsFoundIff(svr, fields);
    hide HostName, PortName, HostText, Itoa, ValueOf, Address;
  }

  lemma {:induction false} RowsTell(servers: seq<Listed>, fields: seq<Bytes>)
    requires HostName() !in fields && PortName() !in fields
    requires forall i :: 0 <= i < |servers| ==> |servers[i].ip| == 4
    ensures var rows, told := RowsOf(servers, fields), Listable(servers);
            && |rows| == |told|
            && forall i :: 0 <= i < |told| ==>
                 |told[i].ip| == 4 && told[i].params.Some? && Tells(rows[i], told[i], fields)
    decreases |servers|
  {
    hide RowOf, Tells, HostName, PortName;
    if servers != [] {
      RowsTell(servers[1..], fields);
      if servers[0].params.Some? {
        RowTells(servers[0], fields);
      }
    }
  }

  /** What the browser sends back: the packed list, encrypted under the challenge of the request. */
  function Answer(secret: Cipher.Secret, random: Bytes, request: Browsing.Request, servers: seq<Listed>,
                  clientIp: Bytes, clientPort: nat): Bytes
    requires |random| == Cipher.HEADER_LENGTH && |request.challenge| == 8
    requires forall i :: 0 <= i < |servers| ==> |servers[i].ip| == 4
  {
    Crypt.Packet(secret, request.challenge, random, Packed(servers, clientIp, clientPort, request.fields))
  }

  /**
   * Whatever request is accepted, the client that sent it learns from the answer the address, the
   * query port and every requested value of each server that has parameters, in order. No field that
   * can be requested takes the place of an address.
   */
  lemma AnswerIsRead(data: Bytes, secret: Cipher.Secret, random: Bytes, servers: seq<Listed>, clientIp: Bytes,
                     clientPort: nat)
    requires Browsing.ReadRequest(data).Ok? && |random| == Cipher.HEADER_LENGTH && |clientIp| == 4
    requires CleanValues(servers, Browsing.ReadRequest(data).request.fields)
    ensures var request := Browsing.ReadRequest(data).request;
            && |request.challenge| == 8
            && var sent := Answer(secret, random, request, servers, clientIp, clientPort);
               var told := Listable(servers);
            && Crypt.Readable(sent)
            && var rows := Unpacked(Crypt.Unpack(secret, request.challenge, sent));
            && rows.Some? && |rows.value| == |told|
            && forall i :: 0 <= i < |told| ==>
                 |told[i].ip| == 4 && told[i].params.Some? && Tells(rows.value[i], told[i], request.fields)
  {
    hide Browsing.ReadRequest, Unpacked, Packed, RowsOf, CleanValues, Tells, HostName, PortName, Filters.IsQueryField,
         Crypt.Packet, Crypt.Unpack, Crypt.Readable, Listable;
    Browsing.AcceptedIsWellFormed(data);
    var request := Browsing.ReadRequest(data).request;
    forall field | field in request.fields ensures field != HostName() && field != PortName() {
      QueryFieldsKeepAddress(field);
    }
    assert Declared(request.fields) == request.fields;
    CleanAddresses(servers, request.fields);
    EncryptedListRoundTrip(secret, request.challenge, random, servers, clientIp, clientPort, request.fields);
    RowsTell(servers, request.fields);
  }

  lemma CleanAddresses(servers: seq<Listed>, fields: seq<Bytes>)
    requires CleanValues(servers, fields)
    ensures forall i :: 0 <= i < |servers| ==> |servers[i].ip| == 4
  {
  }
}
