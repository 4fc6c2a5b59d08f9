/**
 The BFV0 constant layout (byteflow/src/bytecode/format.rs): the recursive
 tagged-value writer and reader with their depth, length, trust and ABI gates.
 */
module Codec {
  import opened Common
  import opened Values
  import opened Trust
  import opened Wire
  import Utf8

  const MAX_BLOB := 1_048_576
  const ABI_VERSION := 5
  const ABI_VERSION_LISTS := 6
  const ABI_VERSION_MAPS := 7
  const ABI_VERSION_RECORDS := 8

  // ---------------------------------------------------------------- writing

  function WriteBlob(data: Bytes): Bytes {
    LittleEndian(|data|, 4) + data
  }

  function WriteI64(i: I64): Bytes {
    LittleEndian(if i < 0 then i + 0x1_0000_0000_0000_0000 else i, 8)
  }

  function WriteKey(key: MapKey): Bytes {
    match key
    case IntKey(n) => [0] + WriteI64(n)
    case StrKey(text) => [1] + WriteBlob(Utf8.Encode(text))
  }

  function WriteEnvelope(m: Message): (bs: Bytes)
    ensures |bs| == 34
  {
    Join4(LittleEndian(m.sender, 8), LittleEndian(m.replyCap, 16), LittleEndian(m.requestId, 8), LittleEndian(m.tag, 2))
  }

  function Join4(a: Bytes, b: Bytes, c: Bytes, d: Bytes): (bs: Bytes)
    ensures |bs| == |a| + |b| + |c| + |d|
  {
    a + b + c + d
  }

  lemma {:induction false} Join4Splits(a: Bytes, b: Bytes, c: Bytes, d: Bytes, rest: Bytes)
    ensures Join4(a, b, c, d) + rest == a + (b + (c + (d + rest)))
  {
  }

  // `write_value`
  function WriteValue(v: Value): (bs: Bytes)
    ensures |bs| >= 1
    decreases v, 1
  {
    match v
    case Unit => [0]
    case Bool(b) => [1, if b then 1 else 0]
    case Int(i) => [2] + WriteI64(i)
    case Float(bits) => [3] + LittleEndian(bits, 8)
    case Pid(p) => [4] + LittleEndian(p, 8)
    case Msg(m) => [5] + (WriteEnvelope(m) + WriteValue(m.payload))
    case Cap(id) => [6] + LittleEndian(id, 16)
    case Str(text) => [7] + WriteBlob(Utf8.Encode(text))
    case Blob(data) => [8] + WriteBlob(data)
    case List(items) => [9] + (LittleEndian(|items|, 4) + WriteItems(items))
    case Map(entries) => [10] + (LittleEndian(|entries|, 4) + WriteEntries(entries))
    case Record(fields) => [11] + (LittleEndian(|fields|, 4) + WriteItems(fields))
  }

  function WriteItems(items: seq<Value>): Bytes
    decreases items, 0
  {
    if items == [] then [] else WriteValue(items[0]) + WriteItems(items[1..])
  }

  function WriteEntries(entries: seq<Entry>): Bytes
    decreases entries, 0
  {
    if entries == [] then [] else WriteEntry(entries[0]) + WriteEntries(entries[1..])
  }

  function WriteEntry(e: Entry): Bytes
    decreases e
  {
    WriteKey(e.key) + WriteValue(e.value)
  }

  // ---------------------------------------------------------------- reading

  function ReadI64(bs: Bytes): (r: Result<Parsed<I64>, FormatError>)
    ensures r.Ok? <==> 8 <= |bs|
    ensures r.Ok? ==> |r.value.rest| == |bs| - 8
  {
    var Parsed(n, rest) :- ReadUint(bs, 8);
    Pow256Values();
    Ok(Parsed(if n < 0x8000_0000_0000_0000 then n else n - 0x1_0000_0000_0000_0000, rest))
  }

  // `Reader::read_u32` with an upper limit, as every length prefix is read.
  function ReadCount(bs: Bytes, max: nat, what: string): (r: Result<Parsed<nat>, FormatError>)
    ensures r.Ok? ==> |r.value.rest| == |bs| - 4
  {
    var Parsed(n, rest) :- ReadUint(bs, 4);
    Pow256Values();
    if n > max then Err(LimitExceeded(what, n)) else Ok(Parsed(n, rest))
  }

  // `Reader::read_blob`
  function ReadBlob(bs: Bytes, what: string): (r: Result<Parsed<Bytes>, FormatError>)
    ensures r.Ok? ==> |r.value.rest| < |bs|
  {
    var Parsed(len, rest) :- ReadCount(bs, MAX_BLOB, what);
    Take(rest, len)
  }

  // A length-prefixed blob that must be UTF-8.
  function ReadText(bs: Bytes, what: string): (r: Result<Parsed<string>, FormatError>)
    ensures r.Ok? ==> |r.value.rest| < |bs|
  {
    var Parsed(raw, rest) :- ReadBlob(bs, what);
    match Utf8.Decode(raw)
    case None => Err(BadUtf8)
    case Some(text) => Ok(Parsed(text, rest))
  }

  function ReadKey(bs: Bytes): (r: Result<Parsed<MapKey>, FormatError>)
    ensures r.Ok? ==> |r.value.rest| < |bs|
  {
    if bs == [] then Err(Truncated)
    else if bs[0] == 0 then
      var Parsed(n, rest) :- ReadI64(bs[1..]);
      Ok(Parsed(IntKey(n), rest))
    else if bs[0] == 1 then
      var Parsed(text, rest) :- ReadText(bs[1..], "map key");
      Ok(Parsed(StrKey(text), rest))
    else Err(UnknownMapKey(bs[0]))
  }

  datatype Envelope = Envelope(sender: U64, replyCap: U128, requestId: U64, tag: U16)

  function ReadEnvelope(bs: Bytes): (r: Result<Parsed<Envelope>, FormatError>)
    ensures r.Ok? <==> 34 <= |bs|
    ensures r.Ok? ==> |r.value.rest| == |bs| - 34
  {
    Pow256Values();
    var Parsed(sender, r1) :- ReadUint(bs, 8);
    var Parsed(replyCap, r2) :- ReadUint(r1, 16);
    var Parsed(requestId, r3) :- ReadUint(r2, 8);
    var Parsed(tag, r4) :- ReadUint(r3, 2);
    Ok(Parsed(Envelope(sender, replyCap, requestId, tag), r4))
  }

  // `Reader::read_value`
  function ReadValue(bs: Bytes, trust: TrustLevel, depth: nat, abi: nat): (r: Result<Parsed<Value>, FormatError>)
    ensures r.Ok? ==> |r.value.rest| < |bs|
    decreases |bs|, 0
  {
    if depth > MAX_VALUE_DEPTH then Err(ValueTooNested)
    else if bs == [] then Err(Truncated)
    else
      var body := bs[1..];
      match bs[0]
      case 0 => Ok(Parsed(Unit, body))
      case 1 =>
        if body == [] then Err(Truncated)
        else if body[0] == 0 then Ok(Parsed(Bool(false), body[1..]))
        else if body[0] == 1 then Ok(Parsed(Bool(true), body[1..]))
        else Err(NonCanonicalBool(body[0]))
      case 2 =>
        var Parsed(i, rest) :- ReadI64(body);
        Ok(Parsed(Int(i), rest))
      case 3 =>
        var Parsed(bits, rest) :- ReadUint(body, 8);
        Pow256Values();
        Ok(Parsed(Float(bits), rest))
      case 4 =>
        if !trust.AllowsAuthorityConstants() then Err(ForbiddenConstant(ProcessId))
        else
          var Parsed(p, rest) :- ReadUint(body, 8);
          Pow256Values();
          Ok(Parsed(Pid(p), rest))
      case 5 =>
        if !trust.AllowsAuthorityConstants() then Err(ForbiddenConstant(MessageKind))
        else ReadMsg(body, trust, depth, abi)
      case 6 =>
        if !trust.AllowsAuthorityConstants() then Err(ForbiddenConstant(Capability))
        else
          var Parsed(id, rest) :- ReadUint(body, 16);
          Pow256Values();
          Ok(Parsed(Cap(id), rest))
      case 7 =>
        var Parsed(text, rest) :- ReadText(body, "str");
        Ok(Parsed(Str(text), rest))
      case 8 =>
        var Parsed(data, rest) :- ReadBlob(body, "bytes");
        Ok(Parsed(Blob(data), rest))
      case 9 =>
        if abi < ABI_VERSION_LISTS then Err(UnknownValueTag(9)) else ReadList(body, trust, depth, abi)
      case 10 =>
        if abi < ABI_VERSION_MAPS then Err(UnknownValueTag(10)) else ReadMap(body, trust, depth, abi)
      case 11 =>
        if abi < ABI_VERSION_RECORDS then Err(UnknownValueTag(11)) else ReadRecord(body, trust, depth, abi)
      case tag => Err(UnknownValueTag(tag))
  }

  function ReadMsg(bs: Bytes, trust: TrustLevel, depth: nat, abi: nat): (r: Result<Parsed<Value>, FormatError>)
    ensures r.Ok? ==> |r.value.rest| <= |bs|
    decreases |bs|, 2
  {
    var Parsed(e, r1) :- ReadEnvelope(bs);
    var Parsed(payload, rest) :- ReadValue(r1, trust, depth + 1, abi);
    Ok(Parsed(Msg(Message(e.sender, e.replyCap, e.requestId, e.tag, payload)), rest))
  }

  function ReadList(bs: Bytes, trust: TrustLevel, depth: nat, abi: nat): (r: Result<Parsed<Value>, FormatError>)
    ensures r.Ok? ==> |r.value.rest| <= |bs|
    decreases |bs|, 2
  {
    var Parsed(n, r1) :- ReadCount(bs, MAX_LIST_LEN, "list");
    var Parsed(items, rest) :- ReadItems(r1, n, trust, depth + 1, abi);
    if TryList(items).None? then Err(ValueTooNested) else Ok(Parsed(TryList(items).value, rest))
  }

  function ReadRecord(bs: Bytes, trust: TrustLevel, depth: nat, abi: nat): (r: Result<Parsed<Value>, FormatError>)
    ensures r.Ok? ==> |r.value.rest| <= |bs|
    decreases |bs|, 2
  {
    var Parsed(n, r1) :- ReadCount(bs, MAX_RECORD_LEN, "record");
    var Parsed(fields, rest) :- ReadItems(r1, n, trust, depth + 1, abi);
    if TryRecord(fields).None? then Err(ValueTooNested) else Ok(Parsed(TryRecord(fields).value, rest))
  }

  function ReadMap(bs: Bytes, trust: TrustLevel, depth: nat, abi: nat): (r: Result<Parsed<Value>, FormatError>)
    ensures r.Ok? ==> |r.value.rest| <= |bs|
    decreases |bs|, 2
  {
    var Parsed(n, r1) :- ReadCount(bs, MAX_MAP_LEN, "map");
    var Parsed(entries, rest) :- ReadEntries(r1, n, trust, depth + 1, abi);
    if !DistinctKeys(entries) then Err(DuplicateMapKey)
    else if TryMap(entries).None? then Err(ValueTooNested)
    else Ok(Parsed(TryMap(entries).value, rest))
  }

  // `n` values in a row, the body of a list or a record.
  function ReadItems(bs: Bytes, n: nat, trust: TrustLevel, depth: nat, abi: nat)
    : (r: Result<Parsed<seq<Value>>, FormatError>)
    ensures r.Ok? ==> |r.value.value| == n && |r.value.rest| <= |bs|
    decreases |bs|, 1
  {
    if n == 0 then Ok(Parsed([], bs))
    else
      var Parsed(head, r1) :- ReadValue(bs, trust, depth, abi);
      var Parsed(tail, rest) :- ReadItems(r1, n - 1, trust, depth, abi);
      Ok(Parsed([head] + tail, rest))
  }

  function ReadEntries(bs: Bytes, n: nat, trust: TrustLevel, depth: nat, abi: nat)
    : (r: Result<Parsed<seq<Entry>>, FormatError>)
    ensures r.Ok? ==> |r.value.value| == n && |r.value.rest| <= |bs|
    decreases |bs|, 1
  {
    if n == 0 then Ok(Parsed([], bs))
    else
      var Parsed(head, r1) :- ReadEntry(bs, trust, depth, abi);
      var Parsed(tail, rest) :- ReadEntries(r1, n - 1, trust, depth, abi);
      Ok(Parsed([head] + tail, rest))
  }

  function ReadEntry(bs: Bytes, trust: TrustLevel, depth: nat, abi: nat): (r: Result<Parsed<Entry>, FormatError>)
    ensures r.Ok? ==> |r.value.rest| < |bs|
    decreases |bs|, 0
  {
    var Parsed(key, r1) :- ReadKey(bs);
    var Parsed(value, rest) :- ReadValue(r1, trust, depth, abi);
    Ok(Parsed(Entry(key, value), rest))
  }

  // ------------------------------------------------- what the layout can hold

  predicate KeyFits(key: MapKey) {
    key.StrKey? ==> Utf8.ByteLen(key.text) <= MAX_BLOB
  }

  // Every string and byte buffer is within the blob limit.
  predicate BlobsFit(v: Value)
    decreases v
  {
    match v
    case Str(text) => Utf8.ByteLen(text) <= MAX_BLOB
    case Blob(data) => |data| <= MAX_BLOB
    case Msg(m) => BlobsFit(m.payload)
    case List(items) => forall i | 0 <= i < |items| :: BlobsFit(items[i])
    case Record(fields) => forall i | 0 <= i < |fields| :: BlobsFit(fields[i])
    case Map(entries) =>
      forall i | 0 <= i < |entries| :: KeyFits(entries[i].key) && BlobsFit(entries[i].value)
    case _ => true
  }

  // The limits of the format, for a value met at `depth`.
  predicate Fits(v: Value, depth: nat) {
    Walk(v, depth) && Bounded(v) && BlobsFit(v)
  }

  // Header version `abi` has a tag for every container in the tree.
  predicate Representable(v: Value, abi: nat)
    decreases v, 1
  {
    match v
    case Msg(m) => Representable(m.payload, abi)
    case List(items) => abi >= ABI_VERSION_LISTS && ItemsRepresentable(items, abi)
    case Record(fields) => abi >= ABI_VERSION_RECORDS && ItemsRepresentable(fields, abi)
    case Map(entries) => abi >= ABI_VERSION_MAPS && EntriesRepresentable(entries, abi)
    case _ => true
  }

  predicate ItemsRepresentable(items: seq<Value>, abi: nat)
    decreases items, 0
  {
    items == [] || (Representable(items[0], abi) && ItemsRepresentable(items[1..], abi))
  }

  predicate EntriesRepresentable(entries: seq<Entry>, abi: nat)
    decreases entries, 0
  {
    entries == [] ||
    var value := entries[0].value;
    assert value < entries[0];
    Representable(value, abi) && EntriesRepresentable(entries[1..], abi)
  }

  // ------------------------------------------------------------ decode(encode)

  lemma {:induction false} ReadWrittenI64(i: I64, rest: Bytes)
    ensures ReadI64(WriteI64(i) + rest) == Ok(Parsed(i, rest))
  {
    Pow256Values();
    ReadWrittenUint(if i < 0 then i + 0x1_0000_0000_0000_0000 else i, 8, rest);
  }

  lemma {:induction false} ReadWrittenCount(n: nat, max: nat, what: string, rest: Bytes)
    requires n <= max < 0x1_0000_0000
    ensures ReadCount(LittleEndian(n, 4) + rest, max, what) == Ok(Parsed(n, rest))
  {
    Pow256Values();
    ReadWrittenUint(n, 4, rest);
  }

  lemma {:induction false} ReadWrittenBlob(data: Bytes, what: string, rest: Bytes)
    requires |data| <= MAX_BLOB
    ensures ReadBlob(WriteBlob(data) + rest, what) == Ok(Parsed(data, rest))
  {
    ReadWrittenCount(|data|, MAX_BLOB, what, data + rest);
    assert WriteBlob(data) + rest == LittleEndian(|data|, 4) + (data + rest);
    assert (data + rest)[..|data|] == data && (data + rest)[|data|..] == rest;
  }

  lemma {:induction false} ReadWrittenText(text: string, what: string, rest: Bytes)
    requires Utf8.ByteLen(text) <= MAX_BLOB
    ensures ReadText(WriteBlob(Utf8.Encode(text)) + rest, what) == Ok(Parsed(text, rest))
  {
    ReadWrittenBlob(Utf8.Encode(text), what, rest);
    Utf8.DecodeUndoesEncode(text);
  }

  lemma {:induction false} ReadWrittenIntKey(n: I64, rest: Bytes)
    ensures ReadKey(WriteKey(IntKey(n)) + rest) == Ok(Parsed(IntKey(n), rest))
  {
    ReadWrittenI64(n, rest);
    assert WriteKey(IntKey(n)) + rest == [0] + (WriteI64(n) + rest);
  }

  lemma {:induction false} ReadWrittenStrKey(text: string, rest: Bytes)
    requires KeyFits(StrKey(text))
    ensures ReadKey(WriteKey(StrKey(text)) + rest) == Ok(Parsed(StrKey(text), rest))
  {
    var body := WriteBlob(Utf8.Encode(text)) + rest;
    ReadWrittenText(text, "map key", rest);
    assert WriteKey(StrKey(text)) + rest == [1] + body;
    assert ([1] + body)[1..] == body;
  }

  lemma {:induction false} ReadWrittenKey(key: MapKey, rest: Bytes)
    requires KeyFits(key)
    ensures ReadKey(WriteKey(key) + rest) == Ok(Parsed(key, rest))
  {
    if key.IntKey? { ReadWrittenIntKey(key.n, rest); } else { ReadWrittenStrKey(key.text, rest); }
  }

  lemma {:induction false} ReadWrittenEnvelope(m: Message, rest: Bytes)
    ensures ReadEnvelope(WriteEnvelope(m) + rest)
      == Ok(Parsed(Envelope(m.sender, m.replyCap, m.requestId, m.tag), rest))
  {
    Pow256Values();
    var d := LittleEndian(m.tag, 2) + rest;
    var c := LittleEndian(m.requestId, 8) + d;
    var b := LittleEndian(m.replyCap, 16) + c;
    Join4Splits(LittleEndian(m.sender, 8), LittleEndian(m.replyCap, 16), LittleEndian(m.requestId, 8),
                LittleEndian(m.tag, 2), rest);
    ReadWrittenUint(m.sender, 8, b);
    ReadWrittenUint(m.replyCap, 16, c);
    ReadWrittenUint(m.requestId, 8, d);
    ReadWrittenUint(m.tag, 2, rest);
  }

  // The trust gate of the reader, as one condition on the whole value.
  predicate Passes(first: Option<ConstantKind>, trust: TrustLevel) {
    trust.AllowsAuthorityConstants() || first.None?
  }

  // The first error met in reading order: a tag the header version does not
  // have, or a constant the trust level does not admit.
  function Refused(v: Value, trust: TrustLevel, abi: nat): (e: Option<FormatError>)
    decreases v, 1
  {
    var open := trust.AllowsAuthorityConstants();
    match v
    case Cap(_) => if open then None else Some(ForbiddenConstant(Capability))
    case Pid(_) => if open then None else Some(ForbiddenConstant(ProcessId))
    case Msg(m) => if open then Refused(m.payload, trust, abi) else Some(ForbiddenConstant(MessageKind))
    case List(items) =>
      if abi < ABI_VERSION_LISTS then Some(UnknownValueTag(9)) else RefusedIn(items, trust, abi)
    case Record(fields) =>
      if abi < ABI_VERSION_RECORDS then Some(UnknownValueTag(11)) else RefusedIn(fields, trust, abi)
    case Map(entries) =>
      if abi < ABI_VERSION_MAPS then Some(UnknownValueTag(10)) else RefusedOf(entries, trust, abi)
    case _ => None
  }

  function RefusedIn(items: seq<Value>, trust: TrustLevel, abi: nat): (e: Option<FormatError>)
    decreases items, 0
  {
    if items == [] then None
    else
      var first := Refused(items[0], trust, abi);
      if first.Some? then first else RefusedIn(items[1..], trust, abi)
  }

  function RefusedOf(entries: seq<Entry>, trust: TrustLevel, abi: nat): (e: Option<FormatError>)
    decreases entries, 0
  {
    if entries == [] then None
    else
      var value := entries[0].value;
      assert value < entries[0];
      var first := Refused(value, trust, abi);
      if first.Some? then first else RefusedOf(entries[1..], trust, abi)
  }

  // Nothing is refused exactly when the version has every tag and the trust
  // level admits every constant; if only the trust level objects, the error
  // names the first constant it objects to.
  ghost predicate Decides(
    refused: Option<FormatError>, representable: bool, first: Option<ConstantKind>, trust: TrustLevel)
  {
    && (refused.None? <==> representable && Passes(first, trust))
    && (representable && !Passes(first, trust) ==> refused == Some(ForbiddenConstant(first.value)))
  }

  lemma {:induction false} RefusedDecides(v: Value, trust: TrustLevel, abi: nat)
    ensures Decides(Refused(v, trust, abi), Representable(v, abi), FirstAuthority(v), trust)
    decreases v, 1
  {
    match v
    case Msg(m) => RefusedDecides(m.payload, trust, abi);
    case List(items) => RefusedInDecides(items, trust, abi);
    case Record(fields) => RefusedInDecides(fields, trust, abi);
    case Map(entries) => RefusedOfDecides(entries, trust, abi);
    case _ =>
  }

  lemma {:induction false} RefusedInDecides(items: seq<Value>, trust: TrustLevel, abi: nat)
    ensures Decides(RefusedIn(items, trust, abi), ItemsRepresentable(items, abi), FirstAuthorityIn(items), trust)
    decreases items, 0
  {
    if items != [] {
      RefusedDecides(items[0], trust, abi);
      RefusedInDecides(items[1..], trust, abi);
    }
  }

  lemma {:induction false} RefusedOfDecides(entries: seq<Entry>, trust: TrustLevel, abi: nat)
    ensures
      Decides(RefusedOf(entries, trust, abi), EntriesRepresentable(entries, abi), FirstAuthorityOf(entries), trust)
    decreases entries, 0
  {
    if entries != [] {
      var value := entries[0].value;
      assert value < entries[0];
      RefusedDecides(value, trust, abi);
      RefusedOfDecides(entries[1..], trust, abi);
    }
  }

  // What reading back must give: the value, or the first refusal.
  ghost predicate ReadsBack<T(!new)>(
    r: Result<Parsed<T>, FormatError>, v: T, rest: Bytes, refused: Option<FormatError>)
  {
    r == if refused.None? then Ok(Parsed(v, rest)) else Err(refused.value)
  }

  lemma {:induction false} ReadWrittenScalar(v: Value, rest: Bytes, trust: TrustLevel, depth: nat, abi: nat)
    requires depth <= MAX_VALUE_DEPTH
    requires v.Unit? || v.Bool? || v.Int? || v.Float?
    ensures ReadValue(WriteValue(v) + rest, trust, depth, abi) == Ok(Parsed(v, rest))
  {
    Tagged(WriteValue(v)[0], WriteValue(v)[1..], rest);
    Pow256Values();
    match v
    case Int(i) => ReadWrittenI64(i, rest);
    case Float(bits) => ReadWrittenUint(bits, 8, rest);
    case _ =>
  }

  lemma {:induction false} ReadWrittenToken(v: Value, rest: Bytes, trust: TrustLevel, depth: nat, abi: nat)
    requires depth <= MAX_VALUE_DEPTH
    requires v.Pid? || v.Cap?
    ensures ReadsBack(ReadValue(WriteValue(v) + rest, trust, depth, abi), v, rest, Refused(v, trust, abi))
  {
    Tagged(WriteValue(v)[0], WriteValue(v)[1..], rest);
    Pow256Values();
    if v.Pid? { ReadWrittenUint(v.flow, 8, rest); } else { ReadWrittenUint(v.id, 16, rest); }
  }

  lemma {:induction false} ReadWrittenStr(text: string, rest: Bytes, trust: TrustLevel, depth: nat, abi: nat)
    requires Fits(Str(text), depth)
    ensures ReadValue(WriteValue(Str(text)) + rest, trust, depth, abi) == Ok(Parsed(Str(text), rest))
  {
    ReadWrittenText(text, "str", rest);
    StrBody(WriteBlob(Utf8.Encode(text)), text, rest, trust, depth, abi);
  }

  lemma {:induction false} StrBody(
    body: Bytes, text: string, rest: Bytes, trust: TrustLevel, depth: nat, abi: nat)
    requires depth <= MAX_VALUE_DEPTH && ReadText(body + rest, "str") == Ok(Parsed(text, rest))
    ensures ReadValue([7] + body + rest, trust, depth, abi) == Ok(Parsed(Str(text), rest))
  {
    Tagged(7, body, rest);
  }

  lemma {:induction false} ReadWrittenBytes(data: Bytes, rest: Bytes, trust: TrustLevel, depth: nat, abi: nat)
    requires Fits(Blob(data), depth)
    ensures ReadValue(WriteValue(Blob(data)) + rest, trust, depth, abi) == Ok(Parsed(Blob(data), rest))
  {
    ReadWrittenBlob(data, "bytes", rest);
    BlobBody(WriteBlob(data), data, rest, trust, depth, abi);
  }

  lemma {:induction false} BlobBody(
    body: Bytes, data: Bytes, rest: Bytes, trust: TrustLevel, depth: nat, abi: nat)
    requires depth <= MAX_VALUE_DEPTH && ReadBlob(body + rest, "bytes") == Ok(Parsed(data, rest))
    ensures ReadValue([8] + body + rest, trust, depth, abi) == Ok(Parsed(Blob(data), rest))
  {
    Tagged(8, body, rest);
  }

  lemma {:induction false} Tagged(tag: U8, body: Bytes, rest: Bytes)
    ensures ([tag] + body) + rest == [tag] + (body + rest)
    ensures (([tag] + body) + rest)[0] == tag && (([tag] + body) + rest)[1..] == body + rest
  {
  }

  // The value in front of `rest` reads back as itself, or the reader stops at the
  // first thing the header version or the trust level does not admit.
  lemma {:induction false} ReadWritten(v: Value, rest: Bytes, trust: TrustLevel, depth: nat, abi: nat)
    requires Fits(v, depth)
    ensures ReadsBack(ReadValue(WriteValue(v) + rest, trust, depth, abi), v, rest, Refused(v, trust, abi))
    decreases v, 1
  {
    match v
    case Str(text) => ReadWrittenStr(text, rest, trust, depth, abi);
    case Blob(data) => ReadWrittenBytes(data, rest, trust, depth, abi);
    case Msg(m) => DispatchMsg(m, rest, trust, depth, abi); ReadWrittenMsg(m, rest, trust, depth, abi);
    case List(items) => DispatchList(items, rest, trust, depth, abi); ReadWrittenList(items, rest, trust, depth, abi);
    case Record(fields) =>
      DispatchRecord(fields, rest, trust, depth, abi);
      ReadWrittenRecord(fields, rest, trust, depth, abi);
    case Map(entries) =>
      DispatchMap(entries, rest, trust, depth, abi);
      ReadWrittenMap(entries, rest, trust, depth, abi);
    case Pid(_) => ReadWrittenToken(v, rest, trust, depth, abi);
    case Cap(_) => ReadWrittenToken(v, rest, trust, depth, abi);
    case _ => ReadWrittenScalar(v, rest, trust, depth, abi);
  }

  lemma {:induction false} DispatchMsg(m: Message, rest: Bytes, trust: TrustLevel, depth: nat, abi: nat)
    requires depth <= MAX_VALUE_DEPTH
    ensures ReadValue(WriteValue(Msg(m)) + rest, trust, depth, abi)
         == if trust.AllowsAuthorityConstants() then
              ReadMsg(WriteEnvelope(m) + WriteValue(m.payload) + rest, trust, depth, abi)
            else Err(ForbiddenConstant(MessageKind))
  {
    Tagged(5, WriteEnvelope(m) + WriteValue(m.payload), rest);
  }

  lemma {:induction false} DispatchList(items: seq<Value>, rest: Bytes, trust: TrustLevel, depth: nat, abi: nat)
    requires depth <= MAX_VALUE_DEPTH
    ensures ReadValue(WriteValue(List(items)) + rest, trust, depth, abi)
         == if abi < ABI_VERSION_LISTS then Err(UnknownValueTag(9))
            else ReadList(LittleEndian(|items|, 4) + WriteItems(items) + rest, trust, depth, abi)
  {
    Tagged(9, LittleEndian(|items|, 4) + WriteItems(items), rest);
  }

  lemma {:induction false} DispatchRecord(fields: seq<Value>, rest: Bytes, trust: TrustLevel, depth: nat, abi: nat)
    requires depth <= MAX_VALUE_DEPTH
    ensures ReadValue(WriteValue(Record(fields)) + rest, trust, depth, abi)
         == if abi < ABI_VERSION_RECORDS then Err(UnknownValueTag(11))
            else ReadRecord(LittleEndian(|fields|, 4) + WriteItems(fields) + rest, trust, depth, abi)
  {
    Tagged(11, LittleEndian(|fields|, 4) + WriteItems(fields), rest);
  }

  lemma {:induction false} DispatchMap(entries: seq<Entry>, rest: Bytes, trust: TrustLevel, depth: nat, abi: nat)
    requires depth <= MAX_VALUE_DEPTH
    ensures ReadValue(WriteValue(Map(entries)) + rest, trust, depth, abi)
         == if abi < ABI_VERSION_MAPS then Err(UnknownValueTag(10))
            else ReadMap(LittleEndian(|entries|, 4) + WriteEntries(entries) + rest, trust, depth, abi)
  {
    Tagged(10, LittleEndian(|entries|, 4) + WriteEntries(entries), rest);
  }

  lemma {:induction false} ReadWrittenMsg(m: Message, rest: Bytes, trust: TrustLevel, depth: nat, abi: nat)
    requires Fits(Msg(m), depth)
    ensures ReadsBack(ReadMsg(WriteEnvelope(m) + WriteValue(m.payload) + rest, trust, depth, abi), Msg(m), rest,
                      Refused(m.payload, trust, abi))
    decreases m
  {
    var tail := WriteValue(m.payload) + rest;
    ReadWritten(m.payload, rest, trust, depth + 1, abi);
    ReadWrittenEnvelope(m, tail);
    CatAssoc(WriteEnvelope(m), WriteValue(m.payload), rest);
  }

  lemma {:induction false} ReadWrittenList(items: seq<Value>, rest: Bytes, trust: TrustLevel, depth: nat, abi: nat)
    requires Fits(List(items), depth)
    ensures ReadsBack(ReadList(LittleEndian(|items|, 4) + WriteItems(items) + rest, trust, depth, abi),
                      List(items), rest, RefusedIn(items, trust, abi))
    decreases items, 2
  {
    var tail := WriteItems(items) + rest;
    ReadWrittenItems(items, rest, trust, depth + 1, abi);
    ReadWrittenCount(|items|, MAX_LIST_LEN, "list", tail);
    WalkShallower(List(items), depth, 0);
    CatAssoc(LittleEndian(|items|, 4), WriteItems(items), rest);
  }

  lemma {:induction false} ReadWrittenRecord(fields: seq<Value>, rest: Bytes, trust: TrustLevel, depth: nat, abi: nat)
    requires Fits(Record(fields), depth)
    ensures ReadsBack(ReadRecord(LittleEndian(|fields|, 4) + WriteItems(fields) + rest, trust, depth, abi),
                      Record(fields), rest, RefusedIn(fields, trust, abi))
    decreases fields, 2
  {
    var tail := WriteItems(fields) + rest;
    ReadWrittenItems(fields, rest, trust, depth + 1, abi);
    ReadWrittenCount(|fields|, MAX_RECORD_LEN, "record", tail);
    WalkShallower(Record(fields), depth, 0);
    CatAssoc(LittleEndian(|fields|, 4), WriteItems(fields), rest);
  }

  lemma {:induction false} ReadWrittenMap(entries: seq<Entry>, rest: Bytes, trust: TrustLevel, depth: nat, abi: nat)
    requires Fits(Map(entries), depth)
    ensures ReadsBack(ReadMap(LittleEndian(|entries|, 4) + WriteEntries(entries) + rest, trust, depth, abi),
                      Map(entries), rest, RefusedOf(entries, trust, abi))
    decreases entries, 2
  {
    var tail := WriteEntries(entries) + rest;
    ReadWrittenEntries(entries, rest, trust, depth + 1, abi);
    ReadWrittenCount(|entries|, MAX_MAP_LEN, "map", tail);
    WalkShallower(Map(entries), depth, 0);
    CatAssoc(LittleEndian(|entries|, 4), WriteEntries(entries), rest);
  }

  lemma {:induction false} ReadWrittenItems(items: seq<Value>, rest: Bytes, trust: TrustLevel, depth: nat, abi: nat)
    requires forall i | 0 <= i < |items| :: Fits(items[i], depth)
    ensures ReadsBack(ReadItems(WriteItems(items) + rest, |items|, trust, depth, abi), items, rest,
                      RefusedIn(items, trust, abi))
    decreases items, 1
  {
    if items == [] {
      assert WriteItems(items) + rest == rest;
    } else {
      var tail := WriteItems(items[1..]) + rest;
      CatAssoc(WriteValue(items[0]), WriteItems(items[1..]), rest);
      ReadWritten(items[0], tail, trust, depth, abi);
      ReadWrittenItems(items[1..], rest, trust, depth, abi);
      ConsHead(items);
    }
  }

  lemma {:induction false} ReadWrittenEntries(entries: seq<Entry>, rest: Bytes, trust: TrustLevel, depth: nat, abi: nat)
    requires forall i | 0 <= i < |entries| :: KeyFits(entries[i].key) && Fits(entries[i].value, depth)
    ensures ReadsBack(ReadEntries(WriteEntries(entries) + rest, |entries|, trust, depth, abi), entries, rest,
                      RefusedOf(entries, trust, abi))
    decreases entries, 1
  {
    if entries == [] {
      assert WriteEntries(entries) + rest == rest;
    } else {
      var tail := WriteEntries(entries[1..]) + rest;
      CatAssoc(WriteEntry(entries[0]), WriteEntries(entries[1..]), rest);
      ReadWrittenEntry(entries[0], tail, trust, depth, abi);
      ReadWrittenEntries(entries[1..], rest, trust, depth, abi);
      ConsHead(entries);
    }
  }

  lemma {:induction false} ReadWrittenEntry(e: Entry, rest: Bytes, trust: TrustLevel, depth: nat, abi: nat)
    requires KeyFits(e.key) && Fits(e.value, depth)
    ensures ReadsBack(ReadEntry(WriteEntry(e) + rest, trust, depth, abi), e, rest,
                      Refused(e.value, trust, abi))
    decreases e
  {
    var tail := WriteValue(e.value) + rest;
    CatAssoc(WriteKey(e.key), WriteValue(e.value), rest);
    ReadWrittenKey(e.key, tail);
    ReadWritten(e.value, rest, trust, depth, abi);
  }

  // ------------------------------------------------------------ encode(decode)

  lemma {:induction false} ReadI64IsCanonical(bs: Bytes)
    requires 8 <= |bs|
    ensures var Parsed(i, rest) := ReadI64(bs).value; bs == WriteI64(i) + rest
  {
    Pow256Values();
    ReadUintIsCanonical(bs, 8);
  }

  lemma {:induction false} ReadCountIsCanonical(bs: Bytes, max: nat, what: string)
    requires ReadCount(bs, max, what).Ok?
    ensures var Parsed(n, rest) := ReadCount(bs, max, what).value; n <= max && bs == LittleEndian(n, 4) + rest
  {
    ReadUintIsCanonical(bs, 4);
  }

  lemma {:induction false} ReadBlobIsCanonical(bs: Bytes, what: string)
    requires ReadBlob(bs, what).Ok?
    ensures var Parsed(data, rest) := ReadBlob(bs, what).value; |data| <= MAX_BLOB && bs == WriteBlob(data) + rest
  {
    ReadCountIsCanonical(bs, MAX_BLOB, what);
    var Parsed(len, r1) := ReadCount(bs, MAX_BLOB, what).value;
    assert r1 == r1[..len] + r1[len..];
  }

  lemma {:induction false} ReadTextIsCanonical(bs: Bytes, what: string)
    requires ReadText(bs, what).Ok?
    ensures
      var Parsed(text, rest) := ReadText(bs, what).value;
      Utf8.ByteLen(text) <= MAX_BLOB && bs == WriteBlob(Utf8.Encode(text)) + rest
  {
    ReadBlobIsCanonical(bs, what);
    Utf8.EncodeUndoesDecode(ReadBlob(bs, what).value.value);
  }

  lemma {:induction false} ReadKeyIsCanonical(bs: Bytes)
    requires ReadKey(bs).Ok?
    ensures var Parsed(key, rest) := ReadKey(bs).value; KeyFits(key) && bs == WriteKey(key) + rest
  {
    ConsHead(bs);
    if bs[0] == 0 { ReadI64IsCanonical(bs[1..]); } else { ReadTextIsCanonical(bs[1..], "map key"); }
  }

  lemma {:induction false} ReadEnvelopeIsCanonical(bs: Bytes, payload: Value)
    requires 34 <= |bs|
    ensures
      var Parsed(e, rest) := ReadEnvelope(bs).value;
      bs == WriteEnvelope(Message(e.sender, e.replyCap, e.requestId, e.tag, payload)) + rest
  {
    Pow256Values();
    var Parsed(e, r4) := ReadEnvelope(bs).value;
    var r1 := ReadUint(bs, 8).value.rest;
    var r2 := ReadUint(r1, 16).value.rest;
    var r3 := ReadUint(r2, 8).value.rest;
    ReadUintIsCanonical(bs, 8);
    ReadUintIsCanonical(r1, 16);
    ReadUintIsCanonical(r2, 8);
    ReadUintIsCanonical(r3, 2);
    Join4Splits(LittleEndian(e.sender, 8), LittleEndian(e.replyCap, 16), LittleEndian(e.requestId, 8),
                LittleEndian(e.tag, 2), r4);
  }

  // What an accepted read says about the bytes it consumed and the value.
  ghost predicate Canonical(bs: Bytes, v: Value, rest: Bytes, trust: TrustLevel, depth: nat, abi: nat) {
    bs == WriteValue(v) + rest && Fits(v, depth) && Representable(v, abi) && Passes(FirstAuthority(v), trust)
  }

  ghost predicate CanonicalItems(bs: Bytes, items: seq<Value>, rest: Bytes, trust: TrustLevel, depth: nat, abi: nat) {
    && bs == WriteItems(items) + rest
    && (forall i | 0 <= i < |items| :: Fits(items[i], depth))
    && ItemsRepresentable(items, abi)
    && Passes(FirstAuthorityIn(items), trust)
  }

  ghost predicate CanonicalEntries(
    bs: Bytes, entries: seq<Entry>, rest: Bytes, trust: TrustLevel, depth: nat, abi: nat)
  {
    && bs == WriteEntries(entries) + rest
    && (forall i | 0 <= i < |entries| :: KeyFits(entries[i].key) && Fits(entries[i].value, depth))
    && EntriesRepresentable(entries, abi)
    && Passes(FirstAuthorityOf(entries), trust)
  }

  // Every byte string `read_value` accepts is the one `write_value` produces
  // for what it returned, and what it returned respects every limit.
  lemma {:induction false} ReadIsCanonical(bs: Bytes, trust: TrustLevel, depth: nat, abi: nat)
    requires ReadValue(bs, trust, depth, abi).Ok?
    ensures
      var Parsed(v, rest) := ReadValue(bs, trust, depth, abi).value;
      Canonical(bs, v, rest, trust, depth, abi)
    decreases |bs|, 0
  {
    var body := bs[1..];
    ConsHead(bs);
    var Parsed(v, rest) := ReadValue(bs, trust, depth, abi).value;
    CatAssoc([bs[0]], WriteValue(v)[1..], rest);
    match bs[0]
    case 5 => ReadMsgIsCanonical(body, trust, depth, abi);
    case 7 => ReadStrIsCanonical(bs, trust, depth, abi);
    case 8 => ReadBytesIsCanonical(bs, trust, depth, abi);
    case 9 => ReadListIsCanonical(body, trust, depth, abi);
    case 10 => ReadMapIsCanonical(body, trust, depth, abi);
    case 11 => ReadRecordIsCanonical(body, trust, depth, abi);
    case _ => ReadLeafIsCanonical(bs, trust, depth, abi);
  }

  lemma {:induction false} ReadLeafIsCanonical(bs: Bytes, trust: TrustLevel, depth: nat, abi: nat)
    requires ReadValue(bs, trust, depth, abi).Ok?
    requires bs[0] in {0, 1, 2, 3, 4, 6}
    ensures
      var Parsed(v, rest) := ReadValue(bs, trust, depth, abi).value;
      Canonical(bs, v, rest, trust, depth, abi)
  {
    match bs[0]
    case 1 => ReadBoolIsCanonical(bs, trust, depth, abi);
    case 2 => ReadIntIsCanonical(bs, trust, depth, abi);
    case 3 => ReadFloatIsCanonical(bs, trust, depth, abi);
    case 4 => ReadPidIsCanonical(bs, trust, depth, abi);
    case 6 => ReadCapIsCanonical(bs, trust, depth, abi);
    case _ => ConsHead(bs);
  }

  lemma {:induction false} ReadBoolIsCanonical(bs: Bytes, trust: TrustLevel, depth: nat, abi: nat)
    requires ReadValue(bs, trust, depth, abi).Ok?
    requires bs[0] == 1
    ensures
      var Parsed(v, rest) := ReadValue(bs, trust, depth, abi).value;
      Canonical(bs, v, rest, trust, depth, abi)
  {
    ConsHead(bs);
    assert bs == [1, bs[1]] + bs[2..];
  }

  lemma {:induction false} ReadIntIsCanonical(bs: Bytes, trust: TrustLevel, depth: nat, abi: nat)
    requires ReadValue(bs, trust, depth, abi).Ok?
    requires bs[0] == 2
    ensures
      var Parsed(v, rest) := ReadValue(bs, trust, depth, abi).value;
      Canonical(bs, v, rest, trust, depth, abi)
  {
    ConsHead(bs);
    ReadI64IsCanonical(bs[1..]);
  }

  lemma {:induction false} ReadFloatIsCanonical(bs: Bytes, trust: TrustLevel, depth: nat, abi: nat)
    requires ReadValue(bs, trust, depth, abi).Ok?
    requires bs[0] == 3
    ensures
      var Parsed(v, rest) := ReadValue(bs, trust, depth, abi).value;
      Canonical(bs, v, rest, trust, depth, abi)
  {
    ConsHead(bs);
    ReadUintIsCanonical(bs[1..], 8);
  }

  lemma {:induction false} ReadPidIsCanonical(bs: Bytes, trust: TrustLevel, depth: nat, abi: nat)
    requires ReadValue(bs, trust, depth, abi).Ok?
    requires bs[0] == 4
    ensures
      var Parsed(v, rest) := ReadValue(bs, trust, depth, abi).value;
      Canonical(bs, v, rest, trust, depth, abi)
  {
    ConsHead(bs);
    ReadUintIsCanonical(bs[1..], 8);
  }

  lemma {:induction false} ReadCapIsCanonical(bs: Bytes, trust: TrustLevel, depth: nat, abi: nat)
    requires ReadValue(bs, trust, depth, abi).Ok?
    requires bs[0] == 6
    ensures
      var Parsed(v, rest) := ReadValue(bs, trust, depth, abi).value;
      Canonical(bs, v, rest, trust, depth, abi)
  {
    ConsHead(bs);
    ReadUintIsCanonical(bs[1..], 16);
  }

  lemma {:induction false} ReadStrIsCanonical(bs: Bytes, trust: TrustLevel, depth: nat, abi: nat)
    requires ReadValue(bs, trust, depth, abi).Ok?
    requires bs[0] == 7
    ensures
      var Parsed(v, rest) := ReadValue(bs, trust, depth, abi).value;
      Canonical(bs, v, rest, trust, depth, abi)
  {
    ConsHead(bs);
    ReadTextIsCanonical(bs[1..], "str");
  }

  lemma {:induction false} ReadBytesIsCanonical(bs: Bytes, trust: TrustLevel, depth: nat, abi: nat)
    requires ReadValue(bs, trust, depth, abi).Ok?
    requires bs[0] == 8
    ensures
      var Parsed(v, rest) := ReadValue(bs, trust, depth, abi).value;
      Canonical(bs, v, rest, trust, depth, abi)
  {
    ConsHead(bs);
    ReadBlobIsCanonical(bs[1..], "bytes");
  }

  lemma {:induction false} ReadMsgIsCanonical(bs: Bytes, trust: TrustLevel, depth: nat, abi: nat)
    requires ReadMsg(bs, trust, depth, abi).Ok? && depth <= MAX_VALUE_DEPTH
    ensures
      var Parsed(v, rest) := ReadMsg(bs, trust, depth, abi).value;
      && v.Msg? && Fits(v, depth) && Representable(v, abi)
      && bs == WriteEnvelope(v.message) + WriteValue(v.message.payload) + rest
    decreases |bs|, 2
  {
    var Parsed(v, rest) := ReadMsg(bs, trust, depth, abi).value;
    var r1 := ReadEnvelope(bs).value.rest;
    ReadEnvelopeIsCanonical(bs, v.message.payload);
    ReadIsCanonical(r1, trust, depth + 1, abi);
    CatAssoc(WriteEnvelope(v.message), WriteValue(v.message.payload), rest);
  }

  lemma {:induction false} ReadListIsCanonical(bs: Bytes, trust: TrustLevel, depth: nat, abi: nat)
    requires ReadList(bs, trust, depth, abi).Ok? && depth <= MAX_VALUE_DEPTH
    ensures
      var Parsed(v, rest) := ReadList(bs, trust, depth, abi).value;
      && v.List? && Fits(v, depth) && ItemsRepresentable(v.items, abi) && Passes(FirstAuthorityIn(v.items), trust)
      && bs == LittleEndian(|v.items|, 4) + WriteItems(v.items) + rest
    decreases |bs|, 2
  {
    var Parsed(v, rest) := ReadList(bs, trust, depth, abi).value;
    var r1 := ReadCount(bs, MAX_LIST_LEN, "list").value.rest;
    ReadCountIsCanonical(bs, MAX_LIST_LEN, "list");
    ReadItemsIsCanonical(r1, |v.items|, trust, depth + 1, abi);
    CatAssoc(LittleEndian(|v.items|, 4), WriteItems(v.items), rest);
  }

  lemma {:induction false} ReadRecordIsCanonical(bs: Bytes, trust: TrustLevel, depth: nat, abi: nat)
    requires ReadRecord(bs, trust, depth, abi).Ok? && depth <= MAX_VALUE_DEPTH
    ensures
      var Parsed(v, rest) := ReadRecord(bs, trust, depth, abi).value;
      && v.Record? && Fits(v, depth) && ItemsRepresentable(v.fields, abi) && Passes(FirstAuthorityIn(v.fields), trust)
      && bs == LittleEndian(|v.fields|, 4) + WriteItems(v.fields) + rest
    decreases |bs|, 2
  {
    var Parsed(v, rest) := ReadRecord(bs, trust, depth, abi).value;
    var r1 := ReadCount(bs, MAX_RECORD_LEN, "record").value.rest;
    ReadCountIsCanonical(bs, MAX_RECORD_LEN, "record");
    ReadItemsIsCanonical(r1, |v.fields|, trust, depth + 1, abi);
    CatAssoc(LittleEndian(|v.fields|, 4), WriteItems(v.fields), rest);
  }

  lemma {:induction false} ReadMapIsCanonical(bs: Bytes, trust: TrustLevel, depth: nat, abi: nat)
    requires ReadMap(bs, trust, depth, abi).Ok? && depth <= MAX_VALUE_DEPTH
    ensures
      var Parsed(v, rest) := ReadMap(bs, trust, depth, abi).value;
      && v.Map? && Fits(v, depth) && EntriesRepresentable(v.entries, abi) && Passes(FirstAuthorityOf(v.entries), trust)
      && bs == LittleEndian(|v.entries|, 4) + WriteEntries(v.entries) + rest
    decreases |bs|, 2
  {
    var Parsed(v, rest) := ReadMap(bs, trust, depth, abi).value;
    var r1 := ReadCount(bs, MAX_MAP_LEN, "map").value.rest;
    ReadCountIsCanonical(bs, MAX_MAP_LEN, "map");
    ReadEntriesIsCanonical(r1, |v.entries|, trust, depth + 1, abi);
    CatAssoc(LittleEndian(|v.entries|, 4), WriteEntries(v.entries), rest);
  }

  lemma {:induction false} ReadItemsIsCanonical(bs: Bytes, n: nat, trust: TrustLevel, depth: nat, abi: nat)
    requires ReadItems(bs, n, trust, depth, abi).Ok?
    ensures
      var Parsed(items, rest) := ReadItems(bs, n, trust, depth, abi).value;
      CanonicalItems(bs, items, rest, trust, depth, abi)
    decreases |bs|, 1
  {
    if n > 0 {
      var Parsed(items, rest) := ReadItems(bs, n, trust, depth, abi).value;
      var r1 := ReadValue(bs, trust, depth, abi).value.rest;
      ReadIsCanonical(bs, trust, depth, abi);
      ReadItemsIsCanonical(r1, n - 1, trust, depth, abi);
      ConsHead(items);
      CatAssoc(WriteValue(items[0]), WriteItems(items[1..]), rest);
    }
  }

  lemma {:induction false} CanonicalCons(
    e: Entry, entries: seq<Entry>, r1: Bytes, rest: Bytes, trust: TrustLevel, depth: nat, abi: nat)
    requires KeyFits(e.key) && Fits(e.value, depth)
    requires Representable(e.value, abi) && Passes(FirstAuthority(e.value), trust)
    requires CanonicalEntries(r1, entries, rest, trust, depth, abi)
    ensures CanonicalEntries(WriteEntry(e) + r1, [e] + entries, rest, trust, depth, abi)
  {
    CatAssoc(WriteEntry(e), WriteEntries(entries), rest);
  }

  lemma {:induction false} ReadEntriesIsCanonical(bs: Bytes, n: nat, trust: TrustLevel, depth: nat, abi: nat)
    requires ReadEntries(bs, n, trust, depth, abi).Ok?
    ensures
      var Parsed(entries, rest) := ReadEntries(bs, n, trust, depth, abi).value;
      CanonicalEntries(bs, entries, rest, trust, depth, abi)
    decreases |bs|, 1
  {
    if n > 0 {
      var Parsed(e, r1) := ReadEntry(bs, trust, depth, abi).value;
      var Parsed(tail, rest) := ReadEntries(r1, n - 1, trust, depth, abi).value;
      assert ReadEntries(bs, n, trust, depth, abi) == Ok(Parsed([e] + tail, rest));
      ReadEntryIsCanonical(bs, trust, depth, abi);
      assert CanonicalEntries(r1, tail, rest, trust, depth, abi) by {
        ReadEntriesIsCanonical(r1, n - 1, trust, depth, abi);
      }
      assert CanonicalEntries(bs, [e] + tail, rest, trust, depth, abi) by {
        CanonicalCons(e, tail, r1, rest, trust, depth, abi);
      }
    }
  }

  lemma {:induction false} ReadEntryIsCanonical(bs: Bytes, trust: TrustLevel, depth: nat, abi: nat)
    requires ReadEntry(bs, trust, depth, abi).Ok?
    ensures
      var Parsed(e, rest) := ReadEntry(bs, trust, depth, abi).value;
      && KeyFits(e.key) && Fits(e.value, depth) && Representable(e.value, abi) && Passes(FirstAuthority(e.value), trust)
      && bs == WriteEntry(e) + rest
    decreases |bs|, 0
  {
    var Parsed(key, r1) := ReadKey(bs).value;
    var Parsed(value, rest) := ReadValue(r1, trust, depth, abi).value;
    ReadKeyIsCanonical(bs);
    ReadIsCanonical(r1, trust, depth, abi);
    CatAssoc(WriteKey(key), WriteValue(value), rest);
  }
}
