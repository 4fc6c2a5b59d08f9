/**
 Remote hop frames (byteflow/src/scheduler/distribution.rs): the screening that
 keeps local capabilities on the node, and the frame layout around one message.
 */
module Frames {
  import opened Common
  import opened Values
  import opened Trust
  import opened Wire
  import opened Codec
  import Utf8

  const FRAME_MAGIC: Bytes := [66, 70, 72, 49]
  const FRAME_VERSION: U8 := 1
  const MAX_FRAME_NAME := 256

  datatype FrameError =
    | BadMagic | Truncated | BadVersion | BadUtf8 | LiveCapability | SenderZero | SenderMismatch | Name | Unsupported

  datatype Hop = Hop(sender: U64, node: U64, name: string, message: Message)

  // -------------------------------------------------------------- screening

  // `screen_message` and `screen_value`: the refusal, if any.
  function ScreenMessage(m: Message, depth: nat): (refused: Option<FrameError>)
    decreases m, 2
  {
    if depth > MAX_VALUE_DEPTH then Some(Unsupported)
    else if m.replyCap != CAP_NONE then Some(LiveCapability)
    else ScreenValue(m.payload, depth + 1)
  }

  function ScreenValue(v: Value, depth: nat): (refused: Option<FrameError>)
    decreases v, 1
  {
    if depth > MAX_VALUE_DEPTH then Some(Unsupported)
    else match v
      case Pid(_) => Some(LiveCapability)
      case Cap(_) => Some(LiveCapability)
      case Msg(m) => ScreenMessage(m, depth)
      case List(items) => if |items| > MAX_LIST_LEN then Some(Unsupported) else ScreenItems(items, depth + 1)
      case Record(fields) => if |fields| > MAX_RECORD_LEN then Some(Unsupported) else ScreenItems(fields, depth + 1)
      case Map(entries) => if |entries| > MAX_MAP_LEN then Some(Unsupported) else ScreenEntries(entries, depth + 1)
      case _ => None
  }

  function ScreenItems(items: seq<Value>, depth: nat): (refused: Option<FrameError>)
    decreases items, 0
  {
    if items == [] then None
    else if ScreenValue(items[0], depth).Some? then ScreenValue(items[0], depth)
    else ScreenItems(items[1..], depth)
  }

  function ScreenEntries(entries: seq<Entry>, depth: nat): (refused: Option<FrameError>)
    decreases entries, 0
  {
    if entries == [] then None
    else
      var value := entries[0].value;
      assert value < entries[0];
      if ScreenValue(value, depth).Some? then ScreenValue(value, depth) else ScreenEntries(entries[1..], depth)
  }

  // No part of the tree names anything on this node: no `Cap`, no `Pid`, no
  // reply capability in any envelope.
  predicate Portable(v: Value)
    decreases v
  {
    match v
    case Pid(_) => false
    case Cap(_) => false
    case Msg(m) => m.replyCap == CAP_NONE && Portable(m.payload)
    case List(items) => forall i | 0 <= i < |items| :: Portable(items[i])
    case Record(fields) => forall i | 0 <= i < |fields| :: Portable(fields[i])
    case Map(entries) => forall i | 0 <= i < |entries| :: Portable(entries[i].value)
    case _ => true
  }

  // Every container in the tree is within its length cap.
  predicate Short(v: Value)
    decreases v
  {
    match v
    case Msg(m) => Short(m.payload)
    case List(items) => |items| <= MAX_LIST_LEN && forall i | 0 <= i < |items| :: Short(items[i])
    case Record(fields) => |fields| <= MAX_RECORD_LEN && forall i | 0 <= i < |fields| :: Short(fields[i])
    case Map(entries) => |entries| <= MAX_MAP_LEN && forall i | 0 <= i < |entries| :: Short(entries[i].value)
    case _ => true
  }

  // No map in the tree repeats a key.
  predicate KeysDistinct(v: Value)
    decreases v
  {
    match v
    case Msg(m) => KeysDistinct(m.payload)
    case List(items) => forall i | 0 <= i < |items| :: KeysDistinct(items[i])
    case Record(fields) => forall i | 0 <= i < |fields| :: KeysDistinct(fields[i])
    case Map(entries) => DistinctKeys(entries) && forall i | 0 <= i < |entries| :: KeysDistinct(entries[i].value)
    case _ => true
  }

  predicate Screened(v: Value, depth: nat) {
    Walk(v, depth) && Short(v) && Portable(v)
  }

  // A value passes the screen exactly when it is shallow, short and portable.
  lemma {:induction false} ScreenDecides(v: Value, depth: nat)
    ensures ScreenValue(v, depth).None? <==> Screened(v, depth)
    decreases v, 1
  {
    match v
    case Msg(m) => ScreenDecides(m.payload, depth + 1);
    case List(items) => ScreenItemsDecides(items, depth + 1);
    case Record(fields) => ScreenItemsDecides(fields, depth + 1);
    case Map(entries) => ScreenEntriesDecides(entries, depth + 1);
    case _ =>
  }

  lemma {:induction false} ScreenItemsDecides(items: seq<Value>, depth: nat)
    ensures ScreenItems(items, depth).None? <==> forall i | 0 <= i < |items| :: Screened(items[i], depth)
    decreases items, 0
  {
    if items != [] {
      ScreenDecides(items[0], depth);
      ScreenItemsDecides(items[1..], depth);
      ConsHead(items);
      assert (forall i | 0 <= i < |items| :: Screened(items[i], depth)) ==>
        forall i | 0 <= i < |items[1..]| :: Screened(items[1..][i], depth);
    }
  }

  lemma {:induction false} ScreenEntriesDecides(entries: seq<Entry>, depth: nat)
    ensures ScreenEntries(entries, depth).None? <==> forall i | 0 <= i < |entries| :: Screened(entries[i].value, depth)
    decreases entries, 0
  {
    if entries != [] {
      var value := entries[0].value;
      assert value < entries[0];
      ScreenDecides(value, depth);
      ScreenEntriesDecides(entries[1..], depth);
      ConsHead(entries);
      assert (forall i | 0 <= i < |entries| :: Screened(entries[i].value, depth)) ==>
        forall i | 0 <= i < |entries[1..]| :: Screened(entries[1..][i].value, depth);
    }
  }

  // The codec's container limits are the screen's length caps plus distinct keys.
  lemma {:induction false} BoundedIsShortAndDistinct(v: Value)
    ensures Bounded(v) <==> Short(v) && KeysDistinct(v)
    decreases v
  {
    match v
    case Msg(m) => BoundedIsShortAndDistinct(m.payload);
    case List(items) => forall i | 0 <= i < |items| { BoundedIsShortAndDistinct(items[i]); }
    case Record(fields) => forall i | 0 <= i < |fields| { BoundedIsShortAndDistinct(fields[i]); }
    case Map(entries) => forall i | 0 <= i < |entries| { BoundedIsShortAndDistinct(entries[i].value); }
    case _ =>
  }

  // ---------------------------------------------------------------- encoding

  function SenderError(messageSender: U64): FrameError {
    if messageSender == 0 then SenderZero else SenderMismatch
  }

  // The bytes of a frame: magic, version, node, name, sender, message.
  function Layout(h: Hop): Bytes {
    FRAME_MAGIC + ([FRAME_VERSION] + (LittleEndian(h.node, 8) + (LittleEndian(Utf8.ByteLen(h.name), 2)
      + (Utf8.Encode(h.name) + (LittleEndian(h.sender, 8) + WriteValue(Msg(h.message)))))))
  }

  // `encode_frame`
  function EncodeFrame(h: Hop): (r: Result<Bytes, FrameError>) {
    if h.sender == 0 then Err(SenderZero)
    else if h.name == "" || Utf8.ByteLen(h.name) > MAX_FRAME_NAME then Err(Name)
    else if h.message.sender != h.sender then Err(SenderError(h.message.sender))
    else if ScreenMessage(h.message, 0).Some? then Err(ScreenMessage(h.message, 0).value)
    else Ok(Layout(h))
  }

  // ---------------------------------------------------------------- decoding

  // `frame_format_error`
  function FromFormat(e: FormatError): FrameError {
    match e
    case Truncated => FrameError.Truncated
    case BadUtf8 => FrameError.BadUtf8
    case UnknownValueTag(tag) => if tag == 4 || tag == 6 then LiveCapability else Unsupported
    case _ => Unsupported
  }

  // The checks after the header: the message must fill the rest of the frame,
  // agree with the header's sender and pass the screen.
  function DecodeMessage(bs: Bytes, sender: U64): (r: Result<Message, FrameError>) {
    match ReadValue(bs, Trusted, 0, ABI_VERSION_RECORDS)
    case Err(e) => Err(FromFormat(e))
    case Ok(Parsed(value, rest)) =>
      if rest != [] || !value.Msg? then Err(Unsupported)
      else if value.message.sender != sender then Err(SenderError(value.message.sender))
      else if ScreenMessage(value.message, 0).Some? then Err(ScreenMessage(value.message, 0).value)
      else Ok(value.message)
  }

  function DecodeSender(bs: Bytes, node: U64, name: string): (r: Result<Hop, FrameError>) {
    if |bs| < 8 then Err(FrameError.Truncated)
    else
      var Parsed(sender, rest) := ReadUint(bs, 8).value;
      Pow256Values();
      if sender == 0 then Err(SenderZero)
      else
        var message :- DecodeMessage(rest, sender);
        Ok(Hop(sender, node, name, message))
  }

  function DecodeName(bs: Bytes, node: U64): (r: Result<Hop, FrameError>) {
    if |bs| < 2 then Err(FrameError.Truncated)
    else
      var Parsed(len, rest) := ReadUint(bs, 2).value;
      if len == 0 || len > MAX_FRAME_NAME then Err(Name)
      else if |rest| < len then Err(FrameError.Truncated)
      else match Utf8.Decode(rest[..len])
        case None => Err(FrameError.BadUtf8)
        case Some(name) => DecodeSender(rest[len..], node, name)
  }

  // `decode_frame`
  function DecodeFrame(bs: Bytes): (r: Result<Hop, FrameError>) {
    if |bs| < 4 then Err(FrameError.Truncated)
    else if bs[..4] != FRAME_MAGIC then Err(FrameError.BadMagic)
    else if |bs| < 5 then Err(FrameError.Truncated)
    else if bs[4] != FRAME_VERSION then Err(BadVersion)
    else if |bs| < 13 then Err(FrameError.Truncated)
    else
      var Parsed(node, rest) := ReadUint(bs[5..], 8).value;
      Pow256Values();
      DecodeName(rest, node)
  }

  // ------------------------------------------------------------- round trips

  // What `decode_frame` enforces and `encode_frame` does not look at.
  predicate Decodable(m: Message) {
    KeysDistinct(m.payload) && BlobsFit(m.payload)
  }

  // A message that passes the screen fits the codec exactly when it is decodable.
  lemma {:induction false} ScreenedMessageFits(m: Message)
    requires ScreenMessage(m, 0).None?
    ensures Fits(Msg(m), 0) <==> Decodable(m)
  {
    ScreenDecides(m.payload, 1);
    BoundedIsShortAndDistinct(m.payload);
  }

  lemma {:induction false} AllRepresentable(v: Value)
    ensures Representable(v, ABI_VERSION_RECORDS)
    decreases v, 1
  {
    match v
    case Msg(m) => AllRepresentable(m.payload);
    case List(items) => AllItemsRepresentable(items);
    case Record(fields) => AllItemsRepresentable(fields);
    case Map(entries) => AllEntriesRepresentable(entries);
    case _ =>
  }

  lemma {:induction false} AllItemsRepresentable(items: seq<Value>)
    ensures ItemsRepresentable(items, ABI_VERSION_RECORDS)
    decreases items, 0
  {
    if items != [] {
      AllRepresentable(items[0]);
      AllItemsRepresentable(items[1..]);
    }
  }

  lemma {:induction false} AllEntriesRepresentable(entries: seq<Entry>)
    ensures EntriesRepresentable(entries, ABI_VERSION_RECORDS)
    decreases entries, 0
  {
    if entries != [] {
      var value := entries[0].value;
      assert value < entries[0];
      AllRepresentable(value);
      AllEntriesRepresentable(entries[1..]);
    }
  }

  lemma {:induction false} DecodeEncodedMessage(m: Message)
    requires ScreenMessage(m, 0).None?
    ensures DecodeMessage(WriteValue(Msg(m)), m.sender) == Ok(m) <==> Decodable(m)
  {
    var bs := WriteValue(Msg(m));
    ScreenedMessageFits(m);
    if Decodable(m) {
      AllRepresentable(Msg(m));
      RefusedDecides(Msg(m), Trusted, ABI_VERSION_RECORDS);
      ReadWritten(Msg(m), [], Trusted, 0, ABI_VERSION_RECORDS);
      assert bs + [] == bs;
    } else if ReadValue(bs, Trusted, 0, ABI_VERSION_RECORDS).Ok? {
      ReadIsCanonical(bs, Trusted, 0, ABI_VERSION_RECORDS);
    }
  }

  lemma {:induction false} DecodeEncodedSender(h: Hop)
    requires EncodeFrame(h).Ok?
    ensures DecodeSender(LittleEndian(h.sender, 8) + WriteValue(Msg(h.message)), h.node, h.name) == Ok(h)
      <==> Decodable(h.message)
  {
    Pow256Values();
    ReadWrittenUint(h.sender, 8, WriteValue(Msg(h.message)));
    DecodeEncodedMessage(h.message);
  }

  lemma {:induction false} DecodeEncodedName(h: Hop)
    requires EncodeFrame(h).Ok?
    ensures
      var tail := LittleEndian(h.sender, 8) + WriteValue(Msg(h.message));
      DecodeName(LittleEndian(Utf8.ByteLen(h.name), 2) + (Utf8.Encode(h.name) + tail), h.node)
      == DecodeSender(tail, h.node, h.name)
  {
    Pow256Values();
    var name := Utf8.Encode(h.name);
    var tail := LittleEndian(h.sender, 8) + WriteValue(Msg(h.message));
    ReadWrittenUint(Utf8.ByteLen(h.name), 2, name + tail);
    assert (name + tail)[..|name|] == name && (name + tail)[|name|..] == tail;
    Utf8.DecodeUndoesEncode(h.name);
  }

  lemma {:induction false} DecodeHeader(node: U64, tail: Bytes)
    ensures DecodeFrame(FRAME_MAGIC + ([FRAME_VERSION] + (LittleEndian(node, 8) + tail))) == DecodeName(tail, node)
  {
    Pow256Values();
    var body := LittleEndian(node, 8) + tail;
    var bs := FRAME_MAGIC + ([FRAME_VERSION] + body);
    assert bs[..4] == FRAME_MAGIC && bs[4] == FRAME_VERSION && bs[5..] == body;
    ReadWrittenUint(node, 8, tail);
  }

  // A frame decodes to the hop it was encoded from exactly when the payload
  // repeats no map key and holds no buffer over the blob limit.
  lemma {:induction false} DecodeUndoesEncode(h: Hop)
    requires EncodeFrame(h).Ok?
    ensures DecodeFrame(EncodeFrame(h).value) == Ok(h) <==> Decodable(h.message)
  {
    var tail := LittleEndian(h.sender, 8) + WriteValue(Msg(h.message));
    var named := LittleEndian(Utf8.ByteLen(h.name), 2) + (Utf8.Encode(h.name) + tail);
    assert DecodeFrame(EncodeFrame(h).value) == DecodeName(named, h.node) by { DecodeHeader(h.node, named); }
    assert DecodeName(named, h.node) == DecodeSender(tail, h.node, h.name) by { DecodeEncodedName(h); }
    DecodeEncodedSender(h);
  }

  lemma {:induction false} DecodeMessageIsCanonical(bs: Bytes, sender: U64)
    requires DecodeMessage(bs, sender).Ok?
    ensures
      var m := DecodeMessage(bs, sender).value;
      bs == WriteValue(Msg(m)) && Decodable(m) && m.sender == sender && ScreenMessage(m, 0).None?
  {
    var m := DecodeMessage(bs, sender).value;
    ReadIsCanonical(bs, Trusted, 0, ABI_VERSION_RECORDS);
    assert WriteValue(Msg(m)) + [] == WriteValue(Msg(m));
    ScreenedMessageFits(m);
  }

  lemma {:induction false} DecodeSenderIsCanonical(bs: Bytes, node: U64, name: string)
    requires DecodeSender(bs, node, name).Ok?
    ensures
      var h := DecodeSender(bs, node, name).value;
      && bs == LittleEndian(h.sender, 8) + WriteValue(Msg(h.message))
      && h.node == node && h.name == name && h.sender != 0 && h.message.sender == h.sender
      && ScreenMessage(h.message, 0).None? && Decodable(h.message)
  {
    ReadUintIsCanonical(bs, 8);
    var Parsed(sender, rest) := ReadUint(bs, 8).value;
    DecodeMessageIsCanonical(rest, sender);
  }

  // The text of a name field and the bytes after it.
  lemma {:induction false} SplitName(bs: Bytes, node: U64) returns (name: string, tail: Bytes)
    requires DecodeName(bs, node).Ok?
    ensures bs == LittleEndian(Utf8.ByteLen(name), 2) + (Utf8.Encode(name) + tail)
    ensures name != "" && Utf8.ByteLen(name) <= MAX_FRAME_NAME
    ensures DecodeName(bs, node) == DecodeSender(tail, node, name)
  {
    ReadUintIsCanonical(bs, 2);
    var Parsed(len, rest) := ReadUint(bs, 2).value;
    var raw := rest[..len];
    name, tail := Utf8.Decode(raw).value, rest[len..];
    assert Utf8.Encode(name) == raw by { Utf8.EncodeUndoesDecode(raw); }
    assert rest == raw + tail;
  }

  // Every accepted frame is the encoding of the hop it decodes to.
  lemma {:induction false} DecodeIsCanonical(bs: Bytes)
    requires DecodeFrame(bs).Ok?
    ensures EncodeFrame(DecodeFrame(bs).value) == Ok(bs)
    ensures Decodable(DecodeFrame(bs).value.message)
  {
    var node, rest := SplitHeader(bs);
    var name, tail := SplitName(rest, node);
    DecodeSenderIsCanonical(tail, node, name);
  }

  lemma {:induction false} SplitHeader(bs: Bytes) returns (node: U64, rest: Bytes)
    requires DecodeFrame(bs).Ok?
    ensures bs == FRAME_MAGIC + ([FRAME_VERSION] + (LittleEndian(node, 8) + rest))
    ensures DecodeFrame(bs) == DecodeName(rest, node)
  {
    Pow256Values();
    var body := bs[5..];
    node, rest := ReadUint(body, 8).value.value, ReadUint(body, 8).value.rest;
    assert bs == FRAME_MAGIC + ([FRAME_VERSION] + body) by { assert bs == bs[..4] + ([bs[4]] + bs[5..]); }
    assert body == LittleEndian(node, 8) + rest by { ReadUintIsCanonical(body, 8); }
  }

  // Nothing that names a local process or capability crosses in either
  // direction, and neither does the host's own identity.
  lemma {:induction false} OnlyPortableHopsCross(h: Hop)
    ensures EncodeFrame(h).Ok? <==>
      && h.sender != 0 && h.message.sender == h.sender
      && 1 <= Utf8.ByteLen(h.name) <= MAX_FRAME_NAME
      && Screened(Msg(h.message), 0)
    ensures (exists bs :: DecodeFrame(bs) == Ok(h)) <==> EncodeFrame(h).Ok? && Decodable(h.message)
  {
    ScreenDecides(h.message.payload, 1);
    if EncodeFrame(h).Ok? { DecodeUndoesEncode(h); }
    forall bs | DecodeFrame(bs) == Ok(h) ensures EncodeFrame(h).Ok? && Decodable(h.message) { DecodeIsCanonical(bs); }
  }

  // The condition is not vacuous: a map that repeats a key is encoded, and what
  // comes out of the decoder is not that hop.
  lemma {:induction false} RepeatedKeyIsSentButNotReceived()
    ensures
      var payload := Map([Entry(IntKey(0), Unit), Entry(IntKey(0), Unit)]);
      var h := Hop(1, 0, "n", Message(1, CAP_NONE, 0, 0, payload));
      EncodeFrame(h).Ok? && DecodeFrame(EncodeFrame(h).value) != Ok(h)
  {
    var entries := [Entry(IntKey(0), Unit), Entry(IntKey(0), Unit)];
    var h := Hop(1, 0, "n", Message(1, CAP_NONE, 0, 0, Map(entries)));
    assert entries[0].key == entries[1].key;
    ScreenDecides(Map(entries), 1);
    assert Utf8.ByteLen("n") == 1;
    DecodeUndoesEncode(h);
  }

  // --------------------------------------------------------- cursor versions

  // `take_slice`: a slice at the cursor, which moves past it.
  method TakeSlice(data: Bytes, pos: nat, n: nat) returns (r: Option<Bytes>, end: nat)
    requires pos <= |data|
    ensures end <= |data|
    ensures r.Some? <==> n <= |data| - pos
    ensures r.Some? ==> end == pos + n && r.value == data[pos..end]
    ensures r.None? ==> end == pos
  {
    if pos + n > |data| { return None, pos; }
    return Some(data[pos..pos + n]), pos + n;
  }

  method TakeUint(data: Bytes, pos: nat, width: nat) returns (r: Option<nat>, end: nat)
    requires pos <= |data|
    ensures end <= |data|
    ensures r.Some? <==> width <= |data| - pos
    ensures r.Some? ==> end == pos + width && ReadUint(data[pos..], width) == Ok(Parsed(r.value, data[end..]))
  {
    var slice;
    slice, end := TakeSlice(data, pos, width);
    if slice.None? { return None, end; }
    assert data[pos..][..width] == data[pos..end] && data[pos..][width..] == data[end..];
    return Some(FromLittleEndian(slice.value)), end;
  }

  // `decode_frame` with the source's cursor.
  method DecodeFrameAt(bytes: Bytes) returns (r: Result<Hop, FrameError>)
    ensures r == DecodeFrame(bytes)
  {
    Pow256Values();
    var pos := 0;
    var magic;
    magic, pos := TakeSlice(bytes, pos, 4);
    if magic.None? { return Err(FrameError.Truncated); }
    if magic.value != FRAME_MAGIC { return Err(FrameError.BadMagic); }
    var version;
    version, pos := TakeSlice(bytes, pos, 1);
    if version.None? { return Err(FrameError.Truncated); }
    if version.value[0] != FRAME_VERSION { return Err(BadVersion); }
    var node;
    node, pos := TakeUint(bytes, pos, 8);
    if node.None? { return Err(FrameError.Truncated); }
    r := DecodeNameAt(bytes, pos, node.value);
  }

  method DecodeNameAt(bytes: Bytes, start: nat, node: U64) returns (r: Result<Hop, FrameError>)
    requires start <= |bytes|
    ensures r == DecodeName(bytes[start..], node)
  {
    Pow256Values();
    var len, pos := TakeUint(bytes, start, 2);
    if len.None? { return Err(FrameError.Truncated); }
    if len.value == 0 || len.value > MAX_FRAME_NAME { return Err(Name); }
    ghost var rest := bytes[pos..];
    var raw;
    raw, pos := TakeSlice(bytes, pos, len.value);
    if raw.None? { return Err(FrameError.Truncated); }
    assert rest[..len.value] == raw.value && rest[len.value..] == bytes[pos..];
    var name := Utf8.Decode(raw.value);
    if name.None? { return Err(FrameError.BadUtf8); }
    var sender;
    sender, pos := TakeUint(bytes, pos, 8);
    if sender.None? { return Err(FrameError.Truncated); }
    if sender.value == 0 { return Err(SenderZero); }
    var message := DecodeMessage(bytes[pos..], sender.value);
    if message.Err? { return Err(message.error); }
    return Ok(Hop(sender.value, node, name.value, message.value));
  }
}
