/**
 From `SendRemote` to the wire (deliver in byteflow/src/scheduler/distribution.rs):
 what a flow's message must pass to be queued as a hop, and exactly which
 queued hops the host can then encode and the peer decode.
 */
module Deliver {
  import opened Common
  import opened Values
  import opened Codec
  import opened Stamp
  import opened Frames
  import Utf8

  datatype DeliverError = NoSendRight | NoBridge | NotAHop | TooNested | LiveCap | QuotaExceeded

  // What the flow and the runtime bring to the call.
  datatype Sender = Sender(flow: U64, maySend: bool, bridged: bool, withinQuota: bool)

  // `deliver`, up to the push: the hop it queues, and the mint's new state.
  function DeliverHop<S>(from: Sender, node: U64, name: string, value: Value, mint: S -> (U64, S), s: S)
    : (r: (Result<Hop, DeliverError>, S))
  {
    if !from.maySend then (Err(NoSendRight), s)
    else if !from.bridged then (Err(NoBridge), s)
    else if !value.Msg? then (Err(NotAHop), s)
    else if !WithinNestingLimit(value.message.payload) then (Err(TooNested), s)
    else if ContainsLiveCap(value.message.payload, 0) then (Err(LiveCap), s)
    else if !from.withinQuota then (Err(QuotaExceeded), s)
    else
      var m := value.message;
      var (id, t) := if m.requestId == 0 then mint(s) else (m.requestId, s);
      match StampValue(m.payload, 0, from.flow, mint, t)
      case (None, u) => (Err(TooNested), u)
      case (Some(payload), u) =>
        (Ok(Hop(from.flow, node, name, Message(from.flow, CAP_NONE, id, m.tag, payload))), u)
  }

  // No process id and no capability value, not even the empty one.
  predicate Addressless(v: Value)
    decreases v
  {
    match v
    case Pid(_) => false
    case Cap(_) => false
    case Msg(m) => Addressless(m.payload)
    case List(items) => forall i | 0 <= i < |items| :: Addressless(items[i])
    case Record(fields) => forall i | 0 <= i < |fields| :: Addressless(fields[i])
    case Map(entries) => forall i | 0 <= i < |entries| :: Addressless(entries[i].value)
    case _ => true
  }

  // Without live capabilities, what is left to screen is addresses.
  lemma {:induction false} PortableIsAddressless(v: Value, depth: nat)
    requires !ContainsLiveCap(v, depth)
    ensures Portable(v) <==> Addressless(v)
    decreases v
  {
    match v
    case Msg(m) => PortableIsAddressless(m.payload, depth + 1);
    case List(items) =>
      forall i | 0 <= i < |items| ensures Portable(items[i]) <==> Addressless(items[i]) {
        PortableIsAddressless(items[i], depth + 1);
      }
    case Record(fields) =>
      forall i | 0 <= i < |fields| ensures Portable(fields[i]) <==> Addressless(fields[i]) {
        PortableIsAddressless(fields[i], depth + 1);
      }
    case Map(entries) =>
      forall i | 0 <= i < |entries| ensures Portable(entries[i].value) <==> Addressless(entries[i].value) {
        PortableIsAddressless(entries[i].value, depth + 1);
      }
    case _ =>
  }

  lemma {:induction false} FillsKeepsPortable(v: Value, r: Value, sender: U64)
    requires Fills(v, r, sender)
    ensures Portable(r) <==> Portable(v)
    decreases v
  {
    match v
    case Msg(m) => FillsKeepsPortable(m.payload, r.message.payload, sender);
    case List(items) =>
      forall i | 0 <= i < |items| ensures Portable(r.items[i]) <==> Portable(items[i]) {
        FillsKeepsPortable(items[i], r.items[i], sender);
      }
    case Record(fields) =>
      forall i | 0 <= i < |fields| ensures Portable(r.fields[i]) <==> Portable(fields[i]) {
        FillsKeepsPortable(fields[i], r.fields[i], sender);
      }
    case Map(entries) =>
      forall i | 0 <= i < |entries| ensures Portable(r.entries[i].value) <==> Portable(entries[i].value) {
        FillsKeepsPortable(entries[i].value, r.entries[i].value, sender);
      }
    case _ =>
  }

  lemma {:induction false} FillsKeepsBlobs(v: Value, r: Value, sender: U64)
    requires Fills(v, r, sender)
    ensures BlobsFit(r) <==> BlobsFit(v)
    decreases v
  {
    match v
    case Msg(m) => FillsKeepsBlobs(m.payload, r.message.payload, sender);
    case List(items) =>
      forall i | 0 <= i < |items| ensures BlobsFit(r.items[i]) <==> BlobsFit(items[i]) {
        FillsKeepsBlobs(items[i], r.items[i], sender);
      }
    case Record(fields) =>
      forall i | 0 <= i < |fields| ensures BlobsFit(r.fields[i]) <==> BlobsFit(fields[i]) {
        FillsKeepsBlobs(fields[i], r.fields[i], sender);
      }
    case Map(entries) =>
      forall i | 0 <= i < |entries| ensures BlobsFit(r.entries[i].value) <==> BlobsFit(entries[i].value) {
        FillsKeepsBlobs(entries[i].value, r.entries[i].value, sender);
      }
    case _ =>
  }

  // What `deliver` queues: the flow as sender everywhere it was unset, no reply
  // address, every request id set.
  lemma {:induction false} QueuedHopIsStamped<S(!new)>(
    from: Sender, node: U64, name: string, value: Value, mint: S -> (U64, S), s: S)
    requires MintsNonZero(mint) && DeliverHop(from, node, name, value, mint, s).0.Ok?
    ensures
      var h, p := DeliverHop(from, node, name, value, mint, s).0.value, value.message.payload;
      && h.sender == from.flow == h.message.sender && h.node == node && h.name == name
      && h.message.replyCap == CAP_NONE && h.message.requestId != 0
      && Fills(p, h.message.payload, from.flow)
      && Walk(p, 0) && Bounded(p) && !ContainsLiveCap(p, 0)
  {
    var m := value.message;
    var t := if m.requestId == 0 then mint(s).1 else s;
    StampSucceeds(m.payload, 0, from.flow, mint, t);
  }

  // A queued hop can be encoded exactly when it comes from a flow, its name
  // fits, its payload leaves one level of nesting for the envelope and holds no
  // address. `deliver` checks none of these four.
  lemma {:induction false} QueuedHopEncodes<S(!new)>(
    from: Sender, node: U64, name: string, value: Value, mint: S -> (U64, S), s: S)
    requires MintsNonZero(mint) && DeliverHop(from, node, name, value, mint, s).0.Ok?
    ensures
      var h, p := DeliverHop(from, node, name, value, mint, s).0.value, value.message.payload;
      EncodeFrame(h).Ok? <==>
        from.flow != 0 && 1 <= Utf8.ByteLen(name) <= MAX_FRAME_NAME && Walk(p, 1) && Addressless(p)
  {
    QueuedHopIsStamped(from, node, name, value, mint, s);
    var h, p := DeliverHop(from, node, name, value, mint, s).0.value, value.message.payload;
    var r := h.message.payload;
    OnlyPortableHopsCross(h);
    FillsKeepsDepth(p, r, from.flow, 1);
    FillsKeepsBounds(p, r, from.flow);
    BoundedIsShortAndDistinct(r);
    FillsKeepsPortable(p, r, from.flow);
    PortableIsAddressless(p, 0);
  }

  // And once encoded it arrives as it was sent exactly when no buffer in it is
  // over the blob limit: map keys are already distinct.
  lemma {:induction false} QueuedHopArrives<S(!new)>(
    from: Sender, node: U64, name: string, value: Value, mint: S -> (U64, S), s: S)
    requires MintsNonZero(mint) && DeliverHop(from, node, name, value, mint, s).0.Ok?
    requires EncodeFrame(DeliverHop(from, node, name, value, mint, s).0.value).Ok?
    ensures
      var h := DeliverHop(from, node, name, value, mint, s).0.value;
      DecodeFrame(EncodeFrame(h).value) == Ok(h) <==> BlobsFit(value.message.payload)
  {
    QueuedHopIsStamped(from, node, name, value, mint, s);
    var h, p := DeliverHop(from, node, name, value, mint, s).0.value, value.message.payload;
    var r := h.message.payload;
    FillsKeepsBounds(p, r, from.flow);
    BoundedIsShortAndDistinct(r);
    FillsKeepsBlobs(p, r, from.flow);
    DecodeUndoesEncode(h);
  }

  // The nesting condition is not vacuous: a payload at the ceiling is queued
  // and can never be encoded.
  function Tower(n: nat): Value {
    if n == 0 then Unit else List([Tower(n - 1)])
  }

  lemma {:induction false} TowerDepth(n: nat, depth: nat)
    ensures Walk(Tower(n), depth) <==> depth + n <= MAX_VALUE_DEPTH
    ensures Bounded(Tower(n)) && (depth + n <= MAX_VALUE_DEPTH ==> !ContainsLiveCap(Tower(n), depth))
    decreases n
  {
    if n > 0 {
      TowerDepth(n - 1, depth + 1);
      assert Tower(n).items[0] == Tower(n - 1);
    }
  }

  lemma {:induction false} DeepestPayloadIsQueuedNotSent<S(!new)>(flow: U64, name: string, mint: S -> (U64, S), s: S)
    requires MintsNonZero(mint)
    ensures
      var value := Msg(Message(0, CAP_NONE, 0, 0, Tower(MAX_VALUE_DEPTH)));
      var r := DeliverHop(Sender(flow, true, true, true), 0, name, value, mint, s).0;
      r.Ok? && EncodeFrame(r.value).Err?
  {
    var p, from := Tower(MAX_VALUE_DEPTH), Sender(flow, true, true, true);
    var value := Msg(Message(0, CAP_NONE, 0, 0, p));
    TowerDepth(MAX_VALUE_DEPTH, 0);
    TowerDepth(MAX_VALUE_DEPTH, 1);
    StampSucceeds(p, 0, flow, mint, mint(s).1);
    QueuedHopEncodes(from, 0, name, value, mint, s);
  }
}
