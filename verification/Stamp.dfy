/**
 Stamping unset envelopes (stamp_unset_envelopes and contains_live_cap in
 byteflow/src/bytecode/value.rs), with the request ids of
 byteflow/src/vm/machine/mod.rs.

 The mint closure of the source is a function from its state to an id and its
 next state.
 */
module Stamp {
  import opened Common
  import opened Values

  // ------------------------------------------------------------------ stamping

  function Envelope<S>(m: Message, payload: Value, sender: U64, mint: S -> (U64, S), s: S): (r: (Message, S)) {
    var from := if m.sender == 0 then sender else m.sender;
    if m.requestId != 0 then (m.(sender := from, payload := payload), s)
    else (m.(sender := from, payload := payload, requestId := mint(s).0), mint(s).1)
  }

  // `stamp_unset_envelopes`
  function StampValue<S>(v: Value, depth: nat, sender: U64, mint: S -> (U64, S), s: S): (r: (Option<Value>, S))
    decreases v, 1
  {
    if depth > MAX_VALUE_DEPTH then (None, s)
    else match v
      case Msg(m) =>
        (match StampValue(m.payload, depth + 1, sender, mint, s)
         case (None, t) => (None, t)
         case (Some(payload), t) =>
           var (next, u) := Envelope(m, payload, sender, mint, t);
           (Some(Msg(next)), u))
      case List(items) =>
        var (next, t) := StampItems(items, depth + 1, sender, mint, s);
        (if next.None? then None else TryList(next.value), t)
      case Record(fields) =>
        var (next, t) := StampItems(fields, depth + 1, sender, mint, s);
        (if next.None? then None else TryRecord(next.value), t)
      case Map(entries) =>
        var (next, t) := StampEntries(entries, depth + 1, sender, mint, s);
        (if next.None? then None else TryMap(next.value), t)
      case _ => (Some(v), s)
  }

  function StampItems<S>(items: seq<Value>, depth: nat, sender: U64, mint: S -> (U64, S), s: S)
    : (r: (Option<seq<Value>>, S))
    decreases items, 0
  {
    if items == [] then (Some([]), s)
    else match StampValue(items[0], depth, sender, mint, s)
      case (None, t) => (None, t)
      case (Some(head), t) =>
        var (rest, u) := StampItems(items[1..], depth, sender, mint, t);
        (if rest.None? then None else Some([head] + rest.value), u)
  }

  function StampEntries<S>(entries: seq<Entry>, depth: nat, sender: U64, mint: S -> (U64, S), s: S)
    : (r: (Option<seq<Entry>>, S))
    decreases entries, 0
  {
    if entries == [] then (Some([]), s)
    else
      var value := entries[0].value;
      assert value < entries[0];
      match StampValue(value, depth, sender, mint, s)
      case (None, t) => (None, t)
      case (Some(head), t) =>
        var (rest, u) := StampEntries(entries[1..], depth, sender, mint, t);
        (if rest.None? then None else Some([Entry(entries[0].key, head)] + rest.value), u)
  }

  // `contains_live_cap`
  predicate ContainsLiveCap(v: Value, depth: nat)
    decreases v
  {
    depth > MAX_VALUE_DEPTH ||
    match v
    case Cap(id) => id != CAP_NONE
    case Msg(m) => m.replyCap != CAP_NONE || ContainsLiveCap(m.payload, depth + 1)
    case List(items) => exists i | 0 <= i < |items| :: ContainsLiveCap(items[i], depth + 1)
    case Record(fields) => exists i | 0 <= i < |fields| :: ContainsLiveCap(fields[i], depth + 1)
    case Map(entries) => exists i | 0 <= i < |entries| :: ContainsLiveCap(entries[i].value, depth + 1)
    case _ => false
  }

  // ----------------------------------------------------------- what it promises

  // `r` is `v` with only unset fields filled: unset senders by `sender`, unset
  // request ids by ids that are not zero. Everything else is the same.
  predicate Fills(v: Value, r: Value, sender: U64)
    decreases v
  {
    match v
    case Msg(m) =>
      && r.Msg?
      && r.message.sender == (if m.sender == 0 then sender else m.sender)
      && (m.requestId != 0 ==> r.message.requestId == m.requestId)
      && r.message.requestId != 0
      && r.message.replyCap == m.replyCap && r.message.tag == m.tag
      && Fills(m.payload, r.message.payload, sender)
    case List(items) =>
      r.List? && |r.items| == |items| && forall i | 0 <= i < |items| :: Fills(items[i], r.items[i], sender)
    case Record(fields) =>
      r.Record? && |r.fields| == |fields| && forall i | 0 <= i < |fields| :: Fills(fields[i], r.fields[i], sender)
    case Map(entries) =>
      && r.Map? && |r.entries| == |entries|
      && forall i | 0 <= i < |entries| ::
           r.entries[i].key == entries[i].key && Fills(entries[i].value, r.entries[i].value, sender)
    case _ => r == v
  }

  // No envelope in the tree has an unset field.
  predicate FullyStamped(v: Value)
    decreases v
  {
    match v
    case Msg(m) => m.sender != 0 && m.requestId != 0 && FullyStamped(m.payload)
    case List(items) => forall i | 0 <= i < |items| :: FullyStamped(items[i])
    case Record(fields) => forall i | 0 <= i < |fields| :: FullyStamped(fields[i])
    case Map(entries) => forall i | 0 <= i < |entries| :: FullyStamped(entries[i].value)
    case _ => true
  }

  lemma {:induction false} FillsKeepsDepth(v: Value, r: Value, sender: U64, depth: nat)
    requires Fills(v, r, sender)
    ensures Walk(r, depth) <==> Walk(v, depth)
    decreases v
  {
    match v
    case Msg(m) => FillsKeepsDepth(m.payload, r.message.payload, sender, depth + 1);
    case List(items) =>
      forall i | 0 <= i < |items| ensures Walk(r.items[i], depth + 1) <==> Walk(items[i], depth + 1) {
        FillsKeepsDepth(items[i], r.items[i], sender, depth + 1);
      }
    case Record(fields) =>
      forall i | 0 <= i < |fields| ensures Walk(r.fields[i], depth + 1) <==> Walk(fields[i], depth + 1) {
        FillsKeepsDepth(fields[i], r.fields[i], sender, depth + 1);
      }
    case Map(entries) =>
      forall i | 0 <= i < |entries| ensures Walk(r.entries[i].value, depth + 1) <==> Walk(entries[i].value, depth + 1) {
        FillsKeepsDepth(entries[i].value, r.entries[i].value, sender, depth + 1);
      }
    case _ =>
  }

  lemma {:induction false} FillsKeepsBounds(v: Value, r: Value, sender: U64)
    requires Fills(v, r, sender)
    ensures Bounded(r) <==> Bounded(v)
    decreases v
  {
    match v
    case Msg(m) => FillsKeepsBounds(m.payload, r.message.payload, sender);
    case List(items) =>
      forall i | 0 <= i < |items| ensures Bounded(r.items[i]) <==> Bounded(items[i]) {
        FillsKeepsBounds(items[i], r.items[i], sender);
      }
    case Record(fields) =>
      forall i | 0 <= i < |fields| ensures Bounded(r.fields[i]) <==> Bounded(fields[i]) {
        FillsKeepsBounds(fields[i], r.fields[i], sender);
      }
    case Map(entries) =>
      forall i | 0 <= i < |entries| ensures Bounded(r.entries[i].value) <==> Bounded(entries[i].value) {
        FillsKeepsBounds(entries[i].value, r.entries[i].value, sender);
      }
    case _ =>
  }

  lemma {:induction false} FillsKeepsLiveCaps(v: Value, r: Value, sender: U64, depth: nat)
    requires Fills(v, r, sender)
    ensures ContainsLiveCap(r, depth) <==> ContainsLiveCap(v, depth)
    decreases v
  {
    match v
    case Msg(m) => FillsKeepsLiveCaps(m.payload, r.message.payload, sender, depth + 1);
    case List(items) =>
      forall i | 0 <= i < |items|
        ensures ContainsLiveCap(r.items[i], depth + 1) <==> ContainsLiveCap(items[i], depth + 1)
      {
        FillsKeepsLiveCaps(items[i], r.items[i], sender, depth + 1);
      }
    case Record(fields) =>
      forall i | 0 <= i < |fields|
        ensures ContainsLiveCap(r.fields[i], depth + 1) <==> ContainsLiveCap(fields[i], depth + 1)
      {
        FillsKeepsLiveCaps(fields[i], r.fields[i], sender, depth + 1);
      }
    case Map(entries) =>
      forall i | 0 <= i < |entries|
        ensures ContainsLiveCap(r.entries[i].value, depth + 1) <==> ContainsLiveCap(entries[i].value, depth + 1)
      {
        FillsKeepsLiveCaps(entries[i].value, r.entries[i].value, sender, depth + 1);
      }
    case _ =>
  }

  lemma {:induction false} FillsStampsAll(v: Value, r: Value, sender: U64)
    requires Fills(v, r, sender) && sender != 0
    ensures FullyStamped(r)
    decreases v
  {
    match v
    case Msg(m) => FillsStampsAll(m.payload, r.message.payload, sender);
    case List(items) =>
      forall i | 0 <= i < |items| ensures FullyStamped(r.items[i]) {
        FillsStampsAll(items[i], r.items[i], sender);
      }
    case Record(fields) =>
      forall i | 0 <= i < |fields| ensures FullyStamped(r.fields[i]) {
        FillsStampsAll(fields[i], r.fields[i], sender);
      }
    case Map(entries) =>
      forall i | 0 <= i < |entries| ensures FullyStamped(r.entries[i].value) {
        FillsStampsAll(entries[i].value, r.entries[i].value, sender);
      }
    case _ =>
  }

  ghost predicate MintsNonZero<S(!new)>(mint: S -> (U64, S)) {
    forall s :: mint(s).0 != 0
  }

  // What a pass over `v` met at `depth` must give: success exactly on the well
  // formed, and then only unset fields filled.
  ghost predicate StampOk(v: Value, depth: nat, sender: U64, r: Option<Value>) {
    (r.Some? <==> Walk(v, depth) && Bounded(v)) && (r.Some? ==> Fills(v, r.value, sender))
  }

  lemma {:induction false} StampSucceeds<S(!new)>(v: Value, depth: nat, sender: U64, mint: S -> (U64, S), s: S)
    requires MintsNonZero(mint)
    ensures StampOk(v, depth, sender, StampValue(v, depth, sender, mint, s).0)
    decreases v, 1
  {
    if depth <= MAX_VALUE_DEPTH {
      match v
      case Msg(m) => StampSucceeds(m.payload, depth + 1, sender, mint, s);
      case List(items) =>
        StampItemsSucceeds(items, depth + 1, sender, mint, s);
        ListRebuilt(items, StampItems(items, depth + 1, sender, mint, s).0, depth, sender);
      case Record(fields) =>
        StampItemsSucceeds(fields, depth + 1, sender, mint, s);
        ListRebuilt(fields, StampItems(fields, depth + 1, sender, mint, s).0, depth, sender);
      case Map(entries) =>
        StampEntriesSucceeds(entries, depth + 1, sender, mint, s);
        MapRebuilt(entries, StampEntries(entries, depth + 1, sender, mint, s).0, depth, sender);
      case _ =>
    }
  }

  ghost predicate ItemsStamped(items: seq<Value>, depth: nat, sender: U64, r: Option<seq<Value>>) {
    (r.Some? <==> ItemsOk(items, depth)) && (r.Some? ==> ItemsFilled(items, r.value, sender))
  }

  ghost predicate EntriesStamped(entries: seq<Entry>, depth: nat, sender: U64, r: Option<seq<Entry>>) {
    (r.Some? <==> EntriesOk(entries, depth)) && (r.Some? ==> EntriesFilled(entries, r.value, sender))
  }

  // The checked constructors accept the stamped parts as they did the originals.
  lemma {:induction false} ListRebuilt(items: seq<Value>, r: Option<seq<Value>>, depth: nat, sender: U64)
    requires depth <= MAX_VALUE_DEPTH && ItemsStamped(items, depth + 1, sender, r)
    ensures StampOk(List(items), depth, sender, if r.None? then None else TryList(r.value))
    ensures StampOk(Record(items), depth, sender, if r.None? then None else TryRecord(r.value))
  {
    if r.Some? { ItemsRebuilt(items, r.value, depth + 1, sender); }
  }

  lemma {:induction false} MapRebuilt(entries: seq<Entry>, r: Option<seq<Entry>>, depth: nat, sender: U64)
    requires depth <= MAX_VALUE_DEPTH && EntriesStamped(entries, depth + 1, sender, r)
    ensures StampOk(Map(entries), depth, sender, if r.None? then None else TryMap(r.value))
  {
    if r.Some? { EntriesRebuilt(entries, r.value, depth + 1, sender); }
  }

  ghost predicate ItemsOk(items: seq<Value>, depth: nat) {
    forall i | 0 <= i < |items| :: Walk(items[i], depth) && Bounded(items[i])
  }

  ghost predicate ItemsFilled(items: seq<Value>, r: seq<Value>, sender: U64) {
    |r| == |items| && forall i | 0 <= i < |items| :: Fills(items[i], r[i], sender)
  }

  lemma {:induction false} StampItemsSucceeds<S(!new)>(
    items: seq<Value>, depth: nat, sender: U64, mint: S -> (U64, S), s: S)
    requires MintsNonZero(mint)
    ensures ItemsStamped(items, depth, sender, StampItems(items, depth, sender, mint, s).0)
    decreases items, 0
  {
    if items != [] {
      StampSucceeds(items[0], depth, sender, mint, s);
      var t := StampValue(items[0], depth, sender, mint, s).1;
      StampItemsSucceeds(items[1..], depth, sender, mint, t);
      assert items == [items[0]] + items[1..];
      assert ItemsOk(items, depth) <==> (Walk(items[0], depth) && Bounded(items[0]) && ItemsOk(items[1..], depth));
    }
  }

  lemma {:induction false} ItemsRebuilt(items: seq<Value>, r: seq<Value>, depth: nat, sender: U64)
    requires 1 <= depth <= MAX_VALUE_DEPTH + 1 && ItemsOk(items, depth) && ItemsFilled(items, r, sender)
    ensures Walk(List(r), 0) && Walk(Record(r), 0)
  {
    forall i | 0 <= i < |r| ensures Walk(r[i], 1) {
      FillsKeepsDepth(items[i], r[i], sender, depth);
      WalkShallower(r[i], depth, 1);
    }
  }

  ghost predicate EntriesOk(entries: seq<Entry>, depth: nat) {
    forall i | 0 <= i < |entries| :: Walk(entries[i].value, depth) && Bounded(entries[i].value)
  }

  ghost predicate EntriesFilled(entries: seq<Entry>, r: seq<Entry>, sender: U64) {
    && |r| == |entries|
    && forall i | 0 <= i < |entries| :: r[i].key == entries[i].key && Fills(entries[i].value, r[i].value, sender)
  }

  lemma {:induction false} StampEntriesSucceeds<S(!new)>(
    entries: seq<Entry>, depth: nat, sender: U64, mint: S -> (U64, S), s: S)
    requires MintsNonZero(mint)
    ensures EntriesStamped(entries, depth, sender, StampEntries(entries, depth, sender, mint, s).0)
    decreases entries, 0
  {
    if entries != [] {
      var value := entries[0].value;
      assert value < entries[0];
      StampSucceeds(value, depth, sender, mint, s);
      var t := StampValue(value, depth, sender, mint, s).1;
      StampEntriesSucceeds(entries[1..], depth, sender, mint, t);
      assert entries == [entries[0]] + entries[1..];
      assert EntriesOk(entries, depth) <==> (Walk(value, depth) && Bounded(value) && EntriesOk(entries[1..], depth));
    }
  }

  lemma {:induction false} EntriesRebuilt(entries: seq<Entry>, r: seq<Entry>, depth: nat, sender: U64)
    requires 1 <= depth <= MAX_VALUE_DEPTH + 1 && EntriesOk(entries, depth) && EntriesFilled(entries, r, sender)
    ensures Walk(Map(r), 0) && (DistinctKeys(r) <==> DistinctKeys(entries))
  {
    forall i | 0 <= i < |r| ensures Walk(r[i].value, 1) {
      FillsKeepsDepth(entries[i].value, r[i].value, sender, depth);
      WalkShallower(r[i].value, depth, 1);
    }
    assert forall i | 0 <= i < |r| :: r[i].key == entries[i].key;
  }

  // ------------------------------------------------------------- second passes

  // A stamped value is left alone and nothing is minted, whoever the sender.
  lemma {:induction false} StampedIsUnchanged<S>(v: Value, depth: nat, sender: U64, mint: S -> (U64, S), s: S)
    requires FullyStamped(v) && Walk(v, depth) && Bounded(v)
    ensures StampValue(v, depth, sender, mint, s) == (Some(v), s)
    decreases v, 1
  {
    match v
    case Msg(m) => StampedIsUnchanged(m.payload, depth + 1, sender, mint, s);
    case List(items) =>
      ItemsUnchanged(items, depth + 1, sender, mint, s);
      WalkShallower(v, depth, 0);
    case Record(fields) =>
      ItemsUnchanged(fields, depth + 1, sender, mint, s);
      WalkShallower(v, depth, 0);
    case Map(entries) =>
      EntriesUnchanged(entries, depth + 1, sender, mint, s);
      WalkShallower(v, depth, 0);
    case _ =>
  }

  lemma {:induction false} ItemsUnchanged<S>(items: seq<Value>, depth: nat, sender: U64, mint: S -> (U64, S), s: S)
    requires forall i | 0 <= i < |items| :: FullyStamped(items[i]) && Walk(items[i], depth) && Bounded(items[i])
    ensures StampItems(items, depth, sender, mint, s) == (Some(items), s)
    decreases items, 0
  {
    if items != [] {
      StampedIsUnchanged(items[0], depth, sender, mint, s);
      ItemsUnchanged(items[1..], depth, sender, mint, s);
      assert items == [items[0]] + items[1..];
    }
  }

  lemma {:induction false} EntriesUnchanged<S>(entries: seq<Entry>, depth: nat, sender: U64, mint: S -> (U64, S), s: S)
    requires forall i | 0 <= i < |entries| ::
      FullyStamped(entries[i].value) && Walk(entries[i].value, depth) && Bounded(entries[i].value)
    ensures StampEntries(entries, depth, sender, mint, s) == (Some(entries), s)
    decreases entries, 0
  {
    if entries != [] {
      var value := entries[0].value;
      assert value < entries[0];
      StampedIsUnchanged(value, depth, sender, mint, s);
      EntriesUnchanged(entries[1..], depth, sender, mint, s);
      assert entries == [entries[0]] + entries[1..];
    }
  }

  // Stamping any well-formed value with a real sender succeeds, fills exactly
  // the unset fields, keeps shape and live capabilities, and a second pass by
  // anyone changes nothing and mints nothing.
  lemma {:induction false} StampIsCompleteAndIdempotent<S(!new)>(
    v: Value, sender: U64, mint: S -> (U64, S), s: S, again: U64, later: S)
    requires WithinNestingLimit(v) && Bounded(v) && sender != 0 && MintsNonZero(mint)
    ensures StampValue(v, 0, sender, mint, s).0.Some?
    ensures
      var r := StampValue(v, 0, sender, mint, s).0.value;
      && Fills(v, r, sender) && FullyStamped(r)
      && WithinNestingLimit(r) && Bounded(r)
      && (ContainsLiveCap(r, 0) <==> ContainsLiveCap(v, 0))
      && StampValue(r, 0, again, mint, later) == (Some(r), later)
  {
    StampSucceeds(v, 0, sender, mint, s);
    var r := StampValue(v, 0, sender, mint, s).0.value;
    FillsKeepsDepth(v, r, sender, 0);
    FillsKeepsBounds(v, r, sender);
    FillsKeepsLiveCaps(v, r, sender, 0);
    FillsStampsAll(v, r, sender);
    StampedIsUnchanged(r, 0, again, mint, later);
  }

  // -------------------------------------------------------------- how much mint

  // Envelopes whose request id is unset.
  function Unset(v: Value): (n: nat)
    decreases v, 1
  {
    match v
    case Msg(m) => Unset(m.payload) + if m.requestId == 0 then 1 else 0
    case List(items) => UnsetIn(items)
    case Record(fields) => UnsetIn(fields)
    case Map(entries) => UnsetOf(entries)
    case _ => 0
  }

  function UnsetIn(items: seq<Value>): (n: nat)
    decreases items, 0
  {
    if items == [] then 0 else Unset(items[0]) + UnsetIn(items[1..])
  }

  function UnsetOf(entries: seq<Entry>): (n: nat)
    decreases entries, 0
  {
    if entries == [] then 0
    else
      var value := entries[0].value;
      assert value < entries[0];
      Unset(value) + UnsetOf(entries[1..])
  }

  // The mint's state after `n` ids.
  function After<S>(mint: S -> (U64, S), s: S, n: nat): S {
    if n == 0 then s else After(mint, mint(s).1, n - 1)
  }

  lemma {:induction false} AfterAdds<S>(mint: S -> (U64, S), s: S, m: nat, n: nat)
    ensures After(mint, After(mint, s, m), n) == After(mint, s, m + n)
    decreases m
  {
    if m > 0 { AfterAdds(mint, mint(s).1, m - 1, n); }
  }

  // A successful pass draws exactly one id per unset request id.
  lemma {:induction false} MintsOncePerUnset<S>(v: Value, depth: nat, sender: U64, mint: S -> (U64, S), s: S)
    requires StampValue(v, depth, sender, mint, s).0.Some?
    ensures StampValue(v, depth, sender, mint, s).1 == After(mint, s, Unset(v))
    decreases v, 1
  {
    match v
    case Msg(m) =>
      MintsOncePerUnset(m.payload, depth + 1, sender, mint, s);
      AfterAdds(mint, s, Unset(m.payload), 1);
    case List(items) => ItemsMintOnce(items, depth + 1, sender, mint, s);
    case Record(fields) => ItemsMintOnce(fields, depth + 1, sender, mint, s);
    case Map(entries) => EntriesMintOnce(entries, depth + 1, sender, mint, s);
    case _ =>
  }

  lemma {:induction false} ItemsMintOnce<S>(items: seq<Value>, depth: nat, sender: U64, mint: S -> (U64, S), s: S)
    requires StampItems(items, depth, sender, mint, s).0.Some?
    ensures StampItems(items, depth, sender, mint, s).1 == After(mint, s, UnsetIn(items))
    decreases items, 0
  {
    if items != [] {
      var t := StampValue(items[0], depth, sender, mint, s).1;
      MintsOncePerUnset(items[0], depth, sender, mint, s);
      ItemsMintOnce(items[1..], depth, sender, mint, t);
      AfterAdds(mint, s, Unset(items[0]), UnsetIn(items[1..]));
    }
  }

  lemma {:induction false} EntriesMintOnce<S>(entries: seq<Entry>, depth: nat, sender: U64, mint: S -> (U64, S), s: S)
    requires StampEntries(entries, depth, sender, mint, s).0.Some?
    ensures StampEntries(entries, depth, sender, mint, s).1 == After(mint, s, UnsetOf(entries))
    decreases entries, 0
  {
    if entries != [] {
      var value := entries[0].value;
      assert value < entries[0];
      var t := StampValue(value, depth, sender, mint, s).1;
      MintsOncePerUnset(value, depth, sender, mint, s);
      EntriesMintOnce(entries[1..], depth, sender, mint, t);
      AfterAdds(mint, s, Unset(value), UnsetOf(entries[1..]));
    }
  }

  // ------------------------------------------------------------ which ids go where

  // The request ids that `r` has where `v` had none, payloads before their
  // envelopes.
  function FilledIds(v: Value, r: Value): (ids: seq<U64>)
    decreases v, 1
  {
    match v
    case Msg(m) =>
      if !r.Msg? then [] else FilledIds(m.payload, r.message.payload) + Own(m, r.message)
    case List(items) => if r.List? then FilledIn(items, r.items) else []
    case Record(fields) => if r.Record? then FilledIn(fields, r.fields) else []
    case Map(entries) => if r.Map? then FilledOf(entries, r.entries) else []
    case _ => []
  }

  function Own(m: Message, r: Message): seq<U64> {
    if m.requestId == 0 then [r.requestId] else []
  }

  function FilledIn(items: seq<Value>, rs: seq<Value>): (ids: seq<U64>)
    decreases items, 0
  {
    if items == [] || rs == [] then [] else FilledIds(items[0], rs[0]) + FilledIn(items[1..], rs[1..])
  }

  function FilledOf(entries: seq<Entry>, rs: seq<Entry>): (ids: seq<U64>)
    decreases entries, 0
  {
    if entries == [] || rs == [] then []
    else
      var value := entries[0].value;
      assert value < entries[0];
      FilledIds(value, rs[0].value) + FilledOf(entries[1..], rs[1..])
  }

  // The next `n` ids of a mint.
  function Drawn<S>(mint: S -> (U64, S), s: S, n: nat): (ids: seq<U64>)
    ensures |ids| == n
  {
    if n == 0 then [] else [mint(s).0] + Drawn(mint, mint(s).1, n - 1)
  }

  lemma {:induction false} DrawnAdds<S>(mint: S -> (U64, S), s: S, m: nat, n: nat)
    ensures Drawn(mint, s, m) + Drawn(mint, After(mint, s, m), n) == Drawn(mint, s, m + n)
    decreases m
  {
    if m > 0 { DrawnAdds(mint, mint(s).1, m - 1, n); }
  }

  // A pass fills the unset request ids with the ids it draws, in order.
  lemma {:induction false} FilledAreDrawn<S>(v: Value, depth: nat, sender: U64, mint: S -> (U64, S), s: S)
    requires StampValue(v, depth, sender, mint, s).0.Some?
    ensures FilledIds(v, StampValue(v, depth, sender, mint, s).0.value) == Drawn(mint, s, Unset(v))
    decreases v, 1
  {
    match v
    case Msg(m) =>
      FilledAreDrawn(m.payload, depth + 1, sender, mint, s);
      MintsOncePerUnset(m.payload, depth + 1, sender, mint, s);
      DrawnAdds(mint, s, Unset(m.payload), 1);
    case List(items) => ItemsAreDrawn(items, depth + 1, sender, mint, s);
    case Record(fields) => ItemsAreDrawn(fields, depth + 1, sender, mint, s);
    case Map(entries) => EntriesAreDrawn(entries, depth + 1, sender, mint, s);
    case _ =>
  }

  lemma {:induction false} ItemsAreDrawn<S>(items: seq<Value>, depth: nat, sender: U64, mint: S -> (U64, S), s: S)
    requires StampItems(items, depth, sender, mint, s).0.Some?
    ensures FilledIn(items, StampItems(items, depth, sender, mint, s).0.value) == Drawn(mint, s, UnsetIn(items))
    decreases items, 0
  {
    if items != [] {
      var t := StampValue(items[0], depth, sender, mint, s).1;
      FilledAreDrawn(items[0], depth, sender, mint, s);
      MintsOncePerUnset(items[0], depth, sender, mint, s);
      ItemsAreDrawn(items[1..], depth, sender, mint, t);
      DrawnAdds(mint, s, Unset(items[0]), UnsetIn(items[1..]));
    }
  }

  lemma {:induction false} EntriesAreDrawn<S>(
    entries: seq<Entry>, depth: nat, sender: U64, mint: S -> (U64, S), s: S)
    requires StampEntries(entries, depth, sender, mint, s).0.Some?
    ensures FilledOf(entries, StampEntries(entries, depth, sender, mint, s).0.value) == Drawn(mint, s, UnsetOf(entries))
    decreases entries, 0
  {
    if entries != [] {
      var value := entries[0].value;
      assert value < entries[0];
      var t := StampValue(value, depth, sender, mint, s).1;
      FilledAreDrawn(value, depth, sender, mint, s);
      MintsOncePerUnset(value, depth, sender, mint, s);
      EntriesAreDrawn(entries[1..], depth, sender, mint, t);
      DrawnAdds(mint, s, Unset(value), UnsetOf(entries[1..]));
    }
  }

  // ---------------------------------------------------------------- the counter

  const MAX_REQUEST_ID: U64 := 0x7FFF_FFFF_FFFF_FFFF

  // `fresh_request_id`: counts up from 1 inside the `i64` range and stays at its
  // top.
  function FreshRequestId(next: U64): (r: (U64, U64))
    ensures 1 <= r.0 <= MAX_REQUEST_ID
    ensures 1 <= next < MAX_REQUEST_ID ==> r == (next, next + 1)
    ensures next == 0 ==> r == (1, 2)
    ensures next >= MAX_REQUEST_ID ==> r == (MAX_REQUEST_ID, MAX_REQUEST_ID)
  {
    var id := if next == 0 then 1 else next;
    if id >= MAX_REQUEST_ID then (MAX_REQUEST_ID, MAX_REQUEST_ID) else (id, id + 1)
  }

  // The first id a counter gives.
  function FirstId(next: U64): U64 {
    if next == 0 then 1 else if next > MAX_REQUEST_ID then MAX_REQUEST_ID else next
  }

  // Ids go up by one until the top and then repeat it.
  lemma {:induction false} DrawnCountUp(next: U64, n: nat, i: nat)
    requires i < n
    ensures
      var id := FirstId(next) + i;
      Drawn(FreshRequestId, next, n)[i] == if id > MAX_REQUEST_ID then MAX_REQUEST_ID else id
    decreases i
  {
    if i > 0 { DrawnCountUp(FreshRequestId(next).1, n - 1, i - 1); }
  }

  ghost predicate Distinct(ids: seq<U64>) {
    forall i, j | 0 <= i < j < |ids| :: ids[i] != ids[j]
  }

  lemma {:induction false} DrawnDistinct(next: U64, n: nat)
    ensures Distinct(Drawn(FreshRequestId, next, n)) <==> n <= 1 || FirstId(next) + n - 1 <= MAX_REQUEST_ID
  {
    var ids := Drawn(FreshRequestId, next, n);
    forall i | 0 <= i < n
      ensures ids[i] == if FirstId(next) + i > MAX_REQUEST_ID then MAX_REQUEST_ID else FirstId(next) + i
    {
      DrawnCountUp(next, n, i);
    }
    if n > 1 && FirstId(next) + n - 1 > MAX_REQUEST_ID { assert ids[n - 2] == ids[n - 1]; }
  }

  // The envelopes one pass fills get pairwise distinct request ids exactly while
  // the counter has that many left below its top.
  lemma {:induction false} RequestIdsAreDistinct(v: Value, depth: nat, sender: U64, next: U64)
    requires StampValue(v, depth, sender, FreshRequestId, next).0.Some?
    ensures
      var r := StampValue(v, depth, sender, FreshRequestId, next).0.value;
      Distinct(FilledIds(v, r)) <==> Unset(v) <= 1 || FirstId(next) + Unset(v) - 1 <= MAX_REQUEST_ID
  {
    FilledAreDrawn(v, depth, sender, FreshRequestId, next);
    DrawnDistinct(next, Unset(v));
  }

  class RequestIds {
    var next: U64

    constructor ()
      ensures next == 1
    {
      next := 1;
    }

    method Fresh() returns (id: U64)
      modifies this
      ensures (id, next) == FreshRequestId(old(next))
    {
      if next == 0 { next := 1; }
      id := next;
      if id >= MAX_REQUEST_ID {
        next := MAX_REQUEST_ID;
        return MAX_REQUEST_ID;
      }
      next := id + 1;
    }

    // `stamp_unset_envelopes` with this counter behind the mint closure.
    method StampUnset(v: Value, depth: nat, sender: U64) returns (r: Option<Value>)
      modifies this
      ensures (r, next) == StampValue(v, depth, sender, FreshRequestId, old(next))
      decreases v, 1
    {
      if depth > MAX_VALUE_DEPTH { return None; }
      match v
      case Msg(m) =>
        var payload := StampUnset(m.payload, depth + 1, sender);
        if payload.None? { return None; }
        var from := if m.sender == 0 && sender != 0 then sender else m.sender;
        var stamped := m.(payload := payload.value, sender := from);
        if stamped.requestId == 0 {
          var id := Fresh();
          stamped := stamped.(requestId := id);
        }
        return Some(Msg(stamped));
      case List(items) =>
        var stamped := StampEach(items, depth + 1, sender);
        return if stamped.None? then None else TryList(stamped.value);
      case Record(fields) =>
        var stamped := StampEach(fields, depth + 1, sender);
        return if stamped.None? then None else TryRecord(stamped.value);
      case Map(entries) =>
        var stamped := StampEachEntry(entries, depth + 1, sender);
        return if stamped.None? then None else TryMap(stamped.value);
      case _ => return Some(v);
    }

    method StampEach(items: seq<Value>, depth: nat, sender: U64) returns (r: Option<seq<Value>>)
      modifies this
      ensures (r, next) == StampItems(items, depth, sender, FreshRequestId, old(next))
      decreases items, 0
    {
      var stamped: seq<Value> := [];
      ghost var whole := StampItems(items, depth, sender, FreshRequestId, next);
      PrefixNothing(whole);
      assert items[0..] == items;
      for k := 0 to |items|
        invariant whole == Prefixed(stamped, StampItems(items[k..], depth, sender, FreshRequestId, next))
      {
        assert items[k..][0] == items[k] && items[k..][1..] == items[k + 1..];
        var item := StampUnset(items[k], depth, sender);
        if item.None? { return None; }
        PrefixStep(stamped, item.value, StampItems(items[k + 1..], depth, sender, FreshRequestId, next));
        stamped := stamped + [item.value];
      }
      assert stamped + [] == stamped;
      return Some(stamped);
    }

    method StampEachEntry(entries: seq<Entry>, depth: nat, sender: U64) returns (r: Option<seq<Entry>>)
      modifies this
      ensures (r, next) == StampEntries(entries, depth, sender, FreshRequestId, old(next))
      decreases entries, 0
    {
      var stamped: seq<Entry> := [];
      ghost var whole := StampEntries(entries, depth, sender, FreshRequestId, next);
      PrefixNothing(whole);
      assert entries[0..] == entries;
      for k := 0 to |entries|
        invariant whole == Prefixed(stamped, StampEntries(entries[k..], depth, sender, FreshRequestId, next))
      {
        assert entries[k..][0] == entries[k] && entries[k..][1..] == entries[k + 1..];
        var value := entries[k].value;
        assert value < entries[k];
        var item := StampUnset(value, depth, sender);
        if item.None? { return None; }
        PrefixStep(stamped, Entry(entries[k].key, item.value),
                   StampEntries(entries[k + 1..], depth, sender, FreshRequestId, next));
        stamped := stamped + [Entry(entries[k].key, item.value)];
      }
      assert stamped + [] == stamped;
      return Some(stamped);
    }
  }

  // Parts already stamped, in front of what the rest of the pass gives.
  function Prefixed<T, S>(done: seq<T>, rest: (Option<seq<T>>, S)): (Option<seq<T>>, S) {
    (if rest.0.None? then None else Some(done + rest.0.value), rest.1)
  }

  lemma {:induction false} PrefixNothing<T, S>(rest: (Option<seq<T>>, S))
    ensures Prefixed([], rest) == rest
  {
    if rest.0.Some? { assert [] + rest.0.value == rest.0.value; }
  }

  lemma {:induction false} PrefixStep<T, S>(done: seq<T>, head: T, rest: (Option<seq<T>>, S))
    ensures Prefixed(done, Prefixed([head], rest)) == Prefixed(done + [head], rest)
  {
    if rest.0.Some? { assert done + ([head] + rest.0.value) == done + [head] + rest.0.value; }
  }
}
