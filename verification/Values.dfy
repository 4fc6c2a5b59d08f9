/**
 Runtime values (byteflow/src/bytecode/value.rs): the tagged tree carried in
 registers, mailboxes and constant pools, its nesting ceiling, and the checked
 constructors of lists, maps and records.

 A float is its 64-bit pattern, so equality is bit equality. A string is the
 sequence of its Unicode scalar values.
 */
module Values {
  import opened Common

  const MAX_VALUE_DEPTH := 16
  const MAX_LIST_LEN := 256
  const MAX_MAP_LEN := 256
  const MAX_RECORD_LEN := 256
  // `CapId::NONE`
  const CAP_NONE: U128 := 0

  datatype MapKey = IntKey(n: I64) | StrKey(text: string)

  datatype Entry = Entry(key: MapKey, value: Value)

  datatype Message = Message(sender: U64, replyCap: U128, requestId: U64, tag: U16, payload: Value)

  datatype Value =
    | Unit
    | Bool(b: bool)
    | Int(i: I64)
    | Float(bits: U64)
    | Pid(flow: U64)
    | Msg(message: Message)
    | Cap(id: U128)
    | Str(text: string)
    | Blob(data: Bytes)
    | List(items: seq<Value>)
    | Map(entries: seq<Entry>)
    | Record(fields: seq<Value>)

  // The local `walk` of `within_nesting_limit`.
  predicate Walk(v: Value, depth: nat)
    decreases v
  {
    && depth <= MAX_VALUE_DEPTH
    && match v {
      case Msg(m) => Walk(m.payload, depth + 1)
      case List(items) => forall i | 0 <= i < |items| :: Walk(items[i], depth + 1)
      case Record(fields) => forall i | 0 <= i < |fields| :: Walk(fields[i], depth + 1)
      case Map(entries) => forall i | 0 <= i < |entries| :: Walk(entries[i].value, depth + 1)
      case _ => true
    }
  }

  predicate WithinNestingLimit(v: Value) {
    Walk(v, 0)
  }

  predicate DistinctKeys(entries: seq<Entry>) {
    forall i, j | 0 <= i < j < |entries| :: entries[i].key != entries[j].key
  }

  // `map_has_duplicate_key`: insert keys into a set until one is already there.
  method MapHasDuplicateKey(entries: seq<Entry>) returns (dup: bool)
    ensures dup <==> !DistinctKeys(entries)
  {
    var seen: set<MapKey> := {};
    for n := 0 to |entries|
      invariant DistinctKeys(entries[..n])
      invariant forall k :: k in seen <==> exists i :: 0 <= i < n && entries[i].key == k
    {
      if entries[n].key in seen {
        return true;
      }
      seen := seen + {entries[n].key};
    }
    assert entries[..|entries|] == entries;
    return false;
  }

  function TryList(items: seq<Value>): (r: Option<Value>) {
    if |items| > MAX_LIST_LEN then None
    else if WithinNestingLimit(List(items)) then Some(List(items)) else None
  }

  function TryRecord(fields: seq<Value>): (r: Option<Value>) {
    if |fields| > MAX_RECORD_LEN then None
    else if WithinNestingLimit(Record(fields)) then Some(Record(fields)) else None
  }

  function TryMap(entries: seq<Entry>): (r: Option<Value>) {
    if |entries| > MAX_MAP_LEN || !DistinctKeys(entries) then None
    else if WithinNestingLimit(Map(entries)) then Some(Map(entries)) else None
  }

  // Every container in the tree respects its length cap and repeats no key:
  // what the checked constructors establish, at every level.
  predicate Bounded(v: Value)
    decreases v
  {
    match v
    case Msg(m) => Bounded(m.payload)
    case List(items) => |items| <= MAX_LIST_LEN && forall i | 0 <= i < |items| :: Bounded(items[i])
    case Record(fields) => |fields| <= MAX_RECORD_LEN && forall i | 0 <= i < |fields| :: Bounded(fields[i])
    case Map(entries) =>
      && |entries| <= MAX_MAP_LEN
      && DistinctKeys(entries)
      && forall i | 0 <= i < |entries| :: Bounded(entries[i].value)
    case _ => true
  }

  // A value that fits under the ceiling at some depth fits at any smaller one.
  lemma {:induction false} WalkShallower(v: Value, depth: nat, less: nat)
    requires less <= depth && Walk(v, depth)
    ensures Walk(v, less)
    decreases v
  {
    match v
    case Msg(m) => WalkShallower(m.payload, depth + 1, less + 1);
    case List(items) =>
      forall i | 0 <= i < |items| ensures Walk(items[i], less + 1) { WalkShallower(items[i], depth + 1, less + 1); }
    case Record(fields) =>
      forall i | 0 <= i < |fields| ensures Walk(fields[i], less + 1) { WalkShallower(fields[i], depth + 1, less + 1); }
    case Map(entries) =>
      forall i | 0 <= i < |entries| ensures Walk(entries[i].value, less + 1) {
        WalkShallower(entries[i].value, depth + 1, less + 1);
      }
    case _ =>
  }
}
