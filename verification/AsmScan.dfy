/**
 The text form as the source computes it (byteflow/src/bytecode/asm.rs): a
 writer that appends to a buffer, and loops over characters and items that
 read it back. Each is proved to compute its function in `AsmText`.
 */
module AsmScan {
  import opened Common
  import opened Values
  import opened AsmText
  import AsmLine
  import Wire

  // ------------------------------------------------------------------- writing

  // What is still to be written after the first `k` items.
  function ItemsLeft(floats: Floats, items: seq<Value>, k: nat): string
    requires k <= |items|
  {
    if k == |items| then "" else (if k == 0 then "" else ", ") + ItemsOnto(floats, items[k..], "")
  }

  function Separated(before: string, k: nat): string {
    if k == 0 then before else before + ", "
  }

  lemma {:induction false} ItemsLeftStep(floats: Floats, items: seq<Value>, k: nat, before: string)
    requires k < |items|
    ensures before + ItemsLeft(floats, items, k)
      == Separated(before, k) + Show(floats, items[k]) + ItemsLeft(floats, items, k + 1)
  {
    var rest := ItemsLeft(floats, items, k + 1);
    assert items[k..][0] == items[k] && items[k..][1..] == items[k + 1..];
    ShowAppends(floats, items[k], "", rest);
    assert "" + rest == rest;
    Glue(before, if k == 0 then "" else ", ", Show(floats, items[k]), rest);
    assert before + "" == before;
  }

  function EntriesLeft(floats: Floats, entries: seq<Entry>, k: nat): string
    requires k <= |entries|
  {
    if k == |entries| then "" else (if k == 0 then "" else ", ") + EntriesOnto(floats, entries[k..], "")
  }

  lemma {:induction false} EntriesLeftStep(floats: Floats, entries: seq<Entry>, k: nat, before: string)
    requires k < |entries|
    ensures before + EntriesLeft(floats, entries, k)
      == Separated(before, k) + EntryOnto(floats, entries[k], "") + EntriesLeft(floats, entries, k + 1)
  {
    var rest := EntriesLeft(floats, entries, k + 1);
    assert entries[k..][0] == entries[k] && entries[k..][1..] == entries[k + 1..];
    EntryAppends(floats, entries[k], "", rest);
    assert "" + rest == rest;
    Glue(before, if k == 0 then "" else ", ", EntryOnto(floats, entries[k], ""), rest);
    assert before + "" == before;
  }

  // The text of a value after its keyword.
  function BodyText(floats: Floats, v: Value): string {
    match v
    case List(items) => ItemsOnto(floats, items, "]")
    case Record(fields) => ItemsOnto(floats, fields, "]")
    case Map(entries) => EntriesOnto(floats, entries, "]")
    case Msg(m) => EnvelopeOnto(m, "") + Show(floats, m.payload)
    case _ => LeafText(floats, v)
  }

  lemma {:induction false} ShowInTwo(floats: Floats, v: Value, before: string)
    ensures before + Show(floats, v) == before + Spelling(KeywordOf(v)) + BodyText(floats, v)
  {
    assert "]" + "" == "]" && LeafText(floats, v) + "" == LeafText(floats, v);
    if v.Msg? {
      EnvelopeAppends(v.message, "", Show(floats, v.message.payload));
      assert "" + Show(floats, v.message.payload) == Show(floats, v.message.payload);
    }
    assert Show(floats, v) == Spelling(KeywordOf(v)) + BodyText(floats, v);
    Wire.CatAssoc(before, Spelling(KeywordOf(v)), BodyText(floats, v));
  }

  class TextWriter {
    var out: string

    constructor ()
      ensures out == ""
    {
      out := "";
    }

    // `push_quoted`
    method PutQuoted(text: string)
      modifies this
      ensures out == old(out) + Quote(text)
    {
      out := out + ['"'];
      ghost var target := out + Escape(text);
      for i := 0 to |text|
        invariant out + Escape(text[i..]) == target
      {
        assert text[i..][0] == text[i] && text[i..][1..] == text[i + 1..];
        Wire.CatAssoc(out, EscapeChar(text[i]), Escape(text[i + 1..]));
        out := out + EscapeChar(text[i]);
      }
      assert out == target;
      out := out + ['"'];
    }

    method PutHex(data: Bytes)
      modifies this
      ensures out == old(out) + Hex(data)
    {
      ghost var target := out + Hex(data);
      for i := 0 to |data|
        invariant out + Hex(data[i..]) == target
      {
        assert data[i..][0] == data[i] && data[i..][1..] == data[i + 1..];
        var digits := [DigitChar(data[i] / 16), DigitChar(data[i] % 16)];
        Wire.CatAssoc(out, digits, Hex(data[i + 1..]));
        out := out + digits;
      }
    }

    // `write_value`
    method PutValue(floats: Floats, v: Value)
      modifies this
      ensures out == old(out) + Show(floats, v)
      decreases v, 1
    {
      ghost var before := out;
      ShowInTwo(floats, v, before);
      out := out + Spelling(KeywordOf(v));
      PutBody(floats, v);
    }

    // What follows the keyword.
    method PutBody(floats: Floats, v: Value)
      modifies this
      ensures out == old(out) + BodyText(floats, v)
      decreases v, 0
    {
      match v
      case Str(text) => PutQuoted(text);
      case Blob(data) => PutHex(data);
      case List(items) => PutItems(floats, items);
      case Record(fields) => PutItems(floats, fields);
      case Map(entries) => PutEntries(floats, entries);
      case Msg(m) =>
        ghost var before := out;
        out := out + EnvelopeOnto(m, "");
        PutValue(floats, m.payload);
        Wire.CatAssoc(before, EnvelopeOnto(m, ""), Show(floats, m.payload));
      case _ => out := out + LeafText(floats, v);
    }

    // The items of a list or a record, and the closing bracket.
    method PutItems(floats: Floats, items: seq<Value>)
      modifies this
      ensures out == old(out) + ItemsOnto(floats, items, "]")
      decreases items, 0
    {
      ghost var target := out + ItemsLeft(floats, items, 0);
      for k := 0 to |items|
        invariant out + ItemsLeft(floats, items, k) == target
      {
        ItemsLeftStep(floats, items, k, out);
        out := Separated(out, k);
        PutValue(floats, items[k]);
      }
      assert out == target;
      out := out + "]";
      ItemsClosed(floats, items, old(out));
    }

    method PutEntries(floats: Floats, entries: seq<Entry>)
      modifies this
      ensures out == old(out) + EntriesOnto(floats, entries, "]")
      decreases entries, 0
    {
      ghost var target := out + EntriesLeft(floats, entries, 0);
      for k := 0 to |entries|
        invariant out + EntriesLeft(floats, entries, k) == target
      {
        EntriesLeftStep(floats, entries, k, out);
        out := Separated(out, k);
        PutEntry(floats, entries[k]);
      }
      assert out == target;
      out := out + "]";
      EntriesClosed(floats, entries, old(out));
    }

    method PutEntry(floats: Floats, e: Entry)
      modifies this
      ensures out == old(out) + EntryOnto(floats, e, "")
      decreases e, 0
    {
      out := out + KeyOnto(e.key, "");
      out := out + " -> ";
      PutValue(floats, e.value);
      EntryClosed(e.key, Show(floats, e.value), old(out));
    }
  }

  lemma {:induction false} ItemsClosed(floats: Floats, items: seq<Value>, before: string)
    ensures before + ItemsLeft(floats, items, 0) + "]" == before + ItemsOnto(floats, items, "]")
  {
    assert items[0..] == items && "" + "]" == "]";
    ItemsAppend(floats, items, "", "]");
    assert ItemsLeft(floats, items, 0) == ItemsOnto(floats, items, "");
    Wire.CatAssoc(before, ItemsOnto(floats, items, ""), "]");
  }

  lemma {:induction false} EntriesClosed(floats: Floats, entries: seq<Entry>, before: string)
    ensures before + EntriesLeft(floats, entries, 0) + "]" == before + EntriesOnto(floats, entries, "]")
  {
    assert entries[0..] == entries && "" + "]" == "]";
    EntriesAppend(floats, entries, "", "]");
    assert EntriesLeft(floats, entries, 0) == EntriesOnto(floats, entries, "");
    Wire.CatAssoc(before, EntriesOnto(floats, entries, ""), "]");
  }

  lemma {:induction false} EntryClosed(key: MapKey, value: string, before: string)
    ensures before + KeyOnto(key, "") + " -> " + value == before + KeyOnto(key, " -> " + value)
  {
    KeyAppends(key, "", " -> " + value);
    assert "" + (" -> " + value) == " -> " + value;
    Glue(before, KeyOnto(key, ""), " -> ", value);
  }

  lemma {:induction false} Glue(a: string, b: string, c: string, d: string)
    ensures a + (b + (c + d)) == a + b + c + d
  {
  }

  // ------------------------------------------------------------------- reading

  function After<T>(done: seq<T>, r: Option<(seq<T>, string)>): Option<(seq<T>, string)> {
    if r.None? then None else Some((done + r.value.0, r.value.1))
  }

  lemma {:induction false} AfterOne<T>(done: seq<T>, x: T, r: Option<(seq<T>, string)>)
    ensures After(done, After([x], r)) == After(done + [x], r)
  {
    if r.Some? { assert done + ([x] + r.value.0) == done + [x] + r.value.0; }
  }

  lemma {:induction false} AfterNothing<T>(r: Option<(seq<T>, string)>)
    ensures After([], r) == r
  {
    if r.Some? { assert [] + r.value.0 == r.value.0; }
  }

  // The character loop of `take_quoted` and of the `str` case.
  method ScanString(s: string) returns (r: Option<(string, string)>)
    ensures r == Unescape(s)
  {
    var text: string := "";
    var i := 0;
    AfterNothing(Unescape(s));
    while i < |s|
      invariant i <= |s| && Unescape(s) == After(text, Unescape(s[i..]))
    {
      ghost var left := s[i..];
      if s[i] == '"' {
        assert left[1..] == s[i + 1..];
        assert text + [] == text;
        return Some((text, s[i + 1..]));
      }
      var c, n := s[i], 1;
      if c == '\\' {
        if i + 1 == |s| { return None; }
        var e := s[i + 1];
        if e == '\\' { c := '\\'; } else if e == '"' { c := '"'; }
        else if e == 'n' { c := '\n'; } else if e == 'r' { c := '\r'; }
        else { return None; }
        n := 2;
      }
      assert left[n..] == s[i + n..];
      AfterOne(text, c, Unescape(s[i + n..]));
      text := text + [c];
      i := i + n;
    }
    return None;
  }

  // The digit loop of the `bytes` case.
  method ScanHex(token: string) returns (r: Option<Bytes>)
    ensures r == Unhex(token)
  {
    var data: Bytes := [];
    var i := 0;
    HexAfterNothing(token);
    while i < |token|
      invariant i <= |token|
      invariant Unhex(token) == HexAfter(data, Unhex(token[i..]))
    {
      ghost var left := token[i..];
      if i + 1 == |token| { return None; }
      assert left[2..] == token[i + 2..] && left[0] == token[i] && left[1] == token[i + 1];
      var hi, lo := DigitValue(token[i], Hexadecimal), DigitValue(token[i + 1], Hexadecimal);
      if hi.None? || lo.None? { return None; }
      HexAfterOne(data, hi.value * 16 + lo.value, Unhex(token[i + 2..]));
      data := data + [hi.value * 16 + lo.value];
      i := i + 2;
    }
    assert data + [] == data;
    return Some(data);
  }

  function HexAfter(done: Bytes, r: Option<Bytes>): Option<Bytes> {
    if r.None? then None else Some(done + r.value)
  }

  lemma {:induction false} HexAfterOne(done: Bytes, byte: U8, r: Option<Bytes>)
    ensures HexAfter(done, HexAfter([byte], r)) == HexAfter(done + [byte], r)
  {
    if r.Some? { assert done + ([byte] + r.value) == done + [byte] + r.value; }
  }

  lemma {:induction false} HexAfterNothing(token: string)
    ensures Unhex(token) == HexAfter([], Unhex(token[0..]))
  {
    assert token[0..] == token;
    if Unhex(token).Some? { assert [] + Unhex(token).value == Unhex(token).value; }
  }

  // `take_value`
  method ScanValue(floats: Floats, s: string) returns (r: Option<(Value, string)>)
    ensures r == Take(floats, s)
    decreases |s|, 1
  {
    var found := FindKeyword(TrimStart(s), 0);
    if found.None? { return None; }
    r := ScanAfter(floats, found.value.0, found.value.1);
  }

  method ScanAfter(floats: Floats, k: Keyword, s: string) returns (r: Option<(Value, string)>)
    ensures r == TakeAfter(floats, k, s)
    decreases |s|, 5
  {
    match k
    case KUnit => r := Some((Unit, s));
    case KBool => r := TakeBool(s);
    case KFloat => r := TakeFloat(floats, s);
    case KStr => r := ScanStr(s);
    case KBytes => r := ScanBytes(s);
    case KList =>
      var items := ScanList(floats, s);
      r := ListOf(items);
    case KRecord =>
      var items := ScanList(floats, s);
      r := RecordOf(items);
    case KMap =>
      var entries := ScanMap(floats, s);
      r := MapOf(entries);
    case KMsg =>
      r := ScanMsg(floats, s);
    case _ => r := TakeToken(k, s);
  }

  method ScanStr(s: string) returns (r: Option<(Value, string)>)
    ensures r == TakeStr(s)
  {
    var text := TrimStart(s);
    if text == [] || text[0] != '"' { return None; }
    var quoted := ScanString(text[1..]);
    return if quoted.None? then None else Some((Str(quoted.value.0), quoted.value.1));
  }

  method ScanBytes(s: string) returns (r: Option<(Value, string)>)
    ensures r == TakeToken(KBytes, s)
  {
    var (token, rest) := TokenSpan(TrimStart(s));
    var data := ScanHex(token);
    return if data.None? then None else Some((Blob(data.value), rest));
  }

  // `take_msg`
  method ScanMsg(floats: Floats, s: string) returns (r: Option<(Value, string)>)
    ensures r == TakeMsg(floats, s)
    decreases |s|, 3
  {
    var e := TakeEnvelope(s);
    assert TakeMsg(floats, s) == TakePayload(floats, e);
    if e.None? { return None; }
    var payload := ScanValue(floats, e.value.1);
    r := MsgOf(e.value.0, payload);
  }

  // `take_list`
  method ScanList(floats: Floats, s: string) returns (r: Option<(seq<Value>, string)>)
    ensures r == TakeList(floats, s)
    decreases |s|, 4
  {
    var text := TrimStart(s);
    var done := StripPrefix(text, "]");
    if done.Some? { return Some(([], done.value)); }
    var items: seq<Value> := [];
    ghost var whole := TakeItems(floats, text);
    AfterNothing(whole);
    while true
      invariant |text| <= |s| && whole == After(items, TakeItems(floats, text))
      decreases |text|
    {
      var item := ScanValue(floats, text);
      if item.None? { return None; }
      var rest := TrimStart(item.value.1);
      done := StripPrefix(rest, "]");
      if done.Some? { return Some((items + [item.value.0], done.value)); }
      var more := StripPrefix(rest, ",");
      if more.None? { return None; }
      AfterOne(items, item.value.0, TakeItems(floats, TrimStart(more.value)));
      items := items + [item.value.0];
      text := TrimStart(more.value);
    }
  }

  // `take_map`
  method ScanMap(floats: Floats, s: string) returns (r: Option<(seq<Entry>, string)>)
    ensures r == TakeMap(floats, s)
    decreases |s|, 4
  {
    var text := TrimStart(s);
    var done := StripPrefix(text, "]");
    if done.Some? { return Some(([], done.value)); }
    var entries: seq<Entry> := [];
    ghost var whole := TakeEntries(floats, text);
    AfterNothing(whole);
    while true
      invariant |text| <= |s| && whole == After(entries, TakeEntries(floats, text))
      decreases |text|
    {
      var entry := ScanEntry(floats, text);
      if entry.None? { return None; }
      var rest := TrimStart(entry.value.1);
      done := StripPrefix(rest, "]");
      if done.Some? { return Some((entries + [entry.value.0], done.value)); }
      var more := StripPrefix(rest, ",");
      if more.None? { return None; }
      AfterOne(entries, entry.value.0, TakeEntries(floats, TrimStart(more.value)));
      entries := entries + [entry.value.0];
      text := TrimStart(more.value);
    }
  }

  method ScanEntry(floats: Floats, s: string) returns (r: Option<(Entry, string)>)
    ensures r == TakeEntry(floats, s)
    decreases |s|, 2
  {
    var k := ScanValue(floats, s);
    if k.None? || KeyOf(k.value.0).None? { return None; }
    var arrow := StripPrefix(TrimStart(k.value.1), "->");
    if arrow.None? { return None; }
    var v := ScanValue(floats, TrimStart(arrow.value));
    return if v.None? then None else Some((Entry(KeyOf(k.value.0).value, v.value.0), v.value.1));
  }

  // ------------------------------------------------------------------ comments

  // `strip_comment`
  method CutComment(line: string) returns (r: string)
    ensures r == AsmLine.StripComment(line)
  {
    var quote, escape, i := false, false, 0;
    assert line[0..] == line;
    while i < |line|
      invariant 0 <= i <= |line|
      invariant i + AsmLine.CodeLength(line[i..], quote, escape) == AsmLine.CodeLength(line, false, false)
    {
      assert line[i..][0] == line[i] && line[i..][1..] == line[i + 1..];
      if escape {
        escape := false;
      } else if line[i] == '\\' && quote {
        escape := true;
      } else {
        if line[i] == '"' { quote := !quote; }
        if !quote && line[i] == ';' { return line[..i]; }
      }
      i := i + 1;
    }
    r := line;
    assert line[..|line|] == line;
  }
}
