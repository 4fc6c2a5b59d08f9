/**
 A constant on a line of a listing (byteflow/src/bytecode/asm.rs): the scanner
 that cuts a comment off, the trimming around the text, and what a printed
 constant is read back as.
 */
module AsmLine {
  import opened Common
  import opened Values
  import opened AsmText
  import Wire

  // ---------------------------------------------------------------- a constant

  function TrimEnd(s: string): (r: string)
    ensures |r| <= |s|
  {
    if s != [] && IsWhitespace(s[|s| - 1]) then TrimEnd(s[..|s| - 1]) else s
  }

  // `str::trim`
  function Trim(s: string): string {
    TrimEnd(TrimStart(s))
  }

  // `parse_value`
  function ParseValue(floats: Floats, text: string): (r: Option<Value>) {
    match Take(floats, text)
    case None => None
    case Some((v, rest)) => if Trim(rest) == [] then Some(v) else None
  }

  // What `assemble` makes of the text after `.const`.
  function ParseConstant(floats: Floats, text: string): (r: Option<Value>) {
    ParseValue(floats, Trim(text))
  }

  predicate EndsInInk(s: string) {
    s != [] && !IsWhitespace(s[|s| - 1])
  }

  lemma {:induction false} InkAppended(a: string, b: string)
    requires EndsInInk(b)
    ensures EndsInInk(a + b) && TrimEnd(a + b) == a + b
  {
  }

  lemma {:induction false} ShowOntoInk(floats: Floats, v: Value, rest: string)
    requires EndsInInk(rest)
    ensures EndsInInk(ShowOnto(floats, v, rest))
  {
    ShowAppends(floats, v, "", rest);
    assert "" + rest == rest;
    InkAppended(ShowOnto(floats, v, ""), rest);
  }

  lemma {:induction false} ItemsInk(floats: Floats, items: seq<Value>, rest: string)
    requires EndsInInk(rest)
    ensures EndsInInk(ItemsOnto(floats, items, rest))
  {
    if |items| == 1 {
      ShowOntoInk(floats, items[0], rest);
    } else if |items| > 1 {
      var more := ItemsOnto(floats, items[1..], rest);
      ItemsInk(floats, items[1..], rest);
      InkAppended(", ", more);
      ShowOntoInk(floats, items[0], ", " + more);
    }
  }

  lemma {:induction false} KeyInk(key: MapKey, rest: string)
    requires EndsInInk(rest)
    ensures EndsInInk(KeyOnto(key, rest))
  {
    match key
    case IntKey(n) => InkAppended(ShowInt(n), rest); InkAppended(Spelling(KInt), ShowInt(n) + rest);
    case StrKey(text) => InkAppended(Quote(text), rest); InkAppended(Spelling(KStr), Quote(text) + rest);
  }

  lemma {:induction false} EntriesInk(floats: Floats, entries: seq<Entry>, rest: string)
    requires EndsInInk(rest)
    ensures EndsInInk(EntriesOnto(floats, entries, rest))
  {
    if entries != [] {
      var after := if |entries| == 1 then rest else ", " + EntriesOnto(floats, entries[1..], rest);
      if |entries| > 1 {
        EntriesInk(floats, entries[1..], rest);
        InkAppended(", ", EntriesOnto(floats, entries[1..], rest));
      }
      ShowOntoInk(floats, entries[0].value, after);
      InkAppended(" -> ", ShowOnto(floats, entries[0].value, after));
      KeyInk(entries[0].key, " -> " + ShowOnto(floats, entries[0].value, after));
    }
  }

  lemma {:induction false} EnvelopeInk(m: Message, rest: string)
    requires EndsInInk(rest)
    ensures EndsInInk(EnvelopeOnto(m, rest))
  {
    EnvelopeAppends(m, "", rest);
    assert "" + rest == rest;
    InkAppended(EnvelopeOnto(m, ""), rest);
  }

  // The body of a leaf after its keyword.
  lemma {:induction false} TokenInk(keyword: string, token: string)
    requires IsToken(token)
    ensures EndsInInk(keyword + (token + ""))
  {
    assert token + "" == token;
    assert !Ends(token[|token| - 1]);
    InkAppended(keyword, token);
  }

  lemma {:induction false} LeafInk(floats: Floats, v: Value)
    requires Sane(floats) && v != Blob([]) && !v.List? && !v.Record? && !v.Map? && !v.Msg?
    ensures EndsInInk(Show(floats, v))
  {
    match v
    case Unit => assert Show(floats, v) == "unit";
    case Bool(b) => TokenInk(Spelling(KBool), if b then "true" else "false");
    case Int(i) => IntRoundTrip(i); TokenInk(Spelling(KInt), ShowInt(i));
    case Float(bits) => FloatInk(floats, bits);
    case Pid(p) => NatRoundTrip(p, Decimal); TokenInk(Spelling(KPid), ShowNat(p, Decimal));
    case Cap(id) => NatRoundTrip(id, Decimal); TokenInk(Spelling(KCap), ShowNat(id, Decimal));
    case Str(text) =>
      assert Quote(text) + "" == Quote(text) && EndsInInk(Quote(text));
      InkAppended(Spelling(KStr), Quote(text));
    case Blob(data) => UnhexUndoesHex(data); TokenInk(Spelling(KBytes), Hex(data));
  }

  lemma {:induction false} FloatInk(floats: Floats, bits: U64)
    requires Sane(floats)
    ensures EndsInInk(Show(floats, Float(bits)))
  {
    var decimal := floats.show(bits);
    if floats.parse(decimal) == Some(bits) {
      TokenInk(Spelling(KFloat), decimal);
    } else {
      NatRoundTrip(bits, Hexadecimal);
      var digits := ShowNat(bits, Hexadecimal);
      assert !Ends(digits[|digits| - 1]);
      InkAppended("0x", digits);
      InkAppended("bits ", "0x" + digits);
      var text := "bits " + ("0x" + digits);
      assert text + "" == text;
      InkAppended(Spelling(KFloat), text);
    }
  }

  // Only a text that ends in an empty `bytes` ends in a space.
  lemma {:induction false} ShowInk(floats: Floats, v: Value)
    requires Sane(floats) && !EndsOpen(v)
    ensures EndsInInk(Show(floats, v))
    decreases v
  {
    assert "]" + "" == "]";
    match v
    case List(items) =>
      ItemsInk(floats, items, "]");
      InkAppended(Spelling(KList), ItemsOnto(floats, items, "]"));
    case Record(fields) =>
      ItemsInk(floats, fields, "]");
      InkAppended(Spelling(KRecord), ItemsOnto(floats, fields, "]"));
    case Map(entries) =>
      EntriesInk(floats, entries, "]");
      InkAppended(Spelling(KMap), EntriesOnto(floats, entries, "]"));
    case Msg(m) =>
      ShowInk(floats, m.payload);
      EnvelopeInk(m, Show(floats, m.payload));
      InkAppended(Spelling(KMsg), EnvelopeOnto(m, Show(floats, m.payload)));
    case _ => LeafInk(floats, v);
  }

  // Such a text without its last space.
  function Clipped(v: Value): (text: string)
    requires EndsOpen(v)
    decreases v
  {
    match v
    case Msg(m) => Spelling(KMsg) + EnvelopeOnto(m, Clipped(m.payload))
    case _ => "bytes"
  }

  lemma {:induction false} ClippedIsShow(floats: Floats, v: Value)
    requires EndsOpen(v)
    ensures Show(floats, v) == Clipped(v) + " " && EndsInInk(Clipped(v))
    decreases v
  {
    if v.Msg? {
      var m, text := v.message, Clipped(v.message.payload);
      ClippedIsShow(floats, m.payload);
      EnvelopeAppends(m, text, " ");
      Wire.CatAssoc(Spelling(KMsg), EnvelopeOnto(m, text), " ");
      EnvelopeInk(m, text);
      InkAppended(Spelling(KMsg), EnvelopeOnto(m, text));
    } else {
      assert Show(floats, v) == "bytes ";
    }
  }

  // The keyword `bytes` is read only with a space after it.
  lemma {:induction false} ClippedIsNotTaken(floats: Floats, v: Value)
    requires EndsOpen(v)
    ensures Take(floats, Clipped(v)) == None
    decreases v
  {
    if v.Msg? {
      var m := v.message;
      ClippedIsNotTaken(floats, m.payload);
      MsgTaken(floats, EnvelopeOnto(m, Clipped(m.payload)));
      PayloadTaken(floats, m, Clipped(m.payload));
    } else {
      BytesAloneIsNotTaken(floats);
    }
  }

  lemma {:induction false} BytesAloneIsNotTaken(floats: Floats)
    ensures Take(floats, "bytes") == None
  {
    var text := "bytes";
    assert TrimStart(text) == text;
    assert forall n | 0 <= n < |ORDER| :: StripPrefix(text, Spelling(ORDER[n])) == None;
    NoKeyword(text, 0);
  }

  lemma {:induction false} NoKeyword(text: string, n: nat)
    requires n <= |ORDER| && forall i | n <= i < |ORDER| :: StripPrefix(text, Spelling(ORDER[i])) == None
    ensures FindKeyword(text, n) == None
    decreases |ORDER| - n
  {
    if n < |ORDER| { NoKeyword(text, n + 1); }
  }

  // A constant on a line of its own, where the text is trimmed first: every
  // constant survives, except that one whose text ends in an empty `bytes` is
  // refused.
  lemma {:induction false} ConstantRoundTrip(floats: Floats, v: Value)
    requires Sane(floats) && WellFormed(v)
    ensures ParseConstant(floats, Show(floats, v)) == if EndsOpen(v) then None else Some(v)
  {
    var text := Show(floats, v);
    ShowStarts(floats, v, "");
    if EndsOpen(v) {
      ClippedIsShow(floats, v);
      ClippedIsNotTaken(floats, v);
      LastSpaceGoes(Clipped(v));
    } else {
      ShowInk(floats, v);
      TextRoundTrip(floats, v, "");
      assert text + "" == text;
    }
  }

  lemma {:induction false} LastSpaceGoes(text: string)
    requires EndsInInk(text)
    ensures TrimEnd(text + " ") == text
  {
    var whole := text + " ";
    assert whole[..|whole| - 1] == text;
  }

  // ---------------------------------------------------------------- the comment

  // `strip_comment`: how much of the text comes before a `;` that is not quoted.
  // The source scans bytes; the bytes of a character outside ASCII are none of
  // those it looks for.
  function CodeLength(s: string, quote: bool, escape: bool): (n: nat)
    ensures n <= |s|
  {
    if s == [] then 0
    else if escape then 1 + CodeLength(s[1..], quote, false)
    else if s[0] == '\\' && quote then 1 + CodeLength(s[1..], quote, true)
    else
      var quoted := if s[0] == '"' then !quote else quote;
      if !quoted && s[0] == ';' then 0 else 1 + CodeLength(s[1..], quoted, false)
  }

  function StripComment(line: string): string {
    line[..CodeLength(line, false, false)]
  }

  // The scanner's state after the text, unless it stops in it.
  function Through(s: string, quote: bool, escape: bool): (r: Option<(bool, bool)>) {
    if s == [] then Some((quote, escape))
    else if escape then Through(s[1..], quote, false)
    else if s[0] == '\\' && quote then Through(s[1..], quote, true)
    else
      var quoted := if s[0] == '"' then !quote else quote;
      if !quoted && s[0] == ';' then None else Through(s[1..], quoted, false)
  }

  predicate IsComment(s: string) {
    s == [] || s[0] == ';'
  }

  // The cut is right after code that leaves the scanner outside quotes.
  lemma {:induction false} CutAfter(code: string, comment: string, quote: bool, escape: bool)
    requires Through(code, quote, escape) == Some((false, false)) && IsComment(comment)
    ensures CodeLength(code + comment, quote, escape) == |code|
  {
    if code == [] {
      assert code + comment == comment;
    } else {
      assert (code + comment)[0] == code[0] && (code + comment)[1..] == code[1..] + comment;
      var quoted := if code[0] == '"' then !quote else quote;
      if escape { CutAfter(code[1..], comment, quote, false); }
      else if code[0] == '\\' && quote { CutAfter(code[1..], comment, quote, true); }
      else { CutAfter(code[1..], comment, quoted, false); }
    }
  }

  lemma {:induction false} ThroughAppends(a: string, b: string, quote: bool, escape: bool)
    requires Through(a, quote, escape).Some?
    ensures
      var (quote', escape') := Through(a, quote, escape).value;
      Through(a + b, quote, escape) == Through(b, quote', escape')
  {
    if a == [] {
      assert a + b == b;
    } else {
      assert (a + b)[0] == a[0] && (a + b)[1..] == a[1..] + b;
      var quoted := if a[0] == '"' then !quote else quote;
      if escape { ThroughAppends(a[1..], b, quote, false); }
      else if a[0] == '\\' && quote { ThroughAppends(a[1..], b, quote, true); }
      else { ThroughAppends(a[1..], b, quoted, false); }
    }
  }

  predicate OneLine(s: string) {
    forall i | 0 <= i < |s| :: s[i] != '\n' && s[i] != '\r'
  }

  // The text has no line break, and the scanner goes over it and is back where
  // it was.
  predicate Quiet(s: string) {
    OneLine(s) && Through(s, false, false) == Some((false, false))
  }

  lemma {:induction false} QuietAppends(a: string, b: string)
    requires Quiet(a) && Quiet(b)
    ensures Quiet(a + b)
  {
    ThroughAppends(a, b, false, false);
  }

  // Text without quotes, semicolons and line breaks.
  predicate Inert(s: string) {
    forall i | 0 <= i < |s| :: s[i] != '"' && s[i] != ';' && s[i] != '\n' && s[i] != '\r'
  }

  lemma {:induction false} InertIsQuiet(s: string)
    requires Inert(s)
    ensures Quiet(s)
  {
    if s != [] { InertIsQuiet(s[1..]); }
  }

  lemma {:induction false} InertOnto(a: string, rest: string)
    requires Inert(a) && Quiet(rest)
    ensures Quiet(a + rest)
  {
    InertIsQuiet(a);
    QuietAppends(a, rest);
  }

  // Inside quotes an escaped text never closes them.
  lemma {:induction false} EscapeStaysQuoted(text: string)
    ensures Through(Escape(text), true, false) == Some((true, false)) && OneLine(Escape(text))
  {
    if text != [] {
      var head, tail := EscapeChar(text[0]), Escape(text[1..]);
      EscapeStaysQuoted(text[1..]);
      EscapedChar(text[0]);
      ThroughAppends(head, tail, true, false);
    }
  }

  lemma {:induction false} EscapedChar(c: char)
    ensures Through(EscapeChar(c), true, false) == Some((true, false)) && OneLine(EscapeChar(c))
  {
    var e := EscapeChar(c);
    if |e| == 2 {
      assert e[0] == '\\' && e[1..] == [e[1]] && e[1..][1..] == [];
      assert Through(e[1..], true, true) == Through(e[1..][1..], true, false);
    } else {
      assert e[1..] == [];
    }
  }

  lemma {:induction false} QuoteIsQuiet(text: string)
    ensures Quiet(Quote(text))
  {
    var body, open, close := Escape(text), ['"'], ['"'];
    EscapeStaysQuoted(text);
    assert open[1..] == [] && Through(open, false, false) == Some((true, false));
    assert Through(close, true, false) == Some((false, false));
    ThroughAppends(open, body, false, false);
    ThroughAppends(open + body, close, false, false);
  }

  // ------------------------------------------------------------ printed values

  // Decimal text has no character the scanner looks for.
  ghost predicate InertFloats(floats: Floats) {
    forall bits: U64 :: Inert(floats.show(bits))
  }

  lemma {:induction false} DigitIsInert(d: nat)
    requires d < 16
    ensures Inert([DigitChar(d)])
  {
  }

  lemma {:induction false} NatIsInert(n: nat, radix: Radix)
    ensures Inert(ShowNat(n, radix))
    decreases n
  {
    if n < radix.Base() {
      DigitIsInert(n);
    } else {
      NatIsInert(radix.Quotient(n), radix);
      DigitIsInert(radix.Remainder(n));
    }
  }

  lemma {:induction false} IntIsInert(i: I64)
    ensures Inert(ShowInt(i))
  {
    NatIsInert(if i < 0 then Negate(i) else i, Decimal);
  }

  lemma {:induction false} HexIsInert(data: Bytes)
    ensures Inert(Hex(data))
  {
    if data != [] {
      DigitIsInert(data[0] / 16);
      DigitIsInert(data[0] % 16);
      HexIsInert(data[1..]);
    }
  }

  lemma {:induction false} FloatIsInert(floats: Floats, bits: U64)
    requires InertFloats(floats)
    ensures Inert(ShowFloat(floats, bits))
  {
    NatIsInert(bits, Hexadecimal);
  }

  lemma {:induction false} SpellingIsInert(k: Keyword)
    ensures Inert(Spelling(k))
  {
  }

  lemma {:induction false} KeywordOnto(k: Keyword, body: string, rest: string)
    requires Inert(body) && Quiet(rest)
    ensures Quiet(Spelling(k) + (body + rest))
  {
    SpellingIsInert(k);
    InertOnto(body, rest);
    InertOnto(Spelling(k), body + rest);
  }

  lemma {:induction false} QuotedOnto(text: string, rest: string)
    requires Quiet(rest)
    ensures Quiet(Spelling(KStr) + (Quote(text) + rest))
  {
    QuoteIsQuiet(text);
    QuietAppends(Quote(text), rest);
    SpellingIsInert(KStr);
    InertOnto(Spelling(KStr), Quote(text) + rest);
  }

  lemma {:induction false} FieldIsQuiet(n: nat, rest: string)
    requires Quiet(rest)
    ensures Quiet(FieldOnto(n, rest))
  {
    NatIsInert(n, Decimal);
    InertOnto(" ", rest);
    InertOnto(ShowNat(n, Decimal), " " + rest);
  }

  lemma {:induction false} EnvelopeIsQuiet(m: Message, rest: string)
    requires Quiet(rest)
    ensures Quiet(EnvelopeOnto(m, rest))
  {
    FieldIsQuiet(m.tag, rest);
    FieldIsQuiet(m.requestId, FieldOnto(m.tag, rest));
    FieldIsQuiet(m.replyCap, FieldOnto(m.requestId, FieldOnto(m.tag, rest)));
    FieldIsQuiet(m.sender, FieldOnto(m.replyCap, FieldOnto(m.requestId, FieldOnto(m.tag, rest))));
  }

  lemma {:induction false} LeafIsQuiet(floats: Floats, v: Value, rest: string)
    requires InertFloats(floats) && Quiet(rest) && !v.List? && !v.Record? && !v.Map? && !v.Msg?
    ensures Quiet(ShowOnto(floats, v, rest))
  {
    match v
    case Unit =>
      SpellingIsInert(KUnit);
      InertOnto(Spelling(KUnit), rest);
    case Bool(b) => KeywordOnto(KBool, if b then "true" else "false", rest);
    case Int(i) =>
      IntIsInert(i);
      KeywordOnto(KInt, ShowInt(i), rest);
    case Float(bits) =>
      FloatIsInert(floats, bits);
      KeywordOnto(KFloat, ShowFloat(floats, bits), rest);
    case Pid(p) =>
      NatIsInert(p, Decimal);
      KeywordOnto(KPid, ShowNat(p, Decimal), rest);
    case Cap(id) =>
      NatIsInert(id, Decimal);
      KeywordOnto(KCap, ShowNat(id, Decimal), rest);
    case Str(text) => QuotedOnto(text, rest);
    case Blob(data) =>
      HexIsInert(data);
      KeywordOnto(KBytes, Hex(data), rest);
  }

  // A printed value keeps its semicolons, quotes and line breaks inside quotes.
  lemma {:induction false} ShowIsQuiet(floats: Floats, v: Value, rest: string)
    requires InertFloats(floats) && Quiet(rest)
    ensures Quiet(ShowOnto(floats, v, rest))
    decreases v, 1
  {
    match v
    case List(items) =>
      InertOnto("]", rest);
      ItemsAreQuiet(floats, items, "]" + rest);
      SpellingIsInert(KList);
      InertOnto(Spelling(KList), ItemsOnto(floats, items, "]" + rest));
    case Record(fields) =>
      InertOnto("]", rest);
      ItemsAreQuiet(floats, fields, "]" + rest);
      SpellingIsInert(KRecord);
      InertOnto(Spelling(KRecord), ItemsOnto(floats, fields, "]" + rest));
    case Map(entries) =>
      InertOnto("]", rest);
      EntriesAreQuiet(floats, entries, "]" + rest);
      SpellingIsInert(KMap);
      InertOnto(Spelling(KMap), EntriesOnto(floats, entries, "]" + rest));
    case Msg(m) =>
      ShowIsQuiet(floats, m.payload, rest);
      EnvelopeIsQuiet(m, ShowOnto(floats, m.payload, rest));
      SpellingIsInert(KMsg);
      InertOnto(Spelling(KMsg), EnvelopeOnto(m, ShowOnto(floats, m.payload, rest)));
    case _ => LeafIsQuiet(floats, v, rest);
  }

  lemma {:induction false} ItemsAreQuiet(floats: Floats, items: seq<Value>, rest: string)
    requires InertFloats(floats) && Quiet(rest)
    ensures Quiet(ItemsOnto(floats, items, rest))
    decreases items, 0
  {
    if |items| == 1 {
      ShowIsQuiet(floats, items[0], rest);
    } else if |items| > 1 {
      var more := ItemsOnto(floats, items[1..], rest);
      ItemsAreQuiet(floats, items[1..], rest);
      InertOnto(", ", more);
      ShowIsQuiet(floats, items[0], ", " + more);
    }
  }

  lemma {:induction false} EntriesAreQuiet(floats: Floats, entries: seq<Entry>, rest: string)
    requires InertFloats(floats) && Quiet(rest)
    ensures Quiet(EntriesOnto(floats, entries, rest))
    decreases entries, 0
  {
    if entries != [] {
      var key, value := entries[0].key, entries[0].value;
      assert value < entries[0];
      var after := if |entries| == 1 then rest else ", " + EntriesOnto(floats, entries[1..], rest);
      if |entries| > 1 {
        EntriesAreQuiet(floats, entries[1..], rest);
        InertOnto(", ", EntriesOnto(floats, entries[1..], rest));
      }
      var shown := ShowOnto(floats, value, after);
      ShowIsQuiet(floats, value, after);
      InertOnto(" -> ", shown);
      KeyIsQuiet(key, " -> " + shown);
    }
  }

  lemma {:induction false} KeyIsQuiet(key: MapKey, rest: string)
    requires Quiet(rest)
    ensures Quiet(KeyOnto(key, rest))
  {
    match key
    case IntKey(n) =>
      IntIsInert(n);
      KeywordOnto(KInt, ShowInt(n), rest);
    case StrKey(text) => QuotedOnto(text, rest);
  }

  // -------------------------------------------------------------- the whole line

  // `write_constant`, without the line break.
  function ConstantLine(floats: Floats, v: Value): string {
    ".const " + Show(floats, v)
  }

  // What `assemble` makes of a line: the constant, if it is one.
  function ParseLine(floats: Floats, line: string): (r: Option<Value>) {
    var rest := StripPrefix(Trim(StripComment(line)), ".const ");
    if rest.None? then None else ParseConstant(floats, rest.value)
  }

  // A printed constant is one line; the scanner leaves all of it and cuts off
  // what follows; and it is read back, or refused if and only if its text ends
  // in an empty `bytes`.
  lemma {:induction false} ConstantLineRoundTrip(floats: Floats, v: Value, comment: string)
    requires Sane(floats) && InertFloats(floats) && WellFormed(v) && IsComment(comment)
    ensures OneLine(ConstantLine(floats, v))
    ensures StripComment(ConstantLine(floats, v) + comment) == ConstantLine(floats, v)
    ensures ParseLine(floats, ConstantLine(floats, v) + comment) == if EndsOpen(v) then None else Some(v)
  {
    var line, text := ConstantLine(floats, v), Show(floats, v);
    assert Quiet("");
    ShowIsQuiet(floats, v, "");
    InertOnto(".const ", text);
    CutAfter(line, comment, false, false);
    assert (line + comment)[..|line|] == line;
    CodeOfLine(floats, v);
  }

  lemma {:induction false} CodeOfLine(floats: Floats, v: Value)
    requires Sane(floats) && WellFormed(v)
    ensures
      var rest := StripPrefix(Trim(ConstantLine(floats, v)), ".const ");
      && rest.Some?
      && ParseConstant(floats, rest.value) == if EndsOpen(v) then None else Some(v)
  {
    var line, text := ConstantLine(floats, v), Show(floats, v);
    assert TrimStart(line) == line;
    if EndsOpen(v) {
      ClippedIsShow(floats, v);
      ClippedLine(Clipped(v));
      ClippedIsTrimmed(floats, v);
      ClippedIsNotTaken(floats, v);
    } else {
      ShowInk(floats, v);
      InkAppended(".const ", text);
      PrefixGoes(text);
      ConstantRoundTrip(floats, v);
    }
  }

  lemma {:induction false} PrefixGoes(text: string)
    ensures StripPrefix(".const " + text, ".const ") == Some(text)
  {
    assert (".const " + text)[..7] == ".const " && (".const " + text)[7..] == text;
  }

  lemma {:induction false} ClippedLine(text: string)
    requires EndsInInk(text)
    ensures TrimEnd(".const " + (text + " ")) == ".const " + text
    ensures StripPrefix(".const " + text, ".const ") == Some(text)
  {
    Wire.CatAssoc(".const ", text, " ");
    InkAppended(".const ", text);
    LastSpaceGoes(".const " + text);
    PrefixGoes(text);
  }

  lemma {:induction false} ClippedIsTrimmed(floats: Floats, v: Value)
    requires EndsOpen(v)
    ensures Trim(Clipped(v)) == Clipped(v)
  {
    ShowStarts(floats, v, "");
    ClippedIsShow(floats, v);
    assert Show(floats, v)[0] == Clipped(v)[0];
    StartsInInk(Show(floats, v));
    InkAppended("", Clipped(v));
    assert "" + Clipped(v) == Clipped(v);
  }

  lemma {:induction false} StartsInInk(s: string)
    requires s != [] && TrimStart(s) == s
    ensures !IsWhitespace(s[0])
  {
  }
}
