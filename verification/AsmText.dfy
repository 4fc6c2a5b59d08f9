/**
 The text form of constants (byteflow/src/bytecode/asm.rs): what `write_value`
 prints and what `take_value` reads back.

 Text is a sequence of Unicode scalar values. How a float prints in decimal and
 how that text is read are parameters; everything else is spelled out.
 */
module AsmText {
  import opened Common
  import opened Values
  import Wire

  // ---------------------------------------------------------------- characters

  // `char::is_whitespace`: the Unicode White_Space property.
  predicate IsWhitespace(c: char) {
    var n := c as int;
    || 0x09 <= n <= 0x0D || n == 0x20 || n == 0x85 || n == 0xA0 || n == 0x1680
    || 0x2000 <= n <= 0x200A || n == 0x2028 || n == 0x2029 || n == 0x202F || n == 0x205F || n == 0x3000
  }

  function TrimStart(s: string): (r: string)
    ensures |r| <= |s|
  {
    if s != [] && IsWhitespace(s[0]) then TrimStart(s[1..]) else s
  }

  function StripPrefix(s: string, prefix: string): (r: Option<string>)
    ensures r.Some? ==> |r.value| == |s| - |prefix|
  {
    if |prefix| <= |s| && s[..|prefix|] == prefix then Some(s[|prefix|..]) else None
  }

  // What ends a token.
  predicate Ends(c: char) {
    IsWhitespace(c) || c == ',' || c == ']'
  }

  predicate IsToken(s: string) {
    s != [] && forall i | 0 <= i < |s| :: !Ends(s[i])
  }

  function TokenLength(s: string): (n: nat)
    ensures n <= |s|
  {
    if s == [] || Ends(s[0]) then 0 else 1 + TokenLength(s[1..])
  }

  // `token_span`
  function TokenSpan(s: string): (r: (string, string)) {
    (s[..TokenLength(s)], s[TokenLength(s)..])
  }

  // ------------------------------------------------------------------- numbers

  function DigitChar(d: nat): char
    requires d < 16
  {
    if d < 10 then ('0' as int + d) as char else ('a' as int + d - 10) as char
  }

  // Numbers are written in one of two bases.
  datatype Radix = Decimal | Hexadecimal {
    function Base(): nat { if Decimal? then 10 else 16 }
    function Times(n: nat): nat { if Decimal? then 10 * n else 16 * n }
    function Quotient(n: nat): nat { if Decimal? then n / 10 else n / 16 }
    function Remainder(n: nat): (r: nat)
      ensures r < Base()
    {
      if Decimal? then n % 10 else n % 16
    }
  }

  function DigitValue(c: char, radix: Radix): (d: Option<nat>)
    ensures d.Some? ==> d.value < radix.Base()
  {
    var d :=
      if '0' <= c <= '9' then c as int - '0' as int
      else if 'a' <= c <= 'f' then c as int - 'a' as int + 10
      else if 'A' <= c <= 'F' then c as int - 'A' as int + 10
      else 16;
    if d < radix.Base() then Some(d) else None
  }

  function ShowNat(n: nat, radix: Radix): (s: string)
    ensures s != []
  {
    if n < radix.Base() then [DigitChar(n)]
    else ShowNat(radix.Quotient(n), radix) + [DigitChar(radix.Remainder(n))]
  }

  // The digits of a number, without a sign.
  function ReadDigits(s: string, radix: Radix): (n: Option<nat>) {
    if s == [] then Some(0)
    else
      var init, last := ReadDigits(s[..|s| - 1], radix), DigitValue(s[|s| - 1], radix);
      if init.None? || last.None? then None else Some(radix.Times(init.value) + last.value)
  }

  // `str::parse` of an unsigned type and `from_str_radix`: an optional plus
  // sign, at least one digit, and a value that fits.
  function ReadUint(s: string, radix: Radix, max: nat): (n: Option<nat>)
    ensures n.Some? ==> n.value <= max
  {
    var digits := if s != [] && s[0] == '+' then s[1..] else s;
    if digits == [] then None
    else match ReadDigits(digits, radix)
      case None => None
      case Some(n) => if n <= max then Some(n) else None
  }

  function Negate(i: int): int { -i }

  function ShowInt(i: I64): (s: string) {
    if i < 0 then ['-'] + ShowNat(Negate(i), Decimal) else ShowNat(i, Decimal)
  }

  // `str::parse::<i64>`
  function ReadInt(s: string): (i: Option<I64>) {
    if s != [] && s[0] == '-' then
      if s[1..] == [] then None
      else match ReadDigits(s[1..], Decimal)
        case None => None
        case Some(n) => if n <= 0x8000_0000_0000_0000 then Some(Negate(n)) else None
    else ReadUint(s, Decimal, 0x7FFF_FFFF_FFFF_FFFF)
  }

  const U128_MAX := 0xFFFF_FFFF_FFFF_FFFF_FFFF_FFFF_FFFF_FFFF

  // `parse_u64_token`
  function ReadU64Token(s: string): (n: Option<nat>)
    ensures n.Some? ==> n.value <= U64_MAX
  {
    if StripPrefix(s, "0x").Some? then ReadUint(StripPrefix(s, "0x").value, Hexadecimal, U64_MAX)
    else if StripPrefix(s, "0X").Some? then ReadUint(StripPrefix(s, "0X").value, Hexadecimal, U64_MAX)
    else ReadUint(s, Decimal, U64_MAX)
  }

  lemma {:induction false} DigitRoundTrip(d: nat, radix: Radix)
    requires d < radix.Base()
    ensures DigitValue(DigitChar(d), radix) == Some(d)
    ensures !Ends(DigitChar(d)) && DigitChar(d) != '+' && DigitChar(d) != '-'
  {
  }

  lemma {:induction false} ReadAppend(digits: string, q: nat, d: nat, radix: Radix)
    requires ReadDigits(digits, radix) == Some(q) && d < radix.Base()
    ensures ReadDigits(digits + [DigitChar(d)], radix) == Some(radix.Times(q) + d)
  {
    DigitRoundTrip(d, radix);
    assert (digits + [DigitChar(d)])[..|digits|] == digits;
  }

  lemma {:induction false} NatReads(n: nat, radix: Radix)
    ensures ReadDigits(ShowNat(n, radix), radix) == Some(n)
    decreases n
  {
    if n < radix.Base() {
      ReadAppend([], 0, n, radix);
      assert [] + [DigitChar(n)] == [DigitChar(n)];
    } else {
      var q, d := radix.Quotient(n), radix.Remainder(n);
      var digits := ShowNat(q, radix);
      assert radix.Times(q) + d == n by { Division(n, radix); }
      assert ReadDigits(digits, radix) == Some(q) by { NatReads(q, radix); }
      assert ReadDigits(digits + [DigitChar(d)], radix) == Some(n) by { ReadAppend(digits, q, d, radix); }
    }
  }

  lemma {:induction false} Division(n: nat, radix: Radix)
    ensures radix.Times(radix.Quotient(n)) + radix.Remainder(n) == n
  {
  }

  lemma {:induction false} NatIsToken(n: nat, radix: Radix)
    ensures IsToken(ShowNat(n, radix))
    ensures ShowNat(n, radix)[0] != '+' && ShowNat(n, radix)[0] != '-'
    decreases n
  {
    if n < radix.Base() {
      DigitRoundTrip(n, radix);
    } else {
      DigitRoundTrip(radix.Remainder(n), radix);
      NatIsToken(radix.Quotient(n), radix);
    }
  }

  // Printed digits read back, and make one token without a sign.
  lemma {:induction false} NatRoundTrip(n: nat, radix: Radix)
    ensures ReadDigits(ShowNat(n, radix), radix) == Some(n)
    ensures IsToken(ShowNat(n, radix))
    ensures ShowNat(n, radix)[0] != '+' && ShowNat(n, radix)[0] != '-'
  {
    NatReads(n, radix);
    NatIsToken(n, radix);
  }

  lemma {:induction false} UintRoundTrip(n: nat, radix: Radix, max: nat)
    requires n <= max
    ensures ReadUint(ShowNat(n, radix), radix, max) == Some(n)
  {
    NatRoundTrip(n, radix);
  }

  lemma {:induction false} ReadNegative(digits: string, n: nat)
    requires IsToken(digits) && ReadDigits(digits, Decimal) == Some(n) && n <= 0x8000_0000_0000_0000
    ensures ReadInt(['-'] + digits) == Some(Negate(n)) && IsToken(['-'] + digits)
  {
    assert (['-'] + digits)[1..] == digits;
  }

  lemma {:induction false} ReadPositive(digits: string, n: nat)
    requires IsToken(digits) && ReadDigits(digits, Decimal) == Some(n) && n <= 0x7FFF_FFFF_FFFF_FFFF
    requires digits[0] != '+' && digits[0] != '-'
    ensures ReadInt(digits) == Some(n)
  {
  }

  lemma {:induction false} IntRoundTrip(i: I64)
    ensures ReadInt(ShowInt(i)) == Some(i) && IsToken(ShowInt(i))
  {
    var n := if i < 0 then Negate(i) else i;
    NatRoundTrip(n, Decimal);
    if i < 0 { ReadNegative(ShowNat(n, Decimal), n); } else { ReadPositive(ShowNat(n, Decimal), n); }
  }

  // A token in front of a delimiter is split off whole.
  predicate Delimited(rest: string) {
    rest == [] || Ends(rest[0])
  }

  lemma {:induction false} SpanOfToken(token: string, rest: string)
    requires (forall i | 0 <= i < |token| :: !Ends(token[i])) && Delimited(rest)
    ensures TokenSpan(token + rest) == (token, rest)
  {
    TokenLengthOf(token, rest);
    assert (token + rest)[..|token|] == token && (token + rest)[|token|..] == rest;
  }

  lemma {:induction false} TokenLengthOf(token: string, rest: string)
    requires (forall i | 0 <= i < |token| :: !Ends(token[i])) && Delimited(rest)
    ensures TokenLength(token + rest) == |token|
  {
    if token == [] {
      assert token + rest == rest;
    } else {
      TokenLengthOf(token[1..], rest);
      assert (token + rest)[1..] == token[1..] + rest;
    }
  }

  // ------------------------------------------------------------------- strings

  function EscapeChar(c: char): string {
    if c == '\\' then ['\\', '\\']
    else if c == '"' then ['\\', '"']
    else if c == '\n' then ['\\', 'n']
    else if c == '\r' then ['\\', 'r']
    else [c]
  }

  function Escape(text: string): string {
    if text == [] then [] else EscapeChar(text[0]) + Escape(text[1..])
  }

  // `push_quoted`
  function Quote(text: string): string {
    ['"'] + Escape(text) + ['"']
  }

  // The loop of `take_quoted` and of the `str` case, after the opening quote:
  // the text and what follows the closing quote.
  function Unescape(s: string): (r: Option<(string, string)>)
    ensures r.Some? ==> |r.value.1| < |s|
    decreases |s|
  {
    if s == [] then None
    else if s[0] == '"' then Some(([], s[1..]))
    else if s[0] != '\\' then Push(s[0], Unescape(s[1..]))
    else if |s| < 2 then None
    else
      var tail := Unescape(s[2..]);
      if s[1] == '\\' then Push('\\', tail)
      else if s[1] == '"' then Push('"', tail)
      else if s[1] == 'n' then Push('\n', tail)
      else if s[1] == 'r' then Push('\r', tail)
      else None
  }

  function Push(c: char, r: Option<(string, string)>): Option<(string, string)> {
    if r.None? then None else Some(([c] + r.value.0, r.value.1))
  }

  lemma {:induction false} UnescapeChar(c: char, tail: string)
    ensures Unescape(EscapeChar(c) + tail) == Push(c, Unescape(tail))
  {
    var e := EscapeChar(c);
    assert (e + tail)[|e|..] == tail;
  }

  lemma {:induction false} UnescapeUndoesEscape(text: string, rest: string)
    ensures Unescape(Escape(text) + (['"'] + rest)) == Some((text, rest))
  {
    var after := ['"'] + rest;
    if text == [] {
      assert Escape(text) + after == after;
      assert after[1..] == rest;
    } else {
      var head, tail := text[0], text[1..];
      UnescapeUndoesEscape(tail, rest);
      UnescapeChar(head, Escape(tail) + after);
      Wire.CatAssoc(EscapeChar(head), Escape(tail), after);
      PushFirst(text, rest);
    }
  }

  lemma {:induction false} PushFirst(text: string, rest: string)
    requires text != []
    ensures Push(text[0], Some((text[1..], rest))) == Some((text, rest))
  {
    assert text == [text[0]] + text[1..];
  }

  // --------------------------------------------------------------------- bytes

  // `{byte:02x}` for every byte.
  function Hex(data: Bytes): (s: string)
    ensures |s| == 2 * |data|
  {
    if data == [] then [] else [DigitChar(data[0] / 16), DigitChar(data[0] % 16)] + Hex(data[1..])
  }

  // The loop of the `bytes` case.
  function Unhex(s: string): (r: Option<Bytes>) {
    if s == [] then Some([])
    else if |s| < 2 then None
    else
      var hi, lo, rest := DigitValue(s[0], Hexadecimal), DigitValue(s[1], Hexadecimal), Unhex(s[2..]);
      if hi.None? || lo.None? || rest.None? then None else Some([hi.value * 16 + lo.value] + rest.value)
  }

  lemma {:induction false} UnhexUndoesHex(data: Bytes)
    ensures Unhex(Hex(data)) == Some(data)
    ensures forall i | 0 <= i < |Hex(data)| :: !Ends(Hex(data)[i])
  {
    if data != [] {
      UnhexUndoesHex(data[1..]);
      DigitRoundTrip(data[0] / 16, Hexadecimal);
      DigitRoundTrip(data[0] % 16, Hexadecimal);
      assert Hex(data)[2..] == Hex(data[1..]);
      assert data == [data[0]] + data[1..];
    }
  }

  // ------------------------------------------------------------------ keywords

  datatype Keyword = KUnit | KBool | KInt | KFloat | KPid | KCap | KStr | KBytes | KList | KMap | KRecord | KMsg

  function Spelling(k: Keyword): (s: string)
    ensures |s| >= 4
  {
    match k
    case KUnit => "unit"
    case KBool => "bool "
    case KInt => "int "
    case KFloat => "float "
    case KPid => "pid "
    case KCap => "cap "
    case KStr => "str "
    case KBytes => "bytes "
    case KList => "list ["
    case KMap => "map ["
    case KRecord => "record ["
    case KMsg => "msg "
  }

  // The order in which `take_value` tries them.
  const ORDER: seq<Keyword> :=
    [KUnit, KBool, KInt, KFloat, KPid, KCap, KStr, KBytes, KList, KMap, KRecord, KMsg]

  function FindKeyword(text: string, n: nat): (r: Option<(Keyword, string)>)
    requires n <= |ORDER|
    ensures r.Some? ==> |r.value.1| < |text|
    decreases |ORDER| - n
  {
    if n == |ORDER| then None
    else
      var rest := StripPrefix(text, Spelling(ORDER[n]));
      if rest.Some? then Some((ORDER[n], rest.value)) else FindKeyword(text, n + 1)
  }

  // No keyword starts like another.
  function Lead(k: Keyword): (char, char) {
    match k
    case KUnit => ('u', 'n')
    case KBool => ('b', 'o')
    case KInt => ('i', 'n')
    case KFloat => ('f', 'l')
    case KPid => ('p', 'i')
    case KCap => ('c', 'a')
    case KStr => ('s', 't')
    case KBytes => ('b', 'y')
    case KList => ('l', 'i')
    case KMap => ('m', 'a')
    case KRecord => ('r', 'e')
    case KMsg => ('m', 's')
  }

  lemma {:induction false} LeadIsFirstTwo(k: Keyword)
    ensures Spelling(k)[0] == Lead(k).0 && Spelling(k)[1] == Lead(k).1 && !IsWhitespace(Lead(k).0)
  {
  }

  lemma {:induction false} LeadsDiffer(j: Keyword, k: Keyword)
    requires j != k
    ensures Lead(j) != Lead(k)
  {
  }

  lemma {:induction false} StripHit(prefix: string, rest: string)
    ensures StripPrefix(prefix + rest, prefix) == Some(rest)
  {
    assert (prefix + rest)[..|prefix|] == prefix && (prefix + rest)[|prefix|..] == rest;
  }

  lemma {:induction false} StripMiss(s: string, prefix: string, i: nat)
    requires i < |prefix| && (i < |s| ==> s[i] != prefix[i])
    ensures StripPrefix(s, prefix) == None
  {
    if |prefix| <= |s| { assert s[..|prefix|][i] != prefix[i]; }
  }

  lemma {:induction false} OtherKeywordMisses(j: Keyword, k: Keyword, rest: string)
    requires j != k
    ensures StripPrefix(Spelling(k) + rest, Spelling(j)) == None
  {
    LeadIsFirstTwo(j);
    LeadIsFirstTwo(k);
    LeadsDiffer(j, k);
    if Lead(j).0 != Lead(k).0 { StripMiss(Spelling(k) + rest, Spelling(j), 0); }
    else { StripMiss(Spelling(k) + rest, Spelling(j), 1); }
  }

  lemma {:induction false} KeywordFound(k: Keyword, at: nat, rest: string, n: nat)
    requires n <= at < |ORDER| && ORDER[at] == k
    ensures FindKeyword(Spelling(k) + rest, n) == Some((k, rest))
    decreases at - n
  {
    if ORDER[n] == k {
      StripHit(Spelling(k), rest);
    } else {
      OtherKeywordMisses(ORDER[n], k, rest);
      KeywordFound(k, at, rest, n + 1);
    }
  }

  function Position(k: Keyword): (n: nat)
    ensures n < |ORDER| && ORDER[n] == k
  {
    match k
    case KUnit => 0
    case KBool => 1
    case KInt => 2
    case KFloat => 3
    case KPid => 4
    case KCap => 5
    case KStr => 6
    case KBytes => 7
    case KList => 8
    case KMap => 9
    case KRecord => 10
    case KMsg => 11
  }

  lemma {:induction false} KeywordRead(k: Keyword, rest: string)
    ensures TrimStart(Spelling(k) + rest) == Spelling(k) + rest
    ensures FindKeyword(Spelling(k) + rest, 0) == Some((k, rest))
  {
    LeadIsFirstTwo(k);
    KeywordFound(k, Position(k), rest, 0);
  }

  // -------------------------------------------------------------------- floats

  // `f64::to_string` and `str::parse::<f64>`, on bit patterns.
  datatype Floats = Floats(show: U64 -> string, parse: string -> Option<U64>)

  // Decimal text is one token, and never the word that introduces raw bits.
  ghost predicate Sane(floats: Floats) {
    forall bits: U64 :: IsToken(floats.show(bits)) && floats.show(bits) != "bits"
  }

  // `write_float`: decimal if that reads back to the same bits, else the bits.
  function ShowFloat(floats: Floats, bits: U64): string {
    var decimal := floats.show(bits);
    if floats.parse(decimal) == Some(bits) then decimal else "bits " + ("0x" + ShowNat(bits, Hexadecimal))
  }

  function TakeFloat(floats: Floats, s: string): (r: Option<(Value, string)>)
    ensures r.Some? ==> |r.value.1| <= |s|
  {
    var text := TrimStart(s);
    match StripPrefix(text, "bits ")
    case Some(after) =>
      var (token, rest) := TokenSpan(TrimStart(after));
      var bits := ReadU64Token(token);
      if bits.None? then None else Some((Float(bits.value), rest))
    case None =>
      var (token, rest) := TokenSpan(text);
      var bits := floats.parse(token);
      if bits.None? then None else Some((Float(bits.value), rest))
  }

  // ------------------------------------------------------------------- reading

  function TakeBool(s: string): (r: Option<(Value, string)>)
    ensures r.Some? ==> |r.value.1| <= |s|
  {
    var text := TrimStart(s);
    var yes, no := StripPrefix(text, "true"), StripPrefix(text, "false");
    if yes.Some? then Some((Bool(true), yes.value))
    else if no.Some? then Some((Bool(false), no.value))
    else None
  }

  // What one token stands for, after `int`, `pid`, `cap` or `bytes`.
  function TokenValue(k: Keyword, token: string): (v: Option<Value>) {
    match k
    case KInt =>
      var i := ReadInt(token);
      if i.None? then None else Some(Int(i.value))
    case KPid =>
      var n := ReadUint(token, Decimal, U64_MAX);
      if n.None? then None else Some(Pid(n.value))
    case KCap =>
      var n := ReadUint(token, Decimal, U128_MAX);
      if n.None? then None else Some(Cap(n.value))
    case KBytes =>
      var data := Unhex(token);
      if data.None? then None else Some(Blob(data.value))
    case _ => None
  }

  function TakeToken(k: Keyword, s: string): (r: Option<(Value, string)>)
    ensures r.Some? ==> |r.value.1| <= |s|
  {
    var (token, rest) := TokenSpan(TrimStart(s));
    var v := TokenValue(k, token);
    if v.None? then None else Some((v.value, rest))
  }

  function TakeStr(s: string): (r: Option<(Value, string)>)
    ensures r.Some? ==> |r.value.1| <= |s|
  {
    var text := TrimStart(s);
    if text == [] || text[0] != '"' then None
    else
      var r := Unescape(text[1..]);
      if r.None? then None else Some((Str(r.value.0), r.value.1))
  }

  function FieldLength(s: string): (n: nat)
    ensures n <= |s|
  {
    if s == [] || IsWhitespace(s[0]) then 0 else 1 + FieldLength(s[1..])
  }

  // One step of `splitn` on whitespace: a number, the one space after it, and
  // the rest.
  function TakeField(s: string, max: nat): (r: Option<(nat, string)>)
    ensures r.Some? ==> r.value.0 <= max && |r.value.1| < |s|
  {
    var n := FieldLength(s);
    if n == |s| then None
    else
      var field := ReadUint(s[..n], Decimal, max);
      if field.None? then None else Some((field.value, s[n + 1..]))
  }

  datatype Envelope = Envelope(sender: U64, replyCap: U128, requestId: U64, tag: U16)

  // The largest value of each number of an envelope, in order.
  function FieldMax(k: nat): nat {
    if k == 1 then U128_MAX else if k == 3 then 0xFFFF else U64_MAX
  }

  // The numbers of an envelope from position `k` on.
  function TakeFields(s: string, k: nat): (r: Option<(seq<nat>, string)>)
    requires k <= 4
    ensures r.Some? ==> |r.value.0| == 4 - k && |r.value.1| <= |s|
    ensures r.Some? ==> forall i | k <= i < 4 :: r.value.0[i - k] <= FieldMax(i)
    decreases 4 - k
  {
    if k == 4 then Some(([], s))
    else
      var field := TakeField(s, FieldMax(k));
      if field.None? then None
      else
        var more := TakeFields(field.value.1, k + 1);
        if more.None? then None else Some(([field.value.0] + more.value.0, more.value.1))
  }

  function TakeEnvelope(s: string): (r: Option<(Envelope, string)>)
    ensures r.Some? ==> |r.value.1| <= |s|
  {
    var r := TakeFields(s, 0);
    if r.None? then None
    else
      var ns := r.value.0;
      assert ns[0] <= FieldMax(0) && ns[1] <= FieldMax(1) && ns[2] <= FieldMax(2) && ns[3] <= FieldMax(3);
      Some((Envelope(ns[0], ns[1], ns[2], ns[3]), r.value.1))
  }

  // `take_value`
  function Take(floats: Floats, s: string): (r: Option<(Value, string)>)
    ensures r.Some? ==> |r.value.1| < |s|
    decreases |s|, 1
  {
    TakeTrimmed(floats, TrimStart(s))
  }

  function TakeTrimmed(floats: Floats, text: string): (r: Option<(Value, string)>)
    ensures r.Some? ==> |r.value.1| < |text|
    decreases |text|, 0
  {
    match FindKeyword(text, 0)
    case None => None
    case Some((k, rest)) => TakeAfter(floats, k, rest)
  }

  function TakeAfter(floats: Floats, k: Keyword, s: string): (r: Option<(Value, string)>)
    ensures r.Some? ==> |r.value.1| <= |s|
    decreases |s|, 5
  {
    match k
    case KUnit => Some((Unit, s))
    case KBool => TakeBool(s)
    case KFloat => TakeFloat(floats, s)
    case KStr => TakeStr(s)
    case KList => ListOf(TakeList(floats, s))
    case KRecord => RecordOf(TakeList(floats, s))
    case KMap => MapOf(TakeMap(floats, s))
    case KMsg => TakeMsg(floats, s)
    case _ => TakeToken(k, s)
  }

  // `take_msg`: four numbers and a payload.
  function TakeMsg(floats: Floats, s: string): (r: Option<(Value, string)>)
    ensures r.Some? ==> |r.value.1| <= |s|
    decreases |s|, 3
  {
    TakePayload(floats, TakeEnvelope(s))
  }

  function TakePayload(floats: Floats, e: Option<(Envelope, string)>): (r: Option<(Value, string)>)
    ensures r.Some? ==> e.Some? && |r.value.1| <= |e.value.1|
    decreases if e.Some? then |e.value.1| else 0, 2
  {
    if e.None? then None else MsgOf(e.value.0, Take(floats, e.value.1))
  }

  // The checked constructors on what was read.
  function ListOf(r: Option<(seq<Value>, string)>): (v: Option<(Value, string)>)
    ensures v.Some? ==> r.Some? && v.value.1 == r.value.1
  {
    if r.None? || TryList(r.value.0).None? then None else Some((TryList(r.value.0).value, r.value.1))
  }

  function RecordOf(r: Option<(seq<Value>, string)>): (v: Option<(Value, string)>)
    ensures v.Some? ==> r.Some? && v.value.1 == r.value.1
  {
    if r.None? || TryList(r.value.0).None? || TryRecord(r.value.0).None? then None
    else Some((TryRecord(r.value.0).value, r.value.1))
  }

  function MapOf(r: Option<(seq<Entry>, string)>): (v: Option<(Value, string)>)
    ensures v.Some? ==> r.Some? && v.value.1 == r.value.1
  {
    if r.None? || TryMap(r.value.0).None? then None else Some((TryMap(r.value.0).value, r.value.1))
  }

  function MsgOf(e: Envelope, payload: Option<(Value, string)>): (v: Option<(Value, string)>)
    ensures v.Some? ==> payload.Some? && v.value.1 == payload.value.1
  {
    if payload.None? then None
    else Some((Msg(Message(e.sender, e.replyCap, e.requestId, e.tag, payload.value.0)), payload.value.1))
  }

  // `take_list`, up to the checked constructor.
  function TakeList(floats: Floats, s: string): (r: Option<(seq<Value>, string)>)
    ensures r.Some? ==> |r.value.1| <= |s|
    decreases |s|, 4
  {
    var text := TrimStart(s);
    var done := StripPrefix(text, "]");
    if done.Some? then Some(([], done.value)) else TakeItems(floats, text)
  }

  // Its loop: an item, then the closing bracket or a comma and more items.
  function TakeItems(floats: Floats, s: string): (r: Option<(seq<Value>, string)>)
    ensures r.Some? ==> |r.value.1| <= |s|
    decreases |s|, 3
  {
    var item := Take(floats, s);
    if item.None? then None
    else
      var text := TrimStart(item.value.1);
      var done, more := StripPrefix(text, "]"), StripPrefix(text, ",");
      if done.Some? then Some(([item.value.0], done.value))
      else if more.None? then None
      else
        var rest := TakeItems(floats, TrimStart(more.value));
        if rest.None? then None else Some(([item.value.0] + rest.value.0, rest.value.1))
  }

  function KeyOf(v: Value): Option<MapKey> {
    match v
    case Int(n) => Some(IntKey(n))
    case Str(text) => Some(StrKey(text))
    case _ => None
  }

  // `take_map`, up to the checked constructor.
  function TakeMap(floats: Floats, s: string): (r: Option<(seq<Entry>, string)>)
    ensures r.Some? ==> |r.value.1| <= |s|
    decreases |s|, 4
  {
    var text := TrimStart(s);
    var done := StripPrefix(text, "]");
    if done.Some? then Some(([], done.value)) else TakeEntries(floats, text)
  }

  // A key, an arrow and a value.
  function TakeEntry(floats: Floats, s: string): (r: Option<(Entry, string)>)
    ensures r.Some? ==> |r.value.1| < |s|
    decreases |s|, 2
  {
    var k := Take(floats, s);
    if k.None? || KeyOf(k.value.0).None? then None
    else
      var arrow := StripPrefix(TrimStart(k.value.1), "->");
      if arrow.None? then None
      else
        var v := Take(floats, TrimStart(arrow.value));
        if v.None? then None else Some((Entry(KeyOf(k.value.0).value, v.value.0), v.value.1))
  }

  function TakeEntries(floats: Floats, s: string): (r: Option<(seq<Entry>, string)>)
    ensures r.Some? ==> |r.value.1| <= |s|
    decreases |s|, 3
  {
    var entry := TakeEntry(floats, s);
    if entry.None? then None
    else
      var text := TrimStart(entry.value.1);
      var done, more := StripPrefix(text, "]"), StripPrefix(text, ",");
      if done.Some? then Some(([entry.value.0], done.value))
      else if more.None? then None
      else
        var rest := TakeEntries(floats, TrimStart(more.value));
        if rest.None? then None else Some(([entry.value.0] + rest.value.0, rest.value.1))
  }

  // ------------------------------------------------------------------- writing

  // The text of a value in front of `rest`.
  function ShowOnto(floats: Floats, v: Value, rest: string): string
    decreases v, 1
  {
    match v
    case Unit => Spelling(KUnit) + rest
    case Bool(b) => Spelling(KBool) + ((if b then "true" else "false") + rest)
    case Int(i) => Spelling(KInt) + (ShowInt(i) + rest)
    case Float(bits) => Spelling(KFloat) + (ShowFloat(floats, bits) + rest)
    case Pid(p) => Spelling(KPid) + (ShowNat(p, Decimal) + rest)
    case Cap(id) => Spelling(KCap) + (ShowNat(id, Decimal) + rest)
    case Str(text) => Spelling(KStr) + (Quote(text) + rest)
    case Blob(data) => Spelling(KBytes) + (Hex(data) + rest)
    case List(items) => Spelling(KList) + ItemsOnto(floats, items, "]" + rest)
    case Record(fields) => Spelling(KRecord) + ItemsOnto(floats, fields, "]" + rest)
    case Map(entries) => Spelling(KMap) + EntriesOnto(floats, entries, "]" + rest)
    case Msg(m) => Spelling(KMsg) + EnvelopeOnto(m, ShowOnto(floats, m.payload, rest))
  }

  function ItemsOnto(floats: Floats, items: seq<Value>, rest: string): string
    decreases items, 0
  {
    if items == [] then rest
    else ShowOnto(floats, items[0], if |items| == 1 then rest else ", " + ItemsOnto(floats, items[1..], rest))
  }

  function KeyValue(key: MapKey): Value {
    match key
    case IntKey(n) => Int(n)
    case StrKey(text) => Str(text)
  }

  function EntriesOnto(floats: Floats, entries: seq<Entry>, rest: string): string
    decreases entries, 0
  {
    if entries == [] then rest
    else
      var value := entries[0].value;
      assert value < entries[0];
      var after := if |entries| == 1 then rest else ", " + EntriesOnto(floats, entries[1..], rest);
      KeyOnto(entries[0].key, " -> " + ShowOnto(floats, value, after))
  }

  function KeyOnto(key: MapKey, rest: string): string {
    match key
    case IntKey(n) => Spelling(KInt) + (ShowInt(n) + rest)
    case StrKey(text) => Spelling(KStr) + (Quote(text) + rest)
  }

  function FieldOnto(n: nat, rest: string): string {
    ShowNat(n, Decimal) + (" " + rest)
  }

  function EnvelopeOnto(m: Message, rest: string): string {
    FieldOnto(m.sender, FieldOnto(m.replyCap, FieldOnto(m.requestId, FieldOnto(m.tag, rest))))
  }

  // `write_value`
  function Show(floats: Floats, v: Value): string {
    ShowOnto(floats, v, "")
  }

  // ---------------------------------------------------------------- round trip

  // The text ends in an empty hex string: an empty `bytes`, or a message whose
  // payload ends so.
  predicate EndsOpen(v: Value)
    decreases v
  {
    v == Blob([]) || (v.Msg? && EndsOpen(v.message.payload))
  }

  predicate StartsWithSpace(s: string) {
    s != [] && IsWhitespace(s[0])
  }

  ghost predicate ReadsBack(floats: Floats, v: Value, rest: string) {
    Take(floats, ShowOnto(floats, v, rest)) == Some((v, rest))
  }

  lemma {:induction false} TrimToken(token: string, rest: string)
    requires IsToken(token)
    ensures TrimStart(token + rest) == token + rest
  {
    assert !Ends((token + rest)[0]);
  }

  // A value printed as one token.
  lemma {:induction false} TakeShownToken(k: Keyword, token: string, v: Value, rest: string)
    requires IsToken(token) && TokenValue(k, token) == Some(v) && Delimited(rest)
    ensures TakeToken(k, token + rest) == Some((v, rest))
  {
    TrimToken(token, rest);
    SpanOfToken(token, rest);
  }

  lemma {:induction false} TakeShownBool(b: bool, rest: string)
    ensures TakeBool((if b then "true" else "false") + rest) == Some((Bool(b), rest))
  {
    if b {
      StripHit("true", rest);
      TrimToken("true", rest);
    } else {
      StripMiss("false" + rest, "true", 0);
      StripHit("false", rest);
      TrimToken("false", rest);
    }
  }

  lemma {:induction false} TakeShownStr(text: string, rest: string)
    ensures TakeStr(Quote(text) + rest) == Some((Str(text), rest))
  {
    UnescapeUndoesEscape(text, rest);
    assert Quote(text) + rest == ['"'] + (Escape(text) + (['"'] + rest));
    assert (Quote(text) + rest)[1..] == Escape(text) + (['"'] + rest);
  }

  // An empty hex string is read back only when no space follows: skipping
  // leading space would swallow it.
  lemma {:induction false} TakeShownBytes(data: Bytes, rest: string)
    requires Delimited(rest)
    ensures TakeToken(KBytes, Hex(data) + rest) == Some((Blob(data), rest)) <==> data != [] || !StartsWithSpace(rest)
  {
    UnhexUndoesHex(data);
    if data != [] {
      TakeShownToken(KBytes, Hex(data), Blob(data), rest);
    } else {
      assert Hex(data) + rest == rest;
      if StartsWithSpace(rest) { TrimShrinks(rest); } else { SpanOfToken([], rest); assert [] + rest == rest; }
    }
  }

  lemma {:induction false} TrimShrinks(s: string)
    requires StartsWithSpace(s)
    ensures |TrimStart(s)| < |s|
  {
  }

  lemma {:induction false} DecimalIsNotBits(decimal: string, rest: string)
    requires IsToken(decimal) && decimal != "bits" && Delimited(rest)
    ensures StripPrefix(decimal + rest, "bits ") == None
  {
    var text, n := decimal + rest, |decimal|;
    if n >= 5 { StripMiss(text, "bits ", 4); }
    else if n < 4 { StripMiss(text, "bits ", n); }
    else if StripPrefix(text, "bits ").Some? { assert text[..5][..4] == decimal; }
  }

  lemma {:induction false} TakeShownFloat(floats: Floats, bits: U64, rest: string)
    requires Sane(floats) && Delimited(rest)
    ensures TakeFloat(floats, ShowFloat(floats, bits) + rest) == Some((Float(bits), rest))
  {
    var decimal := floats.show(bits);
    if floats.parse(decimal) == Some(bits) {
      TrimToken(decimal, rest);
      DecimalIsNotBits(decimal, rest);
      SpanOfToken(decimal, rest);
    } else {
      TakeShownBits(bits, rest);
      var token := "0x" + ShowNat(bits, Hexadecimal);
      assert ("bits " + token) + rest == "bits " + (token + rest);
      StripHit("bits ", token + rest);
    }
  }

  lemma {:induction false} TakeShownBits(bits: U64, rest: string)
    requires Delimited(rest)
    ensures
      var token := "0x" + ShowNat(bits, Hexadecimal);
      && TrimStart(token + rest) == token + rest
      && TokenSpan(token + rest) == (token, rest)
      && ReadU64Token(token) == Some(bits)
  {
    var token := "0x" + ShowNat(bits, Hexadecimal);
    NatRoundTrip(bits, Hexadecimal);
    UintRoundTrip(bits, Hexadecimal, U64_MAX);
    TrimToken(token, rest);
    SpanOfToken(token, rest);
    StripHit("0x", ShowNat(bits, Hexadecimal));
  }

  lemma {:induction false} FieldLengthOf(token: string, rest: string)
    requires (forall i | 0 <= i < |token| :: !Ends(token[i]))
    ensures FieldLength(token + (" " + rest)) == |token|
  {
    if token == [] {
      assert token + (" " + rest) == " " + rest;
    } else {
      FieldLengthOf(token[1..], rest);
      assert (token + (" " + rest))[1..] == token[1..] + (" " + rest);
    }
  }

  lemma {:induction false} TakeShownField(n: nat, max: nat, rest: string)
    requires n <= max
    ensures TakeField(FieldOnto(n, rest), max) == Some((n, rest))
  {
    var token := ShowNat(n, Decimal);
    NatRoundTrip(n, Decimal);
    UintRoundTrip(n, Decimal, max);
    FieldLengthOf(token, rest);
    var s := FieldOnto(n, rest);
    assert s[..|token|] == token && s[|token| + 1..] == rest;
  }

  lemma {:induction false} TakeShownFields(n: nat, k: nat, rest: string, ns: seq<nat>, end: string)
    requires k < 4 && n <= FieldMax(k) && TakeFields(rest, k + 1) == Some((ns, end))
    ensures TakeFields(FieldOnto(n, rest), k) == Some(([n] + ns, end))
  {
    TakeShownField(n, FieldMax(k), rest);
  }

  lemma {:induction false} TakeShownEnvelope(m: Message, rest: string)
    ensures TakeEnvelope(EnvelopeOnto(m, rest)) == Some((Envelope(m.sender, m.replyCap, m.requestId, m.tag), rest))
  {
    assert TakeFields(rest, 4) == Some(([], rest));
    TakeShownFields(m.tag, 3, rest, [], rest);
    var c := FieldOnto(m.tag, rest);
    TakeShownFields(m.requestId, 2, c, [m.tag] + [], rest);
    var b := FieldOnto(m.requestId, c);
    TakeShownFields(m.replyCap, 1, b, [m.requestId] + ([m.tag] + []), rest);
    TakeShownFields(m.sender, 0, FieldOnto(m.replyCap, b), [m.replyCap] + ([m.requestId] + ([m.tag] + [])), rest);
  }

  lemma {:induction false} TakeDispatch(floats: Floats, k: Keyword, body: string)
    ensures Take(floats, Spelling(k) + body) == TakeAfter(floats, k, body)
  {
    KeywordRead(k, body);
    assert TakeTrimmed(floats, Spelling(k) + body) == TakeAfter(floats, k, body);
  }

  lemma {:induction false} KeywordStarts(k: Keyword, body: string)
    ensures TrimStart(Spelling(k) + body) == Spelling(k) + body
    ensures StripPrefix(Spelling(k) + body, "]") == None
  {
    LeadIsFirstTwo(k);
    StripMiss(Spelling(k) + body, "]", 0);
  }

  // The keyword a value's text starts with.
  function KeywordOf(v: Value): Keyword {
    match v
    case Unit => KUnit
    case Bool(_) => KBool
    case Int(_) => KInt
    case Float(_) => KFloat
    case Pid(_) => KPid
    case Cap(_) => KCap
    case Str(_) => KStr
    case Blob(_) => KBytes
    case List(_) => KList
    case Record(_) => KRecord
    case Map(_) => KMap
    case Msg(_) => KMsg
  }

  lemma {:induction false} ShowStarts(floats: Floats, v: Value, rest: string)
    ensures TrimStart(ShowOnto(floats, v, rest)) == ShowOnto(floats, v, rest)
    ensures StripPrefix(ShowOnto(floats, v, rest), "]") == None
  {
    var k, text := KeywordOf(v), ShowOnto(floats, v, rest);
    assert text == Spelling(k) + text[|Spelling(k)|..];
    KeywordStarts(k, text[|Spelling(k)|..]);
  }

  // A value the checked constructors can build.
  predicate WellFormed(v: Value) {
    WithinNestingLimit(v) && Bounded(v)
  }

  // What the text after each kind of keyword is read as, the whole text is.
  lemma {:induction false} TokenTaken(floats: Floats, k: Keyword, body: string)
    requires k.KInt? || k.KPid? || k.KCap? || k.KBytes?
    ensures Take(floats, Spelling(k) + body) == TakeToken(k, body)
  {
    TakeDispatch(floats, k, body);
  }

  lemma {:induction false} UnitTaken(floats: Floats, body: string)
    ensures Take(floats, Spelling(KUnit) + body) == Some((Unit, body))
  {
    TakeDispatch(floats, KUnit, body);
  }

  lemma {:induction false} BoolTaken(floats: Floats, body: string)
    ensures Take(floats, Spelling(KBool) + body) == TakeBool(body)
  {
    TakeDispatch(floats, KBool, body);
  }

  lemma {:induction false} FloatTaken(floats: Floats, body: string)
    ensures Take(floats, Spelling(KFloat) + body) == TakeFloat(floats, body)
  {
    TakeDispatch(floats, KFloat, body);
  }

  lemma {:induction false} StrTaken(floats: Floats, body: string)
    ensures Take(floats, Spelling(KStr) + body) == TakeStr(body)
  {
    TakeDispatch(floats, KStr, body);
  }

  lemma {:induction false} TakeShownNumber(floats: Floats, v: Value, rest: string)
    requires Delimited(rest) && (v.Int? || v.Pid? || v.Cap?)
    ensures ReadsBack(floats, v, rest)
  {
    match v
    case Int(i) =>
      IntRoundTrip(i);
      TakeShownToken(KInt, ShowInt(i), v, rest);
      TokenTaken(floats, KInt, ShowInt(i) + rest);
    case Pid(p) =>
      NatRoundTrip(p, Decimal);
      UintRoundTrip(p, Decimal, U64_MAX);
      TakeShownToken(KPid, ShowNat(p, Decimal), v, rest);
      TokenTaken(floats, KPid, ShowNat(p, Decimal) + rest);
    case Cap(id) =>
      NatRoundTrip(id, Decimal);
      UintRoundTrip(id, Decimal, U128_MAX);
      TakeShownToken(KCap, ShowNat(id, Decimal), v, rest);
      TokenTaken(floats, KCap, ShowNat(id, Decimal) + rest);
  }

  lemma {:induction false} TakeShownLeaf(floats: Floats, v: Value, rest: string)
    requires Sane(floats) && Delimited(rest) && !v.List? && !v.Record? && !v.Map? && !v.Msg?
    ensures ReadsBack(floats, v, rest) <==> !(EndsOpen(v) && StartsWithSpace(rest))
  {
    match v
    case Unit => UnitTaken(floats, rest);
    case Bool(b) =>
      BoolTaken(floats, (if b then "true" else "false") + rest);
      TakeShownBool(b, rest);
    case Float(bits) =>
      FloatTaken(floats, ShowFloat(floats, bits) + rest);
      TakeShownFloat(floats, bits, rest);
    case Str(t) =>
      StrTaken(floats, Quote(t) + rest);
      TakeShownStr(t, rest);
    case Blob(data) =>
      TokenTaken(floats, KBytes, Hex(data) + rest);
      TakeShownBytes(data, rest);
    case _ => TakeShownNumber(floats, v, rest);
  }

  // Taking the text of a well-formed value in front of a delimiter gives back
  // the value and what follows, unless the text ends in an empty hex string and
  // a space follows.
  lemma {:induction false} TakeShown(floats: Floats, v: Value, rest: string)
    requires Sane(floats) && WellFormed(v) && Delimited(rest)
    ensures ReadsBack(floats, v, rest) <==> !(EndsOpen(v) && StartsWithSpace(rest))
    decreases v, 1
  {
    match v
    case Msg(m) =>
      WalkShallower(m.payload, 1, 0);
      TakeShown(floats, m.payload, rest);
      TakeShownMsg(floats, m, rest);
    case List(items) =>
      TakeShownList(floats, items, rest);
      ListAccepted(items, rest);
      ListTaken(floats, ItemsOnto(floats, items, "]" + rest));
    case Record(fields) =>
      TakeShownList(floats, fields, rest);
      RecordAccepted(fields, rest);
      RecordTaken(floats, ItemsOnto(floats, fields, "]" + rest));
    case Map(entries) =>
      TakeShownMap(floats, entries, rest);
      MapAccepted(entries, rest);
      MapTaken(floats, EntriesOnto(floats, entries, "]" + rest));
    case _ => TakeShownLeaf(floats, v, rest);
  }

  lemma {:induction false} ListTaken(floats: Floats, body: string)
    ensures Take(floats, Spelling(KList) + body) == ListOf(TakeList(floats, body))
  {
    TakeDispatch(floats, KList, body);
  }

  lemma {:induction false} RecordTaken(floats: Floats, body: string)
    ensures Take(floats, Spelling(KRecord) + body) == RecordOf(TakeList(floats, body))
  {
    TakeDispatch(floats, KRecord, body);
    AfterRecord(floats, body);
  }

  lemma {:induction false} AfterRecord(floats: Floats, body: string)
    ensures TakeAfter(floats, KRecord, body) == RecordOf(TakeList(floats, body))
  {
  }

  lemma {:induction false} MapTaken(floats: Floats, body: string)
    ensures Take(floats, Spelling(KMap) + body) == MapOf(TakeMap(floats, body))
  {
    TakeDispatch(floats, KMap, body);
  }

  lemma {:induction false} MsgTaken(floats: Floats, body: string)
    ensures Take(floats, Spelling(KMsg) + body) == TakeMsg(floats, body)
  {
    TakeDispatch(floats, KMsg, body);
    AfterMsg(floats, body);
  }

  lemma {:induction false} AfterMsg(floats: Floats, body: string)
    ensures TakeAfter(floats, KMsg, body) == TakeMsg(floats, body)
  {
  }

  // The checked constructors accept the parts of a well-formed value.
  lemma {:induction false} ListAccepted(items: seq<Value>, rest: string)
    requires WellFormed(List(items))
    ensures ListOf(Some((items, rest))) == Some((List(items), rest))
  {
  }

  lemma {:induction false} RecordAccepted(fields: seq<Value>, rest: string)
    requires WellFormed(Record(fields))
    ensures RecordOf(Some((fields, rest))) == Some((Record(fields), rest))
  {
    assert Walk(List(fields), 0);
  }

  lemma {:induction false} MapAccepted(entries: seq<Entry>, rest: string)
    requires WellFormed(Map(entries))
    ensures MapOf(Some((entries, rest))) == Some((Map(entries), rest))
  {
  }

  // A message is read as its payload is.
  lemma {:induction false} TakeShownMsg(floats: Floats, m: Message, rest: string)
    ensures ReadsBack(floats, Msg(m), rest) <==> ReadsBack(floats, m.payload, rest)
  {
    MsgReadsBack(floats, m, ShowOnto(floats, m.payload, rest), rest);
  }

  lemma {:induction false} MsgReadsBack(floats: Floats, m: Message, after: string, rest: string)
    ensures Take(floats, Spelling(KMsg) + EnvelopeOnto(m, after)) == Some((Msg(m), rest))
      <==> Take(floats, after) == Some((m.payload, rest))
  {
    var body, e := EnvelopeOnto(m, after), Envelope(m.sender, m.replyCap, m.requestId, m.tag);
    MsgTaken(floats, body);
    PayloadTaken(floats, m, after);
    MsgOfIs(e, Take(floats, after), m, rest);
  }

  lemma {:induction false} MsgOfIs(e: Envelope, payload: Option<(Value, string)>, m: Message, rest: string)
    requires e == Envelope(m.sender, m.replyCap, m.requestId, m.tag)
    ensures MsgOf(e, payload) == Some((Msg(m), rest)) <==> payload == Some((m.payload, rest))
  {
  }

  lemma {:induction false} PayloadTaken(floats: Floats, m: Message, after: string)
    ensures TakeMsg(floats, EnvelopeOnto(m, after)) ==
      MsgOf(Envelope(m.sender, m.replyCap, m.requestId, m.tag), Take(floats, after))
  {
    TakeShownEnvelope(m, after);
    assert TakePayload(floats, Some((Envelope(m.sender, m.replyCap, m.requestId, m.tag), after)))
      == MsgOf(Envelope(m.sender, m.replyCap, m.requestId, m.tag), Take(floats, after));
  }

  lemma {:induction false} TakeShownList(floats: Floats, items: seq<Value>, rest: string)
    requires Sane(floats) && forall i | 0 <= i < |items| :: Walk(items[i], 1) && Bounded(items[i])
    ensures TakeList(floats, ItemsOnto(floats, items, "]" + rest)) == Some((items, rest))
    decreases items, 2
  {
    var text := ItemsOnto(floats, items, "]" + rest);
    if items == [] {
      StripHit("]", rest);
    } else {
      TakeShownItems(floats, items, rest);
      ItemsStart(floats, items, "]" + rest);
    }
  }

  // The two ways one turn of the item loop can go.
  lemma {:induction false} LastItem(floats: Floats, s: string, item: Value, rest: string)
    requires Take(floats, s) == Some((item, "]" + rest))
    ensures TakeItems(floats, s) == Some(([item], rest))
  {
    StripHit("]", rest);
  }

  lemma {:induction false} NextItem(
    floats: Floats, s: string, item: Value, more: string, items: seq<Value>, rest: string)
    requires Take(floats, s) == Some((item, ", " + more)) && TrimStart(more) == more
    requires TakeItems(floats, more) == Some((items, rest))
    ensures TakeItems(floats, s) == Some(([item] + items, rest))
  {
    SeparatorRead(more);
  }

  lemma {:induction false} ItemsStart(floats: Floats, items: seq<Value>, rest: string)
    requires items != []
    ensures TrimStart(ItemsOnto(floats, items, rest)) == ItemsOnto(floats, items, rest)
    ensures StripPrefix(ItemsOnto(floats, items, rest), "]") == None
  {
    ShowStarts(floats, items[0], if |items| == 1 then rest else ", " + ItemsOnto(floats, items[1..], rest));
  }

  lemma {:induction false} TakeShownItems(floats: Floats, items: seq<Value>, rest: string)
    requires Sane(floats) && items != [] && forall i | 0 <= i < |items| :: Walk(items[i], 1) && Bounded(items[i])
    ensures TakeItems(floats, ItemsOnto(floats, items, "]" + rest)) == Some((items, rest))
    decreases items, 0
  {
    WalkShallower(items[0], 1, 0);
    if |items| == 1 {
      TakeShown(floats, items[0], "]" + rest);
      LastShown(floats, items[0], rest);
      assert items == [items[0]];
    } else {
      var more := ItemsOnto(floats, items[1..], "]" + rest);
      TakeShown(floats, items[0], ", " + more);
      TakeShownItems(floats, items[1..], rest);
      NextShown(floats, items, rest);
    }
  }

  lemma {:induction false} LastShown(floats: Floats, item: Value, rest: string)
    requires ReadsBack(floats, item, "]" + rest)
    ensures TakeItems(floats, ShowOnto(floats, item, "]" + rest)) == Some(([item], rest))
  {
    LastItem(floats, ShowOnto(floats, item, "]" + rest), item, rest);
  }

  lemma {:induction false} NextShown(floats: Floats, items: seq<Value>, rest: string)
    requires |items| > 1 && ReadsBack(floats, items[0], ", " + ItemsOnto(floats, items[1..], "]" + rest))
    requires TakeItems(floats, ItemsOnto(floats, items[1..], "]" + rest)) == Some((items[1..], rest))
    ensures TakeItems(floats, ItemsOnto(floats, items, "]" + rest)) == Some((items, rest))
  {
    var more := ItemsOnto(floats, items[1..], "]" + rest);
    ItemsStart(floats, items[1..], "]" + rest);
    NextItem(floats, ShowOnto(floats, items[0], ", " + more), items[0], more, items[1..], rest);
    assert items == [items[0]] + items[1..];
  }

  // A comma and a space are skipped.
  lemma {:induction false} SeparatorRead(more: string)
    ensures TrimStart(", " + more) == ", " + more
    ensures StripPrefix(", " + more, "]") == None
    ensures StripPrefix(", " + more, ",") == Some(" " + more)
    ensures TrimStart(" " + more) == TrimStart(more)
  {
    StripMiss(", " + more, "]", 0);
    assert ", " + more == "," + (" " + more);
    StripHit(",", " " + more);
    assert (" " + more)[1..] == more;
  }

  lemma {:induction false} TakeShownKey(floats: Floats, key: MapKey, rest: string)
    requires Sane(floats) && Delimited(rest)
    ensures Take(floats, KeyOnto(key, rest)) == Some((KeyValue(key), rest)) && KeyOf(KeyValue(key)) == Some(key)
  {
    TakeShownLeaf(floats, KeyValue(key), rest);
  }

  lemma {:induction false} ArrowRead(after: string)
    requires TrimStart(after) == after
    ensures StripPrefix(TrimStart(" -> " + after), "->") == Some(" " + after)
    ensures TrimStart(" " + after) == after
  {
    assert (" -> " + after)[1..] == "->" + (" " + after);
    assert TrimStart("->" + (" " + after)) == "->" + (" " + after);
    StripHit("->", " " + after);
    assert (" " + after)[1..] == after;
  }

  lemma {:induction false} TakeShownEntry(floats: Floats, e: Entry, rest: string)
    requires Sane(floats) && Walk(e.value, 1) && Bounded(e.value) && Delimited(rest) && !StartsWithSpace(rest)
    ensures TakeEntry(floats, KeyOnto(e.key, " -> " + ShowOnto(floats, e.value, rest))) == Some((e, rest))
    decreases e, 1
  {
    var after := ShowOnto(floats, e.value, rest);
    TakeShownKey(floats, e.key, " -> " + after);
    ShowStarts(floats, e.value, rest);
    ArrowRead(after);
    WalkShallower(e.value, 1, 0);
    TakeShown(floats, e.value, rest);
  }

  lemma {:induction false} TakeShownMap(floats: Floats, entries: seq<Entry>, rest: string)
    requires Sane(floats) && forall i | 0 <= i < |entries| :: Walk(entries[i].value, 1) && Bounded(entries[i].value)
    ensures TakeMap(floats, EntriesOnto(floats, entries, "]" + rest)) == Some((entries, rest))
    decreases entries, 2
  {
    if entries == [] {
      StripHit("]", rest);
    } else {
      TakeShownEntries(floats, entries, rest);
      EntriesStart(floats, entries, "]" + rest);
    }
  }

  lemma {:induction false} EntriesStart(floats: Floats, entries: seq<Entry>, rest: string)
    requires entries != []
    ensures TrimStart(EntriesOnto(floats, entries, rest)) == EntriesOnto(floats, entries, rest)
    ensures StripPrefix(EntriesOnto(floats, entries, rest), "]") == None
  {
    var value := entries[0].value;
    var after := if |entries| == 1 then rest else ", " + EntriesOnto(floats, entries[1..], rest);
    var tail := " -> " + ShowOnto(floats, value, after);
    match entries[0].key
    case IntKey(n) => KeywordStarts(KInt, ShowInt(n) + tail);
    case StrKey(text) => KeywordStarts(KStr, Quote(text) + tail);
  }

  lemma {:induction false} LastEntry(floats: Floats, s: string, e: Entry, rest: string)
    requires TakeEntry(floats, s) == Some((e, "]" + rest))
    ensures TakeEntries(floats, s) == Some(([e], rest))
  {
    StripHit("]", rest);
  }

  lemma {:induction false} NextEntry(
    floats: Floats, s: string, e: Entry, more: string, entries: seq<Entry>, rest: string)
    requires TakeEntry(floats, s) == Some((e, ", " + more)) && TrimStart(more) == more
    requires TakeEntries(floats, more) == Some((entries, rest))
    ensures TakeEntries(floats, s) == Some(([e] + entries, rest))
  {
    SeparatorRead(more);
  }

  function EntryOnto(floats: Floats, e: Entry, rest: string): string {
    KeyOnto(e.key, " -> " + ShowOnto(floats, e.value, rest))
  }

  lemma {:induction false} TakeShownEntries(floats: Floats, entries: seq<Entry>, rest: string)
    requires Sane(floats) && entries != []
    requires forall i | 0 <= i < |entries| :: Walk(entries[i].value, 1) && Bounded(entries[i].value)
    ensures TakeEntries(floats, EntriesOnto(floats, entries, "]" + rest)) == Some((entries, rest))
    decreases entries, 0
  {
    if |entries| == 1 {
      TakeShownEntry(floats, entries[0], "]" + rest);
      LastEntry(floats, EntryOnto(floats, entries[0], "]" + rest), entries[0], rest);
      assert entries == [entries[0]];
    } else {
      var more := EntriesOnto(floats, entries[1..], "]" + rest);
      TakeShownEntry(floats, entries[0], ", " + more);
      EntriesStart(floats, entries[1..], "]" + rest);
      TakeShownEntries(floats, entries[1..], rest);
      NextEntry(floats, EntryOnto(floats, entries[0], ", " + more), entries[0], more, entries[1..], rest);
      assert entries == [entries[0]] + entries[1..];
    }
  }

  // ------------------------------------------------------- text in one piece

  lemma {:induction false} EnvelopeAppends(m: Message, a: string, b: string)
    ensures EnvelopeOnto(m, a + b) == EnvelopeOnto(m, a) + b
  {
    FieldAppends(m.tag, a, b);
    FieldAppends(m.requestId, FieldOnto(m.tag, a), b);
    FieldAppends(m.replyCap, FieldOnto(m.requestId, FieldOnto(m.tag, a)), b);
    FieldAppends(m.sender, FieldOnto(m.replyCap, FieldOnto(m.requestId, FieldOnto(m.tag, a))), b);
  }

  lemma {:induction false} FieldAppends(n: nat, a: string, b: string)
    ensures FieldOnto(n, a + b) == FieldOnto(n, a) + b
  {
    Wire.CatAssoc(" ", a, b);
    Wire.CatAssoc(ShowNat(n, Decimal), " " + a, b);
  }

  // Writing in front of a text is writing, then the text.
  lemma {:induction false} ShowAppends(floats: Floats, v: Value, a: string, b: string)
    ensures ShowOnto(floats, v, a + b) == ShowOnto(floats, v, a) + b
    decreases v, 1
  {
    var kw := Spelling(KeywordOf(v));
    match v
    case Unit => Wire.CatAssoc(kw, a, b);
    case Msg(m) =>
      ShowAppends(floats, m.payload, a, b);
      EnvelopeAppends(m, ShowOnto(floats, m.payload, a), b);
      Wire.CatAssoc(kw, EnvelopeOnto(m, ShowOnto(floats, m.payload, a)), b);
    case List(items) =>
      Wire.CatAssoc("]", a, b);
      ItemsAppend(floats, items, "]" + a, b);
      Wire.CatAssoc(kw, ItemsOnto(floats, items, "]" + a), b);
    case Record(fields) =>
      Wire.CatAssoc("]", a, b);
      ItemsAppend(floats, fields, "]" + a, b);
      Wire.CatAssoc(kw, ItemsOnto(floats, fields, "]" + a), b);
    case Map(entries) =>
      Wire.CatAssoc("]", a, b);
      EntriesAppend(floats, entries, "]" + a, b);
      Wire.CatAssoc(kw, EntriesOnto(floats, entries, "]" + a), b);
    case _ =>
      var body := LeafText(floats, v);
      Wire.CatAssoc(body, a, b);
      Wire.CatAssoc(kw, body + a, b);
  }

  function LeafText(floats: Floats, v: Value): string {
    match v
    case Bool(b) => if b then "true" else "false"
    case Int(i) => ShowInt(i)
    case Float(bits) => ShowFloat(floats, bits)
    case Pid(p) => ShowNat(p, Decimal)
    case Cap(id) => ShowNat(id, Decimal)
    case Str(text) => Quote(text)
    case Blob(data) => Hex(data)
    case _ => ""
  }

  lemma {:induction false} ItemsAppend(floats: Floats, items: seq<Value>, a: string, b: string)
    ensures ItemsOnto(floats, items, a + b) == ItemsOnto(floats, items, a) + b
    decreases items, 0
  {
    if |items| == 1 {
      ShowAppends(floats, items[0], a, b);
    } else if |items| > 1 {
      ItemsAppend(floats, items[1..], a, b);
      Wire.CatAssoc(", ", ItemsOnto(floats, items[1..], a), b);
      ShowAppends(floats, items[0], ", " + ItemsOnto(floats, items[1..], a), b);
    }
  }

  lemma {:induction false} KeyAppends(key: MapKey, a: string, b: string)
    ensures KeyOnto(key, a + b) == KeyOnto(key, a) + b
  {
    var text := if key.IntKey? then ShowInt(key.n) else Quote(key.text);
    Wire.CatAssoc(text, a, b);
    Wire.CatAssoc(Spelling(if key.IntKey? then KInt else KStr), text + a, b);
  }

  lemma {:induction false} EntryAppends(floats: Floats, e: Entry, a: string, b: string)
    ensures EntryOnto(floats, e, a + b) == EntryOnto(floats, e, a) + b
    decreases e, 1
  {
    ShowAppends(floats, e.value, a, b);
    Wire.CatAssoc(" -> ", ShowOnto(floats, e.value, a), b);
    KeyAppends(e.key, " -> " + ShowOnto(floats, e.value, a), b);
  }

  lemma {:induction false} EntriesAppend(floats: Floats, entries: seq<Entry>, a: string, b: string)
    ensures EntriesOnto(floats, entries, a + b) == EntriesOnto(floats, entries, a) + b
    decreases entries, 0
  {
    if |entries| == 1 {
      EntryAppends(floats, entries[0], a, b);
    } else if |entries| > 1 {
      EntriesAppend(floats, entries[1..], a, b);
      Wire.CatAssoc(", ", EntriesOnto(floats, entries[1..], a), b);
      EntryAppends(floats, entries[0], ", " + EntriesOnto(floats, entries[1..], a), b);
    }
  }

  // The round trip of the text form: for every well-formed value and every
  // continuation that is empty or starts with a comma, a closing bracket or a
  // space, the value and the continuation come back, except that a space after
  // an empty hex string is lost.
  lemma {:induction false} TextRoundTrip(floats: Floats, v: Value, rest: string)
    requires Sane(floats) && WellFormed(v) && Delimited(rest)
    ensures Take(floats, Show(floats, v) + rest) == Some((v, rest)) <==> !(EndsOpen(v) && StartsWithSpace(rest))
  {
    ShowAppends(floats, v, "", rest);
    assert "" + rest == rest;
    TakeShown(floats, v, rest);
  }

  // The exception is real: one space after an empty `bytes` is not given back.
  lemma {:induction false} EmptyBytesSwallowsSpace(floats: Floats)
    requires Sane(floats)
    ensures WellFormed(Blob([])) && Take(floats, Show(floats, Blob([])) + " ") != Some((Blob([]), " "))
  {
    TextRoundTrip(floats, Blob([]), " ");
  }
}
