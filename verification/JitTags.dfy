/**
 The tag bitmaps as the trace keeps them: four arrays of four 64-bit words
 (byteflow/src/jit/frame.rs), read and written with shifts and masks
 (byteflow/src/jit/compiler.rs, byteflow/src/jit/dispatch.rs). Each method does
 to the words what the function of `JitFrames` does to the sets they stand for.
 */
module JitTags {
  import opened Bits
  import opened JitFrames

  type FourWords = words: seq<bv64> | |words| == 4 witness [0, 0, 0, 0]

  datatype TagArrays = TagArrays(written: FourWords, asBool: FourWords, asUnit: FourWords, asFloat: FourWords)

  ghost function WordsView(words: FourWords): (view: TagWords)
    ensures forall w | 0 <= w < 4 :: view[w] == OneBits(words[w])
  {
    seq(4, w requires 0 <= w < 4 => OneBits(words[w]))
  }

  ghost function TagsView(tags: TagArrays): Tags {
    Tags(WordsView(tags.written), WordsView(tags.asBool), WordsView(tags.asUnit), WordsView(tags.asFloat))
  }

  // `clear_tag_words`
  method ClearWords() returns (r: TagArrays)
    ensures TagsView(r) == Tags(NO_TAGS, NO_TAGS, NO_TAGS, NO_TAGS)
  {
    r := TagArrays([0, 0, 0, 0], [0, 0, 0, 0], [0, 0, 0, 0], [0, 0, 0, 0]);
    NoOneBits();
    assert WordsView([0, 0, 0, 0]) == NO_TAGS;
  }

  // `tag_bit` and `read_reg_bit`
  method TestReg(words: FourWords, reg: nat) returns (on: bool)
    ensures on <==> TagBit(WordsView(words), reg)
  {
    if reg >= 256 { return false; }
    on := TestBit(words[reg / 64], reg % 64);
  }

  // `set_reg_bit` and its variants
  method PutReg(words: FourWords, reg: nat, on: bool) returns (r: FourWords)
    requires reg < 256
    ensures WordsView(r) == SetBit(WordsView(words), reg, on)
  {
    var w := reg / 64;
    var word := PutBit(words[w], reg % 64, on);
    r := words[w := word];
    assert WordsView(r) == WordsView(words)[w := OneBits(word)];
  }

  // The type bits of a register.
  method PutKind(tags: TagArrays, reg: nat, kind: Kind) returns (r: TagArrays)
    requires reg < 256
    ensures TagsView(r) == SetKind(TagsView(tags), reg, kind)
  {
    var asBool := PutReg(tags.asBool, reg, kind.asBool);
    var asUnit := PutReg(tags.asUnit, reg, kind.asUnit);
    var asFloat := PutReg(tags.asFloat, reg, kind.asFloat);
    r := TagArrays(tags.written, asBool, asUnit, asFloat);
  }

  // The type bits, and the bit that says the trace wrote the register.
  method MarkReg(tags: TagArrays, reg: nat, kind: Kind) returns (r: TagArrays)
    requires reg < 256
    ensures TagsView(r) == Mark(TagsView(tags), reg, kind)
  {
    var written := PutReg(tags.written, reg, true);
    var kinds := PutKind(tags, reg, kind);
    r := kinds.(written := written);
  }

  method ReadKind(tags: TagArrays, reg: nat) returns (kind: Kind)
    ensures kind == KindAt(TagsView(tags), reg)
  {
    var asBool := TestReg(tags.asBool, reg);
    var asUnit := TestReg(tags.asUnit, reg);
    var asFloat := TestReg(tags.asFloat, reg);
    kind := Kind(asBool, asUnit, asFloat);
  }

  // The words of a fresh callee: all `Unit`, then the arguments.
  method CalleeWords(kinds: seq<Kind>, n: nat) returns (tags: TagArrays)
    requires |kinds| <= n <= 255
    ensures TagsView(tags) == CalleeTags(kinds, n)
  {
    tags := UnitWords(n);
    for reg := 0 to |kinds|
      invariant TagsView(tags) == WithArgs(UnitTags(n), kinds, reg)
    {
      tags := PutKind(tags, reg, kinds[reg]);
    }
  }

  method UnitWords(n: nat) returns (tags: TagArrays)
    requires n <= 255
    ensures TagsView(tags) == UnitTags(n)
  {
    tags := ClearWords();
    for reg := 0 to n
      invariant TagsView(tags) == UnitTags(reg)
    {
      tags := MarkReg(tags, reg, UNIT_KIND);
    }
  }
}
