// Text as the server stores and cuts it: UTF-8 bytes (section 3 of RFC 3629), character boundaries, the
// byte-limited tail of a log and whitespace trimming.

module Utf8 {
  import opened Prelude

  type Byte = b: int | 0 <= b < 256

  // The bytes of one character.
  function EncodeChar(c: char): (bytes: seq<Byte>)
    ensures 1 <= |bytes| <= 4
    ensures !IsContinuation(bytes[0]) && forall i :: 1 <= i < |bytes| ==> IsContinuation(bytes[i])
  {
    var n := c as int;
    if n < 0x80 then [n]
    else if n < 0x800 then [0xC0 + n / 0x40, Continuation(n)]
    else if n < 0x1_0000 then [0xE0 + n / 0x1000, Continuation(n / 0x40), Continuation(n)]
    else [0xF0 + n / 0x4_0000, Continuation(n / 0x1000), Continuation(n / 0x40), Continuation(n)]
  }

  function Continuation(n: nat): Byte {
    0x80 + n % 0x40
  }

  predicate IsContinuation(b: Byte) {
    0x80 <= b < 0xC0
  }

  function Encode(text: string): seq<Byte> {
    if text == [] then [] else EncodeChar(text[0]) + Encode(text[1..])
  }

  // ----- reading the bytes back, by the bit layouts of section 3 of RFC 3629 -----

  // How many bytes a character takes, by its first one: 0xxxxxxx, 110xxxxx, 1110xxxx or 11110xxx.
  function Width(first: Byte): nat {
    if first < 0x80 then 1 else if first < 0xE0 then 2 else if first < 0xF0 then 3 else 4
  }

  // The bits of a byte after its prefix.
  function Payload(b: int, prefix: int): int {
    b - prefix
  }

  function CodePoint(bytes: seq<Byte>): int
    requires 1 <= |bytes| <= 4
  {
    match |bytes|
    case 1 => bytes[0]
    case 2 => Payload(bytes[0], 0xC0) * 0x40 + Payload(bytes[1], 0x80)
    case 3 => Payload(bytes[0], 0xE0) * 0x1000 + Payload(bytes[1], 0x80) * 0x40 + Payload(bytes[2], 0x80)
    case _ =>
      Payload(bytes[0], 0xF0) * 0x4_0000 + Payload(bytes[1], 0x80) * 0x1000 + Payload(bytes[2], 0x80) * 0x40
        + Payload(bytes[3], 0x80)
  }

  // None is a text cut inside a character.
  function Decode(bytes: seq<Byte>): Option<seq<int>> {
    if bytes == [] then Some([])
    else
      var width := Width(bytes[0]);
      if width > |bytes| then None
      else
        match Decode(bytes[width..])
        case None => None
        case Some(rest) => Some([CodePoint(bytes[..width])] + rest)
  }

  function CodePoints(text: string): seq<int> {
    seq(|text|, i requires 0 <= i < |text| => text[i] as int)
  }

  // The length of a character goes by its code point, and its bytes say that length and carry the code
  // point.
  lemma EncodeCharDecides(c: char)
    ensures var n, bytes := c as int, EncodeChar(c);
            && (|bytes| == 1 <==> n < 0x80)
            && (|bytes| == 2 <==> 0x80 <= n < 0x800)
            && (|bytes| == 3 <==> 0x800 <= n < 0x1_0000)
            && (|bytes| == 4 <==> 0x1_0000 <= n)
            && Width(bytes[0]) == |bytes|
            && CodePoint(bytes) == n
  {
    SixBitGroups(c as int);
  }

  lemma SixBitGroups(n: nat)
    ensures n / 0x1000 == n / 0x40 / 0x40 && n / 0x4_0000 == n / 0x40 / 0x40 / 0x40
  {
  }

  // Every text reads back from its bytes, code point by code point.
  lemma {:induction false} EncodeThenDecode(text: string)
    ensures Decode(Encode(text)) == Some(CodePoints(text))
  {
    if text != [] {
      var first, rest := EncodeChar(text[0]), Encode(text[1..]);
      EncodeCharDecides(text[0]);
      EncodeThenDecode(text[1..]);
      assert (first + rest)[..|first|] == first && (first + rest)[|first|..] == rest;
      assert CodePoints(text) == [text[0] as int] + CodePoints(text[1..]);
    } else {
      assert CodePoints(text) == [];
    }
  }

  // `str::is_char_boundary`: an end of the text, or a byte that does not continue a character.
  predicate IsCharBoundary(bytes: seq<Byte>, i: nat) {
    i == 0 || i == |bytes| || (i < |bytes| && !IsContinuation(bytes[i]))
  }

  // The first boundary at `i` or later.
  function FirstBoundary(bytes: seq<Byte>, i: nat): (start: nat)
    requires i <= |bytes|
    ensures i <= start <= |bytes| && IsCharBoundary(bytes, start)
    ensures forall k: nat :: i <= k < start ==> !IsCharBoundary(bytes, k)
    decreases |bytes| - i
  {
    if IsCharBoundary(bytes, i) then i else FirstBoundary(bytes, i + 1)
  }

  // The number of characters encoded by the first `i` bytes; only a boundary has one.
  function CharsBefore(text: string, i: nat): (k: nat)
    requires i <= |Encode(text)| && IsCharBoundary(Encode(text), i)
    ensures k <= |text| && |Encode(text[..k])| == i && Encode(text[k..]) == Encode(text)[i..]
    decreases |text|
  {
    if i == 0 then 0
    else
      BoundaryInRest(text, i);
      var k := CharsBefore(text[1..], i - |EncodeChar(text[0])|);
      assert text[..k + 1][1..] == text[1..][..k] && text[k + 1..] == text[1..][k..];
      k + 1
  }

  // A boundary after the start lies at or after the end of the first character.
  lemma BoundaryInRest(text: string, i: nat)
    requires 0 < i <= |Encode(text)| && IsCharBoundary(Encode(text), i)
    ensures text != []
    ensures var first := |EncodeChar(text[0])|;
            && first <= i
            && IsCharBoundary(Encode(text[1..]), i - first)
            && Encode(text)[i..] == Encode(text[1..])[i - first..]
  {
    var first := EncodeChar(text[0]);
    var rest := Encode(text[1..]);
    assert Encode(text) == first + rest;
    assert forall k :: 1 <= k < |first| ==> IsContinuation(Encode(text)[k]);
    if |first| < i < |Encode(text)| {
      assert Encode(text)[i] == rest[i - |first|];
    }
  }

  // Unicode's White_Space property, which `str::trim` removes.
  predicate IsWhitespace(c: char) {
    var n := c as int;
    || 0x09 <= n <= 0x0D || n == 0x20 || n == 0x85 || n == 0xA0 || n == 0x1680
    || 0x2000 <= n <= 0x200A || n == 0x2028 || n == 0x2029 || n == 0x202F || n == 0x205F || n == 0x3000
  }

  function TrimStart(text: string): string {
    if text != [] && IsWhitespace(text[0]) then TrimStart(text[1..]) else text
  }

  function TrimEnd(text: string): string {
    if text != [] && IsWhitespace(text[|text| - 1]) then TrimEnd(text[..|text| - 1]) else text
  }

  function Trim(text: string): string {
    TrimEnd(TrimStart(text))
  }

  // Where the kept part of a text longer than `max` bytes starts.
  function TailStart(bytes: seq<Byte>, max: nat): nat
    requires |bytes| > max
  {
    FirstBoundary(bytes, |bytes| - max)
  }

  // What `tail` keeps before trimming: all of a short text, else the characters from `TailStart` on.
  function Kept(text: string, max: nat): string {
    if |Encode(text)| <= max then text
    else text[CharsBefore(text, TailStart(Encode(text), max))..]
  }

  function Tail(text: string, max: nat): string {
    Trim(Kept(text, max))
  }

  // ----- what they are -----

  lemma {:induction false} EncodeSplit(text: string, k: nat)
    requires k <= |text|
    ensures Encode(text) == Encode(text[..k]) + Encode(text[k..])
  {
    if k > 0 {
      EncodeSplit(text[1..], k - 1);
      assert text[..k][1..] == text[1..][..k - 1] && text[k..] == text[1..][k - 1..];
    } else {
      assert text[k..] == text;
    }
  }

  // Character boundaries are exactly the byte offsets at which whole characters end.
  lemma BoundariesAreCharacterEnds(text: string, i: nat)
    requires i <= |Encode(text)|
    ensures IsCharBoundary(Encode(text), i) <==> exists k: nat :: k <= |text| && |Encode(text[..k])| == i
  {
    if IsCharBoundary(Encode(text), i) {
      var k := CharsBefore(text, i);
      assert |Encode(text[..k])| == i;
    }
    forall k: nat | k <= |text| && |Encode(text[..k])| == i ensures IsCharBoundary(Encode(text), i) {
      EncodeSplit(text, k);
      if k < |text| {
        assert Encode(text)[i] == EncodeChar(text[k])[0];
      } else {
        assert text[..k] == text;
      }
    }
  }

  // At any offset a boundary is at most three bytes away.
  lemma BoundaryIsNear(text: string, i: nat)
    requires i <= |Encode(text)|
    ensures FirstBoundary(Encode(text), i) <= i + 3
    decreases |text|
  {
    var bytes := Encode(text);
    if !IsCharBoundary(bytes, i) {
      var first := EncodeChar(text[0]);
      var rest := Encode(text[1..]);
      assert bytes == first + rest;
      if i < |first| {
        if rest != [] {
          assert bytes[|first|] == rest[0] == EncodeChar(text[1])[0];
        }
        assert IsCharBoundary(bytes, |first|);
      } else {
        BoundaryIsNear(text[1..], i - |first|);
        var near := FirstBoundary(rest, i - |first|);
        assert near < |rest| ==> rest[near] == bytes[near + |first|];
        assert near > 0;
        assert IsCharBoundary(bytes, near + |first|);
      }
    }
  }

  lemma {:induction false} ShorterSuffix(text: string, j: nat, k: nat)
    requires j < k <= |text|
    ensures |Encode(text[j..])| > |Encode(text[k..])|
    decreases k - j
  {
    assert text[j..][1..] == text[j + 1..];
    if j + 1 < k {
      ShorterSuffix(text, j + 1, k);
    }
  }

  // For every text and limit, `tail` keeps the longest suffix of whole characters of at most `max`
  // bytes: one character more would exceed the limit, and at most three bytes of it go unused.
  lemma TailIsLongestSuffix(text: string, max: nat)
    ensures var kept := Kept(text, max);
            && |kept| <= |text| && kept == text[|text| - |kept|..]
            && |Encode(kept)| <= max
            && (forall j: nat :: j < |text| - |kept| ==> |Encode(text[j..])| > max)
            && (|Encode(text)| > max ==>
                 max - 3 <= |Encode(kept)| && Encode(kept) == Encode(text)[TailStart(Encode(text), max)..])
  {
    var bytes := Encode(text);
    var kept := Kept(text, max);
    if |bytes| > max {
      var start := TailStart(bytes, max);
      var k := CharsBefore(text, start);
      assert |kept| == |text| - k;
      BoundaryIsNear(text, |bytes| - max);
      forall j: nat | j < k ensures |Encode(text[j..])| > max {
        EncodeSplit(text, j);
        BoundariesAreCharacterEnds(text, |Encode(text[..j])|);
        ShorterSuffix(text, j, k);
      }
    } else {
      assert text[0..] == text;
    }
  }

  ghost predicate Ascii(text: string) {
    forall i :: 0 <= i < |text| ==> text[i] as int < 0x80
  }

  lemma {:induction false} AsciiLength(text: string)
    requires Ascii(text)
    ensures |Encode(text)| == |text|
  {
    if text != [] {
      EncodeCharDecides(text[0]);
      AsciiLength(text[1..]);
    }
  }

  // Of an ASCII text, `tail` keeps the last `max` characters, or all of a shorter text.
  lemma AsciiTail(text: string, max: nat)
    requires Ascii(text)
    ensures Kept(text, max) == if |text| <= max then text else text[|text| - max..]
  {
    var kept := Kept(text, max);
    TailIsLongestSuffix(text, max);
    AsciiLength(text);
    AsciiLength(kept);
    if |text| > max {
      var j := |text| - max;
      AsciiLength(text[j..]);
      assert |kept| >= max;
    }
  }

  // The 25 characters that trimming removes.
  lemma WhitespaceListed(c: char)
    ensures IsWhitespace(c) <==>
            c as int in {0x09, 0x0A, 0x0B, 0x0C, 0x0D, 0x20, 0x85, 0xA0, 0x1680, 0x2000, 0x2001, 0x2002, 0x2003,
                         0x2004, 0x2005, 0x2006, 0x2007, 0x2008, 0x2009, 0x200A, 0x2028, 0x2029, 0x202F, 0x205F, 0x3000}
  {
  }

  ghost predicate Blank(text: string) {
    forall c :: c in text ==> IsWhitespace(c)
  }

  // A text that neither begins nor ends with whitespace.
  ghost predicate Trimmed(text: string) {
    text != [] ==> !IsWhitespace(text[0]) && !IsWhitespace(text[|text| - 1])
  }

  lemma {:induction false} TrimStartCuts(before: string, rest: string)
    requires Blank(before) && (rest != [] ==> !IsWhitespace(rest[0]))
    ensures TrimStart(before + rest) == rest
  {
    if before == [] {
      assert before + rest == rest;
    } else {
      assert (before + rest)[1..] == before[1..] + rest;
      TrimStartCuts(before[1..], rest);
    }
  }

  lemma {:induction false} TrimEndCuts(rest: string, after: string)
    requires Blank(after) && (rest != [] ==> !IsWhitespace(rest[|rest| - 1]))
    ensures TrimEnd(rest + after) == rest
  {
    if after == [] {
      assert rest + after == rest;
    } else {
      assert (rest + after)[..|rest + after| - 1] == rest + after[..|after| - 1];
      TrimEndCuts(rest, after[..|after| - 1]);
    }
  }

  // Trimming recovers any trimmed text from inside any whitespace.
  lemma TrimIsTheCore(before: string, core: string, after: string)
    requires Blank(before) && Blank(after) && Trimmed(core)
    ensures Trim(before + core + after) == core
  {
    if core == [] {
      assert before + core + after == (before + after) + [];
      TrimStartCuts(before + after, []);
    } else {
      assert before + core + after == before + (core + after);
      TrimStartCuts(before, core + after);
      TrimEndCuts(core, after);
    }
  }
}
