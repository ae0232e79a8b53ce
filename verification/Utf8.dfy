/**
 * Cutting text to a number of UTF-8 bytes (section 3 of RFC 3629).
 *
 * The cut is made on the bytes, decoded again, and what was left of a character in the middle
 * of which it fell is taken off as the replacement character the decoder made of it.
 */
module Utf8 {
  import opened Basics

  /** A Unicode scalar value: any code point but a surrogate. */
  type Scalar = c: int | 0 <= c < 0x11_0000 && !(0xD800 <= c < 0xE000)

  type Text = seq<Scalar>

  type Byte = b: int | 0 <= b < 256

  const REPLACEMENT: Scalar := 0xFFFD

  function EncodeOne(c: Scalar): (s: seq<Byte>)
    ensures 1 <= |s| <= 4
  {
    if c < 0x80 then [c]
    else if c < 0x800 then [0xC0 + c / 64, 0x80 + c % 64]
    else if c < 0x1_0000 then [0xE0 + c / 4096, 0x80 + c / 64 % 64, 0x80 + c % 64]
    else [0xF0 + c / 262144, 0x80 + c / 4096 % 64, 0x80 + c / 64 % 64, 0x80 + c % 64]
  }

  function Encode(text: Text): (s: seq<Byte>)
    ensures |s| >= |text|
  {
    if text == [] then [] else EncodeOne(text[0]) + Encode(text[1..])
  }

  function Size(text: Text): nat { |Encode(text)| }

  // ---- decoding any bytes ----

  /** How many bytes go on from a lead byte, and between what bounds the first of them lies. */
  function Lead(b: Byte): (nat, int, int) {
    if 0xC2 <= b <= 0xDF then (1, 0x80, 0xBF)
    else if b == 0xE0 then (2, 0xA0, 0xBF)
    else if b == 0xED then (2, 0x80, 0x9F)
    else if 0xE1 <= b <= 0xEF then (2, 0x80, 0xBF)
    else if b == 0xF0 then (3, 0x90, 0xBF)
    else if b == 0xF4 then (3, 0x80, 0x8F)
    else if 0xF1 <= b <= 0xF3 then (3, 0x80, 0xBF)
    else (0, 0, 0)
  }

  /** How many of the bytes at the front go on with a sequence that wants `need` more. */
  function Goes(s: seq<Byte>, need: nat, low: int, high: int): (k: nat)
    ensures k <= need && k <= |s|
    decreases need
  {
    if need > 0 && s != [] && low <= s[0] <= high then 1 + Goes(s[1..], need - 1, 0x80, 0xBF) else 0
  }

  /** The scalar value a complete sequence stands for. */
  function Assemble(b: Byte, more: seq<Byte>): Scalar
    requires Lead(b).0 > 0 && |more| == Lead(b).0 == Goes(more, Lead(b).0, Lead(b).1, Lead(b).2)
  {
    var (need, low, high) := Lead(b);
    assert low <= more[0] <= high && |more[1..]| == need - 1 == Goes(more[1..], need - 1, 0x80, 0xBF);
    var lead: int := b;
    var first: int := more[0] - 0x80;
    if need == 1 then (lead - 0xC0) * 64 + first
    else
      assert 0x80 <= more[1] <= 0xBF && more[1..][1..] == more[2..];
      var second: int := more[1] - 0x80;
      if need == 2 then (lead - 0xE0) * 4096 + first * 64 + second
      else
        assert 0x80 <= more[2] <= 0xBF;
        (lead - 0xF0) * 262144 + first * 4096 + second * 64 + (more[2] - 0x80)
  }

  /** Each longest piece of a sequence that cannot be completed becomes one replacement character. */
  function Decode(s: seq<Byte>): Text {
    if s == [] then []
    else if s[0] < 0x80 then [s[0]] + Decode(s[1..])
    else
      var (need, low, high) := Lead(s[0]);
      var k := Goes(s[1..], need, low, high);
      if need > 0 && k == need then
        GoesWithin(s[1..], need, low, high);
        [Assemble(s[0], s[1..1 + need])] + Decode(s[1 + need..])
      else [REPLACEMENT] + Decode(s[1 + k..])
  }

  lemma {:induction false} GoesWithin(s: seq<Byte>, need: nat, low: int, high: int)
    ensures Goes(s[..Goes(s, need, low, high)], need, low, high) == Goes(s, need, low, high)
    decreases need
  {
    if need > 0 && s != [] && low <= s[0] <= high {
      GoesWithin(s[1..], need - 1, 0x80, 0xBF);
      var k := Goes(s[1..], need - 1, 0x80, 0xBF);
      assert s[..k + 1][1..] == s[1..][..k];
    }
  }

  /** A byte that begins no character, a stray continuation or one that UTF-8 never has, is one replacement character. */
  lemma StrayByte(s: seq<Byte>)
    requires s != [] && (0x80 <= s[0] < 0xC2 || s[0] > 0xF4)
    ensures Decode(s) == [REPLACEMENT] + Decode(s[1..])
  {
    StrayLead(s[0]);
    NoneGoes(s[1..], Lead(s[0]).1, Lead(s[0]).2);
    hide Assemble, Lead, Goes;
    assert s[1 + 0..] == s[1..];
  }

  lemma StrayLead(b: Byte)
    requires 0x80 <= b < 0xC2 || b > 0xF4
    ensures Lead(b).0 == 0
  {
  }

  lemma NoneGoes(s: seq<Byte>, low: int, high: int)
    ensures Goes(s, 0, low, high) == 0
  {
  }

  // ---- decoding what was encoded ----

  lemma EncodedBytes(c: Scalar)
    requires c >= 0x80
    ensures var e := EncodeOne(c); var (need, low, high) := Lead(e[0]);
      && e[0] >= 0x80 && need == |e| - 1 > 0 && low <= e[1] <= high
      && forall j :: 2 <= j < |e| ==> 0x80 <= e[j] <= 0xBF
  {
  }

  lemma {:induction false} GoesFor(s: seq<Byte>, k: nat, need: nat, low: int, high: int)
    requires k <= |s| && k <= need && (k == need || k == |s|)
    requires (k > 0 ==> low <= s[0] <= high) && forall j :: 1 <= j < k ==> 0x80 <= s[j] <= 0xBF
    ensures Goes(s, need, low, high) == k
    decreases k
  {
    if k > 0 { GoesFor(s[1..], k - 1, need - 1, 0x80, 0xBF); }
  }

  /** The bytes after the first of an encoded character go on from it, as far as they are there. */
  lemma EncodedGoes(c: Scalar, k: nat, rest: seq<Byte>)
    requires c >= 0x80 && 1 <= k <= |EncodeOne(c)| && (rest == [] || k == |EncodeOne(c)|)
    ensures var s := EncodeOne(c)[..k] + rest; var (need, low, high) := Lead(s[0]);
      && s[0] >= 0x80 && need == |EncodeOne(c)| - 1 && s[1..][..k - 1] == EncodeOne(c)[1..k]
      && Goes(s[1..], need, low, high) == k - 1
  {
    EncodedBytes(c);
    hide EncodeOne, Lead, Goes;
    var e := EncodeOne(c);
    var s := e[..k] + rest;
    var (need, low, high) := Lead(e[0]);
    assert forall j :: 0 <= j < k - 1 ==> s[1..][j] == e[j + 1];
    GoesFor(s[1..], k - 1, need, low, high);
  }

  lemma AssembleEncoded(c: Scalar)
    requires c >= 0x80
    ensures var e := EncodeOne(c); var (need, low, high) := Lead(e[0]);
      && need == |e| - 1 > 0 && Goes(e[1..], need, low, high) == need && Assemble(e[0], e[1..]) == c
  {
    var e := EncodeOne(c);
    EncodedGoes(c, |e|, []);
    assert e[..|e|] + [] == e && e[1..][..|e| - 1] == e[1..];
    hide Goes;
    Digits(c);
  }

  lemma Digits(c: nat)
    ensures c == 64 * (c / 64) + c % 64
    ensures c / 64 == 64 * (c / 4096) + c / 64 % 64
    ensures c / 4096 == 64 * (c / 262144) + c / 4096 % 64
  {
  }

  lemma DecodeWhole(c: Scalar, rest: seq<Byte>)
    ensures Decode(EncodeOne(c) + rest) == [c] + Decode(rest)
  {
    var e := EncodeOne(c);
    var s := e + rest;
    if c < 0x80 {
      assert s[1..] == rest;
    } else {
      EncodedGoes(c, |e|, rest);
      assert e[..|e|] + rest == s;
      AssembleEncoded(c);
      hide EncodeOne, Goes, Lead, Assemble;
      assert s[1..|e|] == e[1..] && s[|e|..] == rest;
    }
  }

  lemma DecodePart(c: Scalar, k: nat)
    requires 0 < k < |EncodeOne(c)|
    ensures Decode(EncodeOne(c)[..k]) == [REPLACEMENT]
  {
    var s := EncodeOne(c)[..k];
    EncodedGoes(c, k, []);
    assert s + [] == s;
    hide EncodeOne, Goes, Lead;
    assert s[1 + (k - 1)..] == [];
    assert Decode([]) == [];
  }

  /** Decoding undoes encoding. */
  lemma {:induction false} DecodeUndoesEncode(text: Text)
    ensures Decode(Encode(text)) == text
  {
    if text != [] {
      DecodeWhole(text[0], Encode(text[1..]));
      DecodeUndoesEncode(text[1..]);
    }
  }

  // ---- cutting ----

  /** How many whole characters fit in `max` bytes. */
  function Fit(text: Text, max: nat): (n: nat)
    ensures n <= |text|
  {
    if text == [] || |EncodeOne(text[0])| > max then 0 else 1 + Fit(text[1..], max - |EncodeOne(text[0])|)
  }

  lemma {:induction false} SizeAdds(a: Text, b: Text)
    ensures Encode(a + b) == Encode(a) + Encode(b)
  {
    if a == [] {
      assert a + b == b;
    } else {
      assert (a + b)[1..] == a[1..] + b;
      SizeAdds(a[1..], b);
    }
  }

  lemma {:induction false} FitMeans(text: Text, max: nat)
    ensures Size(text[..Fit(text, max)]) <= max
    ensures Fit(text, max) < |text| ==> Size(text[..Fit(text, max) + 1]) > max
  {
    hide EncodeOne;
    if text != [] && |EncodeOne(text[0])| <= max {
      var rest := text[1..];
      var n := Fit(rest, max - |EncodeOne(text[0])|);
      FitMeans(rest, max - |EncodeOne(text[0])|);
      assert text[..n + 1][1..] == rest[..n];
      if n < |rest| { assert text[..n + 2][1..] == rest[..n + 1]; }
    } else if text != [] {
      assert text[..1][1..] == [];
    }
  }

  /** A cut behind the first character, and one within it. */
  lemma CutBehind(c: Scalar, rest: Text, max: nat)
    requires |EncodeOne(c)| <= max <= Size([c] + rest)
    ensures max - |EncodeOne(c)| <= Size(rest)
    ensures Decode(Encode([c] + rest)[..max]) == [c] + Decode(Encode(rest)[..max - |EncodeOne(c)|])
  {
    var e := EncodeOne(c);
    assert ([c] + rest)[1..] == rest;
    hide EncodeOne, Decode;
    DecodeWhole(c, Encode(rest)[..max - |e|]);
    assert Encode([c] + rest)[..max] == e + Encode(rest)[..max - |e|];
  }

  lemma CutWithin(c: Scalar, rest: Text, max: nat)
    requires max < |EncodeOne(c)|
    ensures Decode(Encode([c] + rest)[..max]) == if max == 0 then [] else [REPLACEMENT]
  {
    assert ([c] + rest)[1..] == rest;
    assert Encode([c] + rest)[..max] == EncodeOne(c)[..max];
    hide EncodeOne, Encode, Decode;
    if max > 0 {
      DecodePart(c, max);
    } else {
      DecodeNone();
    }
  }

  /** The whole characters that fit, and a mark for one cut through. */
  function CutText(text: Text, max: nat): Text {
    var whole := text[..Fit(text, max)];
    if Size(whole) < max then whole + [REPLACEMENT] else whole
  }

  lemma CutStep(c: Scalar, rest: Text, max: nat)
    ensures var e := |EncodeOne(c)|;
      CutText([c] + rest, max) ==
        if e <= max then [c] + CutText(rest, max - e) else if max > 0 then [REPLACEMENT] else []
  {
    var text := [c] + rest;
    assert text[1..] == rest;
    FitStep(c, rest, max);
    hide EncodeOne, Encode, Fit, Size;
    var e := |EncodeOne(c)|;
    if e <= max {
      var whole := rest[..Fit(rest, max - e)];
      SizeFirst(c, whole);
      assert text[..|whole| + 1] == [c] + whole;
      assert [c] + (whole + [REPLACEMENT]) == ([c] + whole) + [REPLACEMENT];
    } else {
      SizeFirst(c, []);
    }
  }

  lemma FitStep(c: Scalar, rest: Text, max: nat)
    ensures var e := |EncodeOne(c)|; Fit([c] + rest, max) == if e > max then 0 else 1 + Fit(rest, max - e)
  {
    hide EncodeOne;
    assert ([c] + rest)[1..] == rest;
  }

  lemma SizeFirst(c: Scalar, rest: Text)
    ensures Size([c] + rest) == |EncodeOne(c)| + Size(rest) && Size([]) == 0
  {
    hide EncodeOne;
    assert ([c] + rest)[1..] == rest;
  }

  /** Decoding a cut: the whole characters, and a replacement for one it fell in the middle of. */
  lemma {:induction false} DecodeCut(text: Text, max: nat)
    requires max <= Size(text)
    ensures Decode(Encode(text)[..max]) == CutText(text, max)
  {
    if text != [] {
      hide EncodeOne, Encode, Decode, CutText, Size;
      var c, rest := text[0], text[1..];
      assert text == [c] + rest;
      CutStep(c, rest, max);
      if |EncodeOne(c)| <= max {
        CutBehind(c, rest, max);
        DecodeCut(rest, max - |EncodeOne(c)|);
      } else {
        CutWithin(c, rest, max);
      }
    } else {
      DecodeNone();
    }
  }

  lemma DecodeNone()
    ensures Decode([]) == []
  {
  }

  function StripTrailingReplacementChar(text: Text): Text {
    if text != [] && text[|text| - 1] == REPLACEMENT then text[..|text| - 1] else text
  }

  function TruncateToByteLimit(text: Text, max: nat): Text {
    if Size(text) <= max then text else StripTrailingReplacementChar(Decode(Encode(text)[..max]))
  }

  /** A text that ends in a replacement character of its own just where it is cut. */
  predicate EndsReplaced(text: Text, max: nat) {
    var whole := text[..Fit(text, max)];
    Size(whole) == max && whole != [] && whole[|whole| - 1] == REPLACEMENT
  }

  /**
   * A text is cut to the whole characters that fit, and to one fewer where the last of them
   * ends on the limit and is itself a replacement character; either way it comes within three
   * bytes of the limit and never past it.
   */
  lemma TruncationKeeps(text: Text, max: nat)
    ensures Size(text) <= max ==> TruncateToByteLimit(text, max) == text
    ensures Size(text) > max ==>
      TruncateToByteLimit(text, max) == text[..if EndsReplaced(text, max) then Fit(text, max) - 1 else Fit(text, max)]
      && Size(TruncateToByteLimit(text, max)) + 3 >= max
    ensures TruncateToByteLimit(text, max) <= text && Size(TruncateToByteLimit(text, max)) <= max
  {
    if Size(text) > max { OverLongKeeps(text, max); }
  }

  lemma OverLongKeeps(text: Text, max: nat)
    requires Size(text) > max
    ensures var n := Fit(text, max); var kept := TruncateToByteLimit(text, max);
      && kept == text[..if EndsReplaced(text, max) then n - 1 else n]
      && Size(kept) <= max <= Size(kept) + 3
  {
    hide EncodeOne, Encode, Decode, Fit, Size;
    var n := Fit(text, max);
    var whole := text[..n];
    DecodeCut(text, max);
    FitMeans(text, max);
    assert n == |text| ==> whole == text;
    SizeLonger(text, n);
    StripMark(whole);
    if Size(whole) == max && EndsReplaced(text, max) {
      SizeLonger(text, n - 1);
      ReplacementSize();
      assert whole[..n - 1] == text[..n - 1];
    }
  }

  lemma StripMark(t: Text)
    ensures StripTrailingReplacementChar(t + [REPLACEMENT]) == t
  {
    assert (t + [REPLACEMENT])[..|t|] == t;
  }

  lemma SizeLonger(text: Text, n: nat)
    requires n < |text|
    ensures Size(text[..n + 1]) == Size(text[..n]) + |EncodeOne(text[n])|
  {
    assert text[..n + 1] == text[..n] + [text[n]];
    SizeAdds(text[..n], [text[n]]);
    assert Encode([text[n]]) == EncodeOne(text[n]) + [];
  }

  lemma ReplacementSize()
    ensures |EncodeOne(REPLACEMENT)| == 3
  {
  }

  /** A text that loses a character it could have kept: a replacement character of its own, just before the cut. */
  lemma OwnReplacementIsLost()
    ensures var text: Text := [REPLACEMENT, 'a' as int];
      Size(text) == 4 && Size([REPLACEMENT]) == 3 && [REPLACEMENT] <= text && TruncateToByteLimit(text, 3) == []
  {
    var text: Text := [REPLACEMENT, 97];
    assert text[1..] == [97] && text[1..][1..] == [];
    assert Encode([97]) == [97] && EncodeOne(REPLACEMENT) == [0xEF, 0xBF, 0xBD];
    assert [REPLACEMENT][1..] == [] && Encode([REPLACEMENT]) == EncodeOne(REPLACEMENT) + [];
    TruncationKeeps(text, 3);
    assert Fit(text, 3) == 1 && text[..1] == [REPLACEMENT];
  }
}
