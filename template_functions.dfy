/** The UTF-8 encoding of Go strings, as `unicode/utf8` decodes and
    encodes one rune. A Go string is a sequence of bytes. */
module Utf8 {
  newtype byte = x: int | 0 <= x < 256

  /** A Unicode scalar value: a code point that is not a surrogate. */
  type Rune = r: int | 0 <= r <= 0x10FFFF && !(0xD800 <= r <= 0xDFFF)

  /** `utf8.RuneError`, the replacement character. */
  const RuneError: Rune := 0xFFFD

  /** A rune and the number of bytes it was read from. */
  datatype Decoded = Decoded(r: Rune, size: nat)

  predicate IsCont(b: byte) { 0x80 <= b <= 0xBF }

  /** `utf8.DecodeRuneInString`: the first rune and its length; an empty
      text gives (RuneError, 0) and an invalid or short encoding
      (RuneError, 1). Overlong forms and surrogates are invalid. */
  function DecodeRune(s: seq<byte>): (d: Decoded)
    ensures |s| == 0 <==> d.size == 0
    ensures d.size <= 4 && d.size <= |s|
    ensures |s| == 0 ==> d.r == RuneError
    ensures |s| > 0 && s[0] < 0x80 ==> d == Decoded(s[0] as int, 1)
  {
    if |s| == 0 then Decoded(RuneError, 0)
    else
      var b0 := s[0] as int;
      if b0 < 0x80 then Decoded(b0, 1)
      else if 0xC2 <= b0 <= 0xDF then
        if |s| >= 2 && IsCont(s[1]) then Decoded((b0 - 0xC0) * 64 + (s[1] as int - 0x80), 2)
        else Decoded(RuneError, 1)
      else if 0xE0 <= b0 <= 0xEF then
        var lo := if b0 == 0xE0 then 0xA0 else 0x80;
        var hi := if b0 == 0xED then 0x9F else 0xBF;
        if |s| >= 3 && lo <= s[1] as int <= hi && IsCont(s[2]) then
          Decoded((b0 - 0xE0) * 4096 + (s[1] as int - 0x80) * 64 + (s[2] as int - 0x80), 3)
        else Decoded(RuneError, 1)
      else if 0xF0 <= b0 <= 0xF4 then
        var lo := if b0 == 0xF0 then 0x90 else 0x80;
        var hi := if b0 == 0xF4 then 0x8F else 0xBF;
        if |s| >= 4 && lo <= s[1] as int <= hi && IsCont(s[2]) && IsCont(s[3]) then
          Decoded((b0 - 0xF0) * 262144 + (s[1] as int - 0x80) * 4096 + (s[2] as int - 0x80) * 64 + (s[3] as int - 0x80), 4)
        else Decoded(RuneError, 1)
      else Decoded(RuneError, 1)
  }

  /** `string(r)`: the shortest encoding of a rune. */
  function EncodeRune(r: Rune): (s: seq<byte>)
    ensures 1 <= |s| <= 4
  {
    if r < 0x80 then [r as byte]
    else if r < 0x800 then [(0xC0 + r / 64) as byte, (0x80 + r % 64) as byte]
    else if r < 0x10000 then
      [(0xE0 + r / 4096) as byte, (0x80 + r / 64 % 64) as byte, (0x80 + r % 64) as byte]
    else
      [(0xF0 + r / 262144) as byte, (0x80 + r / 4096 % 64) as byte, (0x80 + r / 64 % 64) as byte, (0x80 + r % 64) as byte]
  }

  /** A decoding that read a rune, not an error: `r != RuneError || size > 1`. */
  predicate Valid(d: Decoded)
  {
    d.r != RuneError || d.size > 1
  }

  // ---------------------------------------------------------------- lemmas

  lemma Split2(r: int)
    requires 0 <= r
    ensures r == r / 64 * 64 + r % 64
  {
  }

  lemma Split3(r: int)
    requires 0 <= r
    ensures r == r / 4096 * 4096 + r / 64 % 64 * 64 + r % 64
    ensures r / 4096 == r / 64 / 64
  {
    Split2(r);
    Split2(r / 64);
  }

  lemma Split4(r: int)
    requires 0 <= r
    ensures r == r / 262144 * 262144 + r / 4096 % 64 * 4096 + r / 64 % 64 * 64 + r % 64
  {
    Split3(r);
    Split2(r / 4096);
    assert r / 262144 == r / 4096 / 64;
  }

  /** Decoding the encoding of a rune gives the rune back, whatever
      follows it. */
  lemma DecodeEncode(r: Rune, rest: seq<byte>)
    ensures DecodeRune(EncodeRune(r) + rest) == Decoded(r, |EncodeRune(r)|)
  {
    if r < 0x80 {
      assert (EncodeRune(r) + rest)[0] == r as byte;
    } else if r < 0x800 {
      DecodeEncode2(r, rest);
    } else if r < 0x10000 {
      DecodeEncode3(r, rest);
    } else {
      DecodeEncode4(r, rest);
    }
  }

  lemma DecodeEncode2(r: Rune, rest: seq<byte>)
    requires 0x80 <= r < 0x800
    ensures DecodeRune(EncodeRune(r) + rest) == Decoded(r, 2)
  {
    var s := EncodeRune(r) + rest;
    Split2(r);
    assert s[0] as int == 0xC0 + r / 64 && s[1] as int == 0x80 + r % 64;
  }

  lemma DecodeEncode3(r: Rune, rest: seq<byte>)
    requires 0x800 <= r < 0x10000
    ensures DecodeRune(EncodeRune(r) + rest) == Decoded(r, 3)
  {
    var s := EncodeRune(r) + rest;
    Split3(r);
    assert s[0] as int == 0xE0 + r / 4096 && s[1] as int == 0x80 + r / 64 % 64 && s[2] as int == 0x80 + r % 64;
  }

  lemma DecodeEncode4(r: Rune, rest: seq<byte>)
    requires 0x10000 <= r
    ensures DecodeRune(EncodeRune(r) + rest) == Decoded(r, 4)
  {
    var s := EncodeRune(r) + rest;
    Split4(r);
    assert s[0] as int == 0xF0 + r / 262144;
    assert s[1] as int == 0x80 + r / 4096 % 64;
    assert s[2] as int == 0x80 + r / 64 % 64 && s[3] as int == 0x80 + r % 64;
  }

  lemma DivMod64(q: int, m: int)
    requires 0 <= q && 0 <= m < 64
    ensures (q * 64 + m) / 64 == q && (q * 64 + m) % 64 == m
  {
  }

  lemma EncodeDecode2(s: seq<byte>)
    requires |s| >= 2 && 0xC2 <= s[0] <= 0xDF && IsCont(s[1])
    ensures EncodeRune(DecodeRune(s).r) == s[..2]
  {
    var a, b := s[0] as int - 0xC0, s[1] as int - 0x80;
    DivMod64(a, b);
  }

  lemma EncodeDecode3(s: seq<byte>)
    requires |s| >= 3 && 0xE0 <= s[0] <= 0xEF && IsCont(s[1]) && IsCont(s[2])
    requires s[0] == 0xE0 ==> 0xA0 <= s[1]
    requires s[0] == 0xED ==> s[1] <= 0x9F
    ensures EncodeRune(DecodeRune(s).r) == s[..3]
  {
    var a, b, c := s[0] as int - 0xE0, s[1] as int - 0x80, s[2] as int - 0x80;
    var r := DecodeRune(s).r;
    assert r == (a * 64 + b) * 64 + c;
    DivMod64(a * 64 + b, c);
    DivMod64(a, b);
    assert r / 4096 == a by { Split3(r); }
  }

  lemma EncodeDecode4(s: seq<byte>)
    requires |s| >= 4 && 0xF0 <= s[0] <= 0xF4 && IsCont(s[1]) && IsCont(s[2]) && IsCont(s[3])
    requires s[0] == 0xF0 ==> 0x90 <= s[1]
    requires s[0] == 0xF4 ==> s[1] <= 0x8F
    ensures EncodeRune(DecodeRune(s).r) == s[..4]
  {
    var a, b, c, f := s[0] as int - 0xF0, s[1] as int - 0x80, s[2] as int - 0x80, s[3] as int - 0x80;
    var r := DecodeRune(s).r;
    assert r == ((a * 64 + b) * 64 + c) * 64 + f;
    DivMod64((a * 64 + b) * 64 + c, f);
    DivMod64(a * 64 + b, c);
    DivMod64(a, b);
    assert r / 4096 == a * 64 + b by { Split3(r); }
    assert r / 262144 == a by { Split4(r); Split3(r); }
  }

  /** A valid decoding read exactly the encoding of its rune: the decoder
      accepts only shortest forms. */
  lemma EncodeDecode(s: seq<byte>)
    requires Valid(DecodeRune(s))
    ensures EncodeRune(DecodeRune(s).r) == s[..DecodeRune(s).size]
  {
    var d := DecodeRune(s);
    if s[0] < 0x80 {
    } else if d.size == 2 {
      EncodeDecode2(s);
    } else if d.size == 3 {
      EncodeDecode3(s);
    } else {
      EncodeDecode4(s);
    }
  }
}

/** template/functions.go: the functions the service templates call. */
module TemplateFunctions {
  import opened GoStrings
  import opened ServiceCode
  import opened Utf8

  /** `ToLowerFirst`, with `unicode.ToLower` as the parameter `lower`: the
      first rune lower-cased when it decodes and lower-casing changes it;
      every other text as it is. */
  function ToLowerFirst(lower: Rune -> Rune, text: seq<byte>): (r: seq<byte>)
    ensures |text| == 0 ==> r == text
    ensures |text| > 0 && !Valid(DecodeRune(text)) ==> r == text
    ensures lower(DecodeRune(text).r) == DecodeRune(text).r ==> r == text
  {
    if |text| > 0 then
      var d := DecodeRune(text);
      if d.r != RuneError || d.size > 1 then
        var lo := lower(d.r);
        if lo != d.r then EncodeRune(lo) + text[d.size..] else text
      else text
    else text
  }

  /** Only the first rune changes: the result starts with the lowered
      rune, and after it comes the rest of the text unchanged. */
  lemma OnlyFirstRuneChanges(lower: Rune -> Rune, text: seq<byte>)
    requires Valid(DecodeRune(text))
    ensures var d := DecodeRune(text);
      var d2 := DecodeRune(ToLowerFirst(lower, text));
      d2.r == lower(d.r) && ToLowerFirst(lower, text)[d2.size..] == text[d.size..]
  {
    var d := DecodeRune(text);
    if lower(d.r) != d.r {
      DecodeEncode(lower(d.r), text[d.size..]);
      assert (EncodeRune(lower(d.r)) + text[d.size..])[|EncodeRune(lower(d.r))|..] == text[d.size..];
    }
  }

  /** With an idempotent `lower`, a second pass changes nothing. */
  lemma ToLowerFirstIdempotent(lower: Rune -> Rune, text: seq<byte>)
    requires forall c: Rune :: lower(lower(c)) == lower(c)
    ensures ToLowerFirst(lower, ToLowerFirst(lower, text)) == ToLowerFirst(lower, text)
  {
    var d := DecodeRune(text);
    if |text| > 0 && Valid(d) && lower(d.r) != d.r {
      DecodeEncode(lower(d.r), text[d.size..]);
    }
  }

  /** The text of one parameter, each lifted to its `String()`. */
  function ParamStrings(str: Parameter -> string, ps: seq<Parameter>): (r: seq<string>)
    ensures |r| == |ps|
  {
    seq(|ps|, k requires 0 <= k < |ps| => str(ps[k]))
  }

  /** `paramsString`, with `code.Parameter.String` as the parameter
      `str`. */
  function ParamsString(str: Parameter -> string, ps: seq<Parameter>): string
  {
    Join(ParamStrings(str, ps), ", ")
  }

  method ParamsStringOf(str: Parameter -> string, params: seq<Parameter>) returns (s: string)
    ensures s == ParamsString(str, params)
  {
    var paramsStrings: seq<string> := [];
    var k := 0;
    while k < |params|
      invariant 0 <= k <= |params|
      invariant paramsStrings == ParamStrings(str, params[..k])
    {
      paramsStrings := paramsStrings + [str(params[k])];
      k := k + 1;
    }
    assert params[..k] == params;
    s := Join(paramsStrings, ", ");
  }

  /** Joining one more string adds ", " and that string. */
  lemma {:induction false} JoinSnoc(parts: seq<string>, p: string, sep: string)
    requires |parts| > 0
    ensures Join(parts + [p], sep) == Join(parts, sep) + sep + p
    decreases |parts|
  {
    if |parts| == 1 {
      assert (parts + [p])[1..] == [p];
    } else {
      JoinSnoc(parts[1..], p, sep);
      assert (parts + [p])[1..] == parts[1..] + [p];
    }
  }

  /** The parameters in order, separated by ", ": none gives "", one gives
      its own text, and each further one adds ", " and its text. */
  lemma ParamsStringShape(str: Parameter -> string, ps: seq<Parameter>, p: Parameter)
    ensures ParamsString(str, []) == ""
    ensures ParamsString(str, [p]) == str(p)
    ensures |ps| > 0 ==> ParamsString(str, ps + [p]) == ParamsString(str, ps) + ", " + str(p)
  {
    if |ps| > 0 {
      assert ParamStrings(str, ps + [p]) == ParamStrings(str, ps) + [str(p)];
      JoinSnoc(ParamStrings(str, ps), str(p), ", ");
    }
  }

  /** The length: every parameter's text plus two characters per
      separator. */
  function TotalLength(parts: seq<string>): nat
  {
    if |parts| == 0 then 0 else |parts[0]| + TotalLength(parts[1..])
  }

  lemma {:induction false} JoinLength(parts: seq<string>, sep: string)
    requires |parts| > 0
    ensures |Join(parts, sep)| == TotalLength(parts) + (|parts| - 1) * |sep|
    decreases |parts|
  {
    if |parts| > 1 {
      JoinLength(parts[1..], sep);
    }
  }
}
