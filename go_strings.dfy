/** The parts of Go's `strings`, `strconv`, `unicode` and `fmt` packages that
    the generators rely on, restricted to ASCII text: every `char` stands for
    one byte of a Go string. */
module GoStrings {
  import opened Wrappers

  // ---------------------------------------------------------------- case

  predicate IsLowerAscii(c: char) { 'a' <= c <= 'z' }
  predicate IsUpperAscii(c: char) { 'A' <= c <= 'Z' }

  /** `unicode.ToUpper` on an ASCII character. */
  function Upper(c: char): (u: char)
    ensures IsLowerAscii(c) ==> IsUpperAscii(u) && u as int == c as int - 32
    ensures !IsLowerAscii(c) ==> u == c
  {
    if IsLowerAscii(c) then (c as int - 32) as char else c
  }

  /** `unicode.ToLower` on an ASCII character. */
  function Lower(c: char): (l: char)
    ensures IsUpperAscii(c) ==> IsLowerAscii(l) && l as int == c as int + 32
    ensures !IsUpperAscii(c) ==> l == c
  {
    if IsUpperAscii(c) then (c as int + 32) as char else c
  }

  /** `strings.ToUpper`. */
  function ToUpper(s: string): (r: string)
    ensures |r| == |s| && forall i :: 0 <= i < |s| ==> r[i] == Upper(s[i])
  {
    seq(|s|, i requires 0 <= i < |s| => Upper(s[i]))
  }

  /** `strings.ToLower`. */
  function ToLower(s: string): (r: string)
    ensures |r| == |s| && forall i :: 0 <= i < |s| ==> r[i] == Lower(s[i])
  {
    seq(|s|, i requires 0 <= i < |s| => Lower(s[i]))
  }

  lemma UpperIdempotent(c: char)
    ensures Upper(Upper(c)) == Upper(c)
  {
  }

  lemma ToUpperAppend(a: string, b: string)
    ensures ToUpper(a + b) == ToUpper(a) + ToUpper(b)
  {
    assert forall i :: 0 <= i < |a + b| ==> ToUpper(a + b)[i] == (ToUpper(a) + ToUpper(b))[i];
  }

  // ---------------------------------------------------------------- search

  predicate HasPrefix(s: string, p: string) { |p| <= |s| && s[..|p|] == p }
  predicate HasSuffix(s: string, p: string) { |p| <= |s| && s[|s| - |p|..] == p }

  /** `sub` occurs in `s` at position `j`. */
  predicate OccursAt(s: string, sub: string, j: int)
  {
    0 <= j && j + |sub| <= |s| && s[j..j + |sub|] == sub
  }

  /** `strings.Index`: the first position at which `sub` occurs in `s`. */
  function Index(s: string, sub: string): (r: Option<nat>)
    ensures r.Some? ==> OccursAt(s, sub, r.value)
    ensures r.Some? ==> forall j :: 0 <= j < r.value ==> !OccursAt(s, sub, j)
    ensures r.None? ==> forall j :: !OccursAt(s, sub, j)
  {
    IndexFrom(s, sub, 0)
  }

  function IndexFrom(s: string, sub: string, k: nat): (r: Option<nat>)
    requires forall j :: 0 <= j < k ==> !OccursAt(s, sub, j)
    ensures r.Some? ==> k <= r.value && OccursAt(s, sub, r.value)
    ensures r.Some? ==> forall j :: 0 <= j < r.value ==> !OccursAt(s, sub, j)
    ensures r.None? ==> forall j :: !OccursAt(s, sub, j)
    decreases |s| - k
  {
    if k + |sub| > |s| then None
    else if s[k..k + |sub|] == sub then Some(k)
    else IndexFrom(s, sub, k + 1)
  }

  predicate Contains(s: string, sub: string) { Index(s, sub).Some? }

  // ---------------------------------------------------------------- split and join

  /** `strings.Split` with a one-character separator: never empty, and
      `Split("", sep) == [""]`. */
  function Split(s: string, sep: char): (parts: seq<string>)
    ensures |parts| >= 1
    decreases |s|
  {
    if |s| == 0 then [""]
    else if s[0] == sep then [""] + Split(s[1..], sep)
    else
      var rest := Split(s[1..], sep);
      [[s[0]] + rest[0]] + rest[1..]
  }

  /** A string without the separator splits into itself. */
  lemma {:induction false} SplitWithoutSeparator(s: string, sep: char)
    requires sep !in s
    ensures Split(s, sep) == [s]
    decreases |s|
  {
    if |s| > 0 {
      assert sep !in s[1..] by { assert forall c :: c in s[1..] ==> c in s; }
      SplitWithoutSeparator(s[1..], sep);
      assert [s[0]] + s[1..] == s;
    }
  }

  /** `strings.Join`. */
  function Join(parts: seq<string>, sep: string): string
  {
    if |parts| == 0 then ""
    else if |parts| == 1 then parts[0]
    else parts[0] + sep + Join(parts[1..], sep)
  }

  lemma {:induction false} SplitPiecesHaveNoSeparator(s: string, sep: char)
    ensures forall k :: 0 <= k < |Split(s, sep)| ==> sep !in Split(s, sep)[k]
    decreases |s|
  {
    if |s| > 0 {
      SplitPiecesHaveNoSeparator(s[1..], sep);
    }
  }

  /** Joining the pieces of a split with the separator gives the text back. */
  lemma {:induction false} JoinSplit(s: string, sep: char)
    ensures Join(Split(s, sep), [sep]) == s
    decreases |s|
  {
    if |s| > 0 {
      var rest := Split(s[1..], sep);
      JoinSplit(s[1..], sep);
      if s[0] == sep {
        assert Split(s, sep) == [""] + rest;
        assert ([""] + rest)[1..] == rest;
      } else {
        var parts := [[s[0]] + rest[0]] + rest[1..];
        assert Split(s, sep) == parts;
        if |rest| == 1 {
          assert parts == [[s[0]] + rest[0]];
        } else {
          assert parts[1..] == rest[1..];
          assert Join(rest, [sep]) == rest[0] + [sep] + Join(rest[1..], [sep]);
        }
      }
    }
  }

  /** Splitting a join of separator-free pieces gives the pieces back. */
  lemma {:induction false} SplitJoin(parts: seq<string>, sep: char)
    requires |parts| >= 1
    requires forall k :: 0 <= k < |parts| ==> sep !in parts[k]
    ensures Split(Join(parts, [sep]), sep) == parts
    decreases |parts|, |parts[0]|
  {
    if |parts[0]| > 0 {
      var p0 := parts[0];
      var tail := [p0[1..]] + parts[1..];
      assert forall k :: 0 <= k < |tail| ==> sep !in tail[k] by {
        forall k | 0 <= k < |tail| ensures sep !in tail[k] {
          if k == 0 { assert forall c :: c in p0[1..] ==> c in p0; }
        }
      }
      SplitJoin(tail, sep);
      if |parts| == 1 {
        assert Join(parts, [sep]) == p0;
        assert Join(tail, [sep]) == p0[1..];
        assert p0 == [p0[0]] + p0[1..];
      } else {
        assert Join(parts, [sep]) == p0 + [sep] + Join(parts[1..], [sep]);
        assert tail[1..] == parts[1..];
        assert Join(tail, [sep]) == p0[1..] + [sep] + Join(parts[1..], [sep]);
        assert Join(parts, [sep]) == [p0[0]] + Join(tail, [sep]);
      }
      var x := Join(parts, [sep]);
      assert p0[0] != sep;
      assert |x| > 0 && x[0] == p0[0] && x[1..] == Join(tail, [sep]);
      assert Split(x, sep) == [[p0[0]] + tail[0]] + tail[1..];
      assert [p0[0]] + tail[0] == p0;
    } else if |parts| > 1 {
      SplitJoin(parts[1..], sep);
      assert Join(parts, [sep]) == [sep] + Join(parts[1..], [sep]);
      assert [""] + parts[1..] == parts;
    }
  }

  // ---------------------------------------------------------------- replace and trim

  /** `strings.Replace(s, old, new, -1)` for one-character `old` and `new`. */
  function ReplaceChar(s: string, from: char, to: char): (r: string)
    ensures |r| == |s|
    ensures forall i :: 0 <= i < |s| ==> r[i] == (if s[i] == from then to else s[i])
  {
    seq(|s|, i requires 0 <= i < |s| => if s[i] == from then to else s[i])
  }

  lemma ReplacedCharIsGone(s: string, from: char, to: char)
    requires from != to
    ensures from !in ReplaceChar(s, from, to)
  {
    var r := ReplaceChar(s, from, to);
    forall i | 0 <= i < |r| ensures r[i] != from { }
  }

  /** `strings.Replace(s, sub, "", 1)`: the first occurrence of `sub` is cut out. */
  function RemoveFirst(s: string, sub: string): (r: string)
    ensures Index(s, sub).None? ==> r == s
    ensures Index(s, sub).Some? ==> |r| == |s| - |sub|
  {
    match Index(s, sub)
    case None => s
    case Some(i) => s[..i] + s[i + |sub|..]
  }

  lemma RemoveFirstKeepsAbsentChar(s: string, sub: string, c: char)
    requires c !in s
    ensures c !in RemoveFirst(s, sub)
  {
    match Index(s, sub)
    case None =>
    case Some(i) =>
      var r := s[..i] + s[i + |sub|..];
      forall k | 0 <= k < |r| ensures r[k] != c {
        if k < i { assert r[k] == s[k]; } else { assert r[k] == s[k + |sub|]; }
      }
  }

  lemma RemovePrefix(s: string, p: string)
    requires HasPrefix(s, p)
    ensures RemoveFirst(s, p) == s[|p|..]
  {
    assert s[0..|p|] == p;
    assert Index(s, p).Some? && Index(s, p).value == 0;
  }

  /** The white space `strings.TrimSpace` removes, restricted to ASCII. */
  predicate IsSpace(c: char) { c == ' ' || c == '\t' || c == '\n' || c == '\r' || c == '\U{B}' || c == '\U{C}' }

  /** `strings.TrimSpace`. */
  function TrimSpace(s: string): (r: string)
    ensures |r| == 0 || (!IsSpace(r[0]) && !IsSpace(r[|r| - 1]))
    ensures |r| <= |s|
  {
    TrimRight(TrimLeft(s))
  }

  /** Leading white space dropped: what is left is a suffix of `s`. */
  function TrimLeft(s: string): (r: string)
    ensures |r| <= |s| && r == s[|s| - |r|..]
    ensures |r| == 0 || !IsSpace(r[0])
    ensures forall k :: 0 <= k < |s| - |r| ==> IsSpace(s[k])
    decreases |s|
  {
    if |s| > 0 && IsSpace(s[0]) then TrimLeft(s[1..]) else s
  }

  /** Trailing white space dropped: what is left is a prefix of `s`. */
  function TrimRight(s: string): (r: string)
    ensures |r| <= |s| && r == s[..|r|]
    ensures |r| == 0 || !IsSpace(r[|r| - 1])
    ensures forall k :: |r| <= k < |s| ==> IsSpace(s[k])
    decreases |s|
  {
    if |s| > 0 && IsSpace(s[|s| - 1]) then TrimRight(s[..|s| - 1]) else s
  }

  // ---------------------------------------------------------------- decimal numbers

  predicate IsDigit(c: char) { '0' <= c <= '9' }

  function DigitChar(d: nat): (c: char)
    requires d < 10
    ensures IsDigit(c)
  {
    ('0' as int + d) as char
  }

  /** `fmt.Sprintf("%d", n)` and `strconv.Itoa(n)` for a non-negative `n`. */
  function Dec(n: nat): (s: string)
    ensures |s| >= 1 && forall k :: 0 <= k < |s| ==> IsDigit(s[k])
  {
    if n < 10 then [DigitChar(n)] else Dec(n / 10) + [DigitChar(n % 10)]
  }

  /** The value of a string of decimal digits. */
  function DecValue(s: string): nat
    requires forall k :: 0 <= k < |s| ==> IsDigit(s[k])
  {
    if |s| == 0 then 0
    else
      assert IsDigit(s[|s| - 1]);
      DecValue(s[..|s| - 1]) * 10 + (s[|s| - 1] as int - '0' as int)
  }

  lemma {:induction false} DecRoundTrip(n: nat)
    ensures DecValue(Dec(n)) == n
  {
    if n >= 10 {
      DecRoundTrip(n / 10);
      var s := Dec(n);
      assert s[..|s| - 1] == Dec(n / 10);
    }
  }

  /** Different numbers have different decimal renderings. */
  lemma DecInjective(a: nat, b: nat)
    requires Dec(a) == Dec(b)
    ensures a == b
  {
    DecRoundTrip(a);
    DecRoundTrip(b);
  }

  // ---------------------------------------------------------------- quoting

  /** `strconv.Unquote` for the literals an import path is written with: a
      double-quoted string without escapes, or a raw back-quoted string
      (whose carriage returns are dropped). Everything else is an error. */
  function Unquote(s: string): (r: Option<string>)
    ensures r.Some? ==> |s| >= 2 && (s[0] == '"' || s[0] == '`') && s[|s| - 1] == s[0]
  {
    if |s| >= 2 && s[0] == '"' && s[|s| - 1] == '"'
       && forall k :: 1 <= k < |s| - 1 ==> s[k] != '"' && s[k] != '\\' && s[k] != '\n'
    then Some(s[1..|s| - 1])
    else if |s| >= 2 && s[0] == '`' && s[|s| - 1] == '`'
       && forall k :: 1 <= k < |s| - 1 ==> s[k] != '`'
    then Some(DropCarriageReturns(s[1..|s| - 1]))
    else None
  }

  function DropCarriageReturns(s: string): (r: string)
    ensures '\r' !in r
    ensures '\r' !in s ==> r == s
  {
    if |s| == 0 then ""
    else if s[0] == '\r' then DropCarriageReturns(s[1..])
    else [s[0]] + DropCarriageReturns(s[1..])
  }

  /** A plain double-quoted literal, as the parser keeps an import path. */
  function Quote(p: string): string { "\"" + p + "\"" }

  predicate IsPlainPath(p: string) { '"' !in p && '\\' !in p && '\n' !in p }

  lemma UnquoteQuote(p: string)
    requires IsPlainPath(p)
    ensures Unquote(Quote(p)) == Some(p)
  {
    var s := Quote(p);
    assert s[1..|s| - 1] == p;
    forall k | 1 <= k < |s| - 1 ensures s[k] != '"' && s[k] != '\\' && s[k] != '\n' {
      assert s[k] == p[k - 1];
    }
  }

  // ---------------------------------------------------------------- formatting

  /** `fmt.Sprintf(format, arg)` for a format holding one `%s` verb and no
      other verb; without one Go appends the extra argument. */
  function FormatOne(format: string, arg: string): (r: string)
    ensures Index(format, "%s").Some? ==> |r| == |format| - 2 + |arg|
  {
    match Index(format, "%s")
    case Some(i) => format[..i] + arg + format[i + 2..]
    case None => format + "%!(EXTRA string=" + arg + ")"
  }
}
