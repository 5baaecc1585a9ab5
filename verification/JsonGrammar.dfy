/**
 The parser's choices in plain terms: which escapes stand for which characters, what a \u escape adds,
 what counts as space, the three literals, and how deep values may nest.
 */
module JsonGrammar {
  import opened Json
  import opened JsonText

  /** Section 7 of RFC 8259: the one-letter escapes, by character codes. */
  predicate Letter(e: int, code: int) {
    (e, code) in {(34, 34), (92, 92), (47, 47), (98, 8), (102, 12), (110, 10), (114, 13), (116, 9)}
  }

  lemma LetterRead(e: char, code: nat, rest: string, out: string)
    requires Letter(e as int, code)
    ensures StringBody(['\\', e] + rest, out) == StringBody(rest, out + [code as char])
  {
    var s := ['\\', e] + rest;
    assert s[2..] == rest && s[0] == '\\' && s[1] == e;
  }

  lemma OtherLettersFail(e: char, rest: string, out: string)
    requires e as int !in {34, 92, 47, 98, 102, 110, 114, 116, 117}
    ensures StringBody(['\\', e] + rest, out).Fail?
  {
    var s := ['\\', e] + rest;
    assert s[0] == '\\' && s[1] == e;
  }

  /** The value of a hexadecimal digit, by character codes. */
  lemma HexDigits(c: char)
    ensures IsHexDigit(c) <==> 48 <= c as int <= 57 || 65 <= c as int <= 70 || 97 <= c as int <= 102
    ensures IsHexDigit(c) ==> HexDigit(c) == c as int - if c as int <= 57 then 48 else if c as int <= 70 then 55 else 87
  {
  }

  lemma HexRunNext(c: char, rest: string, acc: nat)
    requires IsHexDigit(c)
    ensures HexRun([c] + rest, acc) == HexRun(rest, 16 * acc + HexDigit(c))
  {
    assert ([c] + rest)[1..] == rest;
  }

  function FourValue(a: char, b: char, c: char, d: char): (w: nat)
    requires IsHexDigit(a) && IsHexDigit(b) && IsHexDigit(c) && IsHexDigit(d)
    ensures w < 0x1_0000
  {
    HexDigit(d) + 16 * (HexDigit(c) + 16 * (HexDigit(b) + 16 * HexDigit(a)))
  }

  lemma FourRun(a: char, b: char, c: char, d: char)
    requires IsHexDigit(a) && IsHexDigit(b) && IsHexDigit(c) && IsHexDigit(d)
    ensures HexRun([a, b, c, d], 0) == FourValue(a, b, c, d)
  {
    assert [a, b, c, d] == [a] + [b, c, d] && [b, c, d] == [b] + [c, d] && [c, d] == [c] + [d] && [d] == [d] + "";
    HexRunNext(a, [b, c, d], 0);
    HexRunNext(b, [c, d], HexDigit(a));
    HexRunNext(c, [d], 16 * HexDigit(a) + HexDigit(b));
    HexRunNext(d, "", 16 * (16 * HexDigit(a) + HexDigit(b)) + HexDigit(c));
  }

  /** Four hexadecimal digits are read as the number they spell. */
  lemma FourDigits(a: char, b: char, c: char, d: char)
    requires IsHexDigit(a) && IsHexDigit(b) && IsHexDigit(c) && IsHexDigit(d)
    ensures Strtol16([a, b, c, d]) == 4096 * HexDigit(a) + 256 * HexDigit(b) + 16 * HexDigit(c) + HexDigit(d) < 0x1_0000
  {
    FourRun(a, b, c, d);
    assert FourValue(a, b, c, d) == 4096 * HexDigit(a) + 256 * HexDigit(b) + 16 * HexDigit(c) + HexDigit(d);
    assert Strtol16([a, b, c, d]) == Unprefixed([a, b, c, d]) == HexRun([a, b, c, d], 0);
  }

  /** The code point that a UTF-8 sequence of up to three bytes carries. */
  function Decoded(s: string): int {
    if |s| == 1 && s[0] as int < 128 then s[0] as int
    else if |s| == 2 && 192 <= s[0] as int < 224 && 128 <= s[1] as int < 192 then (s[0] as int - 192) * 64 + s[1] as int - 128
    else if |s| == 3 && 224 <= s[0] as int < 240 && 128 <= s[1] as int < 192 && 128 <= s[2] as int < 192 then
      (s[0] as int - 224) * 4096 + (s[1] as int - 128) * 64 + s[2] as int - 128
    else -1
  }

  /** A \u escape adds the shortest UTF-8 sequence of its code. */
  lemma Utf8Means(w: nat)
    requires w < 0x1_0000
    ensures Decoded(Utf8(w)) == w
    ensures |Utf8(w)| == if w < 0x80 then 1 else if w < 0x800 then 2 else 3
  {
  }

  lemma HexEscape(hex: string, rest: string, out: string)
    requires |hex| == 4
    ensures StringBody(['\\', 'u'] + hex + rest, out) == StringBody(rest, out + Utf8(Strtol16(hex) % 0x1_0000))
  {
    var s := ['\\', 'u'] + hex + rest;
    assert s[0] == '\\' && s[1] == 'u' && s[2..6] == hex && s[6..] == rest;
  }

  /** So a \u escape adds the UTF-8 of the number its four digits spell. */
  lemma UnicodeRead(hex: string, w: nat, rest: string, out: string)
    requires |hex| == 4 && Strtol16(hex) == w < 0x1_0000
    ensures StringBody(['\\', 'u'] + hex + rest, out) == StringBody(rest, out + Utf8(w))
  {
    HexEscape(hex, rest, out);
  }

  /** Space, tab, carriage return and line feed, and nothing else, may stand before a value. */
  lemma SpaceSkipped(c: char, s: string)
    ensures SkipSpace([c] + s) == if c as int in {32, 9, 13, 10} then SkipSpace(s) else [c] + s
  {
    assert ([c] + s)[1..] == s;
  }

  lemma SpaceBeforeValue(strtod: Strtod, c: char, s: string, depth: nat)
    requires c as int in {32, 9, 13, 10}
    ensures ValueAt(strtod, [c] + s, depth) == ValueAt(strtod, s, depth)
  {
    SpaceSkipped(c, s);
    SkippedTwice(s);
    ValueSkips(strtod, s, depth);
    ValueSkips(strtod, [c] + s, depth);
  }

  lemma {:induction false} SkippedTwice(s: string)
    ensures SkipSpace(SkipSpace(s)) == SkipSpace(s)
  {
    if s != "" && IsSpace(s[0]) {
      SkippedTwice(s[1..]);
    }
  }

  lemma ValueSkips(strtod: Strtod, s: string, depth: nat)
    ensures ValueAt(strtod, s, depth) == ValueAt(strtod, SkipSpace(s), depth)
  {
    SkippedTwice(s);
  }

  lemma WordRead(word: string, v: Value, rest: string)
    requires word != ""
    ensures Literal(word, v, word + rest) == Done(v, rest)
  {
    assert (word + rest)[|word|..] == rest && word <= word + rest;
  }

  /** The three literals. */
  lemma LiteralsRead(strtod: Strtod, rest: string, depth: nat)
    requires depth <= 64
    ensures ValueAt(strtod, "true" + rest, depth) == Done(Bool(true), rest)
    ensures ValueAt(strtod, "false" + rest, depth) == Done(Bool(false), rest)
    ensures ValueAt(strtod, "null" + rest, depth) == Done(Nul, rest)
  {
    WordRead("true", Bool(true), rest);
    WordRead("false", Bool(false), rest);
    WordRead("null", Nul, rest);
    assert ("true" + rest)[0] == 't' && ("false" + rest)[0] == 'f' && ("null" + rest)[0] == 'n';
  }

  /** An array that holds n more inside each other. */
  function Nest(n: nat): Doc {
    if n == 0 then List([]) else List([Nest(n - 1)])
  }

  lemma {:induction false} NestFits(n: nat, depth: nat)
    ensures Fits(Nest(n), depth) <==> depth + n <= 64
  {
    if n > 0 {
      NestFits(n - 1, depth + 1);
      assert [Nest(n - 1)][1..] == [];
      assert ItemsFit([], depth + 1);
    }
  }

  /** 64 levels inside the outermost value are read, and no more. */
  lemma NestingLimit(strtod: Strtod, double: int -> Double, n: nat)
    requires ReadsIntegers(strtod, double)
    ensures Parse(strtod, Text(Nest(n))).Done? <==> n <= 64
  {
    NestFits(n, 0);
    ParseInverse(strtod, double, Nest(n));
  }
}
