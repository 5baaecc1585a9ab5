/**
 json_escape (sdk/windows-cpp/src/sdk.cpp), which writes the strings of an activation request. Unlike
 the printer of the saved state it escapes every control character.
 */
module JsonEscape {
  import opened Sequences
  import opened Json
  import opened JsonText

  function HexChar(d: nat): (c: char)
    requires d < 16
    ensures IsHexDigit(c) && HexDigit(c) == d && c >= ' '
  {
    if d < 10 then ('0' as int + d) as char else ('a' as int + d - 10) as char
  }

  /** One character as json_escape writes it; the last escape is snprintf's %04x. */
  function EscapeChar(c: char): string {
    match c
    case '"' => "\\\""
    case '\\' => "\\\\"
    case '\n' => "\\n"
    case '\r' => "\\r"
    case '\t' => "\\t"
    case _ => if c < ' ' then "\\u00" + [HexChar(c as int / 16), HexChar(c as int % 16)] else [c]
  }

  function Escaped(s: string): string {
    if s == "" then "" else EscapeChar(s[0]) + Escaped(s[1..])
  }

  method EscapeJson(s: string) returns (out: string)
    ensures out == Escaped(s)
  {
    out := "";
    var i := 0;
    while i < |s|
      invariant 0 <= i <= |s| && out + Escaped(s[i..]) == Escaped(s)
    {
      assert s[i..][1..] == s[i + 1..];
      Assoc(out, EscapeChar(s[i]), Escaped(s[i + 1..]));
      out := out + EscapeChar(s[i]);
      i := i + 1;
    }
  }

  /** The four digits of %04x read back as the character. */
  lemma HexReadsBack(c: char)
    requires c < ' '
    ensures Strtol16("00" + [HexChar(c as int / 16), HexChar(c as int % 16)]) == c as int
  {
    var h, l := HexChar(c as int / 16), HexChar(c as int % 16);
    var t := "00" + [h, l];
    assert t[1..] == "0" + [h, l] && t[1..][1..] == [h, l] && [h, l][1..] == [l] && [l][1..] == "";
    assert HexRun([l], HexDigit(h)) == 16 * HexDigit(h) + HexDigit(l);
    assert HexRun([h, l], 0) == HexRun([l], HexDigit(h));
    assert HexRun(t[1..], 0) == HexRun([h, l], 0);
    assert HexRun(t, 0) == HexRun(t[1..], 0);
  }

  lemma HexEscapeReadsBack(c: char, tail: string, out: string)
    requires c < ' '
    ensures StringBody("\\u00" + [HexChar(c as int / 16), HexChar(c as int % 16)] + tail, out) == StringBody(tail, out + [c])
  {
    var h, l := HexChar(c as int / 16), HexChar(c as int % 16);
    var t := "\\u00" + [h, l] + tail;
    HexReadsBack(c);
    assert t[0] == '\\' && t[1] == 'u' && |t| >= 6;
    assert t[6..] == tail && t[2..6] == "00" + [h, l];
    assert Utf8(c as int) == [c];
  }

  lemma CharReadsBack(c: char, tail: string, out: string)
    ensures StringBody(EscapeChar(c) + tail, out) == StringBody(tail, out + [c])
  {
    match c
    case '"' => ShortEscapeReadsBack(c, '"', tail, out);
    case '\\' => ShortEscapeReadsBack(c, '\\', tail, out);
    case '\n' => ShortEscapeReadsBack(c, 'n', tail, out);
    case '\r' => ShortEscapeReadsBack(c, 'r', tail, out);
    case '\t' => ShortEscapeReadsBack(c, 't', tail, out);
    case _ =>
      if c < ' ' {
        HexEscapeReadsBack(c, tail, out);
      } else {
        PlainReadsBack(c, tail, out);
      }
  }

  /** The library's own reader undoes json_escape on every string. */
  lemma {:induction false} EscapedInverse(s: string, rest: string, out: string)
    ensures StringBody(Escaped(s) + "\"" + rest, out) == Done(out + s, rest)
  {
    if s == "" {
      ClosingQuote(rest, out);
      assert "" + "\"" + rest == "\"" + rest && out + s == out;
    } else {
      Assoc4(EscapeChar(s[0]), Escaped(s[1..]), "\"", rest);
      CharReadsBack(s[0], Escaped(s[1..]) + "\"" + rest, out);
      EscapedInverse(s[1..], rest, out + [s[0]]);
      FirstThenRest(out, s);
    }
  }

  /** Section 7 of RFC 8259 forbids control characters inside a string literal. */
  predicate NoControls(s: string) {
    forall i :: 0 <= i < |s| ==> s[i] >= ' '
  }

  lemma {:induction false} EscapedHasNoControls(s: string)
    ensures NoControls(Escaped(s))
  {
    if s != "" {
      EscapedHasNoControls(s[1..]);
    }
  }

  lemma {:induction false} NoControlsJoin(a: string, b: string)
    ensures NoControls(a + b) <==> NoControls(a) && NoControls(b)
  {
    assert (a + b)[..|a|] == a && (a + b)[|a|..] == b;
    if NoControls(a + b) {
      forall i | 0 <= i < |a| ensures a[i] >= ' ' { assert a[i] == (a + b)[i]; }
      forall i | 0 <= i < |b| ensures b[i] >= ' ' { assert b[i] == (a + b)[|a| + i]; }
    }
  }

  /** The characters esc may meet without leaving a control character in its output. */
  predicate OnlyNewlines(s: string) {
    forall i :: 0 <= i < |s| ==> s[i] >= ' ' || s[i] == '\n'
  }

  lemma OnlyNewlinesNext(s: string)
    requires s != ""
    ensures OnlyNewlines(s) <==> (s[0] >= ' ' || s[0] == '\n') && OnlyNewlines(s[1..])
  {
    assert s == [s[0]] + s[1..];
    assert forall i :: 0 <= i < |s[1..]| ==> s[1..][i] == s[i + 1];
    assert forall i :: 0 < i < |s| ==> s[i] == s[1..][i - 1];
  }

  lemma EscCharControls(c: char)
    ensures NoControls(EscChar(c)) <==> c >= ' ' || c == '\n'
  {
    assert EscChar(c) == [c] ==> EscChar(c)[0] == c;
  }

  /** esc, the escape of the saved state, meets that rule exactly when newline is the only control
      character; the library's own reader accepts its output all the same. */
  lemma {:induction false} EscHasNoControls(s: string)
    ensures NoControls(Esc(s)) <==> OnlyNewlines(s)
  {
    if s != "" {
      EscCharControls(s[0]);
      NoControlsJoin(EscChar(s[0]), Esc(s[1..]));
      EscHasNoControls(s[1..]);
      OnlyNewlinesNext(s);
    }
  }

  /** For instance a tab, which esc copies. */
  lemma TabIsCopied()
    ensures Esc("\t") == "\t" && !NoControls(Esc("\t"))
  {
    assert "\t"[1..] == "";
  }
}
