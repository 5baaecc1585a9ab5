/**
 The compact JSON notation that store.cpp prints, for any value, and the proof that the reader
 takes it back: the reader accepts the text of a value exactly when the value nests no deeper than
 the reader allows, and then returns that value and stops right behind it.
 */
module JsonText {
  import opened Sequences
  import opened Json
  import Decimal

  /** One character as esc writes it: quotes, backslashes and newlines are escaped, every other one copied. */
  function EscChar(c: char): string {
    if c == '"' || c == '\\' then ['\\', c] else if c == '\n' then ['\\', 'n'] else [c]
  }

  function Esc(s: string): string {
    if s == "" then "" else EscChar(s[0]) + Esc(s[1..])
  }

  function Quoted(s: string): string {
    "\"" + Esc(s) + "\""
  }

  /** What the printer writes: integers, quoted strings, arrays and objects. */
  datatype Doc =
    | Integer(n: int)
    | Quote(str: string)
    | List(items: seq<Doc>)
    | Dict(entries: seq<Entry>)

  datatype Entry = Entry(key: string, doc: Doc)

  function Text(d: Doc): (t: string)
    ensures t != "" && !IsSpace(t[0]) && t[0] != ']'
    decreases d, 0
  {
    match d
    case Integer(n) => Decimal.Print(n)
    case Quote(str) => Quoted(str)
    case List(items) => "[" + ItemsText(items) + "]"
    case Dict(entries) => "{" + MembersText(entries) + "}"
  }

  function ItemsText(ds: seq<Doc>): string
    decreases ds, 1
  {
    if ds == [] then ""
    else if |ds| == 1 then Text(ds[0])
    else Text(ds[0]) + "," + ItemsText(ds[1..])
  }

  function MemberText(e: Entry): string
    decreases e, 1
  {
    Quoted(e.key) + ":" + Text(e.doc)
  }

  function MembersText(es: seq<Entry>): string
    decreases es, 2
  {
    if es == [] then ""
    else if |es| == 1 then MemberText(es[0])
    else MemberText(es[0]) + "," + MembersText(es[1..])
  }

  /** The value the reader is to find in the text of d; double converts an integer. */
  function Meaning(double: int -> Double, d: Doc): Value
    decreases d, 0
  {
    match d
    case Integer(n) => Num(double(n))
    case Quote(str) => Str(str)
    case List(items) => Arr(ItemsMeaning(double, items))
    case Dict(entries) => Obj(MembersMeaning(double, entries))
  }

  function ItemsMeaning(double: int -> Double, ds: seq<Doc>): seq<Value>
    decreases ds, 1
  {
    if ds == [] then [] else [Meaning(double, ds[0])] + ItemsMeaning(double, ds[1..])
  }

  function MembersMeaning(double: int -> Double, es: seq<Entry>): seq<Member>
    decreases es, 1
  {
    if es == [] then [] else [Member(es[0].key, Meaning(double, es[0].doc))] + MembersMeaning(double, es[1..])
  }

  /** A document at this depth, and all it contains, stay within the reader's nesting limit. */
  predicate Fits(d: Doc, depth: nat)
    decreases d, 0
  {
    && depth <= MAX_DEPTH
    && match d
       case List(items) => ItemsFit(items, depth + 1)
       case Dict(entries) => MembersFit(entries, depth + 1)
       case _ => true
  }

  predicate ItemsFit(ds: seq<Doc>, depth: nat)
    decreases ds, 1
  {
    ds != [] ==> Fits(ds[0], depth) && ItemsFit(ds[1..], depth)
  }

  predicate MembersFit(es: seq<Entry>, depth: nat)
    decreases es, 1
  {
    es != [] ==> Fits(es[0].doc, depth) && MembersFit(es[1..], depth)
  }

  /** What is assumed of strtod: it takes the whole decimal text of an integer, up to the end of the
      text or a JSON delimiter, and converts it the way double does. */
  ghost predicate ReadsIntegers(strtod: Strtod, double: int -> Double) {
    forall n: int, rest: string ::
      Delimited(rest) ==> strtod(Decimal.Print(n) + rest) == NumberScan(|Decimal.Print(n)|, double(n))
  }

  predicate Delimited(rest: string) {
    rest == "" || rest[0] in {',', ']', '}'}
  }

  lemma ShortEscapeReadsBack(c: char, e: char, tail: string, out: string)
    requires Unescape(e) == Stands(c) && e != 'u'
    ensures StringBody(['\\', e] + tail, out) == StringBody(tail, out + [c])
  {
    var t := ['\\', e] + tail;
    assert t[0] == '\\' && t[1] == e && t[2..] == tail;
  }

  lemma PlainReadsBack(c: char, tail: string, out: string)
    requires c != '"' && c != '\\'
    ensures StringBody([c] + tail, out) == StringBody(tail, out + [c])
  {
    assert ([c] + tail)[1..] == tail;
  }

  lemma EscCharReadsBack(c: char, tail: string, out: string)
    ensures StringBody(EscChar(c) + tail, out) == StringBody(tail, out + [c])
  {
    if c == '"' || c == '\\' {
      ShortEscapeReadsBack(c, c, tail, out);
    } else if c == '\n' {
      ShortEscapeReadsBack(c, 'n', tail, out);
    } else {
      PlainReadsBack(c, tail, out);
    }
  }

  lemma ClosingQuote(rest: string, out: string)
    ensures StringBody("\"" + rest, out) == Done(out, rest)
  {
    assert ("\"" + rest)[1..] == rest;
  }

  lemma FirstThenRest(out: string, s: string)
    requires s != ""
    ensures out + [s[0]] + s[1..] == out + s
  {
  }

  /** The reader undoes esc on every string. */
  lemma {:induction false} EscInverse(s: string, rest: string, out: string)
    ensures StringBody(Esc(s) + "\"" + rest, out) == Done(out + s, rest)
  {
    if s == "" {
      ClosingQuote(rest, out);
      assert "" + "\"" + rest == "\"" + rest && out + s == out;
    } else {
      Assoc4(EscChar(s[0]), Esc(s[1..]), "\"", rest);
      EscCharReadsBack(s[0], Esc(s[1..]) + "\"" + rest, out);
      EscInverse(s[1..], rest, out + [s[0]]);
      FirstThenRest(out, s);
    }
  }

  lemma QuotedInverse(s: string, rest: string)
    ensures var t := Quoted(s) + rest;
            t[0] == '"' && StringBody(t[1..], "") == Done(s, rest)
  {
    EscInverse(s, rest, "");
    assert (Quoted(s) + rest)[1..] == Esc(s) + "\"" + rest;
    assert "" + s == s;
  }

  lemma IntegerInverse(strtod: Strtod, double: int -> Double, n: int, rest: string)
    requires ReadsIntegers(strtod, double) && Delimited(rest)
    ensures Number(strtod, Decimal.Print(n) + rest) == Done(Num(double(n)), rest)
  {
    assert (Decimal.Print(n) + rest)[|Decimal.Print(n)|..] == rest;
  }

  lemma IntegerOpens(n: int)
    ensures var c := Decimal.Print(n)[0]; Decimal.IsDigit(c) || c == '-'
  {
  }

  lemma IntegerValue(strtod: Strtod, double: int -> Double, n: int, rest: string, depth: nat)
    requires ReadsIntegers(strtod, double) && Delimited(rest) && depth <= MAX_DEPTH
    ensures ValueAt(strtod, Decimal.Print(n) + rest, depth) == Done(Num(double(n)), rest)
  {
    var t := Decimal.Print(n) + rest;
    IntegerOpens(n);
    assert t[0] == Decimal.Print(n)[0] && SkipSpace(t) == t;
    IntegerInverse(strtod, double, n, rest);
  }

  lemma QuoteValue(strtod: Strtod, str: string, rest: string, depth: nat)
    requires depth <= MAX_DEPTH
    ensures ValueAt(strtod, Quoted(str) + rest, depth) == Done(Str(str), rest)
  {
    var t := Quoted(str) + rest;
    QuotedInverse(str, rest);
    assert SkipSpace(t) == t;
  }

  lemma ScalarInverse(strtod: Strtod, double: int -> Double, d: Doc, rest: string, depth: nat)
    requires ReadsIntegers(strtod, double) && Delimited(rest)
    requires !d.List? && !d.Dict? && depth <= MAX_DEPTH
    ensures ValueAt(strtod, Text(d) + rest, depth) == Done(Meaning(double, d), rest)
  {
    match d
    case Integer(n) => IntegerValue(strtod, double, n, rest, depth);
    case Quote(str) => QuoteValue(strtod, str, rest, depth);
    case _ =>
  }

  lemma {:induction false} ValueInverse(strtod: Strtod, double: int -> Double, d: Doc, rest: string, depth: nat)
    requires ReadsIntegers(strtod, double) && Delimited(rest)
    ensures ValueAt(strtod, Text(d) + rest, depth) == if Fits(d, depth) then Done(Meaning(double, d), rest) else Fail
    decreases d, 0
  {
    if depth > MAX_DEPTH {
    } else if d.List? {
      ListOpens(strtod, d.items, rest, depth);
      if d.items != [] {
        ItemsInverse(strtod, double, d.items, rest, depth, []);
        assert [] + ItemsMeaning(double, d.items) == ItemsMeaning(double, d.items);
      }
    } else if d.Dict? {
      DictOpens(strtod, d.entries, rest, depth);
      if d.entries != [] {
        MembersInverse(strtod, double, d.entries, rest, depth, []);
        assert [] + MembersMeaning(double, d.entries) == MembersMeaning(double, d.entries);
      }
    } else {
      ScalarInverse(strtod, double, d, rest, depth);
    }
  }

  lemma MembersTextOpens(es: seq<Entry>)
    requires es != []
    ensures MembersText(es) != "" && MembersText(es)[0] == '"'
  {
    assert Quoted(es[0].key)[0] == '"';
    assert MemberText(es[0])[0] == '"';
  }

  /** An opening bracket that is not closed at once is followed by elements. */
  lemma ListOpens(strtod: Strtod, items: seq<Doc>, rest: string, depth: nat)
    requires depth <= MAX_DEPTH
    ensures ValueAt(strtod, Text(List(items)) + rest, depth) ==
      if items == [] then Done(Arr([]), rest) else Items(strtod, ItemsText(items) + "]" + rest, depth, [])
  {
    var body := ItemsText(items) + "]" + rest;
    var t := Text(List(items)) + rest;
    assert t[0] == '[' && SkipSpace(t) == t && t[1..] == body;
    if items == [] {
      assert body[0] == ']' && body[1..] == rest;
    } else {
      assert body[0] == Text(items[0])[0];
    }
    assert SkipSpace(body) == body;
  }

  lemma DictOpens(strtod: Strtod, entries: seq<Entry>, rest: string, depth: nat)
    requires depth <= MAX_DEPTH
    ensures ValueAt(strtod, Text(Dict(entries)) + rest, depth) ==
      if entries == [] then Done(Obj([]), rest) else Members(strtod, MembersText(entries) + "}" + rest, depth, [])
  {
    var body := MembersText(entries) + "}" + rest;
    var t := Text(Dict(entries)) + rest;
    assert t[0] == '{' && SkipSpace(t) == t && t[1..] == body;
    if entries == [] {
      assert body[0] == '}' && body[1..] == rest;
    } else {
      MembersTextOpens(entries);
      assert body[0] == '"';
    }
    assert SkipSpace(body) == body;
  }

  /** What follows a first item or member, given the text of the others. */
  function Continued(others: string, close: char, rest: string): string
  {
    if others == "" then [close] + rest else "," + (others + [close] + rest)
  }

  lemma ItemsTextOpens(ds: seq<Doc>)
    requires ds != []
    ensures ItemsText(ds) != ""
  {
  }

  lemma ItemsTextSplit(ds: seq<Doc>, rest: string)
    requires ds != []
    ensures ItemsText(ds) + "]" + rest == Text(ds[0]) + Continued(ItemsText(ds[1..]), ']', rest)
  {
    var others := ItemsText(ds[1..]);
    if |ds| == 1 {
      Regroup(Text(ds[0]), "]", rest, "");
    } else {
      ItemsTextOpens(ds[1..]);
      Regroup(Text(ds[0]), ",", others, "]" + rest);
      Regroup(Text(ds[0]) + "," + others, "]", rest, "");
      Regroup(others, "]", rest, "");
    }
  }

  lemma MembersTextSplit(es: seq<Entry>, rest: string)
    requires es != []
    ensures MembersText(es) + "}" + rest
         == Quoted(es[0].key) + (":" + (Text(es[0].doc) + Continued(MembersText(es[1..]), '}', rest)))
  {
    var member, others := MemberText(es[0]), MembersText(es[1..]);
    var after := Continued(others, '}', rest);
    assert MembersText(es) + "}" + rest == member + after by {
      if |es| == 1 {
        Regroup(member, "}", rest, "");
      } else {
        MembersTextOpens(es[1..]);
        Regroup(member, ",", others, "}" + rest);
        Regroup(member + "," + others, "}", rest, "");
        Regroup(others, "}", rest, "");
      }
    }
    Regroup(Quoted(es[0].key), ":", Text(es[0].doc), after);
  }

  lemma ContinuedReads(others: string, close: char, rest: string)
    requires close in {']', '}'}
    ensures var t := Continued(others, close, rest);
            && Delimited(t) && SkipSpace(t) == t && t[0] == (if others == "" then close else ',')
            && t[1..] == if others == "" then rest else others + [close] + rest
  {
  }

  lemma ItemsStep(strtod: Strtod, s: string, depth: nat, acc: seq<Value>, v: Value, t: string, ok: bool)
    requires ValueAt(strtod, s, depth + 1) == if ok then Done(v, t) else Fail
    requires t != "" && SkipSpace(t) == t && (t[0] == ',' || t[0] == ']')
    ensures Items(strtod, s, depth, acc) ==
      if !ok then Fail
      else if t[0] == ',' then Items(strtod, t[1..], depth, acc + [v])
      else Done(Arr(acc + [v]), t[1..])
  {
  }

  lemma {:induction false} ItemsInverse(strtod: Strtod, double: int -> Double, ds: seq<Doc>, rest: string, depth: nat,
                                        acc: seq<Value>)
    requires ReadsIntegers(strtod, double) && ds != []
    ensures Items(strtod, ItemsText(ds) + "]" + rest, depth, acc)
         == if ItemsFit(ds, depth + 1) then Done(Arr(acc + ItemsMeaning(double, ds)), rest) else Fail
    decreases ds, 1
  {
    var d, ds', t := ds[0], ds[1..], Continued(ItemsText(ds[1..]), ']', rest);
    var s, v := ItemsText(ds) + "]" + rest, Meaning(double, d);
    HeadFirst(acc, v, ItemsMeaning(double, ds'));
    ContinuedReads(ItemsText(ds'), ']', rest);
    ItemsTextSplit(ds, rest);
    ValueInverse(strtod, double, d, t, depth + 1);
    ItemsStep(strtod, s, depth, acc, v, t, Fits(d, depth + 1));
    if ds' != [] {
      ItemsTextOpens(ds');
      ItemsInverse(strtod, double, ds', rest, depth, acc + [v]);
    }
  }

  lemma MembersStep(strtod: Strtod, s: string, depth: nat, acc: seq<Member>, m: Member, value: string, t: string,
                    ok: bool)
    requires s != "" && s[0] == '"' && StringBody(s[1..], "") == Done(m.key, ":" + value)
    requires ValueAt(strtod, value, depth + 1) == if ok then Done(m.value, t) else Fail
    requires t != "" && SkipSpace(t) == t && (t[0] == ',' || t[0] == '}')
    ensures Members(strtod, s, depth, acc) ==
      if !ok then Fail
      else if t[0] == ',' then Members(strtod, t[1..], depth, acc + [m])
      else Done(Obj(acc + [m]), t[1..])
  {
    assert (":" + value)[1..] == value;
  }

  lemma {:induction false} MembersInverse(strtod: Strtod, double: int -> Double, es: seq<Entry>, rest: string,
                                          depth: nat, acc: seq<Member>)
    requires ReadsIntegers(strtod, double) && es != []
    ensures Members(strtod, MembersText(es) + "}" + rest, depth, acc)
         == if MembersFit(es, depth + 1) then Done(Obj(acc + MembersMeaning(double, es)), rest) else Fail
    decreases es, 1
  {
    var e, es', t := es[0], es[1..], Continued(MembersText(es[1..]), '}', rest);
    var s, m := MembersText(es) + "}" + rest, Member(e.key, Meaning(double, e.doc));
    HeadFirst(acc, m, MembersMeaning(double, es'));
    ContinuedReads(MembersText(es'), '}', rest);
    var value := Text(e.doc) + t;
    MembersTextSplit(es, rest);
    QuotedInverse(e.key, ":" + value);
    ValueInverse(strtod, double, e.doc, t, depth + 1);
    MembersStep(strtod, s, depth, acc, m, value, t, Fits(e.doc, depth + 1));
    if es' != [] {
      MembersTextOpens(es');
      MembersInverse(strtod, double, es', rest, depth, acc + [m]);
    }
  }

  /** Json::parse takes the text of a document exactly when it nests at most 64 deep. */
  lemma ParseInverse(strtod: Strtod, double: int -> Double, d: Doc)
    requires ReadsIntegers(strtod, double)
    ensures Parse(strtod, Text(d)) == if Fits(d, 0) then Done(Meaning(double, d), "") else Fail
  {
    ValueInverse(strtod, double, d, "", 0);
    assert Text(d) + "" == Text(d);
  }
}
