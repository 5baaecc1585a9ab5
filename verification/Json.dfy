/**
 The client's hand-written JSON reader (sdk/windows-cpp/src/util.cpp) and the compact notation its
 hand-written printer uses. A C++ char is a Dafny char; strtod is a parameter, since it belongs to
 the C library, and a double is the bit pattern it returns.

 The grammar is a recursive function on the text still to be read; class Parser is the source's
 reader, one cursor moving over one text, and is proved to follow the grammar.
 */
module Json {
  type Double = nat

  datatype Value =
    | Nul
    | Bool(b: bool)
    | Num(num: Double)
    | Str(str: string)
    | Arr(arr: seq<Value>)
    | Obj(obj: seq<Member>)

  datatype Member = Member(key: string, value: Value)

  /** Outcome of reading a prefix of a text: a value and the text after it. */
  datatype Scan<+T> = Fail | Done(value: T, rest: string)

  /** strtod: how many characters of the text it takes (0: no number), and the number. */
  datatype NumberScan = NumberScan(used: nat, value: Double)
  type Strtod = f: string -> NumberScan | forall s :: f(s).used <= |s|
    witness s => NumberScan(0, 0)

  const MAX_DEPTH := 64

  predicate IsSpace(c: char) {
    c == ' ' || c == '\t' || c == '\r' || c == '\n'
  }

  function SkipSpace(s: string): (r: string)
    ensures |r| <= |s|
    ensures r != "" ==> !IsSpace(r[0])
  {
    if s != "" && IsSpace(s[0]) then SkipSpace(s[1..]) else s
  }

  // ----- strings -----

  predicate IsHexDigit(c: char) {
    '0' <= c <= '9' || 'a' <= c <= 'f' || 'A' <= c <= 'F'
  }

  function HexDigit(c: char): nat
    requires IsHexDigit(c)
  {
    if c <= '9' then c as int - '0' as int
    else if c <= 'F' then c as int - 'A' as int + 10
    else c as int - 'a' as int + 10
  }

  /** The longest run of hexadecimal digits at the start, as a number continuing acc. */
  function HexRun(s: string, acc: nat): nat {
    if s != "" && IsHexDigit(s[0]) then HexRun(s[1..], 16 * acc + HexDigit(s[0])) else acc
  }

  /** strtol(s, nullptr, 16): leading white space, a sign and a 0x prefix are all allowed. */
  function Strtol16(s: string): int {
    if s == "" then 0
    else if IsSpace(s[0]) || s[0] == '\U{000B}' || s[0] == '\U{000C}' then Strtol16(s[1..])
    else if s[0] == '-' then 0 - Unprefixed(s[1..])
    else if s[0] == '+' then Unprefixed(s[1..])
    else Unprefixed(s)
  }

  function Unprefixed(s: string): int {
    if |s| >= 3 && s[0] == '0' && s[1] in {'x', 'X'} && IsHexDigit(s[2]) then HexRun(s[2..], 0)
    else HexRun(s, 0)
  }

  /** The UTF-8 bytes of a 16-bit wchar_t; surrogates are not combined. */
  function Utf8(wc: nat): string
    requires wc < 0x1_0000
  {
    if wc < 0x80 then [wc as char]
    else if wc < 0x800 then [(0xC0 + wc / 64) as char, (0x80 + wc % 64) as char]
    else [(0xE0 + wc / 4096) as char, (0x80 + wc / 64 % 64) as char, (0x80 + wc % 64) as char]
  }

  datatype Escape = Unknown | Stands(c: char)

  /** The character a one-letter escape stands for. */
  function Unescape(e: char): Escape {
    match e
    case '"' => Stands('"')
    case '\\' => Stands('\\')
    case '/' => Stands('/')
    case 'b' => Stands('\U{0008}')
    case 'f' => Stands('\U{000C}')
    case 'n' => Stands('\n')
    case 'r' => Stands('\r')
    case 't' => Stands('\t')
    case _ => Unknown
  }

  /** The rest of a string literal after its opening quote; out is what it held so far. */
  function StringBody(s: string, out: string): (r: Scan<string>)
    ensures r.Done? ==> |r.rest| < |s|
  {
    if s == "" then Fail
    else if s[0] == '"' then Done(out, s[1..])
    else if s[0] != '\\' then StringBody(s[1..], out + [s[0]])
    else if |s| < 2 then Fail
    else if s[1] == 'u' then
      if |s| < 6 then Fail else StringBody(s[6..], out + Utf8(Strtol16(s[2..6]) % 0x1_0000))
    else
      match Unescape(s[1])
      case Unknown => Fail
      case Stands(c) => StringBody(s[2..], out + [c])
  }

  // ----- values -----

  function Literal(word: string, v: Value, s: string): (r: Scan<Value>)
    requires word != ""
    ensures r.Done? ==> |r.rest| < |s|
  {
    if word <= s then Done(v, s[|word|..]) else Fail
  }

  function Number(strtod: Strtod, s: string): (r: Scan<Value>)
    ensures r.Done? ==> |r.rest| < |s|
  {
    var n := strtod(s);
    if n.used == 0 then Fail else Done(Num(n.value), s[n.used..])
  }

  /** parse_value. */
  function ValueAt(strtod: Strtod, s: string, depth: nat): (r: Scan<Value>)
    ensures r.Done? ==> |r.rest| < |s|
    decreases |s|, 0
  {
    var s := SkipSpace(s);
    if depth > MAX_DEPTH || s == "" then Fail
    else if s[0] == '{' then
      var t := SkipSpace(s[1..]);
      if t == "" then Fail else if t[0] == '}' then Done(Obj([]), t[1..]) else Members(strtod, t, depth, [])
    else if s[0] == '[' then
      var t := SkipSpace(s[1..]);
      if t == "" then Fail else if t[0] == ']' then Done(Arr([]), t[1..]) else Items(strtod, t, depth, [])
    else if s[0] == '"' then
      match StringBody(s[1..], "")
      case Fail => Fail
      case Done(str, rest) => Done(Str(str), rest)
    else if s[0] == 't' then Literal("true", Bool(true), s)
    else if s[0] == 'f' then Literal("false", Bool(false), s)
    else if s[0] == 'n' then Literal("null", Nul, s)
    else Number(strtod, s)
  }

  /** The loop of parse_arr. */
  function Items(strtod: Strtod, s: string, depth: nat, acc: seq<Value>): (r: Scan<Value>)
    ensures r.Done? ==> |r.rest| < |s|
    decreases |s|, 1
  {
    match ValueAt(strtod, s, depth + 1)
    case Fail => Fail
    case Done(item, rest) =>
      var t := SkipSpace(rest);
      if t == "" then Fail
      else if t[0] == ',' then Items(strtod, t[1..], depth, acc + [item])
      else if t[0] == ']' then Done(Arr(acc + [item]), t[1..])
      else Fail
  }

  /** The loop of parse_obj. */
  function Members(strtod: Strtod, s: string, depth: nat, acc: seq<Member>): (r: Scan<Value>)
    ensures r.Done? ==> |r.rest| < |s|
    decreases |s|, 1
  {
    var s := SkipSpace(s);
    if s == "" || s[0] != '"' then Fail
    else
      match StringBody(s[1..], "")
      case Fail => Fail
      case Done(key, rest) =>
        var t := SkipSpace(rest);
        if t == "" || t[0] != ':' then Fail
        else
          match ValueAt(strtod, t[1..], depth + 1)
          case Fail => Fail
          case Done(item, rest) =>
            var u := SkipSpace(rest);
            if u == "" then Fail
            else if u[0] == ',' then Members(strtod, u[1..], depth, acc + [Member(key, item)])
            else if u[0] == '}' then Done(Obj(acc + [Member(key, item)]), u[1..])
            else Fail
  }

  /** Json::parse: one value and nothing but white space after it. */
  function Parse(strtod: Strtod, text: string): Scan<Value> {
    match ValueAt(strtod, text, 0)
    case Fail => Fail
    case Done(v, rest) => if SkipSpace(rest) == "" then Done(v, "") else Fail
  }

  /** struct Parser: one cursor over one text, which never passes its end. */
  class Parser {
    const text: string
    const strtod: Strtod
    var p: nat

    ghost predicate Valid()
      reads this
    {
      p <= |text|
    }

    ghost function Rest(): string
      requires Valid()
      reads this
    {
      text[p..]
    }

    constructor (text: string, strtod: Strtod)
      ensures Valid() && p == 0 && this.text == text && this.strtod == strtod
    {
      this.text, this.strtod, this.p := text, strtod, 0;
    }

    method SkipWs() returns (more: bool)
      requires Valid()
      modifies this
      ensures Valid() && Rest() == SkipSpace(old(Rest())) && more == (Rest() != "")
    {
      while p < |text| && IsSpace(text[p])
        invariant Valid() && SkipSpace(Rest()) == SkipSpace(old(Rest()))
      {
        p := p + 1;
      }
      more := p < |text|;
    }

    method Advance()
      requires Valid() && p < |text|
      modifies this
      ensures Valid() && Rest() == old(Rest())[1..] && p == old(p) + 1
    {
      p := p + 1;
    }

    method ParseStr() returns (ok: bool, out: string)
      requires Valid()
      modifies this
      ensures Valid()
      ensures var s := old(Rest());
              if s == "" || s[0] != '"' then !ok
              else StringBody(s[1..], "") == if ok then Done(out, Rest()) else Fail
    {
      out := "";
      if p == |text| || text[p] != '"' { return false, out; }
      Advance();
      ghost var body := Rest();
      while p < |text|
        invariant Valid() && StringBody(Rest(), out) == StringBody(body, "")
      {
        ghost var s := Rest();
        var c := text[p];
        Advance();
        if c == '"' { return true, out; }
        if c == '\\' {
          assert s == ['\\'] + Rest();
          ok, out := ParseEscape(out);
          if !ok { return false, out; }
        } else {
          out := out + [c];
        }
      }
      ok := false;
    }

    /** The part of an escape after its backslash. */
    method ParseEscape(before: string) returns (ok: bool, out: string)
      requires Valid()
      modifies this
      ensures Valid() && p >= old(p)
      ensures StringBody(['\\'] + old(Rest()), before) == if ok then StringBody(Rest(), out) else Fail
    {
      out := before;
      ghost var s := ['\\'] + Rest();
      if p >= |text| { return false, out; }
      var e := text[p];
      Advance();
      assert s[2..] == Rest();
      if e == 'u' {
        if |text| - p < 4 { return false, out; }
        assert s[2..6] == text[p..p + 4] && s[6..] == text[p + 4..];
        out := out + Utf8(Strtol16(text[p..p + 4]) % 0x1_0000);
        p := p + 4;
      } else {
        match Unescape(e) {
          case Stands(x) => out := out + [x];
          case Unknown => return false, out;
        }
      }
      ok := true;
    }

    method Lit(word: string, val: Value) returns (ok: bool, v: Value)
      requires Valid() && word != ""
      modifies this
      ensures Valid() && Literal(word, val, old(Rest())) == if ok then Done(v, Rest()) else Fail
    {
      var n := |word|;
      v := val;
      ok := |text| - p >= n && text[p..p + n] == word;
      if ok { p := p + n; }
    }

    method ParseNum() returns (ok: bool, v: Value)
      requires Valid()
      modifies this
      ensures Valid() && Number(strtod, old(Rest())) == if ok then Done(v, Rest()) else Fail
    {
      var n := strtod(text[p..]);
      v := Num(n.value);
      ok := n.used != 0;
      p := p + n.used;
    }

    method ParseValue(depth: nat) returns (ok: bool, v: Value)
      requires Valid()
      modifies this
      ensures Valid() && ValueAt(strtod, old(Rest()), depth) == if ok then Done(v, Rest()) else Fail
      decreases |text| - p, 1
    {
      v := Nul;
      if depth > MAX_DEPTH { return false, v; }
      var more := SkipWs();
      if !more { return false, v; }
      match text[p] {
        case '{' => ok, v := ParseObj(depth);
        case '[' => ok, v := ParseArr(depth);
        case '"' =>
          var str;
          ok, str := ParseStr();
          v := Str(str);
        case 't' => ok, v := Lit("true", Bool(true));
        case 'f' => ok, v := Lit("false", Bool(false));
        case 'n' => ok, v := Lit("null", Nul);
        case _ => ok, v := ParseNum();
      }
    }

    method ParseArr(depth: nat) returns (ok: bool, v: Value)
      requires Valid() && p < |text| && text[p] == '['
      requires depth <= MAX_DEPTH
      modifies this
      ensures Valid() && ValueAt(strtod, old(Rest()), depth) == if ok then Done(v, Rest()) else Fail
      decreases |text| - p, 0
    {
      ghost var first, start := Rest(), p;
      assert SkipSpace(first) == first;
      var arr: seq<Value> := [];
      v := Nul;
      Advance();
      var more := SkipWs();
      if !more { return false, v; }
      if text[p] == ']' {
        Advance();
        return true, Arr([]);
      }
      while true
        invariant Valid() && p > start
        invariant Items(strtod, Rest(), depth, arr) == ValueAt(strtod, first, depth)
        decreases |text| - p
      {
        var item;
        ghost var before := p;
        ok, item := ParseValue(depth + 1);
        if !ok { return false, v; }
        more := SkipWs();
        if !more { return false, v; }
        if text[p] == ',' {
          Advance();
          arr := arr + [item];
        } else if text[p] == ']' {
          Advance();
          return true, Arr(arr + [item]);
        } else {
          return false, v;
        }
      }
    }

    method ParseObj(depth: nat) returns (ok: bool, v: Value)
      requires Valid() && p < |text| && text[p] == '{'
      requires depth <= MAX_DEPTH
      modifies this
      ensures Valid() && ValueAt(strtod, old(Rest()), depth) == if ok then Done(v, Rest()) else Fail
      decreases |text| - p, 0
    {
      ghost var first, start := Rest(), p;
      assert SkipSpace(first) == first;
      var obj: seq<Member> := [];
      v := Nul;
      Advance();
      var more := SkipWs();
      if !more { return false, v; }
      if text[p] == '}' {
        Advance();
        return true, Obj([]);
      }
      while true
        invariant Valid() && p > start
        invariant Members(strtod, Rest(), depth, obj) == ValueAt(strtod, first, depth)
        decreases |text| - p
      {
        var key, item;
        more := SkipWs();
        if !more || text[p] != '"' { return false, v; }
        ok, key := ParseStr();
        if !ok { return false, v; }
        more := SkipWs();
        if !more || text[p] != ':' { return false, v; }
        Advance();
        ok, item := ParseValue(depth + 1);
        if !ok { return false, v; }
        more := SkipWs();
        if !more { return false, v; }
        if text[p] == ',' {
          Advance();
          obj := obj + [Member(key, item)];
        } else if text[p] == '}' {
          Advance();
          return true, Obj(obj + [Member(key, item)]);
        } else {
          return false, v;
        }
      }
    }
  }

  /** The check that nothing but white space follows the value. */
  method OnlySpaceLeft(ps: Parser) returns (ok: bool)
    requires ps.Valid()
    modifies ps
    ensures ok <==> SkipSpace(old(ps.Rest())) == ""
  {
    while ps.p < |ps.text|
      invariant ps.Valid() && SkipSpace(ps.Rest()) == SkipSpace(old(ps.Rest()))
    {
      if !IsSpace(ps.text[ps.p]) { return false; }
      ps.p := ps.p + 1;
    }
    ok := true;
  }

  /** Json::parse. */
  method ParseText(strtod: Strtod, text: string) returns (ok: bool, v: Value)
    ensures Parse(strtod, text) == if ok then Done(v, "") else Fail
  {
    var ps := new Parser(text, strtod);
    assert ps.Rest() == text;
    ok, v := ps.ParseValue(0);
    if !ok { return; }
    ok := OnlySpaceLeft(ps);
  }
}
