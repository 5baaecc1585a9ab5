/**
 The device's proof-of-possession header and signed message: ParseDeviceSignature and Header in
 apps/license-api/internal/service/httpsig.go, DeviceAuthMessage in
 apps/license-api/internal/crypto/sigtoken.go. Hashing is outside the model: a body enters by its
 32-byte digest.
 */
module DeviceAuth {
  import opened Wrappers
  import opened Decimal
  import opened Sequences
  import Base64

  // ----- the signed message -----

  type Digest = h: string | |h| == 32 witness seq(32, _ => '0')

  /** upper is strings.ToUpper, of which nothing is assumed. */
  function DeviceAuthMessage(upper: string -> string, method_: string, path: string, ts: int, nonce: string, seqNo: int,
                             bodyHash: Digest): string {
    "v1|" + upper(method_) + "|" + path + "|" + Print(ts) + "|" + nonce + "|" + Print(seqNo) + "|" + bodyHash
  }

  ghost predicate NoBar(s: string) {
    forall i :: 0 <= i < |s| ==> s[i] != '|'
  }

  /** strings.Cut: p around the first separator. */
  function Cut(p: string, sep: char): (r: Option<(string, string)>)
    ensures r.Some? ==> p == r.value.0 + [sep] + r.value.1 && sep !in r.value.0
  {
    if p == "" then None
    else if p[0] == sep then Some(("", p[1..]))
    else
      match Cut(p[1..], sep)
      case None => None
      case Some(kv) => Some(([p[0]] + kv.0, kv.1))
  }

  lemma {:induction false} CutAt(k: string, sep: char, v: string)
    requires sep !in k
    ensures Cut(k + [sep] + v, sep) == Some((k, v))
  {
    var p := k + [sep] + v;
    if k == "" {
      assert p[1..] == v;
    } else {
      assert p[0] == k[0];
      assert p[1..] == k[1..] + [sep] + v;
      CutAt(k[1..], sep, v);
      assert k == [k[0]] + k[1..];
    }
  }

  /** How many characters follow the last bar. */
  function AfterBar(s: string): nat {
    if s == "" || s[|s| - 1] == '|' then 0 else 1 + AfterBar(s[..|s| - 1])
  }

  lemma {:induction false} AfterBarOf(x: string, a: string)
    requires NoBar(a)
    ensures AfterBar(x + "|" + a) == |a|
  {
    if a != "" {
      var s := x + "|" + a;
      assert s[..|s| - 1] == x + "|" + a[..|a| - 1] && s[|s| - 1] == a[|a| - 1];
      AfterBarOf(x, a[..|a| - 1]);
    }
  }

  /** The first bar splits a text in one way only. */
  lemma SplitFirst(a: string, x: string, b: string, y: string)
    requires NoBar(a) && NoBar(b) && a + "|" + x == b + "|" + y
    ensures a == b && x == y
  {
    CutAt(a, '|', x);
    CutAt(b, '|', y);
  }

  /** The last bar splits a text in one way only. */
  lemma SplitLast(x: string, a: string, y: string, b: string)
    requires NoBar(a) && NoBar(b) && x + "|" + a == y + "|" + b
    ensures a == b && x == y
  {
    AfterBarOf(x, a);
    AfterBarOf(y, b);
    var s := x + "|" + a;
    assert x == s[..|x|] && y == s[..|y|];
    assert a == s[|x| + 1..] && b == s[|y| + 1..];
  }

  lemma {:induction false} DigitsNoBar(n: nat)
    ensures NoBar(Digits(n))
  {
    if n >= 10 {
      DigitsNoBar(n / 10);
    }
  }

  lemma PrintNoBar(n: int)
    ensures NoBar(Print(n))
  {
    DigitsNoBar(if n < 0 then -n else n);
  }

  /** One message, one meaning: the message determines the upper-cased method, the path, the numbers,
      the nonce (bars and all) and the body digest, for methods and paths without bars. */
  lemma MessageInjective(upper: string -> string, m1: string, p1: string, t1: int, n1: string, s1: int, h1: Digest,
                         m2: string, p2: string, t2: int, n2: string, s2: int, h2: Digest)
    requires NoBar(upper(m1)) && NoBar(upper(m2)) && NoBar(p1) && NoBar(p2)
    requires DeviceAuthMessage(upper, m1, p1, t1, n1, s1, h1) == DeviceAuthMessage(upper, m2, p2, t2, n2, s2, h2)
    ensures upper(m1) == upper(m2) && p1 == p2 && t1 == t2 && n1 == n2 && s1 == s2 && h1 == h2
  {
    var u1, u2 := upper(m1), upper(m2);
    var c1 := Core(u1, p1, t1, n1, s1);
    var c2 := Core(u2, p2, t2, n2, s2);
    Outline(upper, u1, p1, t1, n1, s1, h1, m1);
    Outline(upper, u2, p2, t2, n2, s2, h2, m2);
    FramedInjective(c1, h1, c2, h2);
    PartsInjective(u1, p1, t1, n1, s1, u2, p2, t2, n2, s2);
  }

  /** Everything between the version and the digest. */
  function Core(u: string, p: string, t: int, n: string, s: int): string {
    u + "|" + (p + "|" + (Print(t) + "|" + (n + "|" + Print(s))))
  }

  lemma FramedInjective(c1: string, h1: Digest, c2: string, h2: Digest)
    requires "v1|" + c1 + "|" + h1 == "v1|" + c2 + "|" + h2
    ensures c1 == c2 && h1 == h2
  {
    var a, b := "v1|" + c1 + "|" + h1, "v1|" + c2 + "|" + h2;
    assert |a| == |c1| + 36 && |b| == |c2| + 36;
    assert h1 == a[|a| - 32..] && h2 == b[|b| - 32..];
    assert c1 == a[3..|a| - 33] && c2 == b[3..|b| - 33];
  }

  /** The parts before the digest are determined by their joined text. */
  lemma PartsInjective(u1: string, p1: string, t1: int, n1: string, s1: int,
                       u2: string, p2: string, t2: int, n2: string, s2: int)
    requires NoBar(u1) && NoBar(u2) && NoBar(p1) && NoBar(p2)
    requires Core(u1, p1, t1, n1, s1) == Core(u2, p2, t2, n2, s2)
    ensures u1 == u2 && p1 == p2 && t1 == t2 && n1 == n2 && s1 == s2
  {
    PrintNoBar(t1);
    PrintNoBar(t2);
    PrintNoBar(s1);
    PrintNoBar(s2);
    SplitFirst(u1, p1 + "|" + (Print(t1) + "|" + (n1 + "|" + Print(s1))),
               u2, p2 + "|" + (Print(t2) + "|" + (n2 + "|" + Print(s2))));
    SplitFirst(p1, Print(t1) + "|" + (n1 + "|" + Print(s1)), p2, Print(t2) + "|" + (n2 + "|" + Print(s2)));
    SplitFirst(Print(t1), n1 + "|" + Print(s1), Print(t2), n2 + "|" + Print(s2));
    SplitLast(n1, Print(s1), n2, Print(s2));
    PrintInjective(t1, t2);
    PrintInjective(s1, s2);
  }

  lemma Outline(upper: string -> string, u: string, p: string, t: int, n: string, s: int, h: Digest, m: string)
    requires u == upper(m)
    ensures DeviceAuthMessage(upper, m, p, t, n, s, h) == "v1|" + Core(u, p, t, n, s) + "|" + h
  {
    var v, g := "v1|", "|";
    OutlineOf(v, u, g, p, Print(t), n, Print(s));
  }

  lemma OutlineOf(v: string, u: string, g: string, p: string, t: string, n: string, s: string)
    ensures v + u + g + p + g + t + g + n + g + s == v + (u + g + (p + g + (t + g + (n + g + s))))
  {
    Assoc(n, g, s);
    Assoc4(t, g, n, g + s);
    Assoc(v + u + g + p + g + t + g + n, g, s);
    Assoc(v + u + g + p + g + t + g, n, g + s);
    Assoc(v + u + g + p + g + t, g, n + (g + s));
    Assoc(v + u + g + p + g, t, g + (n + (g + s)));
    Assoc(v + u + g + p, g, t + (g + (n + (g + s))));
    Assoc(v + u + g, p, g + (t + (g + (n + (g + s)))));
    Assoc(v + u, g, p + (g + (t + (g + (n + (g + s))))));
    Assoc(v, u, g + (p + (g + (t + (g + (n + (g + s)))))));
    Assoc(t, g, n + (g + s));
    Assoc(p, g, t + (g + (n + (g + s))));
    Assoc(u, g, p + (g + (t + (g + (n + (g + s))))));
  }

  // ----- the header -----

  datatype DeviceSignature = DeviceSignature(pub: string, ts: int, nonce: string, seqNo: int, sig: seq<Base64.byte>)

  const BLANK := DeviceSignature("", 0, "", 0, [])

  /** unicode.IsSpace. */
  predicate IsSpace(c: char) {
    || '\t' <= c <= '\r' || c == ' ' || c == '\U{85}' || c == '\U{A0}' || c == '\U{1680}'
    || '\U{2000}' <= c <= '\U{200A}' || c == '\U{2028}' || c == '\U{2029}'
    || c == '\U{202F}' || c == '\U{205F}' || c == '\U{3000}'
  }

  predicate NoSpace(s: string) {
    forall i :: 0 <= i < |s| ==> !IsSpace(s[i])
  }

  /** strings.TrimSpace. */
  function TrimSpace(s: string): string {
    if s != "" && IsSpace(s[0]) then TrimSpace(s[1..])
    else if s != "" && IsSpace(s[|s| - 1]) then TrimSpace(s[..|s| - 1])
    else s
  }

  /** How far the word at the start of s reaches. */
  function WordLength(s: string): (n: nat)
    ensures n <= |s| && NoSpace(s[..n])
  {
    if s == "" || IsSpace(s[0]) then 0
    else
      var n := 1 + WordLength(s[1..]);
      assert s[..n] == [s[0]] + s[1..][..n - 1];
      n
  }

  /** strings.Fields: the words of s. */
  function Fields(s: string): (words: seq<string>)
    ensures forall i :: 0 <= i < |words| ==> NoSpace(words[i])
  {
    if s == "" then []
    else if IsSpace(s[0]) then Fields(s[1..])
    else var n := WordLength(s); [s[..n]] + Fields(s[n..])
  }

  /** strconv.ParseInt in base 10 with 64 bits. */
  function ParseInt64(v: string): (r: Option<int>)
    ensures r.Some? ==> IsInt64(r.value)
  {
    var rest := if v != "" && (v[0] == '+' || v[0] == '-') then v[1..] else v;
    if rest == "" || !AllDigits(rest) then None
    else
      var n := if v[0] == '-' then -(Value(rest) as int) else Value(rest);
      if IsInt64(n) then Some(n) else None
  }

  /** What base64.RawURLEncoding accepts: it reads no line breaks here, and tolerates spare bits. */
  predicate IsRawBase64(v: string) {
    Base64.IsBase64(v) && |v| % 4 != 1
  }

  /** Any base64 text spells some whole bytes. */
  lemma {:induction false} Decodable(s: string) returns (out: seq<Base64.byte>, acc: int, bits: int)
    requires Base64.IsBase64(s)
    ensures Base64.Pending(s, out, acc, bits)
  {
    if s == "" {
      out, acc, bits := [], 0, 0;
    } else {
      var front, c := s[..|s| - 1], s[|s| - 1];
      out, acc, bits := Decodable(front);
      Base64.PendingPush(front, out, acc, bits, c);
      assert front + [c] == s;
      acc := acc * 64 % Base64.WORD + Base64.CharValue(c);
      if bits + 6 >= 8 {
        out, bits := out + [Base64.Shr(acc, bits - 2) % 256], bits - 2;
      } else {
        bits := bits + 6;
      }
    }
  }

  ghost function BytesOf(s: string): (bytes: seq<Base64.byte>)
    requires Base64.IsBase64(s)
    ensures Base64.Decodes(s, bytes)
  {
    assert exists b :: Base64.Decodes(s, b) by {
      var out, acc, bits := Decodable(s);
      Base64.PendingFinish(s, out, acc, bits);
    }
    var b :| Base64.Decodes(s, b);
    b
  }

  /** One iteration of the loop: the key=value word p fills in its field. */
  ghost function Filled(d: DeviceSignature, p: string): Option<DeviceSignature> {
    match Cut(p, '=')
    case None => None
    case Some((k, v)) =>
      if k == "pub" then Some(d.(pub := v))
      else if k == "ts" then
        match ParseInt64(v) { case None => None case Some(n) => Some(d.(ts := n)) }
      else if k == "nonce" then Some(d.(nonce := v))
      else if k == "seq" then
        match ParseInt64(v) { case None => None case Some(n) => if n < 0 then None else Some(d.(seqNo := n)) }
      else if k == "sig" then
        if IsRawBase64(v) && |BytesOf(v)| >= 8 then Some(d.(sig := BytesOf(v))) else None
      else None
  }

  ghost function FilledAll(d: DeviceSignature, parts: seq<string>): Option<DeviceSignature>
    decreases |parts|
  {
    if parts == [] then Some(d)
    else
      match Filled(d, parts[0])
      case None => None
      case Some(e) => FilledAll(e, parts[1..])
  }

  predicate Complete(d: DeviceSignature) {
    d.pub != "" && d.ts != 0 && d.nonce != "" && d.sig != []
  }

  ghost function Parsed(header: string): Option<DeviceSignature> {
    var parts := Fields(TrimSpace(header));
    if parts == [] || parts[0] != "v1" then None
    else
      match FilledAll(BLANK, parts[1..])
      case None => None
      case Some(d) => if Complete(d) then Some(d) else None
  }

  method DecodeSig(v: string) returns (sig: Option<seq<Base64.byte>>)
    ensures sig == if IsRawBase64(v) && |BytesOf(v)| >= 8 then Some(BytesOf(v)) else None
  {
    if !IsRawBase64(v) {
      return None;
    }
    var bytes := Base64.DecodeDigits(v);
    Base64.NumberInjective(bytes, BytesOf(v));
    sig := if |bytes| < 8 then None else Some(bytes);
  }

  method ParseDeviceSignature(header: string) returns (r: Option<DeviceSignature>)
    ensures r == Parsed(header)
  {
    var parts := Fields(TrimSpace(header));
    if |parts| == 0 || parts[0] != "v1" {
      return None;
    }
    var d := BLANK;
    for i := 1 to |parts|
      invariant FilledAll(BLANK, parts[1..]) == FilledAll(d, parts[i..])
    {
      assert parts[i..][0] == parts[i] && parts[i..][1..] == parts[i + 1..];
      var cut := Cut(parts[i], '=');
      if cut.None? {
        return None;
      }
      var (k, v) := cut.value;
      match k
      case "pub" => d := d.(pub := v);
      case "ts" =>
        var ts := ParseInt64(v);
        if ts.None? {
          return None;
        }
        d := d.(ts := ts.value);
      case "nonce" => d := d.(nonce := v);
      case "seq" =>
        var n := ParseInt64(v);
        if n.None? || n.value < 0 {
          return None;
        }
        d := d.(seqNo := n.value);
      case "sig" =>
        var sig := DecodeSig(v);
        if sig.None? {
          return None;
        }
        d := d.(sig := sig.value);
      case _ => return None;
    }
    r := if Complete(d) then Some(d) else None;
  }

  /** The header text with signature characters sig64. */
  function HeaderText(d: DeviceSignature, sig64: string): string {
    var w := Words(d, sig64);
    "v1" + " " + w[0] + " " + w[1] + " " + w[2] + " " + w[3] + " " + w[4]
  }

  /** The key=value words of a header. */
  function Words(d: DeviceSignature, sig64: string): (w: seq<string>)
    ensures |w| == 5
  {
    ["pub=" + d.pub, "ts=" + Print(d.ts), "nonce=" + d.nonce, "seq=" + Print(d.seqNo), "sig=" + sig64]
  }

  /** Header on the server and device_auth_header in the client write the same text. */
  method Header(d: DeviceSignature) returns (h: string)
    ensures exists sig64 :: Base64.Encodes(d.sig, sig64) && h == HeaderText(d, sig64)
  {
    var encoded := Base64.Encode(d.sig);
    h := HeaderText(d, encoded);
  }

  // ----- parsing undoes printing -----

  /** The values a parsed header can hold. */
  predicate Canonical(d: DeviceSignature) {
    && d.pub != "" && NoSpace(d.pub)
    && d.nonce != "" && NoSpace(d.nonce)
    && d.ts != 0 && IsInt64(d.ts)
    && 0 <= d.seqNo <= INT64_MAX
    && |d.sig| >= 8
  }

  lemma {:induction false} WordReaches(w: string, rest: string)
    requires NoSpace(w) && (rest == "" || IsSpace(rest[0]))
    ensures WordLength(w + rest) == |w|
  {
    if w == "" {
      assert w + rest == rest;
    } else {
      assert (w + rest)[1..] == w[1..] + rest;
      WordReaches(w[1..], rest);
    }
  }

  lemma FirstWord(w: string, rest: string)
    requires NoSpace(w) && w != ""
    ensures Fields(w + " " + rest) == [w] + Fields(rest)
    ensures Fields(w) == [w]
  {
    var s := w + (" " + rest);
    WordReaches(w, " " + rest);
    assert s == w + " " + rest && s[|w|..] == " " + rest && s[..|w|] == w;
    assert (" " + rest)[1..] == rest;
    WordReaches(w, "");
    assert w + "" == w && w[..|w|] == w;
    assert Fields(s) == [s[..|w|]] + Fields(s[|w|..]);
    assert Fields(w) == [w[..|w|]] + Fields(w[|w|..]);
  }

  lemma {:induction false} DigitsNoSpace(n: nat)
    ensures NoSpace(Digits(n))
  {
    if n >= 10 {
      DigitsNoSpace(n / 10);
    }
  }

  lemma PrintInverse(n: int)
    ensures NoSpace(Print(n)) && Print(n) != ""
    ensures ParseInt64(Print(n)) == if IsInt64(n) then Some(n) else None
  {
    var m: nat := if n < 0 then -n else n;
    DigitsNoSpace(m);
    ValueOfDigits(m);
    assert n < 0 ==> Print(n)[1..] == Digits(m);
    assert IsDigit(Digits(m)[0]);
  }

  lemma NoLoneDigit(n: nat, m: nat)
    requires m == (8 * n + 5) / 6
    ensures m % 4 != 1
  {
    var q, r := n / 3, n % 3;
    assert m == 4 * q + (8 * r + 5) / 6;
  }

  lemma NoSpaceIn64(s: string)
    requires Base64.IsBase64(s)
    ensures NoSpace(s)
  {
    forall i | 0 <= i < |s| ensures !IsSpace(s[i]) {
      assert Base64.CharValue(s[i]) >= 0;
    }
  }

  lemma SigInverse(sig: seq<Base64.byte>, sig64: string)
    requires Base64.Encodes(sig, sig64)
    ensures NoSpace(sig64) && IsRawBase64(sig64) && BytesOf(sig64) == sig
  {
    NoSpaceIn64(sig64);
    NoLoneDigit(|sig|, |sig64|);
    Base64.RoundTrip(sig, sig64, BytesOf(sig64));
  }

  /** The words of a text written word by word. */
  lemma FiveWords(a: string, b: string, c: string, d: string, e: string)
    requires NoSpace(a) && NoSpace(b) && NoSpace(c) && NoSpace(d) && NoSpace(e)
    requires a != "" && b != "" && c != "" && d != "" && e != ""
    ensures Fields(a + " " + (b + " " + (c + " " + (d + " " + e)))) == [a, b, c, d, e]
  {
    FirstWord(a, b + " " + (c + " " + (d + " " + e)));
    FirstWord(b, c + " " + (d + " " + e));
    FirstWord(c, d + " " + e);
    FirstWord(d, e);
    FirstWord(e, "");
  }

  /** Joining from the left and from the right is the same. */
  lemma Nested(v: string, g: string, a: string, b: string, c: string, d: string, e: string)
    ensures v + g + a + g + b + g + c + g + d + g + e == v + g + (a + g + (b + g + (c + g + (d + g + e))))
  {
    Assoc(d, g, e);
    Assoc(v + g + a + g + b + g + c + g, d, g);
    Assoc(v + g + a + g + b + g + c + g, d + g, e);
    Assoc(v + g + a + g + b + g, c + g, d + g + e);
    Assoc(v + g + a + g, b + g, c + g + (d + g + e));
    Assoc(v + g, a + g, b + g + (c + g + (d + g + e)));
    Assoc(v + g + a + g + b + g, c, g);
    Assoc(v + g + a + g, b, g);
    Assoc(v + g, a, g);
  }

  lemma HeaderOutline(d: DeviceSignature, sig64: string)
    ensures var w := Words(d, sig64);
            HeaderText(d, sig64) == "v1" + " " + (w[0] + " " + (w[1] + " " + (w[2] + " " + (w[3] + " " + w[4]))))
  {
    var w := Words(d, sig64);
    Nested("v1", " ", w[0], w[1], w[2], w[3], w[4]);
  }

  lemma NoSpaceJoin(a: string, b: string)
    requires NoSpace(a) && NoSpace(b)
    ensures NoSpace(a + b)
  {
  }

  lemma KeysNoSpace()
    ensures NoSpace("pub=") && NoSpace("ts=") && NoSpace("nonce=") && NoSpace("seq=") && NoSpace("sig=")
  {
  }

  lemma WordsNoSpace(d: DeviceSignature, sig64: string)
    requires NoSpace(d.pub) && NoSpace(d.nonce) && NoSpace(sig64)
    ensures var w := Words(d, sig64); NoSpace(w[0]) && NoSpace(w[1]) && NoSpace(w[2]) && NoSpace(w[3]) && NoSpace(w[4])
  {
    PrintInverse(d.ts);
    PrintInverse(d.seqNo);
    KeysNoSpace();
    NoSpaceJoin("pub=", d.pub);
    NoSpaceJoin("ts=", Print(d.ts));
    NoSpaceJoin("nonce=", d.nonce);
    NoSpaceJoin("seq=", Print(d.seqNo));
    NoSpaceJoin("sig=", sig64);
  }

  /** The header begins with its version and ends with its last word, so there is nothing to trim. */
  lemma NothingToTrim(v: string, g: string, a: string, b: string, c: string, d: string, e: string)
    requires v != "" && !IsSpace(v[0]) && e != "" && NoSpace(e)
    ensures var h := v + g + a + g + b + g + c + g + d + g + e; TrimSpace(h) == h
  {
    var h := v + g + a + g + b + g + c + g + d + g + e;
    assert h[0] == v[0] && h[|h| - 1] == e[|e| - 1];
  }

  lemma HeaderWords(d: DeviceSignature, sig64: string)
    requires NoSpace(d.pub) && NoSpace(d.nonce) && NoSpace(sig64)
    ensures Fields(TrimSpace(HeaderText(d, sig64))) == ["v1"] + Words(d, sig64)
  {
    var w := Words(d, sig64);
    WordsNoSpace(d, sig64);
    NothingToTrim("v1", " ", w[0], w[1], w[2], w[3], w[4]);
    HeaderOutline(d, sig64);
    FiveWords(w[0], w[1], w[2], w[3], w[4]);
    FirstWord("v1", w[0] + " " + (w[1] + " " + (w[2] + " " + (w[3] + " " + w[4]))));
  }

  lemma FillPub(d: DeviceSignature, v: string)
    ensures Filled(d, "pub=" + v) == Some(d.(pub := v))
  {
    CutAt("pub", '=', v);
    assert "pub=" + v == "pub" + ['='] + v;
  }

  lemma FillTs(d: DeviceSignature, n: int)
    requires IsInt64(n)
    ensures Filled(d, "ts=" + Print(n)) == Some(d.(ts := n))
  {
    CutAt("ts", '=', Print(n));
    assert "ts=" + Print(n) == "ts" + ['='] + Print(n);
    PrintInverse(n);
  }

  lemma FillNonce(d: DeviceSignature, v: string)
    ensures Filled(d, "nonce=" + v) == Some(d.(nonce := v))
  {
    CutAt("nonce", '=', v);
    assert "nonce=" + v == "nonce" + ['='] + v;
  }

  lemma FillSeq(d: DeviceSignature, n: int)
    requires 0 <= n <= INT64_MAX
    ensures Filled(d, "seq=" + Print(n)) == Some(d.(seqNo := n))
  {
    CutAt("seq", '=', Print(n));
    assert "seq=" + Print(n) == "seq" + ['='] + Print(n);
    PrintInverse(n);
  }

  lemma FillSig(d: DeviceSignature, sig64: string)
    requires IsRawBase64(sig64) && |BytesOf(sig64)| >= 8
    ensures Filled(d, "sig=" + sig64) == Some(d.(sig := BytesOf(sig64)))
  {
    CutAt("sig", '=', sig64);
    assert "sig=" + sig64 == "sig" + ['='] + sig64;
  }

  lemma FillNext(d: DeviceSignature, e: DeviceSignature, parts: seq<string>)
    requires parts != [] && Filled(d, parts[0]) == Some(e)
    ensures FilledAll(d, parts) == FilledAll(e, parts[1..])
  {
  }

  lemma WordsFill(d: DeviceSignature, sig64: string)
    requires IsRawBase64(sig64) && BytesOf(sig64) == d.sig && Canonical(d)
    ensures FilledAll(BLANK, Words(d, sig64)) == Some(d)
  {
    var a, b, c, e, f := "pub=" + d.pub, "ts=" + Print(d.ts), "nonce=" + d.nonce, "seq=" + Print(d.seqNo), "sig=" + sig64;
    var d1 := BLANK.(pub := d.pub);
    var d2 := d1.(ts := d.ts);
    var d3 := d2.(nonce := d.nonce);
    var d4 := d3.(seqNo := d.seqNo);
    FillPub(BLANK, d.pub);
    FillTs(d1, d.ts);
    FillNonce(d2, d.nonce);
    FillSeq(d3, d.seqNo);
    FillSig(d4, sig64);
    FiveFill(BLANK, d1, d2, d3, d4, d, a, b, c, e, f);
  }

  lemma FiveFill(d0: DeviceSignature, d1: DeviceSignature, d2: DeviceSignature, d3: DeviceSignature,
                 d4: DeviceSignature, d5: DeviceSignature, a: string, b: string, c: string, e: string, f: string)
    requires Filled(d0, a) == Some(d1) && Filled(d1, b) == Some(d2) && Filled(d2, c) == Some(d3)
    requires Filled(d3, e) == Some(d4) && Filled(d4, f) == Some(d5)
    ensures FilledAll(d0, [a, b, c, e, f]) == Some(d5)
  {
    FillNext(d0, d1, [a, b, c, e, f]);
    assert [a, b, c, e, f][1..] == [b, c, e, f];
    FillNext(d1, d2, [b, c, e, f]);
    assert [b, c, e, f][1..] == [c, e, f];
    FillNext(d2, d3, [c, e, f]);
    assert [c, e, f][1..] == [e, f];
    FillNext(d3, d4, [e, f]);
    assert [e, f][1..] == [f];
    FillNext(d4, d5, [f]);
  }

  /** What holds of a partly filled value. */
  predicate Partial(d: DeviceSignature) {
    NoSpace(d.pub) && NoSpace(d.nonce) && IsInt64(d.ts) && 0 <= d.seqNo <= INT64_MAX && (d.sig == [] || |d.sig| >= 8)
  }

  lemma {:induction false} FilledPartial(d: DeviceSignature, parts: seq<string>)
    requires Partial(d) && forall i :: 0 <= i < |parts| ==> NoSpace(parts[i])
    ensures var r := FilledAll(d, parts); r.Some? ==> Partial(r.value)
    decreases |parts|
  {
    if parts != [] && Filled(d, parts[0]).Some? {
      var p, e := parts[0], Filled(d, parts[0]).value;
      var (k, v) := Cut(p, '=').value;
      assert NoSpace(v) by {
        assert v == p[|k| + 1..];
      }
      assert Partial(e);
      FilledPartial(e, parts[1..]);
    }
  }

  /** Whatever text arrives, an accepted header holds canonical values only. */
  lemma ParsedCanonical(header: string)
    ensures var r := Parsed(header); r.Some? ==> Canonical(r.value)
  {
    var parts := Fields(TrimSpace(header));
    if parts != [] && parts[0] == "v1" {
      FilledPartial(BLANK, parts[1..]);
    }
  }

  /** Parsing a printed header gives back the value exactly when the value is canonical. */
  lemma HeaderInverse(d: DeviceSignature, sig64: string)
    requires Base64.Encodes(d.sig, sig64)
    ensures Parsed(HeaderText(d, sig64)) == Some(d) <==> Canonical(d)
  {
    var h := HeaderText(d, sig64);
    ParsedCanonical(h);
    if Canonical(d) {
      SigInverse(d.sig, sig64);
      HeaderWords(d, sig64);
      assert (["v1"] + Words(d, sig64))[1..] == Words(d, sig64);
      WordsFill(d, sig64);
    }
  }

  // ----- the texts, spelled out -----

  lemma Glue(left: string, key: string, v: string)
    ensures left + " " + (key + v) == left + (" " + key) + v
  {
    Assoc(left, " ", key);
    Assoc(left + " ", key, v);
  }

  lemma HeaderSpelledOut(d: DeviceSignature, sig64: string)
    ensures HeaderText(d, sig64)
         == "v1" + (" " + "pub=") + d.pub + (" " + "ts=") + Print(d.ts) + (" " + "nonce=") + d.nonce
            + (" " + "seq=") + Print(d.seqNo) + (" " + "sig=") + sig64
  {
    var h1 := "v1" + (" " + "pub=") + d.pub;
    var h2 := h1 + (" " + "ts=") + Print(d.ts);
    var h3 := h2 + (" " + "nonce=") + d.nonce;
    var h4 := h3 + (" " + "seq=") + Print(d.seqNo);
    Glue("v1", "pub=", d.pub);
    Glue(h1, "ts=", Print(d.ts));
    Glue(h2, "nonce=", d.nonce);
    Glue(h3, "seq=", Print(d.seqNo));
    Glue(h4, "sig=", sig64);
  }

  /** The message the client signs (device_auth_header in sdk/windows-cpp/src/sdk.cpp). */
  function ClientMessage(method_: string, path: string, ts: int, nonce: string, seqNo: int, bodyHash: Digest): string {
    "v1|" + method_ + "|" + path + "|" + Print(ts) + "|" + nonce + "|" + Print(seqNo) + "|" + bodyHash
  }

  /** Client and server sign and verify one text for a request, exactly when they agree on its body and
      the client's method is what upper-casing makes of the server's. */
  lemma SameMessage(upper: string -> string, m: string, m': string, path: string, ts: int, nonce: string, seqNo: int,
                    h: Digest, h': Digest)
    requires NoBar(upper(m')) && NoBar(m) && NoBar(path)
    ensures ClientMessage(m, path, ts, nonce, seqNo, h) == DeviceAuthMessage(upper, m', path, ts, nonce, seqNo, h')
            <==> m == upper(m') && h == h'
  {
    var same := (s: string) => s;
    if ClientMessage(m, path, ts, nonce, seqNo, h) == DeviceAuthMessage(upper, m', path, ts, nonce, seqNo, h') {
      assert DeviceAuthMessage(same, m, path, ts, nonce, seqNo, h) == DeviceAuthMessage(same, upper(m'), path, ts, nonce, seqNo, h');
      MessageInjective(same, m, path, ts, nonce, seqNo, h, upper(m'), path, ts, nonce, seqNo, h');
    }
  }

  lemma SignedDigits(sign: char, n: nat)
    requires sign == '+' || sign == '-'
    ensures var value := if sign == '-' then 0 - n else n as int;
            ParseInt64([sign] + Digits(n)) == if IsInt64(value) then Some(value) else None
  {
    var v := [sign] + Digits(n);
    ValueOfDigits(n);
    assert v[0] == sign && v[1..] == Digits(n);
  }

  /** An explicit plus is read; what does not fit 64 bits is not. */
  lemma SignedNumbers(n: nat)
    ensures ParseInt64("+" + Digits(n)).Some? <==> n <= 9_223_372_036_854_775_807
    ensures ParseInt64("-" + Digits(n)).Some? <==> n <= 9_223_372_036_854_775_808
    ensures ParseInt64("+" + Digits(n)).Some? ==> ParseInt64("+" + Digits(n)).value == n
    ensures ParseInt64("-" + Digits(n)).Some? ==> ParseInt64("-" + Digits(n)).value + n == 0
  {
    SignedDigits('+', n);
    SignedDigits('-', n);
    assert "+" == ['+'] && "-" == ['-'];
  }

  // ----- which headers are refused -----

  /** The word has no '=', an unknown key, or a value its key does not take. */
  ghost predicate BadWord(p: string) {
    match Cut(p, '=')
    case None => true
    case Some((k, v)) =>
      || k !in {"pub", "ts", "nonce", "seq", "sig"}
      || (k == "ts" && ParseInt64(v) == None)
      || (k == "seq" && (ParseInt64(v) == None || ParseInt64(v).value < 0))
      || (k == "sig" && !(IsRawBase64(v) && |BytesOf(v)| >= 8))
  }

  lemma BadWordRefused(d: DeviceSignature, p: string)
    ensures Filled(d, p) == None <==> BadWord(p)
  {
  }

  lemma {:induction false} BadWordsRefused(d: DeviceSignature, parts: seq<string>)
    ensures FilledAll(d, parts) == None <==> exists i :: 0 <= i < |parts| && BadWord(parts[i])
    decreases |parts|
  {
    if parts != [] {
      BadWordRefused(d, parts[0]);
      if Filled(d, parts[0]).Some? {
        BadWordsRefused(Filled(d, parts[0]).value, parts[1..]);
        assert forall i :: 0 <= i < |parts[1..]| ==> parts[1..][i] == parts[i + 1];
        assert forall i :: 0 < i < |parts| ==> parts[i] == parts[1..][i - 1];
      }
    }
  }

  /** A header is refused exactly for a wrong version, a bad word, or a field that is missing or zero. */
  lemma RefusedExactly(header: string)
    ensures var words := Fields(TrimSpace(header));
      Parsed(header) == None <==>
        || words == [] || words[0] != "v1" || (exists i :: 0 < i < |words| && BadWord(words[i]))
        || (FilledAll(BLANK, words[1..]).Some?
            && var d := FilledAll(BLANK, words[1..]).value; d.pub == "" || d.ts == 0 || d.nonce == "" || d.sig == [])
  {
    var words := Fields(TrimSpace(header));
    if words != [] {
      var rest := words[1..];
      BadWordsRefused(BLANK, rest);
      assert forall i :: 0 <= i < |rest| ==> rest[i] == words[i + 1];
      assert forall i :: 0 < i < |words| ==> words[i] == rest[i - 1];
    }
  }
}
