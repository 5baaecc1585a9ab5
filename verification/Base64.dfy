/**
 Unpadded base64url (section 5 of RFC 4648) as the client library computes it, three bytes or one
 character at a time. What the two loops compute is stated by the number a text denotes: its bytes
 are the base-256 digits, its characters the base-64 digits, most significant first.
 */
module Base64 {
  import opened Division
  import opened Sequences

  type byte = b: int | 0 <= b < 256
  type sextet = d: int | 0 <= d < 64

  const WORD := 0x1_0000_0000 // uint32_t arithmetic is modulo this

  /** The entry of table B64C for a digit: A-Z, a-z, 0-9, '-', '_' in this order. */
  function Char(d: sextet): (c: char)
    ensures CharValue(c) == d
  {
    if d < 26 then ('A' as int + d) as char
    else if d < 52 then ('a' as int + d - 26) as char
    else if d < 62 then ('0' as int + d - 52) as char
    else if d == 62 then '-' else '_'
  }

  /** b64val: the digit of a character, or -1. */
  function CharValue(c: char): (v: int)
    ensures -1 <= v < 64
  {
    if 'A' <= c <= 'Z' then c as int - 'A' as int
    else if 'a' <= c <= 'z' then c as int - 'a' as int + 26
    else if '0' <= c <= '9' then c as int - '0' as int + 52
    else if c == '-' then 62
    else if c == '_' then 63
    else -1
  }

  predicate IsBase64(s: string) {
    forall i :: 0 <= i < |s| ==> CharValue(s[i]) >= 0
  }

  /** The number whose base-256 digits are the bytes. */
  function Number(bytes: seq<byte>): nat {
    if bytes == [] then 0 else Number(bytes[..|bytes| - 1]) * 256 + bytes[|bytes| - 1]
  }

  /** The number whose base-64 digits are the characters. */
  function TextNumber(s: string): nat
    requires IsBase64(s)
  {
    if s == "" then 0 else TextNumber(s[..|s| - 1]) * 64 + CharValue(s[|s| - 1])
  }

  /** Bits a text of n characters carries beyond its last whole byte: 0, 6, 4 or 2. */
  function SpareBits(n: nat): nat {
    6 * n % 8
  }

  /** n << bits, for the shift counts that occur. */
  function Shl(n: int, bits: int): int {
    match bits
    case 0 => n
    case 2 => n * 4
    case 4 => n * 16
    case 6 => n * 64
    case 8 => n * 256
    case 10 => n * 1024
    case _ => n * 4096
  }

  /** n >> bits. */
  function Shr(n: int, bits: int): int {
    match bits
    case 0 => n
    case 2 => n / 4
    case 4 => n / 16
    case 6 => n / 64
    case 8 => n / 256
    case 10 => n / 1024
    case _ => n / 4096
  }

  /** The low bits of n. */
  function Low(n: int, bits: int): int {
    match bits
    case 0 => 0
    case 2 => n % 4
    case 4 => n % 16
    case 6 => n % 64
    case 8 => n % 256
    case 10 => n % 1024
    case _ => n % 4096
  }

  /** bytes are the whole bytes of the bit string that s spells. */
  ghost predicate Decodes(s: string, bytes: seq<byte>) {
    && IsBase64(s)
    && |bytes| == 6 * |s| / 8
    && Number(bytes) == Shr(TextNumber(s), SpareBits(|s|))
  }

  /** s spells the bits of bytes, filled up with zero bits to a whole character. */
  ghost predicate Encodes(bytes: seq<byte>, s: string) {
    && IsBase64(s)
    && |s| == (8 * |bytes| + 5) / 6
    && TextNumber(s) == Shl(Number(bytes), 6 * |s| - 8 * |bytes|)
  }

  lemma {:induction false} NumberInjective(a: seq<byte>, b: seq<byte>)
    requires |a| == |b| && Number(a) == Number(b)
    ensures a == b
  {
    if a != [] {
      NumberInjective(a[..|a| - 1], b[..|b| - 1]);
      assert a == a[..|a| - 1] + [a[|a| - 1]];
      assert b == b[..|b| - 1] + [b[|b| - 1]];
    }
  }

  lemma CharValueInjective(x: char, y: char)
    requires CharValue(x) == CharValue(y) >= 0
    ensures x == y
  {
  }

  lemma {:induction false} TextNumberInjective(a: string, b: string)
    requires IsBase64(a) && IsBase64(b) && |a| == |b| && TextNumber(a) == TextNumber(b)
    ensures a == b
  {
    if a != [] {
      var front, x := a[..|a| - 1], a[|a| - 1];
      var front', y := b[..|b| - 1], b[|b| - 1];
      QuotientUnique(TextNumber(a), 64, TextNumber(front), CharValue(x));
      QuotientUnique(TextNumber(b), 64, TextNumber(front'), CharValue(y));
      CharValueInjective(x, y);
      TextNumberInjective(front, front');
      assert a == front + [x] && b == front' + [y];
    }
  }

  lemma NumberPush(bytes: seq<byte>, b: byte)
    ensures Number(bytes + [b]) == Number(bytes) * 256 + b
  {
    assert (bytes + [b])[..|bytes|] == bytes;
  }

  lemma TextPush(s: string, d: sextet)
    requires IsBase64(s)
    ensures IsBase64(s + [Char(d)])
    ensures TextNumber(s + [Char(d)]) == TextNumber(s) * 64 + d
  {
    assert (s + [Char(d)])[..|s|] == s;
  }

  lemma Lengths(n: nat, m: nat)
    requires m == (8 * n + 5) / 6
    ensures SpareBits(m) == 6 * m - 8 * n && SpareBits(m) in {0, 2, 4} && 6 * m / 8 == n
  {
    var fill := 6 * m - 8 * n;
    assert 0 <= fill <= 5;
    QuotientUnique(6 * m, 8, n, fill);
  }

  lemma ShiftBack(n: nat, bits: int)
    requires bits in {0, 2, 4}
    ensures Shr(Shl(n, bits), bits) == n
  {
  }

  /** Decoding what was encoded gives the bytes back: the two meanings are inverse. */
  lemma RoundTrip(bytes: seq<byte>, s: string, back: seq<byte>)
    requires Encodes(bytes, s) && Decodes(s, back)
    ensures back == bytes
  {
    Lengths(|bytes|, |s|);
    ShiftBack(Number(bytes), SpareBits(|s|));
    NumberInjective(back, bytes);
  }

  /** The encoding is unique, so a text that encodes bytes is the one the encoder prints. */
  lemma EncodingUnique(bytes: seq<byte>, s: string, t: string)
    requires Encodes(bytes, s) && Encodes(bytes, t)
    ensures s == t
  {
    TextNumberInjective(s, t);
  }

  lemma NumberPrefix(data: seq<byte>, i: nat)
    requires i < |data|
    ensures Number(data[..i + 1]) == Number(data[..i]) * 256 + data[i]
  {
    NumberPush(data[..i], data[i]);
    assert data[..i] + [data[i]] == data[..i + 1];
  }

  /** The four digits of a 24-bit group, by the bytes they straddle. */
  lemma Sextets(x: byte, y: byte, z: byte)
    ensures var v: int := x as int * 0x10000 + y as int * 0x100 + z;
            && v / 0x40000 % 64 == x / 4 && v / 0x1000 % 64 == x % 4 * 16 + y / 16
            && v / 64 % 64 == y % 16 * 4 + z / 64 && v % 64 == z % 64
  {
    var v: int := x as int * 0x10000 + y as int * 0x100 + z;
    QuotientUnique(v, 64, x as int * 1024 + y as int * 4 + z / 64, z % 64);
    QuotientUnique(v / 64, 64, x as int * 16 + y / 16, y % 16 * 4 + z / 64);
    QuotientUnique(v, 0x1000, x as int * 16 + y / 16, y % 16 * 0x100 + z);
    QuotientUnique(v / 0x1000, 64, x / 4, x % 4 * 16 + y / 16);
    QuotientUnique(v, 0x40000, x / 4, x % 4 * 0x10000 + y as int * 0x100 + z);
  }

  lemma EncodesBy(bytes: seq<byte>, s: string, fill: nat)
    requires IsBase64(s) && fill in {0, 2, 4} && 6 * |s| == 8 * |bytes| + fill
    requires TextNumber(s) == Shl(Number(bytes), fill)
    ensures Encodes(bytes, s)
  {
    QuotientUnique(8 * |bytes| + 5, 6, |s|, 5 - fill);
  }

  /** b64url_encode. */
  method Encode(data: seq<byte>) returns (out: string)
    ensures Encodes(data, out)
  {
    out := "";
    EncodesBy([], out, 0);
    var i := 0;
    while i < |data|
      invariant 0 <= i
      invariant if i < |data| then SpeltSoFar(data, i, out) else Encodes(data, out)
    {
      out := EncodeGroup(data, i, out);
      i := i + 3;
    }
  }

  /** Whole groups of three bytes up to i are spelt. */
  ghost predicate SpeltSoFar(data: seq<byte>, i: nat, out: string) {
    i <= |data| && i % 3 == 0 && 3 * |out| == 4 * i && IsBase64(out) && TextNumber(out) == Number(data[..i])
  }

  /** One iteration: up to three more bytes, and nothing is left over after the last group. */
  method EncodeGroup(data: seq<byte>, i: nat, before: string) returns (out: string)
    requires i < |data| && SpeltSoFar(data, i, before)
    ensures if i + 3 < |data| then SpeltSoFar(data, i + 3, out) else Encodes(data, out)
  {
    var b1, b2 := i + 1 < |data|, i + 2 < |data|;
    var x, y, z := data[i], if b1 then data[i + 1] else 0, if b2 then data[i + 2] else 0;
    var d0, d1, d2, d3 := SplitGroup(x, y, z);
    GroupValue(TextNumber(before), x, y, z, d0, d1, d2, d3);
    out := PushDigit(before, d0);
    out := PushDigit(out, d1);
    if !b1 {
      OneLeft(data, i, before, out);
      return;
    }
    out := PushDigit(out, d2);
    if !b2 {
      TwoLeft(data, i, before, out);
      return;
    }
    out := PushDigit(out, d3);
    ThreeMore(data, i, before, out);
  }

  lemma OneLeft(data: seq<byte>, i: nat, before: string, out: string)
    requires i + 1 == |data| && SpeltSoFar(data, i, before) && IsBase64(out) && |out| == |before| + 2
    requires TextNumber(out) == (TextNumber(before) * 256 + data[i]) * 16
    ensures Encodes(data, out)
  {
    GroupBytes(data, i);
    assert data[..i + 1] == data;
    EncodesBy(data, out, 4);
  }

  lemma TwoLeft(data: seq<byte>, i: nat, before: string, out: string)
    requires i + 2 == |data| && SpeltSoFar(data, i, before) && IsBase64(out) && |out| == |before| + 3
    requires TextNumber(out) == ((TextNumber(before) * 256 + data[i]) * 256 + data[i + 1]) * 4
    ensures Encodes(data, out)
  {
    GroupBytes(data, i);
    assert data[..i + 2] == data;
    EncodesBy(data, out, 2);
  }

  lemma ThreeMore(data: seq<byte>, i: nat, before: string, out: string)
    requires i + 3 <= |data| && SpeltSoFar(data, i, before) && IsBase64(out) && |out| == |before| + 4
    requires TextNumber(out) == ((TextNumber(before) * 256 + data[i]) * 256 + data[i + 1]) * 256 + data[i + 2]
    ensures SpeltSoFar(data, i + 3, out)
    ensures i + 3 == |data| ==> Encodes(data, out)
  {
    GroupBytes(data, i);
    if i + 3 == |data| {
      assert data[..i + 3] == data;
      EncodesBy(data, out, 0);
    }
  }

  /** The digits of a full or cut-off group, shifted in behind t, are its bytes shifted in behind t. */
  lemma GroupValue(t: nat, x: byte, y: byte, z: byte, d0: sextet, d1: sextet, d2: sextet, d3: sextet)
    requires d0 * 64 + d1 == x as int * 16 + y / 16 && d2 == y % 16 * 4 + z / 64 && d3 == z % 64
    ensures (((t * 64 + d0) * 64 + d1) * 64 + d2) * 64 + d3 == ((t * 256 + x) * 256 + y) * 256 + z
    ensures z == 0 ==> ((t * 64 + d0) * 64 + d1) * 64 + d2 == ((t * 256 + x) * 256 + y) * 4
    ensures y == 0 ==> (t * 64 + d0) * 64 + d1 == (t * 256 + x) * 16
  {
  }

  /** The number of one, two or three more bytes. */
  lemma GroupBytes(data: seq<byte>, i: nat)
    requires i < |data|
    ensures Number(data[..i + 1]) == Number(data[..i]) * 256 + data[i]
    ensures i + 1 < |data| ==> Number(data[..i + 2]) == (Number(data[..i]) * 256 + data[i]) * 256 + data[i + 1]
    ensures i + 2 < |data| ==>
              Number(data[..i + 3]) == ((Number(data[..i]) * 256 + data[i]) * 256 + data[i + 1]) * 256 + data[i + 2]
  {
    NumberPrefix(data, i);
    if i + 1 < |data| {
      NumberPrefix(data, i + 1);
    }
    if i + 2 < |data| {
      NumberPrefix(data, i + 2);
    }
  }

  /** The group v of an iteration and its four shifted-out digits; absent bytes are zero. */
  method SplitGroup(x: byte, y: byte, z: byte) returns (d0: sextet, d1: sextet, d2: sextet, d3: sextet)
    ensures d0 * 64 + d1 == x as int * 16 + y / 16
    ensures d2 == y % 16 * 4 + z / 64 && d3 == z % 64
  {
    var v: int := x as int * 0x10000;
    v := v + y as int * 0x100;
    v := v + z;
    Sextets(x, y, z);
    d0, d1, d2, d3 := v / 0x40000 % 64, v / 0x1000 % 64, v / 64 % 64, v % 64;
  }

  method PushDigit(s: string, d: sextet) returns (r: string)
    requires IsBase64(s)
    ensures IsBase64(r) && r == s + [Char(d)] && TextNumber(r) == TextNumber(s) * 64 + d
  {
    TextPush(s, d);
    r := s + [Char(d)];
  }

  /** The decoder's state after s: out, and the bits of acc still pending, spell s. */
  ghost predicate Pending(s: string, out: seq<byte>, acc: int, bits: int) {
    && IsBase64(s) && 0 <= acc < WORD
    && 8 * |out| + bits == 6 * |s| && bits in {0, 2, 4, 6}
    && Shl(Number(out), bits) + Low(acc, bits) == TextNumber(s)
  }

  lemma PendingPush(s: string, out: seq<byte>, acc: int, bits: int, c: char)
    requires Pending(s, out, acc, bits) && CharValue(c) >= 0
    ensures var next := (acc * 64 % WORD) + CharValue(c);
            if bits + 6 >= 8
            then Pending(s + [c], out + [Shr(next, bits - 2) % 256], next, bits - 2)
            else Pending(s + [c], out, next, bits + 6)
  {
    assert (s + [c])[..|s|] == s;
    var d := CharValue(c);
    var next := (acc * 64 % WORD) + d;
    Shift(acc, bits, d);
    if bits >= 2 {
      SplitByte(next, bits - 2);
      NumberPush(out, Shr(next, bits - 2) % 256);
    }
  }

  lemma PendingFinish(s: string, out: seq<byte>, acc: int, bits: int)
    requires Pending(s, out, acc, bits)
    ensures Decodes(s, out)
  {
    QuotientUnique(6 * |s|, 8, |out|, bits);
    var n, low := Number(out), Low(acc, bits);
    if bits == 2 { QuotientUnique(TextNumber(s), 4, n, low); }
    if bits == 4 { QuotientUnique(TextNumber(s), 16, n, low); }
    if bits == 6 { QuotientUnique(TextNumber(s), 64, n, low); }
  }

  /** The digits of s: everything up to the first '=', provided no character before it is foreign. */
  function Significant(s: string): (t: string)
    ensures t <= s
  {
    if s == "" || s[0] == '=' then "" else [s[0]] + Significant(s[1..])
  }

  /** Shifting by six in 32 bits only drops whole multiples of the word. */
  lemma Wrapped(acc: int) returns (k: int, w: int)
    requires 0 <= acc < WORD
    ensures w == acc * 64 % WORD && 0 <= w && w == acc * 64 - k * 0x1_0000_0000
    ensures w <= WORD - 64
  {
    k, w := acc * 64 / WORD, acc * 64 % WORD;
    assert w == 64 * (acc - k * 0x400_0000);
  }

  lemma ShiftLow0(acc: int, w: int, k: int, d: sextet)
    requires w == acc * 64 - k * 0x1_0000_0000 && w >= 0
    ensures (w + d) % 64 == d
  {
    QuotientUnique(w + d, 64, acc - k * 0x400_0000, d);
  }

  lemma ShiftLow2(acc: int, w: int, k: int, d: sextet)
    requires w == acc * 64 - k * 0x1_0000_0000 && w >= 0
    ensures (w + d) % 256 == acc % 4 * 64 + d
  {
    QuotientUnique(w + d, 256, acc / 4 - k * 0x100_0000, acc % 4 * 64 + d);
  }

  lemma ShiftLow4(acc: int, w: int, k: int, d: sextet)
    requires w == acc * 64 - k * 0x1_0000_0000 && w >= 0
    ensures (w + d) % 1024 == acc % 16 * 64 + d
  {
    QuotientUnique(w + d, 1024, acc / 16 - k * 0x40_0000, acc % 16 * 64 + d);
  }

  lemma ShiftLow6(acc: int, w: int, k: int, d: sextet)
    requires w == acc * 64 - k * 0x1_0000_0000 && w >= 0
    ensures (w + d) % 4096 == acc % 64 * 64 + d
  {
    QuotientUnique(w + d, 4096, acc / 64 - k * 0x10_0000, acc % 64 * 64 + d);
  }

  /** Shifting a character into the 32-bit accumulator keeps the pending low bits. */
  lemma Shift(acc: int, bits: int, d: sextet)
    requires 0 <= acc < WORD && bits in {0, 2, 4, 6}
    ensures acc * 64 % WORD + d < WORD
    ensures Low(acc * 64 % WORD + d, bits + 6) == Low(acc, bits) * 64 + d
  {
    var k, w := Wrapped(acc);
    if bits == 0 {
      ShiftLow0(acc, w, k, d);
    } else if bits == 2 {
      ShiftLow2(acc, w, k, d);
    } else if bits == 4 {
      ShiftLow4(acc, w, k, d);
    } else {
      ShiftLow6(acc, w, k, d);
    }
  }

  /** Splitting off the next whole byte: the pending bits are that byte followed by fewer than 8. */
  lemma SplitByte(acc: int, bits: int)
    requires 0 <= acc && bits in {0, 2, 4}
    ensures Low(acc, bits + 8) == Shl(Shr(acc, bits) % 256, bits) + Low(acc, bits)
  {
    var unit := Shl(1, bits);
    var q, r := acc / unit, acc % unit;
    assert acc == (unit * 256) * (q / 256) + (q % 256 * unit + r);
    QuotientUnique(acc, unit * 256, q / 256, q % 256 * unit + r);
  }

  /** b64url_decode: true exactly when the significant characters are all base64; then it yields
      their whole bytes. The caller's buffer is left alone on failure. */
  method Decode(input: string, buffer: seq<byte>) returns (ok: bool, out: seq<byte>)
    ensures ok == IsBase64(Significant(input))
    ensures ok ==> Decodes(Significant(input), out)
    ensures !ok ==> out == buffer
  {
    var s;
    ok, s := FilterDigits(input);
    if ok {
      out := DecodeDigits(s);
    } else {
      out := buffer;
    }
  }

  /** One more significant character. */
  lemma SignificantNext(input: string, i: nat, s: string)
    requires i < |input| && input[i] != '=' && Significant(input) == s + Significant(input[i..])
    ensures Significant(input) == s + [input[i]] + Significant(input[i + 1..])
  {
    assert input[i..][1..] == input[i + 1..];
    Assoc(s, [input[i]], Significant(input[i + 1..]));
  }

  lemma ForeignCharacter(s: string, c: char, rest: string)
    requires CharValue(c) < 0
    ensures !IsBase64(s + [c] + rest)
  {
    assert (s + [c] + rest)[|s|] == c;
  }

  lemma SignificantEnds(input: string, i: nat, s: string)
    requires i <= |input| && (i == |input| || input[i] == '=') && Significant(input) == s + Significant(input[i..])
    ensures Significant(input) == s
  {
    assert Significant(input[i..]) == "" && s + "" == s;
  }

  /** The character loop of b64url_decode. */
  method FilterDigits(input: string) returns (ok: bool, s: string)
    ensures ok == IsBase64(Significant(input))
    ensures ok ==> s == Significant(input)
  {
    s := "";
    var i := 0;
    assert input[0..] == input && "" + Significant(input) == Significant(input);
    while i < |input| && input[i] != '='
      invariant 0 <= i <= |input| && IsBase64(s)
      invariant Significant(input) == s + Significant(input[i..])
    {
      var c := input[i];
      SignificantNext(input, i, s);
      if CharValue(c) < 0 || c == '+' || c == '/' {
        ForeignCharacter(s, c, Significant(input[i + 1..]));
        return false, s;
      }
      s := s + [c];
      i := i + 1;
    }
    SignificantEnds(input, i, s);
    ok := true;
  }

  /** The bit loop of b64url_decode. */
  method DecodeDigits(s: string) returns (out: seq<byte>)
    requires IsBase64(s)
    ensures Decodes(s, out)
  {
    out := [];
    var acc: int, bits := 0, 0;
    var k := 0;
    while k < |s|
      invariant 0 <= k <= |s|
      invariant Pending(s[..k], out, acc, bits)
    {
      assert s[..k] + [s[k]] == s[..k + 1];
      out, acc, bits := DecodeStep(s[..k], out, acc, bits, s[k]);
      k := k + 1;
    }
    assert s[..k] == s;
    PendingFinish(s, out, acc, bits);
  }

  /** One iteration; a whole byte leaves the accumulator as soon as there is one. */
  method DecodeStep(ghost before: string, out: seq<byte>, acc: int, bits: int, c: char)
    returns (out': seq<byte>, acc': int, bits': int)
    requires Pending(before, out, acc, bits) && CharValue(c) >= 0
    ensures Pending(before + [c], out', acc', bits')
  {
    PendingPush(before, out, acc, bits, c);
    acc' := (acc * 64 % WORD) + CharValue(c);
    out', bits' := out, bits + 6;
    if bits' >= 8 {
      bits' := bits' - 8;
      out' := out' + [Shr(acc', bits') % 256];
    }
  }

  // ----- the alphabet -----

  /** Table 2 of RFC 4648, as character codes: A-Z, a-z, 0-9, minus, underline. */
  lemma AlphabetIs(d: sextet)
    ensures Char(d) as int == if d < 26 then d + 65 else if d < 52 then d + 71 else if d < 62 then d - 4
                              else if d == 62 then 45 else 95
    ensures CharValue(Char(d)) == d
  {
  }

  lemma Bytes2(x: byte, y: byte)
    ensures Number([x, y]) == 256 * x + y
  {
    NumberPush([x], y);
    NumberPush([], x);
    assert [x] + [y] == [x, y] && [] + [x] == [x];
  }

  lemma Text3(a: sextet, b: sextet, c: sextet)
    ensures var s := [Char(a), Char(b), Char(c)]; IsBase64(s) && TextNumber(s) == 4096 * a + 64 * b + c
  {
    TextPush("", a);
    TextPush([Char(a)], b);
    TextPush([Char(a), Char(b)], c);
    assert "" + [Char(a)] == [Char(a)] && [Char(a)] + [Char(b)] == [Char(a), Char(b)];
    assert [Char(a), Char(b)] + [Char(c)] == [Char(a), Char(b), Char(c)];
  }

  /** "fo" is Zm8, as in section 10 of RFC 4648, and the bytes 251 and 255 are -_8. */
  lemma Examples()
    ensures Encodes([102, 111], "Zm8") && Encodes([251, 255], "-_8")
  {
    Bytes2(102, 111);
    Text3(25, 38, 60);
    Bytes2(251, 255);
    Text3(62, 63, 60);
    assert "Zm8" == [Char(25), Char(38), Char(60)] && "-_8" == [Char(62), Char(63), Char(60)];
  }
}
