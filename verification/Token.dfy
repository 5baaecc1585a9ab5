/**
 Signed tokens (MintToken and VerifyToken in apps/license-api/internal/crypto/sigtoken.go). Signatures
 and the JSON of the claims are parameters with the laws of Sound; the text format is modelled.
 */
module Token {
  import opened Wrappers
  import Base64
  import DeviceAuth
  import Version

  type byte = Base64.byte

  /** The claims the checks read, and the rest of them. */
  datatype Claims = Claims(kid: string, iss: int, exp: int, others: string)

  datatype Error = Format | UnknownKid | BadSig | Expired | NotYetValid | Marshal | Sign | KidMismatch

  datatype Signed = Signed(sig: seq<byte>, kid: string)

  datatype Keys = Keys(
    active: string, known: set<string>,
    sign: string -> Option<Signed>, verify: (string, string, seq<byte>) -> bool,
    marshal: Claims -> Option<seq<byte>>, unmarshal: seq<byte> -> Option<Claims>)

  /** What is assumed of the key ring and the JSON library: what they produce, they accept. */
  ghost predicate Sound(k: Keys) {
    && k.active in k.known
    && (forall m :: k.sign(m).Some? ==> |k.sign(m).value.sig| == 64 && k.verify(k.sign(m).value.kid, m, k.sign(m).value.sig))
    && (forall c :: k.marshal(c).Some? ==> k.unmarshal(k.marshal(c).value) == Some(c))
  }

  const PREFIX := "VLT1"

  /** t is a token for c, its second and third parts spelling the claims and the signature of that spelling. */
  ghost predicate Spells(k: Keys, c: Claims, p: string, g: string, t: string) {
    && k.marshal(c).Some? && Base64.Encodes(k.marshal(c).value, p)
    && k.sign(p).Some? && k.sign(p).value.kid == c.kid && Base64.Encodes(k.sign(p).value.sig, g)
    && t == PREFIX + "." + p + "." + g
  }

  /** The three ways minting can fail, in the order they are met; p spells the marshalled claims. */
  ghost predicate Minted(k: Keys, c: Claims, r: Result<string, Error>) {
    if k.marshal(c).None? then r == Fail(Marshal)
    else exists p :: Base64.Encodes(k.marshal(c).value, p)
           && if k.sign(p).None? then r == Fail(Sign)
              else if k.sign(p).value.kid != c.kid then r == Fail(KidMismatch)
              else r.Ok? && exists g :: Spells(k, c, p, g, r.value)
  }

  method MintToken(k: Keys, claims: Claims) returns (r: Result<string, Error>)
    ensures Minted(k, claims.(kid := k.active), r)
  {
    var c := claims.(kid := k.active);
    var payload := k.marshal(c);
    if payload.None? {
      return Fail(Marshal);
    }
    var p := Base64.Encode(payload.value);
    var signed := k.sign(p);
    if signed.None? {
      return Fail(Sign);
    }
    if signed.value.kid != c.kid {
      return Fail(KidMismatch);
    }
    var g := Base64.Encode(signed.value.sig);
    r := Ok(PREFIX + "." + p + "." + g);
    assert Spells(k, c, p, g, r.value);
  }

  /** DecodeString skips line breaks. */
  function WithoutBreaks(v: string): (w: string)
    ensures (forall i :: 0 <= i < |v| ==> v[i] != '\r' && v[i] != '\n') ==> w == v
  {
    if v == "" then ""
    else if v[0] == '\r' || v[0] == '\n' then WithoutBreaks(v[1..])
    else [v[0]] + WithoutBreaks(v[1..])
  }

  ghost function RawDecoded(v: string): Option<seq<byte>> {
    var w := WithoutBreaks(v);
    if DeviceAuth.IsRawBase64(w) then Some(DeviceAuth.BytesOf(w)) else None
  }

  method RawDecode(v: string) returns (r: Option<seq<byte>>)
    ensures r == RawDecoded(v)
  {
    var w := WithoutBreaks(v);
    if !DeviceAuth.IsRawBase64(w) {
      return None;
    }
    var bytes := Base64.DecodeDigits(w);
    Base64.NumberInjective(bytes, DeviceAuth.BytesOf(w));
    return Some(bytes);
  }

  ghost function Verified(k: Keys, t: string, now: int): Result<Claims, Error> {
    var parts := Version.Split(t);
    if |parts| != 3 || parts[0] != PREFIX then Fail(Format)
    else
      var sig, payload := RawDecoded(parts[2]), RawDecoded(parts[1]);
      if sig.None? || |sig.value| != 64 || payload.None? || k.unmarshal(payload.value).None? then Fail(Format)
      else
        var c := k.unmarshal(payload.value).value;
        if c.kid !in k.known then Fail(UnknownKid)
        else if !k.verify(c.kid, parts[1], sig.value) then Fail(BadSig)
        else if now > c.exp then Fail(Expired)
        else if c.iss > now + 60 then Fail(NotYetValid)
        else Ok(c)
  }

  method VerifyToken(k: Keys, t: string, now: int) returns (r: Result<Claims, Error>)
    ensures r == Verified(k, t, now)
  {
    var parts := Version.Split(t);
    if |parts| != 3 || parts[0] != PREFIX {
      return Fail(Format);
    }
    var sig := RawDecode(parts[2]);
    if sig.None? || |sig.value| != 64 {
      return Fail(Format);
    }
    var payload := RawDecode(parts[1]);
    if payload.None? {
      return Fail(Format);
    }
    var c := k.unmarshal(payload.value);
    if c.None? {
      return Fail(Format);
    }
    if c.value.kid !in k.known {
      return Fail(UnknownKid);
    }
    if !k.verify(c.value.kid, parts[1], sig.value) {
      return Fail(BadSig);
    }
    if now > c.value.exp {
      return Fail(Expired);
    }
    if c.value.iss > now + 60 {
      return Fail(NotYetValid);
    }
    return Ok(c.value);
  }

  lemma {:induction false} SplitAt(a: string, b: string)
    requires '.' !in a
    ensures Version.Split(a + "." + b) == [a] + Version.Split(b)
    ensures Version.Split(a) == [a]
  {
    var s := a + "." + b;
    if a == "" {
      assert s[1..] == b;
    } else {
      assert s[0] == a[0] && s[1..] == a[1..] + "." + b;
      SplitAt(a[1..], b);
      assert [a[0]] + a[1..] == a;
    }
  }

  /** Base64 text holds no dot and no line break, and decodes to what it encodes. */
  lemma EncodedPart(bytes: seq<byte>, s: string)
    requires Base64.Encodes(bytes, s)
    ensures '.' !in s && RawDecoded(s) == Some(bytes)
  {
    forall i | 0 <= i < |s| ensures s[i] != '.' && s[i] != '\r' && s[i] != '\n' {
      assert Base64.CharValue(s[i]) >= 0;
    }
    assert WithoutBreaks(s) == s;
    DeviceAuth.SigInverse(bytes, s);
  }

  lemma TokenParts(p: string, g: string)
    requires '.' !in p && '.' !in g
    ensures Version.Split(PREFIX + "." + p + "." + g) == [PREFIX, p, g]
  {
    assert PREFIX + "." + p + "." + g == PREFIX + "." + (p + "." + g);
    SplitAt(PREFIX, p + "." + g);
    SplitAt(p, g);
    SplitAt(g, "");
  }

  /** A minted token is accepted with its claims from a minute before its issue until its expiry. */
  lemma MintedVerifies(k: Keys, c: Claims, p: string, g: string, t: string, now: int)
    requires Sound(k) && c.kid == k.active && Spells(k, c, p, g, t)
    ensures Verified(k, t, now) == if now > c.exp then Fail(Expired) else if c.iss > now + 60 then Fail(NotYetValid) else Ok(c)
  {
    EncodedPart(k.marshal(c).value, p);
    EncodedPart(k.sign(p).value.sig, g);
    TokenParts(p, g);
  }

  /** So whatever MintToken returns is accepted, at the instants its claims allow. */
  lemma MintThenVerify(k: Keys, c: Claims, r: Result<string, Error>, now: int)
    requires Sound(k) && c.kid == k.active && Minted(k, c, r) && r.Ok?
    ensures Verified(k, r.value, now).Ok? <==> c.iss - 60 <= now <= c.exp
    ensures Verified(k, r.value, now).Ok? ==> Verified(k, r.value, now).value == c
  {
    var p :| Base64.Encodes(k.marshal(c).value, p)
             && if k.sign(p).None? then r == Fail(Sign)
                else if k.sign(p).value.kid != c.kid then r == Fail(KidMismatch)
                else r.Ok? && exists g :: Spells(k, c, p, g, r.value);
    var g :| Spells(k, c, p, g, r.value);
    MintedVerifies(k, c, p, g, r.value, now);
  }

  // ----- what acceptance guarantees -----

  lemma {:induction false} SplitParts(s: string)
    ensures forall i :: 0 <= i < |Version.Split(s)| ==> '.' !in Version.Split(s)[i]
    ensures s == Joined(Version.Split(s))
  {
    if s != "" {
      SplitParts(s[1..]);
      var parts := Version.Split(s[1..]);
      assert s == [s[0]] + s[1..];
      if s[0] == '.' {
        JoinedDot(parts);
      } else {
        JoinedHead(s[0], parts);
      }
    }
  }

  /** The parts with dots in between. */
  function Joined(parts: seq<string>): string {
    if parts == [] then "" else if |parts| == 1 then parts[0] else parts[0] + "." + Joined(parts[1..])
  }

  lemma JoinedHead(c: char, parts: seq<string>)
    requires parts != []
    ensures Joined([[c] + parts[0]] + parts[1..]) == [c] + Joined(parts)
  {
    var more := [[c] + parts[0]] + parts[1..];
    assert more[1..] == parts[1..];
    if |parts| > 1 {
      assert [c] + parts[0] + "." + Joined(parts[1..]) == [c] + (parts[0] + "." + Joined(parts[1..]));
    }
  }

  lemma JoinedThree(parts: seq<string>)
    requires |parts| == 3
    ensures Joined(parts) == parts[0] + "." + (parts[1] + "." + parts[2])
  {
    var tail := parts[1..];
    assert tail[1..] == [parts[2]];
    assert Joined(tail) == tail[0] + "." + Joined([parts[2]]);
    assert Joined(parts) == parts[0] + "." + Joined(tail);
  }

  lemma JoinedDot(parts: seq<string>)
    requires parts != []
    ensures Joined([""] + parts) == "." + Joined(parts)
  {
    var more := [""] + parts;
    assert more[1..] == parts && more[0] == "";
    assert "" + "." + Joined(parts) == "." + Joined(parts);
  }

  /** t has three parts without dots, the second spelling claims of a known key that the third signs. */
  ghost predicate Authentic(k: Keys, c: Claims, t: string, p: string, g: string) {
    && '.' !in p && '.' !in g && t == "VLT1." + p + "." + g
    && RawDecoded(p).Some? && k.unmarshal(RawDecoded(p).value) == Some(c) && c.kid in k.known
    && RawDecoded(g).Some? && |RawDecoded(g).value| == 64 && k.verify(c.kid, p, RawDecoded(g).value)
  }

  lemma PrefixDotless()
    ensures '.' !in PREFIX && PREFIX + "." == "VLT1."
  {
  }

  lemma AuthenticParts(k: Keys, c: Claims, t: string, p: string, g: string)
    requires Authentic(k, c, t, p, g)
    ensures Version.Split(t) == [PREFIX, p, g]
  {
    PrefixDotless();
    assert "VLT1." + p + "." + g == PREFIX + "." + p + "." + g;
    TokenParts(p, g);
  }

  lemma ThreeParts(t: string)
    requires |Version.Split(t)| == 3 && Version.Split(t)[0] == PREFIX
    ensures var parts := Version.Split(t); '.' !in parts[1] && '.' !in parts[2] && t == "VLT1." + parts[1] + "." + parts[2]
  {
    var parts := Version.Split(t);
    SplitParts(t);
    PrefixDotless();
    JoinedThree(parts);
    assert PREFIX + "." + (parts[1] + "." + parts[2]) == PREFIX + "." + parts[1] + "." + parts[2];
  }

  /** Whatever text arrives, it is accepted with claims c exactly if a known key signed the part that
      spells c, and the present lies within the time c allows. */
  lemma AcceptedExactly(k: Keys, t: string, now: int, c: Claims)
    ensures Verified(k, t, now) == Ok(c) <==> (exists p, g :: Authentic(k, c, t, p, g)) && c.iss - 60 <= now <= c.exp
  {
    if Verified(k, t, now) == Ok(c) {
      ThreeParts(t);
      assert Authentic(k, c, t, Version.Split(t)[1], Version.Split(t)[2]);
    }
    if (exists p, g :: Authentic(k, c, t, p, g)) && c.iss - 60 <= now <= c.exp {
      var p, g :| Authentic(k, c, t, p, g);
      AuthenticParts(k, c, t, p, g);
    }
  }

  /** A well-formed token of a known key whose signature does not fit is answered with BadSig. */
  lemma ForgedRefused(k: Keys, t: string, now: int, c: Claims, p: string, g: string)
    requires '.' !in p && '.' !in g && t == PREFIX + "." + p + "." + g
    requires RawDecoded(p).Some? && k.unmarshal(RawDecoded(p).value) == Some(c) && c.kid in k.known
    requires RawDecoded(g).Some? && |RawDecoded(g).value| == 64
    ensures Verified(k, t, now) == Fail(BadSig) <==> !k.verify(c.kid, p, RawDecoded(g).value)
  {
    TokenParts(p, g);
  }
}
