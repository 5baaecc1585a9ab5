/**
 CompareVersion (apps/license-api/internal/service/service.go): the loop over dotted components is
 proved to order strings by a key, which makes the comparison a total preorder.
 */
module Version {
  import opened Decimal

  /** strings.Split(s, "."): the parts between the dots. */
  function Split(s: string): (parts: seq<string>)
    ensures parts != []
  {
    if s == "" then [""]
    else if s[0] == '.' then [""] + Split(s[1..])
    else var parts := Split(s[1..]); [[s[0]] + parts[0]] + parts[1..]
  }

  /** ^\d+(?:\.\d+)*$ */
  predicate IsVersion(s: string) {
    forall i :: 0 <= i < |Split(s)| ==> Split(s)[i] != "" && AllDigits(Split(s)[i])
  }

  /** strconv.Atoi on digits, which saturates when the number leaves the 64-bit range. */
  function Atoi(s: string): (n: nat)
    requires AllDigits(s)
  {
    if Value(s) > INT64_MAX then INT64_MAX else Value(s)
  }

  function Component(parts: seq<string>, i: nat): nat
    requires forall k :: 0 <= k < |parts| ==> AllDigits(parts[k])
  {
    if i < |parts| then Atoi(parts[i]) else 0
  }

  method CompareVersion(a: string, b: string) returns (r: int)
    ensures r == Compare(Key(a), Key(b))
  {
    if !IsVersion(a) || !IsVersion(b) {
      return if !IsVersion(a) && IsVersion(b) then -1 else if IsVersion(a) && !IsVersion(b) then 1 else 0;
    }
    var xs, ys := Split(a), Split(b);
    var n := if |ys| > |xs| then |ys| else |xs|;
    var i := 0;
    while i < n
      invariant 0 <= i <= n
      invariant forall k :: 0 <= k < i ==> Component(xs, k) == Component(ys, k)
    {
      var x, y := Component(xs, i), Component(ys, i);
      if x < y {
        FirstDifference(xs, ys, i);
        return -1;
      }
      if x > y {
        FirstDifference(ys, xs, i);
        CompareMirrors(Trimmed(Values(xs)), Trimmed(Values(ys)));
        return 1;
      }
      i := i + 1;
    }
    AllEqual(xs, ys);
    r := 0;
  }

  // ----- the key -----

  function Values(parts: seq<string>): (vs: seq<nat>)
    requires forall k :: 0 <= k < |parts| ==> AllDigits(parts[k])
    ensures |vs| == |parts| && forall k :: 0 <= k < |parts| ==> vs[k] == Atoi(parts[k])
  {
    if parts == [] then [] else [Atoi(parts[0])] + Values(parts[1..])
  }

  /** Without trailing zeros. */
  function Trimmed(vs: seq<nat>): (t: seq<nat>)
    ensures t <= vs && (t != [] ==> t[|t| - 1] != 0)
    ensures forall k :: |t| <= k < |vs| ==> vs[k] == 0
  {
    if vs == [] || vs[|vs| - 1] != 0 then vs else Trimmed(vs[..|vs| - 1])
  }

  /** Malformed strings share the lowest key; others have their saturated components, trimmed. */
  datatype VersionKey = Malformed | Components(vs: seq<nat>)

  function Key(s: string): VersionKey {
    if IsVersion(s) then Components(Trimmed(Values(Split(s)))) else Malformed
  }

  /** Lexicographic order. */
  function Lex(xs: seq<nat>, ys: seq<nat>): (r: int)
    ensures r in {-1, 0, 1}
  {
    if xs == [] then if ys == [] then 0 else -1
    else if ys == [] then 1
    else if xs[0] < ys[0] then -1
    else if xs[0] > ys[0] then 1
    else Lex(xs[1..], ys[1..])
  }

  function Compare(a: VersionKey, b: VersionKey): int {
    match (a, b)
    case (Malformed, Malformed) => 0
    case (Malformed, _) => -1
    case (_, Malformed) => 1
    case (Components(xs), Components(ys)) => Lex(xs, ys)
  }

  function At(vs: seq<nat>, i: nat): nat {
    if i < |vs| then vs[i] else 0
  }

  lemma {:induction false} LexBelow(xs: seq<nat>, ys: seq<nat>, i: nat)
    requires (forall k :: 0 <= k < i ==> At(xs, k) == At(ys, k)) && At(xs, i) < At(ys, i)
    requires xs != [] ==> xs[|xs| - 1] != 0
    ensures Lex(xs, ys) == -1
  {
    assert ys != [];
    if xs != [] && i > 0 {
      assert At(xs, 0) == At(ys, 0);
      forall k | 0 <= k < i - 1 ensures At(xs[1..], k) == At(ys[1..], k) {
        assert At(xs, k + 1) == At(ys, k + 1);
      }
      LexBelow(xs[1..], ys[1..], i - 1);
    }
  }

  lemma ComponentAt(xs: seq<string>, k: nat)
    requires forall i :: 0 <= i < |xs| ==> AllDigits(xs[i])
    ensures At(Trimmed(Values(xs)), k) == Component(xs, k)
  {
  }

  lemma FirstDifference(xs: seq<string>, ys: seq<string>, i: nat)
    requires forall k :: 0 <= k < |xs| ==> AllDigits(xs[k])
    requires forall k :: 0 <= k < |ys| ==> AllDigits(ys[k])
    requires forall k :: 0 <= k < i ==> Component(xs, k) == Component(ys, k)
    requires Component(xs, i) < Component(ys, i)
    ensures Lex(Trimmed(Values(xs)), Trimmed(Values(ys))) == -1
  {
    var us, vs := Trimmed(Values(xs)), Trimmed(Values(ys));
    forall k | 0 <= k < i ensures At(us, k) == At(vs, k) {
      ComponentAt(xs, k);
      ComponentAt(ys, k);
    }
    ComponentAt(xs, i);
    ComponentAt(ys, i);
    LexBelow(us, vs, i);
  }

  lemma AllEqual(xs: seq<string>, ys: seq<string>)
    requires forall k :: 0 <= k < |xs| ==> AllDigits(xs[k])
    requires forall k :: 0 <= k < |ys| ==> AllDigits(ys[k])
    requires forall k :: 0 <= k < |xs| || 0 <= k < |ys| ==> Component(xs, k) == Component(ys, k)
    ensures Lex(Trimmed(Values(xs)), Trimmed(Values(ys))) == 0
  {
    var us, vs := Trimmed(Values(xs)), Trimmed(Values(ys));
    forall k: nat ensures At(us, k) == At(vs, k) {
      ComponentAt(xs, k);
      ComponentAt(ys, k);
    }
    SameComponents(us, vs);
    LexZero(us, vs);
  }

  lemma SameComponents(us: seq<nat>, vs: seq<nat>)
    requires forall k: nat :: At(us, k) == At(vs, k)
    requires (us != [] ==> us[|us| - 1] != 0) && (vs != [] ==> vs[|vs| - 1] != 0)
    ensures us == vs
  {
    assert vs != [] ==> At(us, |vs| - 1) == At(vs, |vs| - 1);
    assert us != [] ==> At(us, |us| - 1) == At(vs, |us| - 1);
    assert |us| == |vs|;
    forall k | 0 <= k < |us| ensures us[k] == vs[k] {
      assert At(us, k) == At(vs, k);
    }
  }

  lemma {:induction false} CompareMirrors(xs: seq<nat>, ys: seq<nat>)
    ensures Lex(xs, ys) == -Lex(ys, xs)
  {
    if xs != [] && ys != [] {
      CompareMirrors(xs[1..], ys[1..]);
    }
  }

  lemma {:induction false} LexZero(xs: seq<nat>, ys: seq<nat>)
    ensures Lex(xs, ys) == 0 <==> xs == ys
  {
    if xs != [] && ys != [] {
      LexZero(xs[1..], ys[1..]);
      assert xs == [xs[0]] + xs[1..] && ys == [ys[0]] + ys[1..];
    }
  }

  lemma {:induction false} LexTransitive(xs: seq<nat>, ys: seq<nat>, zs: seq<nat>)
    requires Lex(xs, ys) <= 0 && Lex(ys, zs) <= 0
    ensures Lex(xs, zs) <= 0 && (Lex(xs, zs) == 0 ==> Lex(xs, ys) == 0 && Lex(ys, zs) == 0)
  {
    if xs != [] && ys != [] && zs != [] {
      if xs[0] == ys[0] == zs[0] {
        LexTransitive(xs[1..], ys[1..], zs[1..]);
      }
    }
  }

  /** The comparison of strings is a total preorder: antisymmetric in sign and transitive; two strings
      tie exactly when both are malformed or they agree but for trailing zeros; and a malformed
      string is below every well-formed one. */
  lemma TotalPreorder(a: string, b: string, c: string)
    ensures Compare(Key(a), Key(b)) == -Compare(Key(b), Key(a))
    ensures Compare(Key(a), Key(b)) <= 0 && Compare(Key(b), Key(c)) <= 0 ==> Compare(Key(a), Key(c)) <= 0
    ensures Compare(Key(a), Key(b)) == 0 <==> Key(a) == Key(b)
    ensures !IsVersion(a) && IsVersion(b) ==> Compare(Key(a), Key(b)) == -1
  {
    if IsVersion(a) && IsVersion(b) {
      CompareMirrors(Key(a).vs, Key(b).vs);
      LexZero(Key(a).vs, Key(b).vs);
      if IsVersion(c) && Lex(Key(a).vs, Key(b).vs) <= 0 && Lex(Key(b).vs, Key(c).vs) <= 0 {
        LexTransitive(Key(a).vs, Key(b).vs, Key(c).vs);
      }
    }
  }

  // ----- the order in plain numbers -----

  /** The number of a component as a 64-bit client reads it: saturated, and zero past the end. */
  function Numeral(parts: seq<string>, i: nat): nat
    requires forall k :: 0 <= k < |parts| ==> AllDigits(parts[k])
  {
    if i >= |parts| then 0
    else if Value(parts[i]) > 9_223_372_036_854_775_807 then 9_223_372_036_854_775_807 else Value(parts[i])
  }

  ghost predicate FirstDifferAt(xs: seq<string>, ys: seq<string>, i: nat)
    requires forall k :: 0 <= k < |xs| ==> AllDigits(xs[k])
    requires forall k :: 0 <= k < |ys| ==> AllDigits(ys[k])
  {
    Numeral(xs, i) != Numeral(ys, i) && forall k :: 0 <= k < i ==> Numeral(xs, k) == Numeral(ys, k)
  }

  lemma {:induction false} FirstOrNone(xs: seq<string>, ys: seq<string>, n: nat) returns (i: nat)
    requires forall k :: 0 <= k < |xs| ==> AllDigits(xs[k])
    requires forall k :: 0 <= k < |ys| ==> AllDigits(ys[k])
    ensures i <= n && (forall k :: 0 <= k < i ==> Numeral(xs, k) == Numeral(ys, k))
    ensures i < n ==> FirstDifferAt(xs, ys, i)
  {
    if n == 0 {
      i := 0;
    } else {
      i := FirstOrNone(xs, ys, n - 1);
      if i == n - 1 && Numeral(xs, i) == Numeral(ys, i) {
        i := n;
      }
    }
  }

  lemma SameNumerals(xs: seq<string>, k: nat)
    requires forall i :: 0 <= i < |xs| ==> AllDigits(xs[i])
    ensures Component(xs, k) == Numeral(xs, k)
  {
  }

  lemma DifferenceDecides(xs: seq<string>, ys: seq<string>, i: nat)
    requires forall k :: 0 <= k < |xs| ==> AllDigits(xs[k])
    requires forall k :: 0 <= k < |ys| ==> AllDigits(ys[k])
    requires FirstDifferAt(xs, ys, i)
    ensures Lex(Trimmed(Values(xs)), Trimmed(Values(ys))) == if Numeral(xs, i) < Numeral(ys, i) then -1 else 1
  {
    forall k | 0 <= k <= i ensures Component(xs, k) == Numeral(xs, k) && Component(ys, k) == Numeral(ys, k) {
      SameNumerals(xs, k);
      SameNumerals(ys, k);
    }
    if Numeral(xs, i) < Numeral(ys, i) {
      FirstDifference(xs, ys, i);
    } else {
      FirstDifference(ys, xs, i);
      CompareMirrors(Trimmed(Values(xs)), Trimmed(Values(ys)));
    }
  }

  lemma NoDifference(xs: seq<string>, ys: seq<string>, n: nat)
    requires forall k :: 0 <= k < |xs| ==> AllDigits(xs[k])
    requires forall k :: 0 <= k < |ys| ==> AllDigits(ys[k])
    requires n >= |xs| && n >= |ys| && forall k :: 0 <= k < n ==> Numeral(xs, k) == Numeral(ys, k)
    ensures Lex(Trimmed(Values(xs)), Trimmed(Values(ys))) == 0
    ensures forall k: nat :: !FirstDifferAt(xs, ys, k)
  {
    forall k | 0 <= k < |xs| || 0 <= k < |ys| ensures Component(xs, k) == Component(ys, k) {
      SameNumerals(xs, k);
      SameNumerals(ys, k);
      assert Numeral(xs, k) == Numeral(ys, k);
    }
    AllEqual(xs, ys);
    forall k: nat ensures !FirstDifferAt(xs, ys, k) {
      assert k < n ==> Numeral(xs, k) == Numeral(ys, k);
    }
  }

  /** Valid versions compare as the first differing numbers do, and are equal exactly if none differ. */
  lemma CompareMeans(a: string, b: string, i: nat)
    requires IsVersion(a) && IsVersion(b)
    ensures FirstDifferAt(Split(a), Split(b), i) ==>
              Compare(Key(a), Key(b)) == if Numeral(Split(a), i) < Numeral(Split(b), i) then -1 else 1
    ensures Compare(Key(a), Key(b)) == 0 <==> !exists k: nat :: FirstDifferAt(Split(a), Split(b), k)
  {
    var xs, ys := Split(a), Split(b);
    if FirstDifferAt(xs, ys, i) {
      DifferenceDecides(xs, ys, i);
    } else {
      var n := if |ys| > |xs| then |ys| else |xs|;
      var k := FirstOrNone(xs, ys, n);
      if k < n {
        DifferenceDecides(xs, ys, k);
      } else {
        NoDifference(xs, ys, n);
      }
    }
  }

  lemma SplitNext(c: char, s: string)
    ensures Split([c] + s) == if c == '.' then [""] + Split(s) else [[c] + Split(s)[0]] + Split(s)[1..]
  {
    assert ([c] + s)[1..] == s;
  }

  lemma GoodVersion()
    ensures IsVersion("10.2")
  {
    assert "10.2" == ['1'] + "0.2" && "0.2" == ['0'] + ".2" && ".2" == ['.'] + "2" && "2" == ['2'] + "";
    SplitNext('2', "");
    assert Split("2") == ["2"];
    SplitNext('.', "2");
    assert Split(".2") == ["", "2"];
    SplitNext('0', ".2");
    assert ['0'] + "" == "0" && ["", "2"][1..] == ["2"] && [['0'] + ""] + ["2"] == ["0", "2"];
    assert Split("0.2") == ["0", "2"];
    SplitNext('1', "0.2");
    assert ['1'] + "0" == "10" && ["0", "2"][1..] == ["2"] && [['1'] + "0"] + ["2"] == ["10", "2"];
    assert Split("10.2") == ["10", "2"];
  }

  lemma BadVersions()
    ensures !IsVersion("") && !IsVersion("1.") && !IsVersion(".1") && !IsVersion("v1")
  {
    assert Split("")[0] == "";
    SplitNext('1', ".");
    SplitNext('.', "");
    assert "1." == ['1'] + "." && "." == ['.'] + "";
    assert Split("1.")[1] == "";
    SplitNext('.', "1");
    assert ".1" == ['.'] + "1";
    assert Split(".1")[0] == "";
    SplitNext('v', "1");
    SplitNext('1', "");
    assert "v1" == ['v'] + "1" && "1" == ['1'] + "";
    assert Split("v1")[0] == "v1" && !IsDigit("v1"[0]);
  }

  /** Digits between single dots, and nothing else. */
  lemma VersionExamples()
    ensures IsVersion("10.2") && !IsVersion("") && !IsVersion("1.") && !IsVersion(".1") && !IsVersion("v1")
  {
    GoodVersion();
    BadVersions();
  }
}
