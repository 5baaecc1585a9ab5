/**
 The client's saved state (sdk/windows-cpp/src/store.cpp): printing it, reading it back, and the
 proof that a state read back into a fresh object is the state that was printed.
 */
module StateStore {
  import opened Wrappers
  import opened Sequences
  import opened Json
  import opened JsonText
  import Base64
  import Decimal

  datatype State = State(
    backend: string, pub: string, encPriv: seq<Base64.byte>,
    licenseId: string, deviceId: string, lease: string,
    leaseExp: int, licenseExp: int, hbInterval: int, seqNo: int,
    pins: seq<string>)

  const FRESH := State("", "", [], "", "", "", 0, 0, 60, 0, [])

  /** strtod, and the conversion of a double to int64_t. */
  datatype CLib = CLib(strtod: Strtod, toInt64: Double -> int)

  /** What an integer becomes by way of a double. */
  function Narrowed(lib: CLib, double: int -> Double, n: int): int {
    lib.toInt64(double(n))
  }

  /** Integers up to this magnitude survive the passage through a double. */
  const EXACT := 0x20_0000_0000_0000

  ghost predicate ExactUpTo53Bits(lib: CLib, double: int -> Double) {
    forall n :: -EXACT <= n <= EXACT ==> Narrowed(lib, double, n) == n
  }

  // ----- printing -----

  /** The text of the key blob: nothing for an empty one, else its base64url encoding. */
  ghost predicate BlobText(blob: seq<Base64.byte>, text: string) {
    if blob == [] then text == "" else Base64.Encodes(blob, text)
  }

  function Quotes(ss: seq<string>): seq<Doc> {
    if ss == [] then [] else [Quote(ss[0])] + Quotes(ss[1..])
  }

  function Entries(st: State, priv: string): seq<Entry> {
    [ Entry("backend", Quote(st.backend)), Entry("pub", Quote(st.pub)), Entry("priv", Quote(priv)),
      Entry("lic", Quote(st.licenseId)), Entry("dev", Quote(st.deviceId)), Entry("lease", Quote(st.lease)),
      Entry("lease_exp", Integer(st.leaseExp)), Entry("license_exp", Integer(st.licenseExp)),
      Entry("hb", Integer(st.hbInterval)), Entry("seq", Integer(st.seqNo)),
      Entry("pins", List(Quotes(st.pins))) ]
  }

  /** text is what serialize prints for st. */
  ghost predicate Saves(st: State, text: string) {
    exists priv :: BlobText(st.encPriv, priv) && text == Text(Dict(Entries(st, priv)))
  }

  // ----- reading -----

  /** JsonValue::find: the first member with this key. */
  function Find(members: seq<Member>, key: string): Option<Value> {
    if members == [] then None
    else if members[0].key == key then Some(members[0].value)
    else Find(members[1..], key)
  }

  function GetStr(members: seq<Member>, key: string): string {
    match Find(members, key) case Some(Str(s)) => s case _ => ""
  }

  function GetInt(lib: CLib, members: seq<Member>, key: string, default: int): int {
    match Find(members, key) case Some(Num(d)) => lib.toInt64(d) case _ => default
  }

  /** The strings among the elements of an array; none when it is no array. */
  function Strings(v: Option<Value>): seq<string> {
    match v case Some(Arr(items)) => StringItems(items) case _ => []
  }

  function StringItems(items: seq<Value>): seq<string> {
    if items == [] then []
    else (if items[0].Str? then [items[0].str] else []) + StringItems(items[1..])
  }

  /** A key blob is replaced only by a text that is there and decodes. */
  ghost predicate BlobLoaded(text: string, before: seq<Base64.byte>, after: seq<Base64.byte>) {
    var digits := Base64.Significant(text);
    if text != "" && Base64.IsBase64(digits) then Base64.Decodes(digits, after) else after == before
  }

  /** The state holds what the members say under the names parse_state looks for. */
  ghost predicate HoldsStrings(m: seq<Member>, st: State) {
    && st.backend == GetStr(m, "backend") && st.pub == GetStr(m, "pub")
    && st.licenseId == GetStr(m, "lic") && st.deviceId == GetStr(m, "dev") && st.lease == GetStr(m, "lease")
  }

  ghost predicate HoldsIntegers(lib: CLib, m: seq<Member>, st: State) {
    && st.leaseExp == GetInt(lib, m, "lease_exp", 0) && st.licenseExp == GetInt(lib, m, "license_exp", 0)
    && st.hbInterval == GetInt(lib, m, "hb", 60) && st.seqNo == GetInt(lib, m, "seq", 0)
  }

  /** The members of the parsed object take the state from before to after. */
  ghost predicate Assigned(lib: CLib, m: seq<Member>, before: State, after: State) {
    && HoldsStrings(m, after) && HoldsIntegers(lib, m, after)
    && BlobLoaded(GetStr(m, "priv"), before.encPriv, after.encPriv)
    && after.pins == before.pins + Strings(Find(m, "pins"))
  }

  /** parse_state on this text takes the object from before to after. */
  ghost predicate Loads(lib: CLib, text: string, before: State, after: State) {
    match Parse(lib.strtod, text)
    case Done(Obj(m), _) => Assigned(lib, m, before, after)
    case _ => after == before
  }

  // ----- the round trip -----

  lemma {:induction false} StringsOfQuotes(double: int -> Double, ss: seq<string>)
    ensures StringItems(ItemsMeaning(double, Quotes(ss))) == ss
  {
    if ss != [] {
      StringsOfQuotes(double, ss[1..]);
      assert Quotes(ss)[1..] == Quotes(ss[1..]);
      assert ItemsMeaning(double, Quotes(ss))[1..] == ItemsMeaning(double, Quotes(ss[1..]));
    }
  }

  lemma {:induction false} QuotesFit(ss: seq<string>)
    ensures ItemsFit(Quotes(ss), 2)
  {
    if ss != [] {
      QuotesFit(ss[1..]);
      assert Quotes(ss)[1..] == Quotes(ss[1..]);
    }
  }

  lemma FindNext(double: int -> Double, es: seq<Entry>, i: nat, key: string)
    requires i < |es|
    ensures es[i].key == key ==>
              Find(MembersMeaning(double, es[i..]), key) == Some(Meaning(double, es[i].doc))
    ensures es[i].key != key ==>
              Find(MembersMeaning(double, es[i..]), key) == Find(MembersMeaning(double, es[i + 1..]), key)
  {
    assert es[i..][1..] == es[i + 1..];
    assert MembersMeaning(double, es[i..])[1..] == MembersMeaning(double, es[i + 1..]);
  }

  /** Every key is found under its own name: no earlier entry has it. */
  lemma {:induction false} FindEntry(double: int -> Double, es: seq<Entry>, from: nat, i: nat)
    requires from <= i < |es| && forall j :: from <= j < i ==> es[j].key != es[i].key
    ensures Find(MembersMeaning(double, es[from..]), es[i].key) == Some(Meaning(double, es[i].doc))
    decreases i - from
  {
    FindNext(double, es, from, es[i].key);
    if from < i {
      FindEntry(double, es, from + 1, i);
    }
  }

  lemma EntriesFit(st: State, priv: string)
    ensures Fits(Dict(Entries(st, priv)), 0)
  {
    QuotesFit(st.pins);
    var es := Entries(st, priv);
    ScalarsFit(es, 10);
    EntriesFitFrom(es, 0);
    assert es[0..] == es;
  }

  lemma ScalarsFit(es: seq<Entry>, n: nat)
    requires n <= |es| && forall i :: 0 <= i < n ==> es[i].doc.Quote? || es[i].doc.Integer?
    ensures forall i :: 0 <= i < n ==> Fits(es[i].doc, 1)
  {
  }

  lemma {:induction false} EntriesFitFrom(es: seq<Entry>, from: nat)
    requires from <= |es| && forall i :: from <= i < |es| ==> Fits(es[i].doc, 1)
    ensures MembersFit(es[from..], 1)
    decreases |es| - from
  {
    if from < |es| {
      EntriesFitFrom(es, from + 1);
      assert es[from..][1..] == es[from + 1..];
    }
  }

  lemma {:induction false} AllBase64IsSignificant(s: string)
    requires Base64.IsBase64(s)
    ensures Base64.Significant(s) == s
  {
    if s != "" {
      assert Base64.CharValue(s[0]) >= 0;
      assert forall i :: 0 <= i < |s| - 1 ==> s[1..][i] == s[i + 1];
      AllBase64IsSignificant(s[1..]);
    }
  }

  /** The key blob survives printing and reading. */
  lemma BlobRoundTrip(blob: seq<Base64.byte>, text: string, back: seq<Base64.byte>)
    requires BlobText(blob, text) && BlobLoaded(text, [], back)
    ensures back == blob
  {
    if blob != [] {
      AllBase64IsSignificant(text);
      Base64.RoundTrip(blob, text, back);
    }
  }

  lemma FindEach(double: int -> Double, st: State, priv: string, i: nat)
    requires i < 11
    ensures Find(MembersMeaning(double, Entries(st, priv)), Entries(st, priv)[i].key)
         == Some(Meaning(double, Entries(st, priv)[i].doc))
  {
    var es := Entries(st, priv);
    assert es[0..] == es;
    FindEntry(double, es, 0, i);
  }

  lemma StringsHeld(double: int -> Double, st: State, priv: string)
    ensures var m := MembersMeaning(double, Entries(st, priv));
            HoldsStrings(m, st) && GetStr(m, "priv") == priv && Strings(Find(m, "pins")) == st.pins
  {
    FindEach(double, st, priv, 0);
    FindEach(double, st, priv, 1);
    FindEach(double, st, priv, 2);
    FindEach(double, st, priv, 3);
    FindEach(double, st, priv, 4);
    FindEach(double, st, priv, 5);
    FindEach(double, st, priv, 10);
    StringsOfQuotes(double, st.pins);
  }

  lemma IntegerHeld(lib: CLib, double: int -> Double, st: State, priv: string, i: nat, key: string, n: int, default: int)
    requires i < 11 && Entries(st, priv)[i] == Entry(key, Integer(n))
    ensures GetInt(lib, MembersMeaning(double, Entries(st, priv)), key, default) == Narrowed(lib, double, n)
  {
    FindEach(double, st, priv, i);
  }

  lemma ExpiriesHeld(lib: CLib, double: int -> Double, st: State, priv: string)
    ensures var m := MembersMeaning(double, Entries(st, priv));
      && GetInt(lib, m, "lease_exp", 0) == Narrowed(lib, double, st.leaseExp)
      && GetInt(lib, m, "license_exp", 0) == Narrowed(lib, double, st.licenseExp)
  {
    IntegerHeld(lib, double, st, priv, 6, "lease_exp", st.leaseExp, 0);
    IntegerHeld(lib, double, st, priv, 7, "license_exp", st.licenseExp, 0);
  }

  lemma CountsHeld(lib: CLib, double: int -> Double, st: State, priv: string)
    ensures var m := MembersMeaning(double, Entries(st, priv));
      && GetInt(lib, m, "hb", 60) == Narrowed(lib, double, st.hbInterval)
      && GetInt(lib, m, "seq", 0) == Narrowed(lib, double, st.seqNo)
  {
    IntegerHeld(lib, double, st, priv, 8, "hb", st.hbInterval, 60);
    IntegerHeld(lib, double, st, priv, 9, "seq", st.seqNo, 0);
  }

  lemma IntegersHeld(lib: CLib, double: int -> Double, st: State, priv: string)
    ensures HoldsIntegers(lib, MembersMeaning(double, Entries(st, priv)), Reread(lib, double, st))
  {
    ExpiriesHeld(lib, double, st, priv);
    CountsHeld(lib, double, st, priv);
  }

  /** st with its four integers passed through a double. */
  function Reread(lib: CLib, double: int -> Double, st: State): State {
    st.(leaseExp := Narrowed(lib, double, st.leaseExp), licenseExp := Narrowed(lib, double, st.licenseExp),
        hbInterval := Narrowed(lib, double, st.hbInterval), seqNo := Narrowed(lib, double, st.seqNo))
  }

  lemma LoadsHeld(lib: CLib, text: string, m: seq<Member>, st: State, priv: string, loaded: State)
    requires Parse(lib.strtod, text) == Done(Obj(m), "") && HoldsStrings(m, st) && HoldsIntegers(lib, m, st)
    requires GetStr(m, "priv") == priv && Strings(Find(m, "pins")) == st.pins
    requires BlobText(st.encPriv, priv) && Loads(lib, text, FRESH, loaded)
    ensures loaded == st
  {
    assert FRESH.pins + st.pins == st.pins;
    BlobRoundTrip(st.encPriv, priv, loaded.encPriv);
  }

  /** A fresh object loads what was saved, whatever bytes its strings and blob hold, but for what
      the passage through a double does to the four integers. */
  lemma Reload(lib: CLib, double: int -> Double, st: State, text: string, loaded: State)
    requires ReadsIntegers(lib.strtod, double)
    requires Saves(st, text) && Loads(lib, text, FRESH, loaded)
    ensures loaded == Reread(lib, double, st)
  {
    var priv :| BlobText(st.encPriv, priv) && text == Text(Dict(Entries(st, priv)));
    EntriesFit(st, priv);
    ParseInverse(lib.strtod, double, Dict(Entries(st, priv)));
    StringsHeld(double, st, priv);
    IntegersHeld(lib, double, st, priv);
    LoadsHeld(lib, text, MembersMeaning(double, Entries(st, priv)), Reread(lib, double, st), priv, loaded);
  }

  /** So the state comes back unchanged if its integers are at most 2^53 in magnitude. */
  lemma RoundTrip(lib: CLib, double: int -> Double, st: State, text: string, loaded: State)
    requires ReadsIntegers(lib.strtod, double) && ExactUpTo53Bits(lib, double)
    requires -EXACT <= st.leaseExp <= EXACT && -EXACT <= st.licenseExp <= EXACT
    requires -EXACT <= st.hbInterval <= EXACT && -EXACT <= st.seqNo <= EXACT
    requires Saves(st, text) && Loads(lib, text, FRESH, loaded)
    ensures loaded == st
  {
    Reload(lib, double, st, text, loaded);
    assert Reread(lib, double, st) == st;
  }

  // ----- the source's loops -----

  /** esc, one character at a time. */
  method EscText(s: string) returns (o: string)
    ensures o == Esc(s)
  {
    o := "";
    var i := 0;
    while i < |s|
      invariant 0 <= i <= |s| && o + Esc(s[i..]) == Esc(s)
    {
      EscNext(s, i, o);
      o := EscPush(o, s[i]);
      i := i + 1;
    }
  }

  method EscPush(o: string, c: char) returns (o': string)
    ensures o' == o + EscChar(c)
  {
    o' := o;
    if c == '"' || c == '\\' {
      o' := o' + ['\\'];
      o' := o' + [c];
    } else if c == '\n' {
      o' := o' + "\\n";
    } else {
      o' := o' + [c];
    }
  }

  lemma EscNext(s: string, i: nat, o: string)
    requires i < |s|
    ensures o + Esc(s[i..]) == o + EscChar(s[i]) + Esc(s[i + 1..])
  {
    assert s[i..][1..] == s[i + 1..];
    Assoc(o, EscChar(s[i]), Esc(s[i + 1..]));
  }

  method FindMember(members: seq<Member>, key: string) returns (v: Option<Value>)
    ensures v == Find(members, key)
  {
    var i := 0;
    while i < |members|
      invariant 0 <= i <= |members| && Find(members, key) == Find(members[i..], key)
    {
      assert members[i..][1..] == members[i + 1..];
      if members[i].key == key { return Some(members[i].value); }
      i := i + 1;
    }
    v := None;
  }

  lemma {:induction false} PlainEsc(s: string)
    requires forall i :: 0 <= i < |s| ==> s[i] != '"' && s[i] != '\\' && s[i] != '\n'
    ensures Esc(s) == s
  {
    if s != "" {
      PlainEsc(s[1..]);
      assert s == [s[0]] + s[1..];
    }
  }

  lemma {:induction false} MembersTextSnoc(es: seq<Entry>, e: Entry)
    ensures MembersText(es + [e]) == (if es == [] then "" else MembersText(es) + ",") + MemberText(e)
  {
    if es != [] {
      var es' := es[1..];
      assert (es + [e])[1..] == es' + [e];
      MembersTextSnoc(es', e);
      if es' != [] {
        Regroup(MemberText(es[0]), ",", MembersText(es') + ",", MemberText(e));
        Regroup(MemberText(es[0]), ",", MembersText(es'), ",");
        Regroup(MemberText(es[0]) + ",", MembersText(es'), ",", MemberText(e));
      }
    }
  }

  /** The output so far: the members written, each followed by a comma. */
  ghost predicate Written(o: string, es: seq<Entry>) {
    o == "{" + if es == [] then "" else MembersText(es) + ","
  }

  /** What serialize writes for one member, before the comma. */
  lemma PlainMember(key: string, d: Doc)
    requires forall i :: 0 <= i < |key| ==> key[i] != '"' && key[i] != '\\' && key[i] != '\n'
    ensures MemberText(Entry(key, d)) == ("\"" + key + "\":") + Text(d)
  {
    PlainEsc(key);
    Assoc("\"" + key, "\"", ":");
  }

  lemma WrittenOne(o: string, es: seq<Entry>, key: string, d: Doc)
    requires Written(o, es)
    requires forall i :: 0 <= i < |key| ==> key[i] != '"' && key[i] != '\\' && key[i] != '\n'
    ensures Written(o + (("\"" + key + "\":") + Text(d) + ","), es + [Entry(key, d)])
    ensures o + (("\"" + key + "\":") + Text(d)) == "{" + MembersText(es + [Entry(key, d)])
  {
    PlainMember(key, d);
    WrittenMember(o, es, Entry(key, d));
  }

  lemma WrittenMember(o: string, es: seq<Entry>, e: Entry)
    requires Written(o, es)
    ensures Written(o + (MemberText(e) + ","), es + [e])
    ensures o + MemberText(e) == "{" + MembersText(es + [e])
  {
    var before := if es == [] then "" else MembersText(es) + ",";
    MembersTextSnoc(es, e);
    Assoc22("{", before, MemberText(e), ",");
    Assoc("{", before, MemberText(e));
  }

  lemma EntriesComplete(st: State, priv: string, es: seq<Entry>)
    requires es == Entries(st, priv)[..6] + [Entry("lease_exp", Integer(st.leaseExp))]
                   + [Entry("license_exp", Integer(st.licenseExp))] + [Entry("hb", Integer(st.hbInterval))]
                   + [Entry("seq", Integer(st.seqNo))]
    ensures es + [Entry("pins", List(Quotes(st.pins)))] == Entries(st, priv)
  {
  }

  class SdkState {
    var backend: string
    var pub: string
    var encPriv: seq<Base64.byte>
    var licenseId: string
    var deviceId: string
    var lease: string
    var leaseExp: int
    var licenseExp: int
    var hbInterval: int
    var seqNo: int
    var pins: seq<string>

    constructor ()
      ensures View() == FRESH
    {
      backend, pub, encPriv, licenseId, deviceId, lease := "", "", [], "", "", "";
      leaseExp, licenseExp, hbInterval, seqNo, pins := 0, 0, 60, 0, [];
    }

    function View(): State
      reads this
    {
      State(backend, pub, encPriv, licenseId, deviceId, lease, leaseExp, licenseExp, hbInterval, seqNo, pins)
    }

    /** One `"name":"value",` of serialize. */
    method StringField(o: string, ghost es: seq<Entry>, name: string, value: string)
      returns (o': string, ghost es': seq<Entry>)
      requires Written(o, es)
      requires forall i :: 0 <= i < |name| ==> name[i] != '"' && name[i] != '\\' && name[i] != '\n'
      ensures es' == es + [Entry(name, Quote(value))] && Written(o', es')
    {
      var escaped := EscText(value);
      es' := es + [Entry(name, Quote(value))];
      WrittenOne(o, es, name, Quote(value));
      o' := o + (("\"" + name + "\":") + ("\"" + escaped + "\"") + ",");
    }

    /** One `"name":number,` of serialize. */
    method IntegerField(o: string, ghost es: seq<Entry>, name: string, value: int)
      returns (o': string, ghost es': seq<Entry>)
      requires Written(o, es)
      requires forall i :: 0 <= i < |name| ==> name[i] != '"' && name[i] != '\\' && name[i] != '\n'
      ensures es' == es + [Entry(name, Integer(value))] && Written(o', es')
    {
      es' := es + [Entry(name, Integer(value))];
      WrittenOne(o, es, name, Integer(value));
      o' := o + (("\"" + name + "\":") + Decimal.Print(value) + ",");
    }

    /** The loop that prints the pinned keys. */
    method PinItems() returns (o: string)
      ensures o == ItemsText(Quotes(pins))
    {
      o := "";
      var i := 0;
      while i < |pins|
        invariant 0 <= i <= |pins| && o == ItemsText(Quotes(pins[..i]))
      {
        if i > 0 { o := o + ","; }
        var escaped := EscText(pins[i]);
        o := o + ("\"" + escaped + "\"");
        assert pins[..i + 1] == pins[..i] + [pins[i]];
        QuotesSnoc(pins[..i], pins[i]);
        i := i + 1;
      }
      assert pins[..i] == pins;
    }

    method StringFields(priv: string) returns (o: string, ghost es: seq<Entry>)
      ensures es == Entries(View(), priv)[..6] && Written(o, es)
    {
      o, es := "{", [];
      o, es := StringField(o, es, "backend", backend);
      o, es := StringField(o, es, "pub", pub);
      o, es := StringField(o, es, "priv", priv);
      o, es := StringField(o, es, "lic", licenseId);
      o, es := StringField(o, es, "dev", deviceId);
      o, es := StringField(o, es, "lease", lease);
    }

    method IntegerFields(o: string, ghost es: seq<Entry>) returns (o': string, ghost es': seq<Entry>)
      requires Written(o, es)
      ensures es' == es + [Entry("lease_exp", Integer(leaseExp))] + [Entry("license_exp", Integer(licenseExp))]
                        + [Entry("hb", Integer(hbInterval))] + [Entry("seq", Integer(seqNo))]
      ensures Written(o', es')
    {
      o', es' := IntegerField(o, es, "lease_exp", leaseExp);
      o', es' := IntegerField(o', es', "license_exp", licenseExp);
      o', es' := IntegerField(o', es', "hb", hbInterval);
      o', es' := IntegerField(o', es', "seq", seqNo);
    }

    method PinsField(o: string, ghost es: seq<Entry>) returns (o': string)
      requires Written(o, es)
      ensures o' == "{" + MembersText(es + [Entry("pins", List(Quotes(pins)))])
    {
      var items := PinItems();
      WrittenOne(o, es, "pins", List(Quotes(pins)));
      o' := o + (("\"" + "pins" + "\":") + ("[" + items + "]"));
    }

    method Serialize() returns (text: string)
      ensures Saves(View(), text)
    {
      var priv := "";
      if encPriv != [] { priv := Base64.Encode(encPriv); }
      assert BlobText(encPriv, priv);
      text := Print(priv);
    }

    method Print(priv: string) returns (text: string)
      ensures text == Text(Dict(Entries(View(), priv)))
    {
      var o;
      ghost var es;
      o, es := StringFields(priv);
      o, es := IntegerFields(o, es);
      text := PinsField(o, es);
      EntriesComplete(View(), priv, es);
      text := text + "}";
    }

    /** The loop that collects the pinned keys. */
    method PushPins(arr: seq<Value>)
      modifies this`pins
      ensures pins == old(pins) + StringItems(arr)
    {
      var i := 0;
      while i < |arr|
        invariant 0 <= i <= |arr|
        invariant pins + StringItems(arr[i..]) == old(pins) + StringItems(arr)
      {
        assert arr[i..][1..] == arr[i + 1..];
        if arr[i].Str? {
          pins := pins + [arr[i].str];
        }
        i := i + 1;
      }
    }

    method LoadPins(m: seq<Member>)
      modifies this`pins
      ensures pins == old(pins) + Strings(Find(m, "pins"))
    {
      var found := FindMember(m, "pins");
      if found.Some? && found.value.Arr? {
        PushPins(found.value.arr);
      } else {
        assert pins == old(pins) + [];
      }
    }

    method LoadBlob(privB64: string)
      modifies this`encPriv
      ensures BlobLoaded(privB64, old(encPriv), encPriv)
    {
      if privB64 != "" {
        var decoded;
        decoded, encPriv := Base64.Decode(privB64, encPriv);
      }
    }

    method LoadStrings(m: seq<Member>)
      modifies this`backend, this`pub, this`licenseId, this`deviceId, this`lease
      ensures HoldsStrings(m, View())
    {
      backend := GetStr(m, "backend");
      pub := GetStr(m, "pub");
      licenseId := GetStr(m, "lic");
      deviceId := GetStr(m, "dev");
      lease := GetStr(m, "lease");
    }

    method LoadIntegers(lib: CLib, m: seq<Member>)
      modifies this`leaseExp, this`licenseExp, this`hbInterval, this`seqNo
      ensures HoldsIntegers(lib, m, View())
    {
      leaseExp := GetInt(lib, m, "lease_exp", 0);
      licenseExp := GetInt(lib, m, "license_exp", 0);
      hbInterval := GetInt(lib, m, "hb", 60);
      seqNo := GetInt(lib, m, "seq", 0);
    }

    method ParseState(lib: CLib, text: string)
      modifies this
      ensures Loads(lib, text, old(View()), View())
    {
      var ok, v := ParseText(lib.strtod, text);
      if !ok || !v.Obj? { return; }
      LoadMembers(lib, v.obj, GetStr(v.obj, "priv"));
    }

    method LoadMembers(lib: CLib, m: seq<Member>, privB64: string)
      requires privB64 == GetStr(m, "priv")
      modifies this
      ensures Assigned(lib, m, old(View()), View())
    {
      LoadStrings(m);
      LoadIntegers(lib, m);
      LoadPinsAndBlob(m, privB64);
      assert HoldsStrings(m, View()) && HoldsIntegers(lib, m, View());
    }

    method LoadPinsAndBlob(m: seq<Member>, privB64: string)
      modifies this`encPriv, this`pins
      ensures BlobLoaded(privB64, old(encPriv), encPriv) && pins == old(pins) + Strings(Find(m, "pins"))
    {
      LoadBlob(privB64);
      LoadPins(m);
    }
  }

  lemma {:induction false} QuotesSnoc(ss: seq<string>, s: string)
    ensures Quotes(ss + [s]) == Quotes(ss) + [Quote(s)]
    ensures ItemsText(Quotes(ss) + [Quote(s)])
         == (if ss == [] then "" else ItemsText(Quotes(ss)) + ",") + Quoted(s)
  {
    if ss != [] {
      assert (ss + [s])[1..] == ss[1..] + [s];
      QuotesSnoc(ss[1..], s);
      var ds := Quotes(ss) + [Quote(s)];
      assert ds[1..] == Quotes(ss[1..]) + [Quote(s)] && Quotes(ss)[1..] == Quotes(ss[1..]);
      if ss[1..] != [] {
        Regroup(Quoted(ss[0]), ",", ItemsText(Quotes(ss[1..])), ",");
        Regroup(Quoted(ss[0]) + ",", ItemsText(Quotes(ss[1..])), ",", Quoted(s));
      }
    }
  }

  // ----- the saved text -----

  /** One member as serialize writes it. */
  function StringLine(name: string, v: string): string {
    "\"" + name + "\":\"" + Esc(v) + "\""
  }

  function IntegerLine(name: string, n: int): string {
    "\"" + name + "\":" + Decimal.Print(n)
  }

  /** The eleven members, by the names and in the order of the file. */
  function Lines(st: State, priv: string): seq<string> {
    [ StringLine("backend", st.backend), StringLine("pub", st.pub), StringLine("priv", priv), StringLine("lic", st.licenseId),
      StringLine("dev", st.deviceId), StringLine("lease", st.lease), IntegerLine("lease_exp", st.leaseExp),
      IntegerLine("license_exp", st.licenseExp), IntegerLine("hb", st.hbInterval), IntegerLine("seq", st.seqNo),
      "\"pins\":[" + Commas(Pins(st.pins)) + "]" ]
  }

  function Pins(pins: seq<string>): seq<string> {
    seq(|pins|, i requires 0 <= i < |pins| => "\"" + Esc(pins[i]) + "\"")
  }

  function Commas(parts: seq<string>): string {
    if parts == [] then "" else if |parts| == 1 then parts[0] else parts[0] + "," + Commas(parts[1..])
  }

  lemma {:induction false} MembersCommas(es: seq<Entry>, parts: seq<string>)
    requires |es| == |parts| && forall i :: 0 <= i < |es| ==> MemberText(es[i]) == parts[i]
    ensures MembersText(es) == Commas(parts)
  {
    if |es| > 1 {
      MembersCommas(es[1..], parts[1..]);
    }
  }

  lemma {:induction false} PinsCommas(pins: seq<string>)
    ensures ItemsText(Quotes(pins)) == Commas(Pins(pins))
  {
    if pins != [] {
      PinsCommas(pins[1..]);
      assert Quotes(pins)[1..] == Quotes(pins[1..]) && Pins(pins)[1..] == Pins(pins[1..]);
      QuotesLength(pins);
    }
  }

  lemma {:induction false} QuotesLength(pins: seq<string>)
    ensures |Quotes(pins)| == |pins|
  {
    if pins != [] {
      QuotesLength(pins[1..]);
    }
  }

  predicate Plain(key: string) {
    forall i :: 0 <= i < |key| ==> key[i] != '"' && key[i] != '\\' && key[i] != '\n'
  }

  lemma StringMember(name: string, v: string)
    requires Plain(name)
    ensures MemberText(Entry(name, Quote(v))) == StringLine(name, v)
  {
    PlainMember(name, Quote(v));
    StringMemberText("\"" + name, Esc(v));
  }

  lemma StringMemberText(head: string, body: string)
    ensures (head + "\":") + ("\"" + body + "\"") == head + "\":\"" + body + "\""
  {
    assert "\":\"" == "\":" + "\"";
    Assoc(head + "\":", "\"" + body, "\"");
    Assoc(head + "\":", "\"", body);
    Assoc(head, "\":", "\"");
  }

  lemma IntegerMember(name: string, n: int)
    requires Plain(name)
    ensures MemberText(Entry(name, Integer(n))) == IntegerLine(name, n)
  {
    PlainMember(name, Integer(n));
  }

  lemma PinsMember(pins: seq<string>)
    ensures MemberText(Entry("pins", List(Quotes(pins)))) == "\"pins\":[" + Commas(Pins(pins)) + "]"
  {
    PlainMember("pins", List(Quotes(pins)));
    PinsCommas(pins);
    assert "\"pins\":[" == "\"" + "pins" + "\":" + "[";
    Assoc("\"" + "pins" + "\":", "[", Commas(Pins(pins)));
    Assoc("\"" + "pins" + "\":", "[" + Commas(Pins(pins)), "]");
  }

  lemma StringNamesPlain()
    ensures Plain("backend") && Plain("pub") && Plain("priv") && Plain("lic") && Plain("dev") && Plain("lease")
  {
  }

  lemma IntegerNamesPlain()
    ensures Plain("lease_exp") && Plain("license_exp") && Plain("hb") && Plain("seq")
  {
  }

  /** Members and lines that agree one by one agree joined by commas. */
  lemma ElevenMembers(e0: Entry, e1: Entry, e2: Entry, e3: Entry, e4: Entry, e5: Entry, e6: Entry, e7: Entry, e8: Entry,
                      e9: Entry, e10: Entry)
    ensures MembersText([e0, e1, e2, e3, e4, e5, e6, e7, e8, e9, e10])
         == Commas([MemberText(e0), MemberText(e1), MemberText(e2), MemberText(e3), MemberText(e4), MemberText(e5),
                    MemberText(e6), MemberText(e7), MemberText(e8), MemberText(e9), MemberText(e10)])
  {
    MembersCommas([e0, e1, e2, e3, e4, e5, e6, e7, e8, e9, e10],
                  [MemberText(e0), MemberText(e1), MemberText(e2), MemberText(e3), MemberText(e4), MemberText(e5),
                   MemberText(e6), MemberText(e7), MemberText(e8), MemberText(e9), MemberText(e10)]);
  }

  lemma StringMembers(st: State, priv: string)
    ensures MemberText(Entry("backend", Quote(st.backend))) == StringLine("backend", st.backend)
    ensures MemberText(Entry("pub", Quote(st.pub))) == StringLine("pub", st.pub)
    ensures MemberText(Entry("priv", Quote(priv))) == StringLine("priv", priv)
    ensures MemberText(Entry("lic", Quote(st.licenseId))) == StringLine("lic", st.licenseId)
    ensures MemberText(Entry("dev", Quote(st.deviceId))) == StringLine("dev", st.deviceId)
    ensures MemberText(Entry("lease", Quote(st.lease))) == StringLine("lease", st.lease)
  {
    StringNamesPlain();
    StringMember("backend", st.backend);
    StringMember("pub", st.pub);
    StringMember("priv", priv);
    StringMember("lic", st.licenseId);
    StringMember("dev", st.deviceId);
    StringMember("lease", st.lease);
  }

  lemma IntegerMembers(st: State)
    ensures MemberText(Entry("lease_exp", Integer(st.leaseExp))) == IntegerLine("lease_exp", st.leaseExp)
    ensures MemberText(Entry("license_exp", Integer(st.licenseExp))) == IntegerLine("license_exp", st.licenseExp)
    ensures MemberText(Entry("hb", Integer(st.hbInterval))) == IntegerLine("hb", st.hbInterval)
    ensures MemberText(Entry("seq", Integer(st.seqNo))) == IntegerLine("seq", st.seqNo)
  {
    IntegerNamesPlain();
    IntegerMember("lease_exp", st.leaseExp);
    IntegerMember("license_exp", st.licenseExp);
    IntegerMember("hb", st.hbInterval);
    IntegerMember("seq", st.seqNo);
  }

  lemma EveryLine(st: State, priv: string)
    ensures MembersText(Entries(st, priv)) == Commas(Lines(st, priv))
  {
    StringMembers(st, priv);
    IntegerMembers(st);
    PinsMember(st.pins);
    ElevenMembers(Entry("backend", Quote(st.backend)), Entry("pub", Quote(st.pub)), Entry("priv", Quote(priv)),
                  Entry("lic", Quote(st.licenseId)), Entry("dev", Quote(st.deviceId)), Entry("lease", Quote(st.lease)),
                  Entry("lease_exp", Integer(st.leaseExp)), Entry("license_exp", Integer(st.licenseExp)),
                  Entry("hb", Integer(st.hbInterval)), Entry("seq", Integer(st.seqNo)),
                  Entry("pins", List(Quotes(st.pins))));
  }

  /** The saved text, spelled out: the members between braces, each value under its own name. */
  lemma SavedText(st: State, text: string)
    requires Saves(st, text)
    ensures exists priv :: BlobText(st.encPriv, priv) && text == "{" + Commas(Lines(st, priv)) + "}"
  {
    var priv :| BlobText(st.encPriv, priv) && text == Text(Dict(Entries(st, priv)));
    EveryLine(st, priv);
  }
}
