/** The behaviour pinned down by tests/test_struct_query.py and by the
    docstring of `query`, derived for concrete structures from the general
    lemmas of module Segments. */
module QueryExamples {
  import opened Structure
  import opened Segments

  /** `{"first_key": {"nested_key": "42"}, "second_key": [10, 20, 30]}` */
  function Sample(): Value {
    Dict(map[
      KStr("first_key") := Dict(map[KStr("nested_key") := Str("42")]),
      KStr("second_key") := List([Int(10), Int(20), Int(30)])
    ])
  }

  /** `{"1": "a", "2": "b"}` */
  function OneTwo(): Value {
    Dict(map[KStr("1") := Str("a"), KStr("2") := Str("b")])
  }

  /** `{"1": {"a": "42"}, "2": "b"}` */
  function Deeper(): Value {
    Dict(map[KStr("1") := Dict(map[KStr("a") := Str("42")]), KStr("2") := Str("b")])
  }

  /** `["zero", "one"]` */
  function ZeroOne(): seq<Value> {
    [Str("zero"), Str("one")]
  }

  /** `{"1": ["zero", "one"]}` */
  function ListUnderOne(): Value {
    Dict(map[KStr("1") := List(ZeroOne())])
  }

  /** `.key` where `key` holds a value other than None. */
  lemma PresentKey(m: map<Key, Value>, key: string, fallback: Value)
    requires WellFormed(Member(key)) && KStr(key) in m && !m[KStr(key)].Null?
    ensures Query(Dict(m), "." + key, fallback) == Ok(m[KStr(key)])
  {
    assert "." + key == "." + key + "";
    MemberLookup(m, key, "", fallback);
  }

  /** `.key` where `key` is absent and the integer key is not tried. */
  lemma MissingKey(m: map<Key, Value>, key: string, fallback: Value)
    requires WellFormed(Member(key)) && KStr(key) !in m && (!fallback.Null? || !IsDigits(key))
    ensures Query(Dict(m), "." + key, fallback) == Ok(fallback)
  {
    assert "." + key == "." + key + "";
    MemberLookup(m, key, "", fallback);
  }

  /** `.outer.inner` through two keys that hold values other than None. */
  lemma TwoKeys(m: map<Key, Value>, outer: string, inner: string, fallback: Value)
    requires WellFormed(Member(outer)) && WellFormed(Member(inner))
    requires KStr(outer) in m && m[KStr(outer)].Dict?
    requires KStr(inner) in m[KStr(outer)].entries && !m[KStr(outer)].entries[KStr(inner)].Null?
    ensures Query(Dict(m), "." + outer + "." + inner, fallback) == Ok(m[KStr(outer)].entries[KStr(inner)])
  {
    assert "." + outer + "." + inner == "." + outer + ("." + inner);
    MemberLookup(m, outer, "." + inner, fallback);
    PresentKey(m[KStr(outer)].entries, inner, fallback);
  }

  /** `.outer.inner` where `inner` is missing from the dict under `outer`. */
  lemma KeyThenMissingKey(m: map<Key, Value>, outer: string, inner: string, fallback: Value)
    requires WellFormed(Member(outer)) && WellFormed(Member(inner))
    requires KStr(outer) in m && m[KStr(outer)].Dict?
    requires KStr(inner) !in m[KStr(outer)].entries && (!fallback.Null? || !IsDigits(inner))
    ensures Query(Dict(m), "." + outer + "." + inner, fallback) == Ok(fallback)
  {
    assert "." + outer + "." + inner == "." + outer + ("." + inner);
    MemberLookup(m, outer, "." + inner, fallback);
    MissingKey(m[KStr(outer)].entries, inner, fallback);
  }

  /** `.absent.key` with a dict as the default reads `key` from the default. */
  lemma MissingThenKey(m: map<Key, Value>, absent: string, d: map<Key, Value>, key: string)
    requires WellFormed(Member(absent)) && WellFormed(Member(key))
    requires KStr(absent) !in m && KStr(key) in d && !d[KStr(key)].Null?
    ensures Query(Dict(m), "." + absent + "." + key, Dict(d)) == Ok(d[KStr(key)])
  {
    assert "." + absent + "." + key == "." + absent + ("." + key);
    MemberLookup(m, absent, "." + key, Dict(d));
    PresentKey(d, key, Dict(d));
  }

  /** `[n]` on a list of more than `n` elements. */
  lemma ListIndex(xs: seq<Value>, n: nat, fallback: Value)
    requires n < |xs|
    ensures Query(List(xs), "[" + DecimalString(n) + "]", fallback) == Ok(xs[n])
  {
    DecimalRoundTrip(n);
    assert "[" + DecimalString(n) + "]" == "[" + DecimalString(n) + "]" + "";
    IndexIntoList(xs, DecimalString(n), "", fallback);
  }

  /** `.key[n]` on a dict whose `key` holds a list of more than `n` elements. */
  lemma KeyThenElement(m: map<Key, Value>, key: string, xs: seq<Value>, n: nat, fallback: Value)
    requires WellFormed(Member(key)) && KStr(key) in m && m[KStr(key)] == List(xs) && n < |xs|
    ensures Query(Dict(m), "." + key + "[" + DecimalString(n) + "]", fallback) == Ok(xs[n])
  {
    var index := "[" + DecimalString(n) + "]";
    assert "." + key + "[" + DecimalString(n) + "]" == "." + key + index;
    MemberLookup(m, key, index, fallback);
    ListIndex(xs, n, fallback);
  }

  /** `.key[n]` on a dict whose `key` holds a list of at most `n` elements. */
  lemma KeyThenPastEnd(m: map<Key, Value>, key: string, xs: seq<Value>, n: nat, fallback: Value)
    requires WellFormed(Member(key)) && KStr(key) in m && m[KStr(key)] == List(xs) && n >= |xs|
    ensures Query(Dict(m), "." + key + "[" + DecimalString(n) + "]", fallback) == Ok(fallback)
  {
    var index := "[" + DecimalString(n) + "]";
    assert "." + key + "[" + DecimalString(n) + "]" == "." + key + index;
    MemberLookup(m, key, index, fallback);
    DecimalRoundTrip(n);
    assert index == "[" + DecimalString(n) + "]" + "";
    IndexIntoList(xs, DecimalString(n), "", fallback);
  }

  /** `.key[text]` on a dict whose `key` holds a list, with `text` not a number. */
  lemma KeyThenNotAnIndex(m: map<Key, Value>, key: string, xs: seq<Value>, text: string, fallback: Value)
    requires WellFormed(Member(key)) && KStr(key) in m && m[KStr(key)] == List(xs)
    requires WellFormed(Index(text)) && !IsDigits(text)
    ensures Query(Dict(m), "." + key + "[" + text + "]", fallback) == SyntaxError(NotAnIndex)
  {
    var index := "[" + text + "]";
    assert "." + key + "[" + text + "]" == "." + key + index;
    MemberLookup(m, key, index, fallback);
    assert index == "[" + text + "]" + "";
    IndexNotDigits(xs, text, "", fallback);
  }

  /** A dict keyed only by the integer `n`, queried with `.n`: found under the
      None default, and the default under any other. */
  lemma OnlyIntegerKey(n: nat, v: Value, fallback: Value)
    ensures Query(Dict(map[KInt(n) := v]), "." + DecimalString(n), fallback) ==
      if fallback.Null? then Ok(v) else Ok(fallback)
  {
    DecimalRoundTrip(n);
    assert "." + DecimalString(n) == "." + DecimalString(n) + "";
    MemberLookup(map[KInt(n) := v], DecimalString(n), "", fallback);
  }

  /** A dict whose string key for `n` holds None, queried with `.n`: the
      integer key is tried, is absent, and the default comes back. */
  lemma NoneUnderDigitKey(n: nat, fallback: Value)
    ensures Query(Dict(map[KStr(DecimalString(n)) := Null]), "." + DecimalString(n), fallback) == Ok(fallback)
  {
    DecimalRoundTrip(n);
    assert "." + DecimalString(n) == "." + DecimalString(n) + "";
    MemberLookup(map[KStr(DecimalString(n)) := Null], DecimalString(n), "", fallback);
  }

  /** A dict whose string key for `n` holds None and whose integer key `n`
      holds `v`, queried with `.n`: the retry finds `v` under every default,
      since `get` with the present string key gives None whatever the
      default. */
  lemma NoneThenIntegerKey(n: nat, v: Value, fallback: Value)
    ensures Query(Dict(map[KStr(DecimalString(n)) := Null, KInt(n) := v]), "." + DecimalString(n), fallback) == Ok(v)
  {
    DecimalRoundTrip(n);
    assert "." + DecimalString(n) == "." + DecimalString(n) + "";
    MemberLookup(map[KStr(DecimalString(n)) := Null, KInt(n) := v], DecimalString(n), "", fallback);
  }

  // Each test below instantiates one of the parametric lemmas above with the
  // test's own structure and path.

  lemma NestedKeys(fallback: Value)
    ensures Query(Sample(), ".first_key.nested_key", fallback) == Ok(Str("42"))
  {
    assert ".first_key.nested_key" == "." + "first_key" + "." + "nested_key";
    TwoKeys(Sample().entries, "first_key", "nested_key", fallback);
  }

  lemma KeyThenIndex(fallback: Value)
    ensures Query(Sample(), ".second_key[2]", fallback) == Ok(Int(30))
  {
    assert DecimalString(2) == "2";
    assert ".second_key[2]" == "." + "second_key" + "[" + DecimalString(2) + "]";
    KeyThenElement(Sample().entries, "second_key", [Int(10), Int(20), Int(30)], 2, fallback);
  }

  lemma StringKey(fallback: Value)
    ensures Query(OneTwo(), ".1", fallback) == Ok(Str("a"))
  {
    PresentKey(OneTwo().entries, "1", fallback);
  }

  lemma SingleStringKey(fallback: Value)
    ensures Query(Dict(map[KStr("1") := Str("one")]), ".1", fallback) == Ok(Str("one"))
  {
    PresentKey(map[KStr("1") := Str("one")], "1", fallback);
  }

  lemma MissingKeyGivesDefault(fallback: Value)
    ensures Query(OneTwo(), ".ZZZ", fallback) == Ok(fallback)
  {
    assert !IsDigit("ZZZ"[0]);
    MissingKey(OneTwo().entries, "ZZZ", fallback);
  }

  lemma DeeperKeys(fallback: Value)
    ensures Query(Deeper(), ".1.a", fallback) == Ok(Str("42"))
  {
    assert ".1.a" == "." + "1" + "." + "a";
    TwoKeys(Deeper().entries, "1", "a", fallback);
  }

  lemma DeeperMissingKey()
    ensures Query(Deeper(), ".1.ZZZ", Null) == Ok(Null)
  {
    assert !IsDigit("ZZZ"[0]);
    assert ".1.ZZZ" == "." + "1" + "." + "ZZZ";
    KeyThenMissingKey(Deeper().entries, "1", "ZZZ", Null);
  }

  lemma ListIndexZero(fallback: Value)
    ensures Query(List(ZeroOne()), "[0]", fallback) == Ok(Str("zero"))
  {
    assert DecimalString(0) == "0";
    ListIndex(ZeroOne(), 0, fallback);
  }

  lemma KeyThenListIndex(fallback: Value)
    ensures Query(ListUnderOne(), ".1[0]", fallback) == Ok(Str("zero"))
    ensures Query(ListUnderOne(), ".1[1]", fallback) == Ok(Str("one"))
  {
    assert DecimalString(0) == "0" && DecimalString(1) == "1";
    assert ".1[0]" == "." + "1" + "[" + DecimalString(0) + "]";
    assert ".1[1]" == "." + "1" + "[" + DecimalString(1) + "]";
    KeyThenElement(ListUnderOne().entries, "1", ZeroOne(), 0, fallback);
    KeyThenElement(ListUnderOne().entries, "1", ZeroOne(), 1, fallback);
  }

  lemma ListIndexOutOfRange(fallback: Value)
    ensures Query(ListUnderOne(), ".1[2]", fallback) == Ok(fallback)
  {
    assert DecimalString(2) == "2";
    assert ".1[2]" == "." + "1" + "[" + DecimalString(2) + "]";
    KeyThenPastEnd(ListUnderOne().entries, "1", ZeroOne(), 2, fallback);
  }

  /** `{1: "one_as_int"}` with `.1`: the integer key is found under the None
      default, and never tried under any other default. */
  lemma IntegerKey(fallback: Value)
    ensures Query(Dict(map[KInt(1) := Str("one_as_int")]), ".1", Null) == Ok(Str("one_as_int"))
    ensures !fallback.Null? ==>
      Query(Dict(map[KInt(1) := Str("one_as_int")]), ".1", fallback) == Ok(fallback)
  {
    assert DecimalString(1) == "1";
    OnlyIntegerKey(1, Str("one_as_int"), Null);
    OnlyIntegerKey(1, Str("one_as_int"), fallback);
  }

  /** `{"1": None}` with `.1`: the string key holds None, so the integer key
      is tried, and its absence yields the default instead of None. */
  lemma NoneValueFallsThrough(fallback: Value)
    ensures Query(Dict(map[KStr("1") := Null]), ".1", fallback) == Ok(fallback)
  {
    assert DecimalString(1) == "1";
    NoneUnderDigitKey(1, fallback);
  }

  /** `{"1": None, 1: "x"}` with `.1` and the default `"d"`: the integer
      key is tried although the default is not None. */
  lemma NoneKeyRetriedUnderAnyDefault()
    ensures Query(Dict(map[KStr("1") := Null, KInt(1) := Str("x")]), ".1", Str("d")) == Ok(Str("x"))
  {
    assert DecimalString(1) == "1";
    NoneThenIntegerKey(1, Str("x"), Str("d"));
  }

  /** After a missing key the default itself is what the rest of the path
      navigates. */
  lemma DefaultIsNavigated()
    ensures Query(Dict(map[]), ".missing.b", Dict(map[KStr("b") := Int(5)])) == Ok(Int(5))
  {
    assert ".missing.b" == "." + "missing" + "." + "b";
    MissingThenKey(map[], "missing", map[KStr("b") := Int(5)], "b");
  }

  lemma EmptyPathRejected(s: Value, fallback: Value)
    ensures Query(s, "", fallback) == SyntaxError(EmptyPath)
  {
  }

  lemma NegativeIndexOnList(fallback: Value)
    ensures Query(List(ZeroOne()), "[-1]", fallback) == SyntaxError(NotAnIndex)
  {
    assert !IsDigit("-1"[0]);
    assert "[-1]" == "[" + "-1" + "]" + "";
    IndexNotDigits(ZeroOne(), "-1", "", fallback);
  }

  lemma NegativeIndexUnderKey(fallback: Value)
    ensures Query(ListUnderOne(), ".1[-1]", fallback) == SyntaxError(NotAnIndex)
  {
    assert !IsDigit("-1"[0]);
    assert ".1[-1]" == "." + "1" + "[" + "-1" + "]";
    KeyThenNotAnIndex(ListUnderOne().entries, "1", ZeroOne(), "-1", fallback);
  }

  /** `[-1]` on a dict is a miss, not an error. */
  lemma NegativeIndexOnDict(fallback: Value)
    ensures Query(OneTwo(), "[-1]", fallback) == Ok(fallback)
  {
    assert "[-1]" == "[" + "-1" + "]" + "";
    IndexOnNonList(OneTwo(), "-1", "", fallback);
  }
}
