/** The data a query navigates and the query itself, following `query` in
    code/structure.py: a path such as `.first_key.nested_key` or
    `.second_key[2]` is consumed one segment per call, each segment steps into
    a dictionary or a list, and a structural miss yields the caller's default
    while a malformed path is a syntax error. */
module Structure {

  /** A dictionary key: the structures navigated are JSON-like, keyed by
      strings, and sometimes by integers. */
  datatype Key = KStr(name: string) | KInt(number: int)

  /** A nested structure: scalars (Python's None, booleans, integers,
      strings), lists and dictionaries. */
  datatype Value =
    | Null
    | Bool(b: bool)
    | Int(i: int)
    | Str(s: string)
    | List(items: seq<Value>)
    | Dict(entries: map<Key, Value>)

  /** Why a path was rejected; one tag per `raise ValueError` of the source. */
  datatype Reason =
    | EmptyPath         // zero-length path
    | BadLead           // first character is neither '.' nor '['
    | NoClosingBracket  // '[' with no ']' after it
    | DotBeforeClose    // a '.' before the first ']'
    | OpenBeforeClose   // a '[' before the first ']'
    | NotAnIndex        // bracket content that is not all decimal digits, on a list

  /** What a query ends with: a value (which may be the default) or a
      syntax error. */
  datatype Outcome = Ok(value: Value) | SyntaxError(reason: Reason)

  /** Python's `str.find` for one character: the first index of `c` in `s`,
      or -1 when `c` does not occur. */
  function Find(s: string, c: char): (r: int)
    ensures -1 <= r < |s|
  {
    if |s| == 0 then -1
    else if s[0] == c then 0
    else
      var k := Find(s[1..], c);
      if k == -1 then -1 else k + 1
  }

  /** `Find` reports -1 exactly when `c` is absent, and otherwise the first
      index holding `c`. */
  lemma {:induction false} FindSpec(s: string, c: char)
    ensures Find(s, c) == -1 <==> c !in s
    ensures 0 <= Find(s, c) ==> s[Find(s, c)] == c && c !in s[..Find(s, c)]
    decreases |s|
  {
    if |s| > 0 && s[0] != c {
      FindSpec(s[1..], c);
      assert s == [s[0]] + s[1..];
      if Find(s[1..], c) >= 0 {
        assert s[..Find(s, c)] == [s[0]] + s[1..][..Find(s[1..], c)];
      }
    }
  }

  function Max(a: int, b: int): int { if a >= b then a else b }

  function Min(a: int, b: int): int { if a <= b then a else b }

  predicate IsDigit(c: char) { '0' <= c <= '9' }

  function DigitValue(c: char): nat
    requires IsDigit(c)
  {
    c as int - '0' as int
  }

  /** Python's `str.isdigit`, restricted to ASCII digits: true of a non-empty
      string whose every character is a decimal digit. Such a string holds no
      path delimiter and no sign, so `[-1]` and `[]` are not indices. */
  predicate IsDigits(s: string)
    ensures IsDigits(s) ==> |s| > 0 && '-' !in s
    ensures IsDigits(s) ==> '.' !in s && '[' !in s && ']' !in s
  {
    |s| > 0 && forall i :: 0 <= i < |s| ==> IsDigit(s[i])
  }

  /** `10` to the power `k`. */
  function Pow10(k: nat): nat {
    if k == 0 then 1 else 10 * Pow10(k - 1)
  }

  /** Python's `int` applied to a string of decimal digits (leading zeros
      allowed, as `int("007") == 7`); `k` digits spell a number below
      `10` to the `k`. */
  function DecimalValue(s: string): (n: nat)
    requires forall i :: 0 <= i < |s| ==> IsDigit(s[i])
    ensures n < Pow10(|s|)
  {
    if |s| == 0 then 0
    else DecimalValue(s[..|s| - 1]) * 10 + DigitValue(s[|s| - 1])
  }

  /** The decimal spelling of `n`, as Python's `str` gives it. */
  function DecimalString(n: nat): string
    decreases n
  {
    if n < 10 then [('0' as int + n) as char]
    else DecimalString(n / 10) + [('0' as int + n % 10) as char]
  }

  /** `int(str(n)) == n`: a bracket written with `n` addresses position `n`. */
  lemma {:induction false} DecimalRoundTrip(n: nat)
    ensures IsDigits(DecimalString(n))
    ensures DecimalValue(DecimalString(n)) == n
    decreases n
  {
    if n >= 10 {
      DecimalRoundTrip(n / 10);
      var s := DecimalString(n / 10);
      var t := DecimalString(n);
      assert t[..|t| - 1] == s;
    }
  }

  /** Python's `dict.get(key, default)`: it returns the default or one of the
      dictionary's values. */
  function Get(m: map<Key, Value>, k: Key, fallback: Value): (r: Value)
    ensures r == fallback || r in m.Values
  {
    if k in m then m[k] else fallback
  }

  /** Where a dot-key token ends in the path after its '.': at the next '.'
      or '[', whichever comes first, or at the end of the path. */
  function TokenEnd(remainder: string): (e: nat)
    ensures e <= |remainder|
  {
    var nextDot := Find(remainder, '.');
    var nextOpen := Find(remainder, '[');
    if Max(nextDot, nextOpen) == -1 then |remainder|
    else if nextDot == -1 then nextOpen
    else if nextOpen == -1 then nextDot
    else Min(nextDot, nextOpen)
  }

  /** The dictionary lookup of a dot-key: `get` with the key as a string,
      and, when that gave None and the key is all digits, `get` again with
      the key as an integer. */
  function GetWithRetry(m: map<Key, Value>, token: string, fallback: Value): (r: Value)
    ensures r == fallback || r in m.Values
  {
    var byName := Get(m, KStr(token), fallback);
    if byName.Null? && IsDigits(token) then Get(m, KInt(DecimalValue(token)), fallback) else byName
  }

  /** `query(structure, path, fallback)`. Each call validates the lead
      character, cuts one segment off the front of `path` (a dot-key up to but
      not including the next '.' or '[', a bracket up to and including the
      first ']'), applies it to `structure`, and recurses on what is left. */
  function Query(structure: Value, path: string, fallback: Value): (r: Outcome)
    ensures r == SyntaxError(EmptyPath) <==> |path| == 0
    ensures |path| > 0 && path[0] != '.' && path[0] != '[' ==> r == SyntaxError(BadLead)
    decreases |path|
  {
    if |path| == 0 then SyntaxError(EmptyPath)
    else if path[0] != '.' && path[0] != '[' then SyntaxError(BadLead)
    else
      var remainder := path[1..];
      if path[0] == '[' then
        var nextDot := Find(remainder, '.');
        var nextOpen := Find(remainder, '[');
        var nextClose := Find(remainder, ']');
        if nextClose == -1 then SyntaxError(NoClosingBracket)
        else if nextDot > -1 && nextClose > nextDot then SyntaxError(DotBeforeClose)
        else if nextOpen > -1 && nextClose > nextOpen then SyntaxError(OpenBeforeClose)
        else
          var token := remainder[..nextClose];
          var next := path[nextClose + 2..];
          if !structure.List? then Ok(fallback)
          else if !IsDigits(token) then SyntaxError(NotAnIndex)
          else
            var index := DecimalValue(token);
            if index >= |structure.items| then Ok(fallback)
            else
              var found := structure.items[index];
              if |next| == 0 then Ok(found) else Query(found, next, fallback)
      else
        var end := TokenEnd(remainder);
        var token := remainder[..end];
        var next := path[end + 1..];
        if !structure.Dict? then Ok(fallback)
        else
          var found := GetWithRetry(structure.entries, token, fallback);
          if |next| == 0 then Ok(found) else Query(found, next, fallback)
  }
}
