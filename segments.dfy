/** A segment-level account of `query`: paths as sequences of segments, the
    effect of one segment on a structure, and the theorems that the
    string-scanning `Query` of module Structure consumes exactly one segment
    per call and agrees with that account. */
module Segments {
  import opened Structure

  /** One step of a path: `.key` looks `key` up in a dictionary, `[text]`
      indexes a list. */
  datatype Segment = Member(key: string) | Index(text: string)

  /** A segment that the path scanner reads back as itself: a dot-key holds
      no '.' or '[' (either would end it; a ']' may occur in it), and bracket
      text holds no '.', '[' or ']'. */
  predicate WellFormed(seg: Segment) {
    match seg
    case Member(key) => '.' !in key && '[' !in key
    case Index(text) => '.' !in text && '[' !in text && ']' !in text
  }

  function Render(seg: Segment): string {
    match seg
    case Member(key) => "." + key
    case Index(text) => "[" + text + "]"
  }

  /** The path that spells out `segs`; it is empty only for no segments and
      otherwise starts with a character `Query` accepts as a lead. */
  function RenderPath(segs: seq<Segment>): (p: string)
    ensures |p| == 0 <==> |segs| == 0
    ensures |p| > 0 ==> p[0] == '.' || p[0] == '['
  {
    if |segs| == 0 then "" else Render(segs[0]) + RenderPath(segs[1..])
  }

  /** Whether `rest` ends `seg` where intended when it follows it: a dot-key
      runs to the end of the path or to the next '.' or '['; a bracket ends at
      its own ']'. */
  predicate Delimits(seg: Segment, rest: string) {
    seg.Member? ==> |rest| == 0 || rest[0] == '.' || rest[0] == '['
  }

  /** The effect of one segment: stop at once with a value, step into a value
      that the rest of the path (if any) navigates, or reject the path. */
  datatype Step = Stop(value: Value) | Into(value: Value) | Fail(reason: Reason)

  /** Dictionary lookup of a dot-key, by presence of keys: a string key whose
      value is not None wins; otherwise, for an all-digit key, the integer
      key is tried exactly when `get` with the string key came back None,
      that is, when the string key holds None, or is absent and the default
      is None. */
  function Lookup(m: map<Key, Value>, key: string, fallback: Value): Value {
    if KStr(key) in m && !m[KStr(key)].Null? then m[KStr(key)]
    else if !IsDigits(key) then (if KStr(key) in m then m[KStr(key)] else fallback)
    else if KStr(key) !in m && !fallback.Null? then fallback
    else if KInt(DecimalValue(key)) in m then m[KInt(DecimalValue(key))]
    else fallback
  }

  /** The looked-up value is the default or one of the dictionary's values;
      a key that is not all digits is looked up only as a string. */
  lemma LookupCases(m: map<Key, Value>, key: string, fallback: Value)
    ensures Lookup(m, key, fallback) == fallback || Lookup(m, key, fallback) in m.Values
    ensures !IsDigits(key) ==> Lookup(m, key, fallback) == Get(m, KStr(key), fallback)
  {
  }

  /** One segment applied to a structure. A bracket on a non-list and an
      index past the end stop with the default; a bracket on a list must hold
      digits; a dot-key on a non-dict stops with the default, and on a dict
      steps into the looked-up value, which is the default when nothing is
      found. */
  function Apply(s: Value, seg: Segment, fallback: Value): Step {
    match seg
    case Index(text) =>
      if !s.List? then Stop(fallback)
      else if !IsDigits(text) then Fail(NotAnIndex)
      else if DecimalValue(text) < |s.items| then Into(s.items[DecimalValue(text)])
      else Stop(fallback)
    case Member(key) =>
      if !s.Dict? then Stop(fallback)
      else Into(Lookup(s.entries, key, fallback))
  }

  /** When each kind of step happens: every early stop is the default; a
      rejection is exactly a bracket on a list whose text is not digits, and
      says so; a list is entered only through an index in range, and a
      dictionary only through a dot-key. */
  lemma ApplyCases(s: Value, seg: Segment, fallback: Value)
    ensures Apply(s, seg, fallback).Stop? ==> Apply(s, seg, fallback).value == fallback
    ensures Apply(s, seg, fallback).Fail? ==> Apply(s, seg, fallback).reason == NotAnIndex
    ensures Apply(s, seg, fallback).Fail? <==> seg.Index? && s.List? && !IsDigits(seg.text)
    ensures Apply(s, seg, fallback).Into? <==>
      (seg.Index? && s.List? && IsDigits(seg.text) && DecimalValue(seg.text) < |s.items|) ||
      (seg.Member? && s.Dict?)
  {
  }

  /** Resolution of a whole path given as segments. */
  function Resolve(s: Value, segs: seq<Segment>, fallback: Value): (r: Outcome)
    requires |segs| > 0
    // the only syntax error left once a path is cut into segments
    ensures r.SyntaxError? ==> r.reason == NotAnIndex
    // a path whose every bracket holds digits is never rejected
    ensures (forall i :: 0 <= i < |segs| ==> segs[i].Member? || IsDigits(segs[i].text)) ==> r.Ok?
    decreases |segs|
  {
    ApplyCases(s, segs[0], fallback);
    match Apply(s, segs[0], fallback)
    case Stop(v) => Ok(v)
    case Fail(why) => SyntaxError(why)
    case Into(v) => if |segs| == 1 then Ok(v) else Resolve(v, segs[1..], fallback)
  }

  /** What `query` ends with once one step is taken and `rest` of the path is
      left: the step's value when nothing is left, otherwise a query on the
      stepped-into value. */
  function Finish(step: Step, rest: string, fallback: Value): Outcome {
    match step
    case Stop(v) => Ok(v)
    case Fail(why) => SyntaxError(why)
    case Into(v) => if |rest| == 0 then Ok(v) else Query(v, rest, fallback)
  }

  /** `Find` returns the first occurrence and only that. */
  lemma {:induction false} FindFirst(s: string, c: char, i: int)
    requires 0 <= i < |s| && s[i] == c && c !in s[..i]
    ensures Find(s, c) == i
    decreases i
  {
    if i > 0 {
      assert s[..i] == [s[0]] + s[1..][..i - 1];
      FindFirst(s[1..], c, i - 1);
    }
  }

  /** `Find` on a concatenation whose first part lacks `c` is `Find` on the
      second part, shifted by the first part's length. */
  lemma {:induction false} FindAfter(a: string, b: string, c: char)
    requires c !in a
    ensures Find(a + b, c) == if Find(b, c) == -1 then -1 else |a| + Find(b, c)
    decreases |a|
  {
    if |a| == 0 {
      assert a + b == b;
    } else {
      assert a[0] != c;
      assert (a + b)[1..] == a[1..] + b;
      FindAfter(a[1..], b, c);
    }
  }

  /** `Find` on a concatenation scans the first part, then the second. */
  lemma FindConcat(a: string, b: string, c: char)
    ensures Find(a + b, c) ==
      if c in a then Find(a, c)
      else if c in b then |a| + Find(b, c)
      else -1
  {
    if c in a {
      FindSpec(a, c);
      var q := Find(a, c);
      assert (a + b)[..q] == a[..q];
      FindFirst(a + b, c, q);
    } else {
      FindAfter(a, b, c);
      FindSpec(b, c);
    }
  }

  /** One call of `Query` consumes exactly one well-formed segment: the
      dot-key ends just before the delimiter that starts `rest`, the bracket
      ends at its ']', which is dropped, and the result is that of applying
      the segment and going on with `rest`. */
  lemma QueryStep(s: Value, seg: Segment, rest: string, fallback: Value)
    requires WellFormed(seg) && Delimits(seg, rest)
    ensures Query(s, Render(seg) + rest, fallback) == Finish(Apply(s, seg, fallback), rest, fallback)
  {
    match seg
    case Member(key) => MemberStep(s, key, rest, fallback);
    case Index(text) => IndexStep(s, text, rest, fallback);
  }

  lemma MemberStep(s: Value, key: string, rest: string, fallback: Value)
    requires WellFormed(Member(key)) && Delimits(Member(key), rest)
    ensures Query(s, "." + key + rest, fallback) == Finish(Apply(s, Member(key), fallback), rest, fallback)
  {
    var path := "." + key + rest;
    assert path == "." + (key + rest);
    assert path[1..] == key + rest;
    DotTokenEnd(key, rest);
    assert (key + rest)[..|key|] == key;
    assert path[|key| + 1..] == rest;
    MemberCut(s, path, |key|, fallback);
  }

  /** One dot-key step of `Query`, given where the source's scan ends the
      token. */
  lemma MemberCut(s: Value, path: string, end: nat, fallback: Value)
    requires |path| > 0 && path[0] == '.' && TokenEnd(path[1..]) == end
    ensures end < |path|
    ensures Query(s, path, fallback) ==
      Finish(Apply(s, Member(path[1..][..end]), fallback), path[end + 1..], fallback)
  {
    if s.Dict? {
      LookupIsGetThenRetry(s.entries, path[1..][..end], fallback);
    }
  }

  /** The scan for the end of a dot-key, as `query` computes it, stops right
      after the key. */
  lemma DotTokenEnd(key: string, rest: string)
    requires WellFormed(Member(key)) && Delimits(Member(key), rest)
    ensures TokenEnd(key + rest) == |key|
  {
    FindAfter(key, rest, '.');
    FindAfter(key, rest, '[');
    if |rest| > 0 {
      if rest[0] == '.' {
        assert Find(rest, '.') == 0;
      } else {
        assert Find(rest, '[') == 0;
      }
    }
  }

  /** `Lookup` is `get` with the string key, retried with the integer key
      when that gave None and the key is all digits. */
  lemma LookupIsGetThenRetry(m: map<Key, Value>, key: string, fallback: Value)
    ensures Lookup(m, key, fallback) == GetWithRetry(m, key, fallback)
  {
  }

  lemma IndexStep(s: Value, text: string, rest: string, fallback: Value)
    requires WellFormed(Index(text))
    ensures Query(s, "[" + text + "]" + rest, fallback) == Finish(Apply(s, Index(text), fallback), rest, fallback)
  {
    var path := "[" + text + "]" + rest;
    assert path == "[" + (text + ("]" + rest));
    assert path[1..] == text + ("]" + rest);
    BracketScan(text, rest);
    assert path[|text| + 2..] == rest;
    BracketCut(s, path, |text|, fallback);
  }

  /** Scanning the text of a well-formed bracket and what follows it: the
      first ']' is right after the text, and no '.' or '[' comes before it. */
  lemma BracketScan(text: string, rest: string)
    requires WellFormed(Index(text))
    ensures Find(text + ("]" + rest), ']') == |text|
    ensures Find(text + ("]" + rest), '.') == -1 || Find(text + ("]" + rest), '.') > |text|
    ensures Find(text + ("]" + rest), '[') == -1 || Find(text + ("]" + rest), '[') > |text|
    ensures (text + ("]" + rest))[..|text|] == text
  {
    FindAfter(text, "]" + rest, '.');
    FindAfter(text, "]" + rest, '[');
    FindAfter(text, "]" + rest, ']');
    assert ("]" + rest)[1..] == rest;
  }

  /** One bracket step of `Query`, given the first ']' and no '.' or '[' before
      it. */
  lemma BracketCut(s: Value, path: string, close: nat, fallback: Value)
    requires |path| > 0 && path[0] == '['
    requires Find(path[1..], ']') == close
    requires Find(path[1..], '.') == -1 || Find(path[1..], '.') > close
    requires Find(path[1..], '[') == -1 || Find(path[1..], '[') > close
    ensures close + 2 <= |path|
    ensures Query(s, path, fallback) ==
      Finish(Apply(s, Index(path[1..][..close]), fallback), path[close + 2..], fallback)
  {
  }

  /** `Query` on the spelled-out path of well-formed segments is the
      segment-by-segment resolution of those segments. */
  lemma {:induction false} QueryResolves(s: Value, segs: seq<Segment>, fallback: Value)
    requires |segs| > 0
    requires forall i :: 0 <= i < |segs| ==> WellFormed(segs[i])
    ensures Query(s, RenderPath(segs), fallback) == Resolve(s, segs, fallback)
    decreases |segs|
  {
    var rest := RenderPath(segs[1..]);
    QueryStep(s, segs[0], rest, fallback);
    match Apply(s, segs[0], fallback)
    case Into(v) =>
      if |segs| > 1 {
        QueryResolves(v, segs[1..], fallback);
      }
    case Stop(_) =>
    case Fail(_) =>
  }

  /** A path spelled out of well-formed segments whose every bracket holds
      digits is never a syntax error: a miss gives the default instead. */
  lemma DigitPathSucceeds(s: Value, segs: seq<Segment>, fallback: Value)
    requires |segs| > 0
    requires forall i :: 0 <= i < |segs| ==> WellFormed(segs[i])
    requires forall i :: 0 <= i < |segs| ==> segs[i].Member? || IsDigits(segs[i].text)
    ensures Query(s, RenderPath(segs), fallback).Ok?
  {
    QueryResolves(s, segs, fallback);
  }

  /** Every path that starts with '.' is one well-formed dot-key segment
      followed by a remainder that delimits it. */
  lemma {:induction false} SplitMember(p: string) returns (key: string, rest: string)
    requires |p| > 0 && p[0] == '.'
    ensures WellFormed(Member(key)) && Delimits(Member(key), rest)
    ensures p == Render(Member(key)) + rest
    decreases |p|
  {
    if |p| == 1 || p[1] == '.' || p[1] == '[' {
      key, rest := "", p[1..];
    } else {
      var k, r := SplitMember("." + p[2..]);
      assert ("." + p[2..])[1..] == p[2..];
      assert "." + k + r == "." + (k + r);
      assert ("." + k + r)[1..] == k + r;
      key, rest := [p[1]] + k, r;
      assert p == [p[0]] + [p[1]] + p[2..];
    }
  }

  /** Every path that starts with '[' and has a ']' after it is a bracket
      up to the first ']', then the rest. */
  lemma SplitBracket(p: string) returns (text: string, rest: string)
    requires |p| > 0 && p[0] == '[' && ']' in p[1..]
    ensures ']' !in text && p == "[" + text + "]" + rest
  {
    FindSpec(p[1..], ']');
    var j := Find(p[1..], ']');
    text, rest := p[1..][..j], p[j + 2..];
    assert p == "[" + text + "]" + rest;
  }

  /** A '[' with no ']' after it is a syntax error, whatever the structure. */
  lemma BracketUnclosed(s: Value, p: string, fallback: Value)
    requires |p| > 0 && p[0] == '[' && ']' !in p[1..]
    ensures Query(s, p, fallback) == SyntaxError(NoClosingBracket)
  {
    FindSpec(p[1..], ']');
  }

  /** A '.' or '[' before the first ']' of a bracket is a syntax error,
      whatever the structure; a '.' is reported first. */
  lemma BracketInterleaved(s: Value, text: string, rest: string, fallback: Value)
    requires ']' !in text && ('.' in text || '[' in text)
    ensures Query(s, "[" + text + "]" + rest, fallback) ==
      SyntaxError(if '.' in text then DotBeforeClose else OpenBeforeClose)
  {
    var path := "[" + text + "]" + rest;
    assert path == "[" + (text + ("]" + rest));
    assert path[1..] == text + ("]" + rest);
    FindAfter(text, "]" + rest, ']');
    assert ("]" + rest)[1..] == rest;
    if '.' in text {
      FindSpec(text, '.');
      FindConcat(text, "]" + rest, '.');
    } else {
      FindAfter(text, "]" + rest, '.');
      FindSpec(text, '[');
      FindConcat(text, "]" + rest, '[');
    }
  }

  /** A bracket on anything but a list yields the default, even when its
      content is not a number (`[-1]` on a dict). */
  lemma IndexOnNonList(s: Value, text: string, rest: string, fallback: Value)
    requires !s.List? && '.' !in text && '[' !in text && ']' !in text
    ensures Query(s, "[" + text + "]" + rest, fallback) == Ok(fallback)
  {
    QueryStep(s, Index(text), rest, fallback);
  }

  /** On a list, bracket content that is not all digits (empty, or `-1`) is
      a syntax error. */
  lemma IndexNotDigits(xs: seq<Value>, text: string, rest: string, fallback: Value)
    requires '.' !in text && '[' !in text && ']' !in text && !IsDigits(text)
    ensures Query(List(xs), "[" + text + "]" + rest, fallback) == SyntaxError(NotAnIndex)
  {
    QueryStep(List(xs), Index(text), rest, fallback);
  }

  /** An all-digit index below the list's length steps into that element;
      at or past the length the default is returned, and `rest` is never
      looked at. */
  lemma IndexIntoList(xs: seq<Value>, text: string, rest: string, fallback: Value)
    requires IsDigits(text)
    ensures DecimalValue(text) < |xs| ==>
      Query(List(xs), "[" + text + "]" + rest, fallback) ==
        if |rest| == 0 then Ok(xs[DecimalValue(text)])
        else Query(xs[DecimalValue(text)], rest, fallback)
    ensures DecimalValue(text) >= |xs| ==>
      Query(List(xs), "[" + text + "]" + rest, fallback) == Ok(fallback)
  {
    QueryStep(List(xs), Index(text), rest, fallback);
  }

  /** A dot on anything but a dict yields the default, whatever follows. */
  lemma {:induction false} MemberOnNonDict(s: Value, p: string, fallback: Value)
    requires |p| > 0 && p[0] == '.' && !s.Dict?
    ensures Query(s, p, fallback) == Ok(fallback)
  {
    var key, rest := SplitMember(p);
    QueryStep(s, Member(key), rest, fallback);
  }

  /** Dictionary lookup of a dot-key: string key first; the integer key only
      when the string lookup gave None and the key is all digits; the default
      when nothing is found, which then is what the rest of the path
      navigates. */
  lemma MemberLookup(m: map<Key, Value>, key: string, rest: string, fallback: Value)
    requires WellFormed(Member(key)) && Delimits(Member(key), rest)
    // in general: `get` with the string key, retried with the integer key
    ensures Query(Dict(m), "." + key + rest, fallback) ==
      var byName := Get(m, KStr(key), fallback);
      Finish(Into(if byName.Null? && IsDigits(key) then Get(m, KInt(DecimalValue(key)), fallback) else byName),
             rest, fallback)
    // a string key that does not hold None is the value stepped into
    ensures KStr(key) in m && !m[KStr(key)].Null? ==>
      Query(Dict(m), "." + key + rest, fallback) == Finish(Into(m[KStr(key)]), rest, fallback)
    // an absent key steps into the default, when the integer key is not tried
    ensures KStr(key) !in m && (!fallback.Null? || !IsDigits(key)) ==>
      Query(Dict(m), "." + key + rest, fallback) == Finish(Into(fallback), rest, fallback)
    // a string key holding None, not all digits, steps into that None
    ensures KStr(key) in m && m[KStr(key)].Null? && !IsDigits(key) ==>
      Query(Dict(m), "." + key + rest, fallback) == Finish(Into(Null), rest, fallback)
    // the integer key is tried when the string lookup gave None
    ensures IsDigits(key) && (KStr(key) in m ==> m[KStr(key)].Null?) &&
            (KStr(key) !in m ==> fallback.Null?) ==>
      Query(Dict(m), "." + key + rest, fallback) ==
        Finish(Into(Get(m, KInt(DecimalValue(key)), fallback)), rest, fallback)
  {
    QueryStep(Dict(m), Member(key), rest, fallback);
  }

  datatype Option<T> = None | Some(value: T)

  /** The value that `segs` addresses in `s` when every step finds what it
      looks for: a string key present with a value other than None, or an
      all-digit index within the list. */
  function Descend(s: Value, segs: seq<Segment>): Option<Value>
    decreases |segs|
  {
    if |segs| == 0 then Some(s)
    else match segs[0]
      case Member(key) =>
        if s.Dict? && KStr(key) in s.entries && !s.entries[KStr(key)].Null?
        then Descend(s.entries[KStr(key)], segs[1..])
        else None
      case Index(text) =>
        if s.List? && IsDigits(text) && DecimalValue(text) < |s.items|
        then Descend(s.items[DecimalValue(text)], segs[1..])
        else None
  }

  lemma {:induction false} ResolvePresent(s: Value, segs: seq<Segment>, fallback: Value)
    requires |segs| > 0 && Descend(s, segs).Some?
    ensures Resolve(s, segs, fallback) == Ok(Descend(s, segs).value)
    decreases |segs|
  {
    if |segs| > 1 {
      match Apply(s, segs[0], fallback)
      case Into(v) => ResolvePresent(v, segs[1..], fallback);
      case Stop(_) =>
      case Fail(_) =>
    }
  }

  /** A path whose every step finds what it looks for yields the addressed
      value, whatever the default. */
  lemma PresentPathIgnoresDefault(s: Value, segs: seq<Segment>, fallback: Value)
    requires |segs| > 0
    requires forall i :: 0 <= i < |segs| ==> WellFormed(segs[i])
    requires Descend(s, segs).Some?
    ensures Query(s, RenderPath(segs), fallback) == Ok(Descend(s, segs).value)
  {
    QueryResolves(s, segs, fallback);
    ResolvePresent(s, segs, fallback);
  }

  /** `v` is `s` itself or a value nested somewhere inside it. */
  ghost predicate Within(v: Value, s: Value)
    decreases s
  {
    || v == s
    || (s.List? && exists i :: 0 <= i < |s.items| && Within(v, s.items[i]))
    || (s.Dict? && exists k :: k in s.entries && Within(v, s.entries[k]))
  }

  lemma {:induction false} WithinTransitive(a: Value, b: Value, c: Value)
    requires Within(a, b) && Within(b, c)
    ensures Within(a, c)
    decreases c
  {
    if b != c {
      if c.List? && exists i :: 0 <= i < |c.items| && Within(b, c.items[i]) {
        var i :| 0 <= i < |c.items| && Within(b, c.items[i]);
        WithinTransitive(a, b, c.items[i]);
      } else {
        var k :| k in c.entries && Within(b, c.entries[k]);
        WithinTransitive(a, b, c.entries[k]);
      }
    }
  }

  /** A segment steps into a value nested in the structure, or into the
      default. */
  lemma IntoIsEmbedded(s: Value, seg: Segment, fallback: Value)
    ensures Apply(s, seg, fallback).Into? ==>
      Within(Apply(s, seg, fallback).value, s) || Apply(s, seg, fallback).value == fallback
  {
    var step := Apply(s, seg, fallback);
    if step.Into? {
      var v := step.value;
      if seg.Index? {
        assert Within(v, s.items[DecimalValue(seg.text)]);
      } else if KStr(seg.key) in s.entries && v == s.entries[KStr(seg.key)] {
        assert Within(v, s.entries[KStr(seg.key)]);
      } else if v != fallback {
        assert Within(v, s.entries[KInt(DecimalValue(seg.key))]);
      }
    }
  }

  /** Everything `query` returns is taken from the structure or from the
      default: it never builds a value. */
  lemma {:induction false} QueryResultIsEmbedded(s: Value, path: string, fallback: Value)
    ensures Query(s, path, fallback).Ok? ==>
      Within(Query(s, path, fallback).value, s) || Within(Query(s, path, fallback).value, fallback)
    decreases |path|
  {
    if |path| == 0 || (path[0] != '.' && path[0] != '[') {
      return;
    }
    var seg: Segment, rest: string;
    if path[0] == '.' {
      var key;
      key, rest := SplitMember(path);
      seg := Member(key);
    } else if ']' !in path[1..] {
      BracketUnclosed(s, path, fallback);
      return;
    } else {
      var text;
      text, rest := SplitBracket(path);
      if '.' in text || '[' in text {
        BracketInterleaved(s, text, rest, fallback);
        return;
      }
      seg := Index(text);
    }
    QueryStep(s, seg, rest, fallback);
    var step := Apply(s, seg, fallback);
    if step.Into? && |rest| > 0 {
      QueryResultIsEmbedded(step.value, rest, fallback);
    }
    FinishIsEmbedded(s, seg, rest, fallback);
  }

  /** The outcome of one step is embedded when the query of the rest is. */
  lemma FinishIsEmbedded(s: Value, seg: Segment, rest: string, fallback: Value)
    requires Apply(s, seg, fallback).Into? && |rest| > 0 ==>
      var r := Query(Apply(s, seg, fallback).value, rest, fallback);
      r.Ok? ==> Within(r.value, Apply(s, seg, fallback).value) || Within(r.value, fallback)
    ensures Finish(Apply(s, seg, fallback), rest, fallback).Ok? ==>
      Within(Finish(Apply(s, seg, fallback), rest, fallback).value, s) ||
      Within(Finish(Apply(s, seg, fallback), rest, fallback).value, fallback)
  {
    var step := Apply(s, seg, fallback);
    if step.Into? {
      IntoIsEmbedded(s, seg, fallback);
      if |rest| > 0 {
        var r := Query(step.value, rest, fallback);
        if r.Ok? && Within(r.value, step.value) && Within(step.value, s) {
          WithinTransitive(r.value, step.value, s);
        }
      }
    }
  }
}
