# Path queries into nested structures

A Dafny model of `query` from `code/structure.py`: a tiny jq-like lookup that
digs into a structure of nested dictionaries and lists along a path such as
`.first_key.nested_key` or `.second_key[2]`. A structural miss (wrong
container, missing key, index past the end) gives the caller's default; a
malformed path is a syntax error.

The project has three modules:

- `Structure` (`structure.dfy`): the values (`Value`, `Key`), the outcome of a
  query (`Outcome`: a value, or `SyntaxError` with a `Reason`), the helpers the
  source relies on (`Find` for `str.find`, `IsDigits` and `DecimalValue` for
  `str.isdigit` and `int`, `Get` for `dict.get`), and `Query`. `Query` follows
  the source line by line. It checks the lead character, finds the next `.`,
  `[` and `]` after it and cuts one segment. The end of a dot-key is
  `TokenEnd`, and the dictionary lookup with its integer retry is
  `GetWithRetry`. It then applies the segment and recurses on the shorter
  rest of the path.
- `Segments` (`segments.dfy`): an independent account of the same behaviour
  in terms of segments. `Member(key)` is `.key` and `Index(text)` is `[text]`.
  `Render` and `RenderPath` spell segments out as a path. `Apply` gives the
  effect of one segment on a structure and `Resolve` resolves a list of
  segments. The theorems are these:
  - `QueryStep`: each call of `Query` consumes exactly one segment.
  - `QueryResolves`: `Query` on a spelled-out path equals `Resolve`.
  - `SplitMember` and `SplitBracket`: every path splits into a first segment
    and a rest, unless its bracket syntax is wrong.
  - `BracketUnclosed` and `BracketInterleaved`: what happens when the bracket
    syntax is wrong.
  - Other lemmas cover each edge case of the source.
- `QueryExamples` (`examples.dfy`): the assertions of
  `tests/test_struct_query.py` and of the docstring, proved as lemmas. Most
  of them instantiate a small parametric lemma; the empty path follows from
  the contract of `Query` itself.

Python's `None` is `Value.Null`. The check `ret_val == None` is `.Null?`.
Termination of `Query` is proved by `decreases |path|`: the path left after
one segment is always a proper suffix of the path.

A plain reading of what the function is for is looser than its code in three
places; the model follows the code:

- The integer-key retry on a dict is not triggered by "the string key is
  absent". It is triggered by "`get` with the string key returned None". So,
  when the string key is absent, it never fires under a default other than
  None. It also fires, under any default, when the string key is present and
  holds None. Then an absent integer key yields the default instead of that
  None (`QueryExamples.NoneValueFallsThrough`), and a present one yields its
  value (`QueryExamples.NoneThenIntegerKey`).
- A missing dict key does not end the query. The default becomes the value
  that the rest of the path navigates (`QueryExamples.DefaultIsNavigated`).
  Only a wrong container kind or an index past the end returns the default
  at once.
- So "every segment resolvable gives the exact value regardless of default"
  holds for string keys that do not hold None, and for indices within range.
  That is what `Segments.PresentPathIgnoresDefault` states.

## Model

| member | source | states |
|---|---|---|
| `Structure.Find` | code/structure.py:29-31 | the result is -1 or an index into the string |
| `Structure.FindSpec` | code/structure.py:29-31 | `Find` is -1 exactly when the character does not occur; otherwise it is an index holding the character with no earlier occurrence |
| `Structure.IsDigits` | code/structure.py:67 | a string that counts as digits is non-empty and holds no `-`, `.`, `[` or `]`, so `[]` and `[-1]` are never indices |
| `Structure.DecimalValue` | code/structure.py:69 | the number `int` reads from `k` digits is below 10 to the `k` |
| `Structure.DecimalRoundTrip` | code/structure.py:67-69 | the decimal spelling of any natural number is all digits, and `int` reads it back as that number |
| `Structure.Get` | code/structure.py:78 | `get` returns the default or one of the dict's values |
| `Structure.GetWithRetry` | code/structure.py:78-82 | the lookup with the integer retry returns the default or one of the dict's values, never a value from anywhere else |
| `Structure.TokenEnd` | code/structure.py:48-58 | the end of a dot-key token lies within the path after the `.` |
| `Structure.Query` | code/structure.py:18-25 | the result is the empty-path syntax error exactly when the path is empty (no recursive step produces it); a non-empty path whose first character is neither `.` nor `[` is a bad-lead syntax error for every structure and default |
| `Segments.RenderPath` | code/structure.py:23-24 | a spelled-out path of segments is empty only for no segments, and otherwise starts with `.` or `[` |
| `Segments.FindFirst` | code/structure.py:29-31 | `find` returns any index that holds the character and has no earlier occurrence of it |
| `Segments.FindAfter` | code/structure.py:29-31 | `find` on a concatenation whose first part lacks the character is `find` on the second part, shifted by the first part's length |
| `Segments.FindConcat` | code/structure.py:29-31 | `find` on a concatenation reports the first part's occurrence, else the second part's shifted by the first's length, else -1 |
| `Segments.LookupCases` | code/structure.py:78-82 | the dict lookup gives the default or one of the dict's values; a key that is not all digits is looked up only as a string |
| `Segments.ApplyCases` | code/structure.py:63-82 | one segment stops only with the default; it fails exactly on a list whose bracket text is not digits, with the not-an-index error; it steps into a list only through an index in range, and into a dict only through a dot-key |
| `Segments.Resolve` | code/structure.py:63-87 | resolving segments fails only with the not-an-index error, and a path whose every bracket holds digits is never rejected |
| `Segments.DigitPathSucceeds` | code/structure.py:63-87 | `Query` on a path spelled out of well-formed segments whose every bracket holds digits is never a syntax error: missing data gives the default, not an error |
| `Segments.QueryStep` | code/structure.py:28-87 | for a well-formed segment followed by a rest that delimits it, one call consumes exactly that segment; the result is the segment's effect, then the query of the rest on the stepped-into value when the rest is non-empty |
| `Segments.MemberStep` | code/structure.py:48-62 | the dot-key case of `QueryStep`: the token is the key, and the delimiter after it is left as the start of the rest |
| `Segments.MemberCut` | code/structure.py:45-62 | a dot-key step cuts the token at the end the scan computes and continues after it |
| `Segments.DotTokenEnd` | code/structure.py:48-58 | the source's end-of-token computation from the next `.` and `[` stops exactly after the key |
| `Segments.LookupIsGetThenRetry` | code/structure.py:78-82 | the presence-based dict lookup equals `GetWithRetry`: `get` with the string key, retried with the integer key only when that gave None and the key is all digits |
| `Segments.IndexStep` | code/structure.py:32-44 | the bracket case of `QueryStep`: the token is the text up to the first `]`, and that `]` is dropped |
| `Segments.BracketScan` | code/structure.py:29-40 | in a well-formed bracket followed by anything, the first `]` comes right after the text and no `.` or `[` comes before it |
| `Segments.BracketCut` | code/structure.py:32-44 | a bracket step whose first `]` has no `.` or `[` before it cuts the token up to that `]` and continues after it |
| `Segments.QueryResolves` | code/structure.py:1-87 | `Query` on the path spelled by any non-empty list of well-formed segments equals the segment-by-segment resolution `Resolve` |
| `Segments.SplitMember` | code/structure.py:48-60 | every path starting with `.` is one well-formed dot-key followed by a rest that is empty or starts with `.` or `[` |
| `Segments.SplitBracket` | code/structure.py:35-44 | every path starting with `[` that has a `]` after it is `[`, a text without `]`, `]`, then the rest |
| `Segments.BracketUnclosed` | code/structure.py:35-36 | a `[` with no `]` after it is a missing-bracket syntax error whatever the structure and default |
| `Segments.BracketInterleaved` | code/structure.py:37-40 | a `.` or `[` before the first `]` is a syntax error whatever the structure; a `.` is reported in preference to a `[` |
| `Segments.IndexOnNonList` | code/structure.py:65-66 | a bracket on anything but a list yields the default, even when its content is not digits |
| `Segments.IndexNotDigits` | code/structure.py:67-68 | on a list, bracket content that is not all digits (empty, `-1`) is a syntax error |
| `Segments.IndexIntoList` | code/structure.py:69-73 | an all-digit index below the length steps into that element (final result if nothing follows); at or past the length the result is the default whatever follows |
| `Segments.MemberOnNonDict` | code/structure.py:76-77 | a path starting with `.` on anything but a dict yields the default, whatever the rest of the path holds |
| `Segments.MemberLookup` | code/structure.py:78-87 | in general `.key` on a dict steps into `get` with the string key, retried with the integer key when that gave None and the key is all digits; spelled out: a string key not holding None is stepped into; a string key holding None that is not all digits steps into None; an absent key steps into the default when the integer key is not tried; otherwise the integer key's `get` is stepped into |
| `Segments.ResolvePresent` | code/structure.py:63-87 | segment resolution along a path whose every step finds what it looks for ends with the addressed value |
| `Segments.PresentPathIgnoresDefault` | code/structure.py:14-16 | when every step finds a string key not holding None or an index in range, `Query` yields the addressed value whatever the default |
| `Segments.IntoIsEmbedded` | code/structure.py:73-82 | a segment steps into a value nested in the structure, or into the default |
| `Segments.QueryResultIsEmbedded` | code/structure.py:3-7 | every value `Query` returns is the structure, the default, or a value nested in one of them |
| `Segments.FinishIsEmbedded` | code/structure.py:83-87 | when the query of the rest returns a value nested in what was stepped into or in the default, so does the whole step |
| `QueryExamples.PresentKey` | code/structure.py:78 | `.key` on a dict whose key holds a value other than None yields that value |
| `QueryExamples.MissingKey` | code/structure.py:78-85 | `.key` on a dict without that key yields the default when the integer key is not tried |
| `QueryExamples.TwoKeys` | code/structure.py:78-87 | `.outer.inner` through two present keys yields the inner value |
| `QueryExamples.KeyThenMissingKey` | code/structure.py:78-87 | `.outer.inner` with `inner` missing under `outer` yields the default |
| `QueryExamples.MissingThenKey` | code/structure.py:78-87 | after a missing key the default is navigated: `.absent.key` with a dict default reads `key` from the default |
| `QueryExamples.ListIndex` | code/structure.py:69-73 | `[n]` on a list longer than `n` yields element `n` |
| `QueryExamples.KeyThenElement` | code/structure.py:63-87 | `.key[n]` where `key` holds a list longer than `n` yields element `n` |
| `QueryExamples.KeyThenPastEnd` | code/structure.py:70-72 | `.key[n]` where `key` holds a list of at most `n` elements yields the default |
| `QueryExamples.KeyThenNotAnIndex` | code/structure.py:67-68 | `.key[text]` with non-digit text, where `key` holds a list, is a syntax error |
| `QueryExamples.OnlyIntegerKey` | code/structure.py:80-82 | a dict keyed only by the integer `n`, queried with `.n`, yields its value under the None default and the default under any other |
| `QueryExamples.NoneUnderDigitKey` | code/structure.py:80-82 | a string key `n` holding None makes the lookup retry the absent integer key, giving the default instead of None |
| `QueryExamples.NoneThenIntegerKey` | code/structure.py:78-82 | a string key `n` holding None and an integer key `n` holding `v`: `.n` yields `v` under every default |
| `QueryExamples.NestedKeys` | tests/test_struct_query.py:52-53 | `.first_key.nested_key` on the sample structure is `"42"` under any default |
| `QueryExamples.KeyThenIndex` | tests/test_struct_query.py:54 | `.second_key[2]` on the sample structure is `30` under any default |
| `QueryExamples.StringKey` | tests/test_struct_query.py:40 | `.1` on `{"1": "a", "2": "b"}` is `"a"` |
| `QueryExamples.SingleStringKey` | tests/test_struct_query.py:59-62 | `.1` on `{"1": "one"}` is `"one"` under any default |
| `QueryExamples.MissingKeyGivesDefault` | tests/test_struct_query.py:41-44 | `.ZZZ` on `{"1": "a", "2": "b"}` is the default, None when it is None |
| `QueryExamples.DeeperKeys` | tests/test_struct_query.py:46-47 | `.1.a` on `{"1": {"a": "42"}, "2": "b"}` is `"42"` |
| `QueryExamples.DeeperMissingKey` | tests/test_struct_query.py:48 | `.1.ZZZ` on the same structure is None under the None default |
| `QueryExamples.ListIndexZero` | tests/test_struct_query.py:50 | `[0]` on `["zero", "one"]` is `"zero"` |
| `QueryExamples.KeyThenListIndex` | tests/test_struct_query.py:55-58 | `.1[0]` and `.1[1]` on `{"1": ["zero", "one"]}` are `"zero"` and `"one"` |
| `QueryExamples.ListIndexOutOfRange` | tests/test_struct_query.py:65-66 | `.1[2]` on `{"1": ["zero", "one"]}` is the default |
| `QueryExamples.IntegerKey` | tests/test_struct_query.py:63-64 | `.1` on `{1: "one_as_int"}` is `"one_as_int"` under the None default, and the default under any other |
| `QueryExamples.NoneValueFallsThrough` | code/structure.py:80-82 | `.1` on `{"1": None}` is the default, not None |
| `QueryExamples.NoneKeyRetriedUnderAnyDefault` | code/structure.py:78-82 | `.1` on `{"1": None, 1: "x"}` is `"x"` even under the default `"d"` |
| `QueryExamples.DefaultIsNavigated` | code/structure.py:78-87 | `.missing.b` on `{}` with default `{"b": 5}` is `5` |
| `QueryExamples.EmptyPathRejected` | tests/test_struct_query.py:67-69 | the empty path is a syntax error for every structure |
| `QueryExamples.NegativeIndexOnList` | tests/test_struct_query.py:70-72 | `[-1]` on a list is a syntax error |
| `QueryExamples.NegativeIndexUnderKey` | tests/test_struct_query.py:73-75 | `.1[-1]` where `1` holds a list is a syntax error |
| `QueryExamples.NegativeIndexOnDict` | code/structure.py:65-66 | `[-1]` on a dict is the default, not an error |

## Left out

- The `TypeError` for a path that is not a string (code/structure.py:19-20, tests/test_struct_query.py:76-78): the path is a Dafny `string`, so the case cannot be written.
- `str.isdigit` and `int` on non-ASCII digits: only `'0'`..`'9'` count as digits. Python also accepts characters such as superscript two, on which `int` then raises.
- The text of the error messages: each error is one `SyntaxError` with a `Reason` tag naming which check failed.
- Python object-model details: `True == 1` aliasing of keys, user-defined `__eq__` affecting `ret_val == None`, keys other than strings and integers, floats and tuples as values, and dict insertion order. None of them is part of what the function promises.
- Limits of the Python runtime: `int` on a digit string longer than 4300 characters raises `ValueError` on CPython 3.11 and later (code/structure.py:69, 81), and a path of roughly a thousand segments or more raises `RecursionError` (code/structure.py:87). The model has unbounded integers and unbounded recursion, so on such inputs it indexes or looks up where Python raises. The optional `default=None` parameter (code/structure.py:1) is always passed explicitly; passing `Null` is the call without it.
- Structure.Query: the ensures on `Query` itself only state the lead-character checks. Its full behaviour is stated by `Segments.QueryStep`, `Segments.QueryResolves` and the lemmas beside them.
