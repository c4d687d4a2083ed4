# container-to-consul: the label parser and the Consul request builder

This project models the two self-contained computations of container-to-consul and proves properties of them in Dafny.

- **The key/value parser** is `lib/parse-key-pair.js`. It turns label text such as `name=web;port=80` into a dictionary.
  - One regular expression finds a key, an `=`, a value and then group 3: the text after the white space that follows the separator, up to the end of its line.
  - Keys are trimmed and lose one leading and one trailing quote.
  - Values lose their quotes, each of which may be escaped with a backslash.
  - Each value is stored as a number, `undefined`, a boolean or a string.
  - The parser calls itself on group 3, writing into the same dictionary. When the separator is a line end, that white space includes the line terminator, so group 3 is the whole next line and nothing after that line is parsed.
  - The exported function fills the caller's object in place, or fills a new object and returns it.
- **The Consul client** is `lib/consul/index.js`. It builds the request record that is handed to the HTTP library.
  - The ACL token is appended as a query parameter.
  - The base URL is `http://host:port`.
  - The body is attached only when it is truthy.
  - `_put` first writes the configured datacenter into the body object.
  - The response transform turns an empty body into `{}`.

Modules:

- `Wrappers` (wrappers.dfy) holds `Option` and `Result`.
- `Search` (search.dfy) holds the two ordered searches that a backtracking regular-expression engine performs. `FirstUp` tries the first candidate first: leftmost start positions and lazy quantifiers. `LastDown` tries the last candidate first: greedy quantifiers.
- `PairPattern` (pattern.dfy) is an explicit scanner for the expression on line 3. `.` stops at line terminators, as JavaScript's `.` does without the `s` flag; under the `m` flag `$` matches at the end of the text and before a line terminator; `\s` is JavaScript's white-space set. Ghost predicates state what each part of the expression accepts, independently of the search.
- `PairPatternFacts` (pattern_facts.dfy) proves that the scanner finds a match whenever the expression can match, and that the match it finds is the leftmost one.
- `PairPatternExamples` (pattern_examples.dfy) follows a few inputs through the scanner.
- `KeyPair` (key_pair.dfy) holds the stripping, the classification, the dictionary writes and the imperative parser. The `Results` class stands for the dictionary object, updated in place.
- `KeyPairFacts` (key_pair_facts.dfy) holds the round trips of the stripping, the laws of the dictionary writes, and what a line of plain pairs writes, pair by pair.
- `ConsulClient` (consul.dfy) holds the `Consul` class, its request methods, the body object that `_put` mutates, and the response transform.
- `ConsulClientFacts` (consul_facts.dfy) proves that the token becomes one more query parameter, and that the host and port can be read back from the base URL.

The scanner shows some behaviour of the expression that is easy to miss:

- In `a=;b=c` the value is `;b=c`, and `b` is never assigned. Group 2 cannot be empty there, because `$` does not match before a `;`. The lazy bare value then grows until a separator follows it, and that is only at the end of the line (`SwallowedLeftmost`).
- In `a=1`, `b=2`, `c=3` on three lines, `c` is never written. After `1` the separator is the line end; the `\s*` before group 3 skips the newline, group 3 is `b=2` alone, and the recursion parses only that (`KeyPairFacts.ThreeLines`, in general `ThirdLineLost`).
- In `a=x\;y` the value is `x\;y`, backslash included (`EscapedLeftmost`).
- The quoted alternatives come first. In `a="x;y"` group 2 is `"x;y"`, stored as `x;y` (`QuotedSemicolonLeftmost`); in `"a=b"=c` group 1 is `"a=b"`, stored as the key `a=b`, and group 2 is `c` (`QuotedEqualsLeftmost`). `PairPatternFacts.ValueAtOrder` and `KeyAtOrder` state the order in general.
- A bare value cannot end in a backslash, but its last character may be a line terminator. So `a=x\` at the very end of the text has no match and writes nothing. When a line terminator follows it and the text ends there, or a second line terminator follows, the final `[^\\]` takes the first terminator: `a=x\` plus a newline at the end of the text gives group 2 `x\` and the newline (`BackslashNewlineLeftmost`).
- The branch on line 21 of the parser (group 2 missing) cannot run. Group 2 is a required group: no quantifier applies to it, so every successful match sets it, whatever it matched. The model therefore has no such branch.
- The `length > 1` guard on line 23 never changes what is stored. Text of one character cannot match, since a match needs a key and an `=` (`KeyPairFacts.ShortTextWritesNothing`).

## Model

| member | source | states |
|---|---|---|
| Search.FirstUp | lib/parse-key-pair.js:3 | the first candidate in a range that succeeds, with no earlier success; none when no candidate succeeds (the order of start positions and of lazy quantifiers) |
| Search.LastDown | lib/parse-key-pair.js:3 | the last candidate in a range that succeeds, with no later success; none when no candidate succeeds (the order of greedy quantifiers) |
| PairPattern.SkipSpace | lib/parse-key-pair.js:3 | greedy `\s*` stops at the first non-space character after a run of white space |
| PairPattern.LineEnd | lib/parse-key-pair.js:3 | greedy `.*` stops at the first line terminator, or at the end of the text |
| PairPattern.Separator | lib/parse-key-pair.js:3 | the separator is a `;`, tried first, or else the end of a line; anything else is no separator |
| PairPattern.QuotedValue | lib/parse-key-pair.js:3 | a quoted value that is found has the quoted form (quote, at least one character, a last character that is not a backslash, quote), and the separator follows it |
| PairPattern.BareLimit | lib/parse-key-pair.js:3 | a lazy `.*?` starting at v can end exactly at the positions before the next line terminator |
| PairPattern.BareValue | lib/parse-key-pair.js:3 | a bare value that is found is non-empty, holds no line terminator before its last character, does not end in a backslash, and the separator follows it |
| PairPattern.EmptyValue | lib/parse-key-pair.js:3 | the `$` alternative of group 2 matches exactly at the end of a line, and the value is then empty |
| PairPattern.ValueAt | lib/parse-key-pair.js:3 | group 2 that is found has one of the four forms, followed by the separator; `ValueAtOrder` gives the order in which the alternatives are tried |
| PairPattern.ValueAfter | lib/parse-key-pair.js:3 | after the `=` there is white space and then a value of one of the four forms, followed by the separator |
| PairPattern.RhsAt | lib/parse-key-pair.js:3 | what follows group 1 is white space, `=`, white space, a value and the separator |
| PairPattern.QuotedKey | lib/parse-key-pair.js:3 | a quoted key that is found has the quoted form, and the rest of the expression matches after it |
| PairPattern.BareKey | lib/parse-key-pair.js:3 | a bare key that is found is a non-empty run without `=`, and the rest of the expression matches after it |
| PairPattern.KeyAt | lib/parse-key-pair.js:3 | group 1 that is found has one of the three forms, and the rest of the expression matches after it; `KeyAtOrder` gives the order in which the alternatives are tried |
| PairPattern.MatchAt | lib/parse-key-pair.js:3 | a match found at a position starts there and is a match of the whole expression |
| PairPattern.Leftmost | lib/parse-key-pair.js:3 | the match that `exec` finds is a match of the whole expression |
| PairPattern.GroupsOf | lib/parse-key-pair.js:3 | groups 1 and 2 are the matched spans; group 3 starts where the white space after the separator stops and runs to the end of that line, so it starts with no white space and holds no line terminator |
| PairPattern.Exec | lib/parse-key-pair.js:3-4 | `exec` finds nothing in text without `=`, and group 3 is always at least two characters shorter than the input |
| PairPatternFacts.QuotedValueShortest | lib/parse-key-pair.js:3 | a quoted value that the separator can follow is always found, and the one found is the shortest |
| PairPatternFacts.BareValueShortest | lib/parse-key-pair.js:3 | a bare value that the separator can follow is always found, and the one found is the shortest, so `\;` never ends it |
| PairPatternFacts.ValueAtComplete | lib/parse-key-pair.js:3 | group 2 is found wherever some value of one of the four forms is followed by the separator |
| PairPatternFacts.ValueAfterComplete | lib/parse-key-pair.js:3 | after the `=` a value is found whenever one can start after white space, and it starts no further left than any such value |
| PairPatternFacts.RhsAtComplete | lib/parse-key-pair.js:3 | the part after group 1 is found whenever it has its form |
| PairPatternFacts.QuotedKeyComplete | lib/parse-key-pair.js:3 | a quoted key is found whenever one of its form is followed by the rest of the expression |
| PairPatternFacts.KeyAtComplete | lib/parse-key-pair.js:3 | group 1 is found wherever a key of one of the three forms is followed by the rest of the expression |
| PairPatternFacts.QuotedValueSucceeds | lib/parse-key-pair.js:3 | the quoted alternative of group 2 succeeds exactly when a quoted value that the separator can follow starts there |
| PairPatternFacts.BareValueSucceeds | lib/parse-key-pair.js:3 | the bare alternative of group 2 succeeds exactly when a bare value that the separator can follow starts there |
| PairPatternFacts.ValueAtOrder | lib/parse-key-pair.js:3 | group 2 is the double-quoted value when one fits, else the single-quoted one, else the bare one, else the empty value at a line end |
| PairPatternFacts.QuotedKeySucceeds | lib/parse-key-pair.js:3 | the quoted alternative of group 1 succeeds exactly when a quoted key that the rest of the expression can follow starts there |
| PairPatternFacts.KeyAtOrder | lib/parse-key-pair.js:3 | group 1 is the double-quoted key when one fits, else the single-quoted one, else the bare one |
| PairPatternFacts.MatchAtComplete | lib/parse-key-pair.js:3 | the scanner finds a match at every position where the expression can match |
| PairPatternFacts.LeftmostIsLeftmost | lib/parse-key-pair.js:3-4 | `exec` fails exactly when the expression cannot match anywhere, and its match starts no later than any possible match |
| PairPatternFacts.BareValueRuns | lib/parse-key-pair.js:3 | a run without backslash, `;` or line terminator that the separator follows is the whole bare value |
| PairPatternFacts.BareRhs | lib/parse-key-pair.js:3 | after an `=`, a bare value starting with neither white space nor a quote is the right-hand side |
| PairPatternFacts.BarePairLeftmost | lib/parse-key-pair.js:3 | a key without quote or `=` followed directly by `=` and a bare value is what `exec` finds, from the start of the text |
| PairPatternFacts.NoEqualsNoPair | lib/parse-key-pair.js:3-4 | text without `=` has no match at all |
| PairPatternExamples.ExecAtEnd | lib/parse-key-pair.js:3 | when the separator is the end of the input, group 1 and group 2 are the matched spans and group 3 is empty |
| PairPatternExamples.EscapedValue | lib/parse-key-pair.js:3 | in `a=x\;y` the value starting after `=` runs to the end: `;` after a backslash does not end it |
| PairPatternExamples.EscapedRhs | lib/parse-key-pair.js:3 | in `a=x\;y` the `=` is at 1 and the value spans 2 to 6 |
| PairPatternExamples.EscapedKey | lib/parse-key-pair.js:3 | in `a=x\;y` the key is `a` |
| PairPatternExamples.EscapedLeftmost | lib/parse-key-pair.js:3 | `exec` on `a=x\;y` gives key `a` and value `x\;y` |
| PairPatternExamples.SwallowedValue | lib/parse-key-pair.js:3 | in `a=;b=c` the value starting after `=` runs to the end |
| PairPatternExamples.SwallowedRhs | lib/parse-key-pair.js:3 | in `a=;b=c` the `=` is at 1 and the value spans 2 to 6 |
| PairPatternExamples.SwallowedKey | lib/parse-key-pair.js:3 | in `a=;b=c` the key is `a` |
| PairPatternExamples.SwallowedLeftmost | lib/parse-key-pair.js:3 | `exec` on `a=;b=c` gives key `a` and value `;b=c`, not an empty value |
| PairPatternExamples.QuotedSemicolonValue | lib/parse-key-pair.js:3 | in `a="x;y"` group 2 is the quoted `"x;y"`, although the bare alternative alone would stop at the `;` |
| PairPatternExamples.QuotedSemicolonRhs | lib/parse-key-pair.js:3 | in `a="x;y"` the `=` is at 1 and the value spans 2 to 7 |
| PairPatternExamples.QuotedSemicolonLeftmost | lib/parse-key-pair.js:3 | `exec` on `a="x;y"` gives key `a` and value `"x;y"` |
| PairPatternExamples.QuotedEqualsRhs | lib/parse-key-pair.js:3 | in `"a=b"=c` the rest of the expression matches both after the quoted key and after the bare key `"a` |
| PairPatternExamples.QuotedEqualsKey | lib/parse-key-pair.js:3 | in `"a=b"=c` group 1 is the quoted `"a=b"`, although the bare alternative alone would give `"a` |
| PairPatternExamples.QuotedEqualsLeftmost | lib/parse-key-pair.js:3 | `exec` on `"a=b"=c` gives key `"a=b"` and value `c` |
| PairPatternExamples.BackslashNewlineValue | lib/parse-key-pair.js:3 | after `a=` in `a=x\` plus a newline, the bare value ends with the newline |
| PairPatternExamples.BackslashNewlineLeftmost | lib/parse-key-pair.js:3 | `exec` on `a=x\` plus a newline gives key `a` and value `x\` with the newline |
| PairPatternExamples.BackslashEndNoMatch | lib/parse-key-pair.js:3 | `a=x\` at the end of the text has no match, so `exec` returns nothing |
| KeyPair.Trim | lib/parse-key-pair.js:5 | trimming gives the empty string exactly for all-white-space text; otherwise the result neither starts nor ends with white space |
| KeyPair.StripKey | lib/parse-key-pair.js:5 | the key is the trimmed text without its first character exactly when that is a quote, and without its last character exactly when that is a quote other than the first; nothing else is removed |
| KeyPair.LeadingQuoteEnd | lib/parse-key-pair.js:7 | the leading part removed from a value is all its leading white space, then an optional backslash, then a quote; nothing is removed when neither a quote nor a backslash and a quote follows that white space |
| KeyPair.StripValue | lib/parse-key-pair.js:7 | the stored value is the piece of group 2 from the end of the removed leading part up to the first trailing quote after it (an optionally escaped quote followed only by white space), or to the end when there is none |
| KeyPair.TrailingQuoteSearch | lib/parse-key-pair.js:7 | the left-to-right search for the trailing quote stops at the first position where one starts, and finds none only when none starts anywhere after the leading part |
| KeyPair.WordsAreNotNumbers | lib/parse-key-pair.js:9-16 | number-like text is never `true` or `false` in any case, so the order of the tests does not matter for them |
| KeyPair.Classify | lib/parse-key-pair.js:9-19 | number exactly for number-like text (keeping its text), undefined exactly for the empty value, true and false exactly for those words in any letter case, and otherwise the text itself |
| KeyPair.Assignments | lib/parse-key-pair.js:1-27 | text without `=` writes nothing |
| KeyPair.Apply | lib/parse-key-pair.js:10-18 | the keys after the writes are the old keys and the keys written |
| KeyPair.ApplyConcat | lib/parse-key-pair.js:10-25 | writing one sequence of pairs and then another is writing their concatenation, so the match's write comes before those of the recursive call |
| KeyPair.Parse | lib/parse-key-pair.js:1-27 | the dictionary afterwards is the old one after the writes of the match and of the recursion on group 3, in order |
| KeyPair.ParseKeyPair | lib/parse-key-pair.js:29-38 | with an object, that object is filled in place and nothing is returned; without one, a new object is returned, filled from empty |
| KeyPairFacts.TrimPadded | lib/parse-key-pair.js:5 | trimming removes exactly the white space around a core that starts and ends with a non-space character |
| KeyPairFacts.QuotedKeyStripped | lib/parse-key-pair.js:5 | a key written in quotes, whatever it holds and with white space around it, is stored without the quotes and the white space |
| KeyPairFacts.PlainKeyKept | lib/parse-key-pair.js:5 | a key with no quote and no white space at its ends is stored as written, without the white space around it |
| KeyPairFacts.UnquotedValueKept | lib/parse-key-pair.js:7 | a value holding no quote character is stored as written |
| KeyPairFacts.QuotedValueStripped | lib/parse-key-pair.js:7 | a value in quotes, each quote optionally escaped and the whole surrounded by white space, is stored without them, unless an unescaped closing quote follows a backslash |
| KeyPairFacts.LeadingAt | lib/parse-key-pair.js:7 | where the removed leading part ends when white space and a quote, optionally escaped, start the value |
| KeyPairFacts.FirstTrailingQuote | lib/parse-key-pair.js:7 | the trailing quote removed is the first one that only white space follows |
| KeyPairFacts.LeadingQuoteOnly | lib/parse-key-pair.js:5 | a key with a quote only at its start (`"abc`) is stored without that quote |
| KeyPairFacts.TrailingQuoteOnly | lib/parse-key-pair.js:5 | a key with a quote only at its end (`abc"`) is stored without that quote |
| KeyPairFacts.LoneQuoteKey | lib/parse-key-pair.js:5 | a key that is a single quote is stored as the empty key |
| KeyPairFacts.LeadingValueQuoteOnly | lib/parse-key-pair.js:7 | a value with an opening quote, optionally escaped, and no other quote is stored without that quote and what precedes it |
| KeyPairFacts.TrailingValueQuoteOnly | lib/parse-key-pair.js:7 | a value with a closing quote, optionally escaped, and no other quote is stored without that quote and the white space after it |
| KeyPairFacts.InnerQuotesKept | lib/parse-key-pair.js:7 | quotes inside a value are kept: a value that neither starts nor ends with a quote or white space is stored as written |
| KeyPairFacts.ApostropheKept | lib/parse-key-pair.js:7 | `it's` is stored as `it's` |
| KeyPairFacts.ApplyLookup | lib/parse-key-pair.js:10-25 | after the writes a key holds the value of its last write, so a repeated key overwrites; a key no write names keeps its old value, or stays absent |
| KeyPairFacts.WrittenKeysPresent | lib/parse-key-pair.js:11-12 | every key written is present afterwards, including one whose value is undefined |
| KeyPairFacts.ApplyIsMerge | lib/parse-key-pair.js:29-38 | filling an object in place gives the object merged with what the fresh form returns |
| KeyPairFacts.ShortTextWritesNothing | lib/parse-key-pair.js:23-25 | text of at most one character writes nothing, so the length guard on the recursion changes nothing |
| KeyPairFacts.PlainPairGroups | lib/parse-key-pair.js:3 | for a plain key, `=`, a plain value and a separator followed by one line without leading white space, `exec` gives exactly that key, that value and that line |
| KeyPairFacts.PairGroups | lib/parse-key-pair.js:3 | `k=v;t` gives groups `k`, `v` and `t`, and `k=v` gives `k`, `v` and the empty rest, for a plain key and value |
| KeyPairFacts.PlainPairStored | lib/parse-key-pair.js:5-7 | a plain key and a plain value are stored as written |
| KeyPairFacts.PairThenRest | lib/parse-key-pair.js:1-25 | `k=v;t` writes `k` with the class of `v`, then what `t` writes when it is longer than one character |
| KeyPairFacts.LastPair | lib/parse-key-pair.js:1-25 | `k=v` alone writes the one pair `k`, `v` |
| KeyPairFacts.PairThenOne | lib/parse-key-pair.js:1-25 | `k=v;t`, where `t` writes one pair, writes `k` and then that pair |
| KeyPairFacts.TwoPairs | lib/parse-key-pair.js:1-25 | `k1=v1;k2=v2` on one line writes `k1` and then `k2`, each with the class of its own value |
| KeyPairFacts.NextLineIsRest | lib/parse-key-pair.js:3 | after a separator that is a line end, group 3 is the whole next line, up to its own end |
| KeyPairFacts.PlainPairLineGroups | lib/parse-key-pair.js:3 | a plain pair ended by a line terminator gives key, value and the next line as group 3 |
| KeyPairFacts.PairLineGroups | lib/parse-key-pair.js:3 | `k=v`, a line terminator, a line t and later lines give the groups k, v and t |
| KeyPairFacts.PairThenLine | lib/parse-key-pair.js:1-25 | `k=v`, a line terminator, a line t and later lines write k, then what t writes; the later lines are never parsed |
| KeyPairFacts.ThirdLineLost | lib/parse-key-pair.js:1-25 | `k1=v1` and `k2=v2` on two lines, followed by more lines, write exactly the two pairs |
| KeyPairFacts.PairLineThenOne | lib/parse-key-pair.js:1-25 | `k=v`, a line terminator, a line that writes one pair y and later lines write k and then y |
| KeyPairFacts.ThreeLines | lib/parse-key-pair.js:1-25 | `a=1`, `b=2`, `c=3` on three lines write `a` and `b` only |
| KeyPairFacts.NoEqualsNothingStored | lib/parse-key-pair.js:3-4 | text without `=` leaves the object as it was, and the fresh form returns an empty object |
| ConsulClient.Truthy | lib/consul/index.js:42 | a body is truthy exactly when it is present and is an object or a non-empty string; absent and the empty string are falsy |
| ConsulClient.IsSet | lib/consul/index.js:12-16 | a setting counts as set exactly when it is present and non-empty |
| ConsulClient.Before | lib/consul/index.js:17 | the text before the first occurrence of a character, which does not contain it |
| ConsulClient.After | lib/consul/index.js:17 | the text after the first occurrence of a character; present exactly when the character occurs |
| ConsulClient.Split | lib/consul/index.js:17-18 | the pieces between separators: at least one, none containing the separator, and joined with the separator they give the text back |
| ConsulClient.WithToken | lib/consul/index.js:16-19 | without a token the URI is unchanged; with one, `token=<acl>` is appended after `&` when the URI has a `?`, and after `?` otherwise |
| ConsulClient.BaseURL | lib/consul/index.js:22 | the base URL starts with `http://` and has room for exactly the host, `:` and the port |
| ConsulClient.TransformResponse | lib/consul/index.js:24-39 | an empty or absent body is an empty object; otherwise the parsed value, or the parse error rethrown under the `[requestClient]` prefix |
| ConsulClient.Consul.constructor | lib/consul/index.js:7-13 | host, port and ACL token are copied as given; the datacenter only when it is set |
| ConsulClient.Consul.Send | lib/consul/index.js:15-46 | the request has the method given, the base URL `http://host:port`, the URI with the token, and a body exactly when it is truthy |
| ConsulClient.Consul.Get | lib/consul/index.js:48-50 | a GET request without a body |
| ConsulClient.Consul.Delete | lib/consul/index.js:70-72 | a DELETE request without a body |
| ConsulClient.Consul.Put | lib/consul/index.js:62-68 | with a datacenter set, the body object gains `Datacenter` and keeps its other fields, and a body that is not an object throws; without one nothing changes; the request is a PUT of that body |
| ConsulClientFacts.AppendAfterFirst | lib/consul/index.js:17-18 | appending text after a URI that has a `?` leaves its path alone and extends its query |
| ConsulClientFacts.SplitAtFirst | lib/consul/index.js:17-18 | the first `?` of a path without one followed by `?` and a query is the one after the path |
| ConsulClientFacts.SplitAppend | lib/consul/index.js:17-18 | appending `&` and a parameter without `&` adds exactly that parameter |
| ConsulClientFacts.ParameterAppended | lib/consul/index.js:17-18 | after a URI with a query, `&` and a piece without `&` leave the path alone and add that piece as one more parameter |
| ConsulClientFacts.QueryStarted | lib/consul/index.js:17-18 | after a URI without a query, `?` and a piece without `&` leave the path alone and make that piece the only parameter |
| ConsulClientFacts.TokenIsLastParameter | lib/consul/index.js:16-19 | with a token set, the URL keeps the URI's path and parameters and has `token=<acl>` as one more, last parameter |
| ConsulClientFacts.NoTokenNoChange | lib/consul/index.js:16 | without a token, or with an empty one, the URL is the URI with the same parameters |
| ConsulClientFacts.BaseURLHostPort | lib/consul/index.js:22 | the host and the port can be read back from the base URL when the host holds no `:` |

## Left out

- KeyPair.ParseKeyPair: object targets only. A truthy target that is not an object (a number or a string) makes the first write throw a `TypeError` in strict mode, which is not modelled.
- The HTTP call `axios(request)` (lib/consul/index.js:45). `Send` returns the request record it would hand over. The promise and the response are not modelled.
- `JSON.parse` (lib/consul/index.js:31) is a parameter of `TransformResponse` that returns a value or the text of its error. JSON syntax is not modelled.
- The `catalog` and `kv` getters (lib/consul/index.js:74-80). The classes they construct are not part of this model.
- `parseFloat` (lib/parse-key-pair.js:10) is floating-point conversion. A number-like value is stored as `Number` holding its text.
- KeyPair.Classify: `toLowerCase` is modelled as ASCII case folding. No other character folds to a letter of `true` or `false`, so the comparison gives the same answer.
- Body types other than strings and objects (numbers, booleans, arrays, `null`) are not modelled for `_send` and `_put`. Neither are objects as ACL tokens or datacenters.
- ConsulClient.Consul.Put: the thrown error is one fixed text. The engine's exact `TypeError` message, which names the value, is not modelled.
- JavaScript object semantics of the dictionary are not modelled: property order, and keys such as `__proto__` that touch the prototype. The dictionary is a map from strings to values.
- Strings are sequences of Unicode characters, not UTF-16 code units. The scanner's match differs from the engine's only for a quoted key whose content is one character outside the Basic Multilingual Plane: the engine takes the quoted alternative and the scanner the bare one, whose group 1 also holds the white space before `=`. The stored key and value are the same either way.
- `lib/docker.js`, the orchestrator `lib/container-to-consul.js`, and the end-to-end harness are not part of this model. They are I/O and connection plumbing, or depend on the catalog and kv clients and the Docker connection, which are outside this model.
