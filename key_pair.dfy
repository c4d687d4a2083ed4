/**
 * lib/parse-key-pair.js: `key=value;key=value...` text into a dictionary.
 *
 * `parser` runs the expression of PairPattern once, strips the key and the
 * value, classifies the value, stores it in the dictionary it was given and
 * calls itself on group 3 when that is longer than one character.  The
 * exported function either fills the caller's object in place or fills and
 * returns a fresh one.
 */
module KeyPair {
  import opened Wrappers
  import opened Search
  import opened PairPattern

  /**
   * What a value is stored as.  A number-like value keeps its text (the
   * `parseFloat` conversion is not modelled); `Undefined` is JavaScript's
   * `undefined`, stored under a key that is then present.
   */
  datatype Value = Number(text: string) | Undefined | Bool(b: bool) | Text(s: string)

  predicate IsQuote(c: char) {
    c == '"' || c == '\''
  }

  // ---------------------------------------------------------------------
  // Trimming and stripping (lib/parse-key-pair.js:5 and :7)

  /** The least i <= j such that s[i..j] is all white space. */
  function SpaceBefore(s: string, j: nat): (i: nat)
    requires j <= |s|
    ensures SpaceRun(s, i, j)
    ensures i > 0 ==> !IsSpace(s[i - 1])
    decreases j
  {
    if j > 0 && IsSpace(s[j - 1]) then SpaceBefore(s, j - 1) else j
  }

  /** `String.prototype.trim`: white space removed from both ends. */
  function Trim(s: string): (r: string)
    ensures r == [] <==> forall i :: 0 <= i < |s| ==> IsSpace(s[i])
    ensures r != [] ==> !IsSpace(r[0]) && !IsSpace(r[|r| - 1])
    ensures |r| <= |s|
  {
    var a := SkipSpace(s, 0);
    if a == |s| then []
    else
      var b := SpaceBefore(s, |s|);
      assert a < b;
      s[a..b]
  }

  /**
   * The key of group 1 (line 5): trimmed, then one leading and one trailing
   * quote removed.  The global replace scans left to right: the first
   * alternative can only match at the start, the second only at the last
   * character, since the trimmed key has no white space after it.
   */
  function StripKey(raw: string): (k: string)
    ensures |k| <= |Trim(raw)| <= |k| + 2
    // A leading quote is dropped, and nothing else at the start.
    ensures Trim(raw) != [] && IsQuote(Trim(raw)[0]) ==> |k| < |Trim(raw)| && k == Trim(raw)[1..|k| + 1]
    ensures Trim(raw) == [] || !IsQuote(Trim(raw)[0]) ==> k == Trim(raw)[..|k|]
    // A trailing quote (other than the leading one) is dropped, and nothing else at the end.
    ensures |k| + 2 == |Trim(raw)| ==> IsQuote(Trim(raw)[0]) && IsQuote(Trim(raw)[|Trim(raw)| - 1])
    ensures |k| + 1 == |Trim(raw)| ==> IsQuote(Trim(raw)[0]) != IsQuote(Trim(raw)[|Trim(raw)| - 1]) || (|Trim(raw)| == 1 && IsQuote(Trim(raw)[0]))
    ensures |k| == |Trim(raw)| ==> Trim(raw) == [] || (!IsQuote(Trim(raw)[0]) && !IsQuote(Trim(raw)[|Trim(raw)| - 1]))
  {
    var t := Trim(raw);
    var a := if |t| > 0 && IsQuote(t[0]) then 1 else 0;
    var b := if |t| > a && IsQuote(t[|t| - 1]) then |t| - 1 else |t|;
    t[a..b]
  }

  /** s[j..] is all white space: `\s*$` matches at j. */
  predicate AllSpaceFrom(s: string, j: nat)
    requires j <= |s|
    ensures AllSpaceFrom(s, j) <==> SpaceRun(s, j, |s|)
  {
    SkipSpace(s, j) == |s|
  }

  /**
   * Where the first alternative of line 7's expression ends when it matches
   * at the start: white space, an optional backslash, a quote; 0 when it does
   * not match.  `\s*` and the optional backslash are greedy, and neither a
   * quote nor a backslash is white space, so only the longest `\s*` can
   * succeed.
   */
  function LeadingQuoteEnd(raw: string): (a: nat)
    ensures a <= |raw|
    ensures a > 0 ==> IsQuote(raw[a - 1])
    ensures a > 0 ==> a - 1 == SkipSpace(raw, 0) || (a - 2 == SkipSpace(raw, 0) && raw[a - 2] == '\\')
    ensures a == 0 ==> SkipSpace(raw, 0) == |raw| || !IsQuote(raw[SkipSpace(raw, 0)])
    ensures a == 0 ==> !(SkipSpace(raw, 0) + 1 < |raw| && raw[SkipSpace(raw, 0)] == '\\' && IsQuote(raw[SkipSpace(raw, 0) + 1]))
  {
    var w := SkipSpace(raw, 0);
    if w + 1 < |raw| && raw[w] == '\\' && IsQuote(raw[w + 1]) then w + 2
    else if w < |raw| && IsQuote(raw[w]) then w + 1
    else 0
  }

  /** The second alternative of line 7's expression matches at i: optional backslash, quote, white space to the end. */
  predicate TrailingQuote(raw: string, i: nat) {
    || (i < |raw| && IsQuote(raw[i]) && AllSpaceFrom(raw, i + 1))
    || (i + 1 < |raw| && raw[i] == '\\' && IsQuote(raw[i + 1]) && AllSpaceFrom(raw, i + 2))
  }

  function TrailingQuoteAt(raw: string): nat -> bool {
    (i: nat) => TrailingQuote(raw, i)
  }

  /**
   * The value of group 2 (line 7), not trimmed: the leading quote (with the
   * white space and backslash before it) is removed, then the left-to-right
   * scan of the global replace removes the first trailing quote (with the
   * backslash before it and the white space after it) that it meets.
   */
  function StripValue(raw: string): (v: string)
    ensures |v| <= |raw|
    ensures LeadingQuoteEnd(raw) + |v| <= |raw| && v == raw[LeadingQuoteEnd(raw)..LeadingQuoteEnd(raw) + |v|]
    // It ends at the first trailing quote after the leading part, or at the end when there is none.
    ensures LeadingQuoteEnd(raw) + |v| == |raw| || TrailingQuote(raw, LeadingQuoteEnd(raw) + |v|)
    ensures forall i :: LeadingQuoteEnd(raw) <= i < LeadingQuoteEnd(raw) + |v| ==> !TrailingQuote(raw, i)
  {
    var a := LeadingQuoteEnd(raw);
    TrailingQuoteSearch(raw, a);
    match FirstUp(a, |raw|, TrailingQuoteAt(raw))
    case None => raw[a..]
    case Some(i) => raw[a..i]
  }

  /** The search for the trailing quote, stated on TrailingQuote itself. */
  lemma TrailingQuoteSearch(raw: string, a: nat)
    requires a <= |raw|
    ensures FirstUp(a, |raw|, TrailingQuoteAt(raw)).None? ==> forall i :: a <= i < |raw| ==> !TrailingQuote(raw, i)
    ensures FirstUp(a, |raw|, TrailingQuoteAt(raw)).Some? ==>
      var c := FirstUp(a, |raw|, TrailingQuoteAt(raw)).value;
      TrailingQuote(raw, c) && forall i :: a <= i < c ==> !TrailingQuote(raw, i)
  {
    var r := FirstUp(a, |raw|, TrailingQuoteAt(raw));
    forall i | a <= i < (if r.Some? then r.value else |raw|)
      ensures !TrailingQuote(raw, i)
    {
      assert !TrailingQuoteAt(raw)(i);
    }
    if r.Some? {
      assert TrailingQuoteAt(raw)(r.value);
    }
  }

  // ---------------------------------------------------------------------
  // Classification (lib/parse-key-pair.js:9-19)

  predicate IsNumberChar(c: char) {
    ('0' <= c <= '9') || c == '-' || c == '.' || c == ','
  }

  /** Made only of digits, `-`, `.` and `,`, and not empty. */
  predicate IsNumberLike(v: string) {
    v != [] && forall i :: 0 <= i < |v| ==> IsNumberChar(v[i])
  }

  function Lower(c: char): char {
    if 'A' <= c <= 'Z' then (c as int + 32) as char else c
  }

  /**
   * `v.toLowerCase() === word` for a lower-case ASCII word: no character
   * other than the upper-case ASCII letters lowers to an ASCII letter of
   * `true` or `false`, so folding only those gives the same answer.
   */
  predicate EqualsIgnoringCase(v: string, word: string) {
    |v| == |word| && forall i :: 0 <= i < |v| ==> Lower(v[i]) == word[i]
  }

  lemma WordsAreNotNumbers(v: string)
    ensures IsNumberLike(v) ==> !EqualsIgnoringCase(v, "true") && !EqualsIgnoringCase(v, "false")
  {
    if IsNumberLike(v) && |v| > 0 {
      assert IsNumberChar(v[0]);
    }
  }

  /** What the stripped value is stored as: number, undefined, boolean or string, tested in that order. */
  function Classify(v: string): (r: Value)
    ensures r.Number? <==> IsNumberLike(v)
    ensures r.Number? ==> r.text == v
    ensures r == Undefined <==> v == []
    ensures r == Bool(true) <==> EqualsIgnoringCase(v, "true")
    ensures r == Bool(false) <==> EqualsIgnoringCase(v, "false")
    ensures r.Text? ==> r.s == v
  {
    WordsAreNotNumbers(v);
    if IsNumberLike(v) then Number(v)
    else if v == [] then Undefined
    else if EqualsIgnoringCase(v, "true") then Bool(true)
    else if EqualsIgnoringCase(v, "false") then Bool(false)
    else Text(v)
  }

  // ---------------------------------------------------------------------
  // The recursion and the dictionary

  /** The dictionary writes `parser(s, ...)` performs, in order. */
  function Assignments(s: string): (r: seq<(string, Value)>)
    ensures '=' !in s ==> r == []
    decreases |s|
  {
    match Exec(s)
    case None => []
    case Some(g) =>
      [(StripKey(g.key), Classify(StripValue(g.value)))]
      + (if |g.rest| > 1 then Assignments(g.rest) else [])
  }

  /** The dictionary m after the writes ps, one after the other. */
  function Apply(m: map<string, Value>, ps: seq<(string, Value)>): (r: map<string, Value>)
    ensures r.Keys == m.Keys + KeysOf(ps)
    decreases |ps|
  {
    if ps == [] then m
    else
      assert KeysOf(ps) == {ps[0].0} + KeysOf(ps[1..]);
      Apply(m[ps[0].0 := ps[0].1], ps[1..])
  }

  /** Writing ps and then qs is writing ps + qs. */
  lemma {:induction false} ApplyConcat(m: map<string, Value>, ps: seq<(string, Value)>, qs: seq<(string, Value)>)
    ensures Apply(m, ps + qs) == Apply(Apply(m, ps), qs)
    decreases |ps|
  {
    if ps != [] {
      assert (ps + qs)[1..] == ps[1..] + qs;
      ApplyConcat(m[ps[0].0 := ps[0].1], ps[1..], qs);
    } else {
      assert ps + qs == qs;
    }
  }

  /** The keys that the writes ps name. */
  function KeysOf(ps: seq<(string, Value)>): set<string> {
    set i | 0 <= i < |ps| :: ps[i].0
  }

  /** The value that the last write to k in ps stores, if any writes to k. */
  function LastValue(ps: seq<(string, Value)>, k: string): Option<Value>
    decreases |ps|
  {
    if ps == [] then None
    else
      match LastValue(ps[1..], k)
      case Some(v) => Some(v)
      case None => if ps[0].0 == k then Some(ps[0].1) else None
  }

  /** A JavaScript object used as the parser's dictionary. */
  class Results {
    var entries: map<string, Value>

    constructor (entries: map<string, Value>)
      ensures this.entries == entries
    {
      this.entries := entries;
    }
  }

  /**
   * `parser(string, results)`: one match, one write into the shared
   * dictionary, then group 3 (the text after the white space that follows
   * the separator, up to the end of its line) when it is longer than one
   * character.  Group 1 of a match is never empty, and group 2 is a
   * required group (no quantifier applies to it), so every match sets it and
   * the source's branch for a missing group 2 cannot run.
   */
  method Parse(s: string, results: Results)
    modifies results
    ensures results.entries == Apply(old(results.entries), Assignments(s))
    decreases |s|
  {
    var found := Exec(s);
    if found.Some? {
      var g := found.value;
      var key, value := StripKey(g.key), Classify(StripValue(g.value));
      ghost var later := if |g.rest| > 1 then Assignments(g.rest) else [];
      assert Assignments(s) == [(key, value)] + later;
      ApplyConcat(results.entries, [(key, value)], later);
      results.entries := results.entries[key := value];
      if |g.rest| > 1 {
        Parse(g.rest, results);
      }
    }
  }

  /**
   * The exported function: given an object it fills that object in place
   * and returns undefined (null here); given none (null here stands for
   * every falsy value) it fills a new object and returns it.
   */
  method ParseKeyPair(s: string, target: Results?) returns (created: Results?)
    modifies target
    ensures target != null ==> created == null
    ensures target != null ==> target.entries == Apply(old(target.entries), Assignments(s))
    ensures target == null ==> created != null && fresh(created)
    ensures target == null ==> created.entries == Apply(map[], Assignments(s))
  {
    if target != null {
      Parse(s, target);
      created := null;
    } else {
      created := new Results(map[]);
      Parse(s, created);
    }
  }
}
