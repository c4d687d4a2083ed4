/**
 * What lib/parse-key-pair.js promises about keys, values and the dictionary,
 * stated over the model in KeyPair.
 */
module KeyPairFacts {
  import opened Wrappers
  import opened Search
  import opened PairPattern
  import opened KeyPair
  import PairPatternFacts

  /** s is all white space. */
  ghost predicate AllSpace(s: string) {
    SpaceRun(s, 0, |s|)
  }

  /** Where `\s*` stops on a known run of white space followed by something else. */
  lemma SkipSpaceAt(s: string, i: nat, j: nat)
    requires SpaceRun(s, i, j) && (j == |s| || !IsSpace(s[j]))
    ensures SkipSpace(s, i) == j
  {
  }

  lemma SpaceBeforeAt(s: string, i: nat, j: nat)
    requires SpaceRun(s, i, j) && (i == 0 || !IsSpace(s[i - 1]))
    ensures SpaceBefore(s, j) == i
  {
  }

  /** Trimming removes exactly the white space around a core that starts and ends with something else. */
  lemma {:induction false} TrimPadded(pre: string, core: string, post: string)
    requires AllSpace(pre) && AllSpace(post)
    requires core != [] && !IsSpace(core[0]) && !IsSpace(core[|core| - 1])
    ensures Trim(pre + core + post) == core
  {
    var s := pre + core + post;
    SkipSpaceAt(s, 0, |pre|);
    SpaceBeforeAt(s, |pre| + |core|, |s|);
    assert s[|pre|..|pre| + |core|] == core;
  }

  /**
   * A key written in quotes, with white space around it, is stored without
   * the quotes and the white space, whatever it holds.
   */
  lemma QuotedKeyStripped(pre: string, q1: char, k: string, q2: char, post: string)
    requires AllSpace(pre) && AllSpace(post) && IsQuote(q1) && IsQuote(q2)
    ensures StripKey(pre + [q1] + k + [q2] + post) == k
  {
    var core := [q1] + k + [q2];
    assert pre + [q1] + k + [q2] + post == pre + core + post;
    TrimPadded(pre, core, post);
    assert core[1..|core| - 1] == k;
  }

  /** A key that neither starts nor ends with a quote or white space is stored as written. */
  lemma PlainKeyKept(pre: string, k: string, post: string)
    requires AllSpace(pre) && AllSpace(post)
    requires k != [] && !IsSpace(k[0]) && !IsSpace(k[|k| - 1]) && !IsQuote(k[0]) && !IsQuote(k[|k| - 1])
    ensures StripKey(pre + k + post) == k
  {
    TrimPadded(pre, k, post);
  }

  /** A value without quote characters is stored as written, white space included. */
  lemma UnquotedValueKept(v: string)
    requires forall i :: 0 <= i < |v| ==> !IsQuote(v[i])
    ensures StripValue(v) == v
  {
    assert LeadingQuoteEnd(v) == 0;
    assert FirstUp(0, |v|, TrailingQuoteAt(v)).None?;
  }

  /**
   * A value in quotes, each quote optionally escaped by a backslash and the
   * whole optionally surrounded by white space, is stored without them, as
   * long as the value does not itself end with a backslash that the closing
   * quote would then be taken to escape.
   */
  lemma QuotedValueStripped(pre: string, b1: string, q1: char, v: string, b2: string, q2: char, post: string)
    requires AllSpace(pre) && AllSpace(post) && IsQuote(q1) && IsQuote(q2)
    requires b1 == [] || b1 == ['\\']
    requires b2 == [] || b2 == ['\\']
    requires b2 == ['\\'] || v == [] || v[|v| - 1] != '\\'
    ensures StripValue(pre + b1 + [q1] + v + b2 + [q2] + post) == v
  {
    var r := v + b2 + [q2] + post;
    var s := pre + b1 + [q1] + r;
    assert s == pre + b1 + [q1] + v + b2 + [q2] + post;
    OpeningPart(pre, b1, q1, r);
    ClosingPart(v, b2, q2, post);
    QuotedValueIn(s, r, |pre|, |pre| + |b1| + 1, v, |b2|);
  }

  /**
   * The value stored from s when its opening part ends at a and r, the rest,
   * is v, an optional backslash (nb of them), a quote and white space.
   */
  lemma QuotedValueIn(s: string, r: string, w: nat, a: nat, v: string, nb: nat)
    requires w < a <= |s| && SpaceRun(s, 0, w) && s[a..] == r
    requires (a == w + 1 && IsQuote(s[w])) || (a == w + 2 && s[w] == '\\' && IsQuote(s[w + 1]))
    requires nb <= 1 && |v| + nb < |r| && IsQuote(r[|v| + nb]) && SpaceRun(r, |v| + nb + 1, |r|)
    requires nb == 1 ==> r[|v|] == '\\'
    requires nb == 0 && v != [] ==> r[|v| - 1] != '\\'
    requires r[..|v|] == v
    ensures StripValue(s) == v
  {
    var close, qpos := a + |v|, a + |v| + nb;
    assert SpaceRun(s, qpos + 1, |s|) by {
      forall t | qpos + 1 <= t < |s| ensures IsSpace(s[t]) {
        assert s[t] == r[t - a];
      }
    }
    assert s[qpos] == r[qpos - a] && s[close] == r[close - a];
    assert close > a ==> s[close - 1] == r[close - 1 - a];
    QuotedValueAt(s, w, a, close, qpos);
    SliceOfSuffix(s, a, |v|);
  }

  lemma SliceOfSuffix(s: string, a: nat, n: nat)
    requires a + n <= |s|
    ensures s[a..a + n] == s[a..][..n]
  {
  }

  /** White space, an optional backslash and a quote, then r. */
  lemma OpeningPart(pre: string, b1: string, q1: char, r: string)
    requires AllSpace(pre) && IsQuote(q1) && (b1 == [] || b1 == ['\\'])
    ensures var s, a := pre + b1 + [q1] + r, |pre| + |b1| + 1;
      && SpaceRun(s, 0, |pre|) && s[|pre|] == (if b1 == [] then q1 else '\\')
      && s[a - 1] == q1 && s[a..] == r
  {
    var s := pre + b1 + [q1] + r;
    forall t | 0 <= t < |pre| ensures IsSpace(s[t]) {
      assert s[t] == pre[t];
    }
  }

  /** v, an optional backslash and a quote, then white space. */
  lemma ClosingPart(v: string, b2: string, q2: char, post: string)
    requires AllSpace(post) && (b2 == [] || b2 == ['\\'])
    ensures var r, qpos := v + b2 + [q2] + post, |v| + |b2|;
      && SpaceRun(r, qpos + 1, |r|) && r[qpos] == q2
      && (b2 != [] ==> r[|v|] == '\\') && (v != [] ==> r[|v| - 1] == v[|v| - 1])
      && r[..|v|] == v
  {
    var r, qpos := v + b2 + [q2] + post, |v| + |b2|;
    forall t | qpos + 1 <= t < |r| ensures IsSpace(r[t]) {
      assert r[t] == post[t - qpos - 1];
    }
  }

  /**
   * The value stored when white space runs to w, a quote (optionally escaped)
   * ends at a, and the closing quote sits at qpos (escaped from close when
   * close < qpos) with only white space after it.
   */
  lemma QuotedValueAt(s: string, w: nat, a: nat, close: nat, qpos: nat)
    requires w < |s| && SpaceRun(s, 0, w)
    requires (a == w + 1 && IsQuote(s[w])) || (a == w + 2 && a <= |s| && s[w] == '\\' && IsQuote(s[w + 1]))
    requires a <= close <= qpos < |s| && IsQuote(s[qpos]) && SpaceRun(s, qpos + 1, |s|)
    requires close == qpos || (close + 1 == qpos && s[close] == '\\')
    requires close == qpos && close > a ==> s[close - 1] != '\\'
    ensures StripValue(s) == s[a..close]
  {
    LeadingAt(s, w, a);
    FirstTrailingQuote(s, a, close, qpos);
  }

  /** Where the leading quote ends when white space, then a quote (optionally escaped), start the text. */
  lemma LeadingAt(s: string, w: nat, a: nat)
    requires w < |s| && SpaceRun(s, 0, w)
    requires (a == w + 1 && IsQuote(s[w])) || (a == w + 2 && a <= |s| && s[w] == '\\' && IsQuote(s[w + 1]))
    ensures LeadingQuoteEnd(s) == a
  {
    SkipSpaceAt(s, 0, w);
  }

  /**
   * The trailing quote removed is the one at qpos (with the backslash at
   * close when close < qpos): nothing before it has only white space after
   * it, and a backslash right before an unescaped closing quote would be
   * taken for its escape.
   */
  lemma FirstTrailingQuote(s: string, a: nat, close: nat, qpos: nat)
    requires a <= close <= qpos < |s| && IsQuote(s[qpos]) && SpaceRun(s, qpos + 1, |s|)
    requires close == qpos || (close + 1 == qpos && s[close] == '\\')
    requires close == qpos && close > a ==> s[close - 1] != '\\'
    ensures FirstUp(a, |s|, TrailingQuoteAt(s)) == Some(close)
  {
    SkipSpaceAt(s, qpos + 1, |s|);
    assert TrailingQuote(s, close);
    forall i | a <= i < close
      ensures !TrailingQuote(s, i)
    {
      NotAllSpace(s, i + 1, qpos);
      if i + 2 <= qpos {
        NotAllSpace(s, i + 2, qpos);
      }
    }
    assert TrailingQuoteAt(s)(close);
  }

  /** s[j..] is not all white space when a non-space character sits at p. */
  lemma NotAllSpace(s: string, j: nat, p: nat)
    requires j <= p < |s| && !IsSpace(s[p])
    ensures !AllSpaceFrom(s, j)
  {
  }

  /** A key with a quote at its start only keeps everything after that quote: `"abc` is stored as `abc`. */
  lemma LeadingQuoteOnly(pre: string, q: char, k: string, post: string)
    requires AllSpace(pre) && AllSpace(post) && IsQuote(q)
    requires k != [] && !IsSpace(k[|k| - 1]) && !IsQuote(k[|k| - 1])
    ensures StripKey(pre + [q] + k + post) == k
  {
    var core := [q] + k;
    assert pre + [q] + k + post == pre + core + post;
    TrimPadded(pre, core, post);
    QuoteThenKey(pre + core + post, q, k);
  }

  /** A trimmed key that is a quote and then k, k not ending in a quote, is stored as k. */
  lemma QuoteThenKey(raw: string, q: char, k: string)
    requires IsQuote(q) && Trim(raw) == [q] + k
    requires k != [] && !IsQuote(k[|k| - 1])
    ensures StripKey(raw) == k
  {
    var core := [q] + k;
    assert core[|core| - 1] == k[|k| - 1];
    StrippedCore(raw, core, 1, |core|);
    assert core[1..|core|] == k;
  }

  /** A key with a quote at its end only keeps everything before that quote: `abc"` is stored as `abc`. */
  lemma TrailingQuoteOnly(pre: string, k: string, q: char, post: string)
    requires AllSpace(pre) && AllSpace(post) && IsQuote(q)
    requires k != [] && !IsSpace(k[0]) && !IsQuote(k[0])
    ensures StripKey(pre + k + [q] + post) == k
  {
    var core := k + [q];
    assert pre + k + [q] + post == pre + core + post;
    TrimPadded(pre, core, post);
    StrippedCore(pre + core + post, core, 0, |k|);
    assert core[..|k|] == k;
  }

  /** A key that is one quote is stored as the empty key. */
  lemma LoneQuoteKey(pre: string, q: char, post: string)
    requires AllSpace(pre) && AllSpace(post) && IsQuote(q)
    ensures StripKey(pre + [q] + post) == []
  {
    TrimPadded(pre, [q], post);
    StrippedCore(pre + [q] + post, [q], 1, 1);
  }

  /** The key that stripping leaves of a trimmed core, from where it starts (a) to where it ends (b). */
  lemma StrippedCore(raw: string, core: string, a: nat, b: nat)
    requires Trim(raw) == core && a <= b <= |core|
    requires a == (if |core| > 0 && IsQuote(core[0]) then 1 else 0)
    requires b == (if |core| > a && IsQuote(core[|core| - 1]) then |core| - 1 else |core|)
    ensures StripKey(raw) == core[a..b]
  {
  }

  /** A value with an opening quote and no other quote keeps everything after the opening quote. */
  lemma LeadingValueQuoteOnly(pre: string, b1: string, q: char, v: string)
    requires AllSpace(pre) && IsQuote(q) && (b1 == [] || b1 == ['\\'])
    requires forall i :: 0 <= i < |v| ==> !IsQuote(v[i])
    ensures StripValue(pre + b1 + [q] + v) == v
  {
    var s := pre + b1 + [q] + v;
    var w := |pre|;
    var a := w + |b1| + 1;
    assert SpaceRun(s, 0, w) by {
      forall t | 0 <= t < w ensures IsSpace(s[t]) {
        assert s[t] == pre[t];
      }
    }
    assert s[w] == if b1 == [] then q else '\\';
    assert s[a - 1] == q;
    LeadingAt(s, w, a);
    assert s[a..] == v;
    forall i | a <= i < |s| ensures !TrailingQuote(s, i) {
      assert s[i] == v[i - a];
      if i + 1 < |s| {
        assert s[i + 1] == v[i + 1 - a];
      }
    }
  }

  /**
   * A value with a closing quote (optionally escaped) and no other quote keeps
   * everything before it, as long as the value does not end with a backslash
   * that the quote would then be taken to escape.
   */
  lemma TrailingValueQuoteOnly(v: string, b2: string, q: char, post: string)
    requires AllSpace(post) && IsQuote(q) && (b2 == [] || b2 == ['\\'])
    requires v != [] && !IsSpace(v[0]) && v[0] != '\\'
    requires forall i :: 0 <= i < |v| ==> !IsQuote(v[i])
    requires b2 == ['\\'] || v[|v| - 1] != '\\'
    ensures StripValue(v + b2 + [q] + post) == v
  {
    var s := v + b2 + [q] + post;
    var close := |v|;
    var qpos := close + |b2|;
    assert s[0] == v[0];
    assert SkipSpace(s, 0) == 0;
    assert LeadingQuoteEnd(s) == 0;
    assert SpaceRun(s, qpos + 1, |s|) by {
      forall t | qpos + 1 <= t < |s| ensures IsSpace(s[t]) {
        assert s[t] == post[t - qpos - 1];
      }
    }
    assert s[qpos] == q;
    assert b2 != [] ==> s[close] == '\\';
    assert s[close - 1] == v[|v| - 1];
    FirstTrailingQuote(s, 0, close, qpos);
    assert s[0..close] == v;
  }

  /**
   * Quotes inside a value are kept: a value that neither starts nor ends with
   * white space or a quote, and does not start with an escaped quote, is
   * stored as written (`it's` stays `it's`).
   */
  lemma InnerQuotesKept(v: string)
    requires v != [] && !IsSpace(v[0]) && !IsQuote(v[0]) && !IsSpace(v[|v| - 1]) && !IsQuote(v[|v| - 1])
    requires !(|v| > 1 && v[0] == '\\' && IsQuote(v[1]))
    ensures StripValue(v) == v
  {
    assert SkipSpace(v, 0) == 0;
    assert LeadingQuoteEnd(v) == 0;
    forall i | 0 <= i < |v| ensures !TrailingQuote(v, i) {
      if i + 1 < |v| {
        NotAllSpace(v, i + 1, |v| - 1);
      }
      if i + 2 < |v| {
        NotAllSpace(v, i + 2, |v| - 1);
      }
    }
  }

  lemma ApostropheKept()
    ensures StripValue("it's") == "it's"
  {
    InnerQuotesKept("it's");
  }

  // ---------------------------------------------------------------------
  // The dictionary

  /**
   * After the writes ps, a key holds the value of the last write to it, and a
   * key that no write names keeps what it had (or stays absent).
   */
  lemma {:induction false} ApplyLookup(m: map<string, Value>, ps: seq<(string, Value)>, k: string)
    ensures LastValue(ps, k).Some? ==> k in Apply(m, ps) && Apply(m, ps)[k] == LastValue(ps, k).value
    ensures LastValue(ps, k).None? ==> (k in Apply(m, ps) <==> k in m)
    ensures LastValue(ps, k).None? && k in m ==> Apply(m, ps)[k] == m[k]
    decreases |ps|
  {
    if ps != [] {
      ApplyLookup(m[ps[0].0 := ps[0].1], ps[1..], k);
    }
  }

  /** Every key that some write names is present afterwards, even when the value written is undefined. */
  lemma {:induction false} WrittenKeysPresent(m: map<string, Value>, ps: seq<(string, Value)>, i: nat)
    requires i < |ps|
    ensures ps[i].0 in Apply(m, ps)
    decreases |ps|
  {
    if i == 0 {
      LastWriteExists(ps, ps[0].0);
      ApplyLookup(m, ps, ps[0].0);
    } else {
      WrittenKeysPresent(m[ps[0].0 := ps[0].1], ps[1..], i - 1);
    }
  }

  lemma {:induction false} LastWriteExists(ps: seq<(string, Value)>, k: string)
    requires ps != [] && ps[0].0 == k
    ensures LastValue(ps, k).Some?
  {
  }

  /**
   * Filling a given dictionary gives the dictionary merged with what filling
   * an empty one would give: the in-place and the fresh form of the exported
   * function store the same pairs.
   */
  lemma {:induction false} ApplyIsMerge(m: map<string, Value>, ps: seq<(string, Value)>)
    ensures Apply(m, ps) == m + Apply(map[], ps)
    decreases |ps|
  {
    if ps != [] {
      var k, v := ps[0].0, ps[0].1;
      ApplyIsMerge(m[k := v], ps[1..]);
      ApplyIsMerge(map[k := v], ps[1..]);
      assert m[k := v] == m + map[k := v];
    }
  }

  /**
   * Text of one character or less writes nothing, so the `length > 1` guard
   * on the recursion never changes what is stored: a match needs a key and
   * an `=`.
   */
  lemma ShortTextWritesNothing(s: string)
    requires |s| <= 1
    ensures Assignments(s) == []
  {
    assert Exec(s).None?;
  }

  /** A string without `=` writes nothing: the exported function then returns an empty object. */
  lemma NoEqualsNothingStored(s: string, m: map<string, Value>)
    requires '=' !in s
    ensures Apply(m, Assignments(s)) == m
    ensures Apply(map[], Assignments(s)) == map[]
  {
  }

  // ---------------------------------------------------------------------
  // Several pairs

  /** A plain key: not empty, no `=`, and neither white space nor a quote at either end. */
  predicate PlainKey(k: string) {
    && k != [] && '=' !in k
    && !IsSpace(k[0]) && !IsSpace(k[|k| - 1]) && !IsQuote(k[0]) && !IsQuote(k[|k| - 1])
  }

  /**
   * A plain value: not empty, neither white space nor a quote at either end,
   * and no backslash, `;` or line terminator (quotes inside are allowed).
   */
  predicate PlainValue(v: string) {
    && v != [] && !IsSpace(v[0]) && !IsQuote(v[0]) && !IsSpace(v[|v| - 1]) && !IsQuote(v[|v| - 1])
    && forall i :: 0 <= i < |v| ==> v[i] != '\\' && v[i] != ';' && !IsLineTerminator(v[i])
  }

  /** Text on one line that does not start with white space is group 3 whole. */
  lemma RestIsTail(s: string, x: nat, t: string, r: nat, rest: string)
    requires x <= |s| && s[x..] == t
    requires t == [] || !IsSpace(t[0])
    requires forall i :: 0 <= i < |t| ==> !IsLineTerminator(t[i])
    requires RestAt(s, x, r, rest)
    ensures rest == t
  {
  }

  /**
   * What `exec` returns for a plain key at s[..n], `=`, a plain value at
   * s[n + 1..e] and a separator ending at x, followed by one line that does
   * not start with white space.
   */
  lemma PlainPairGroups(s: string, n: nat, e: nat, x: nat)
    requires n < e <= |s| && s[n] == '=' && Separator(s, e) == Some(x)
    requires PlainKey(s[..n]) && PlainValue(s[n + 1..e])
    requires x == |s| || !IsSpace(s[x])
    requires forall i :: x <= i < |s| ==> !IsLineTerminator(s[i])
    ensures Exec(s) == Some(Groups(s[..n], s[n + 1..e], s[x..]))
  {
    var k, v := s[..n], s[n + 1..e];
    assert s[0] == k[0] && s[n + 1] == v[0];
    forall i | 0 <= i < n ensures s[i] != '=' {
      assert s[i] == k[i];
    }
    forall i | n + 1 <= i < e ensures s[i] != '\\' && s[i] != ';' && !IsLineTerminator(s[i]) {
      assert s[i] == v[i - n - 1];
    }
    PairPatternFacts.BarePairLeftmost(s, n, e);
    var g := GroupsOf(s, PairMatch(0, n, Rhs(n, n + 1, e, x)));
    var r :| RestAt(s, x, r, g.rest);
    RestIsTail(s, x, s[x..], r, g.rest);
  }

  /**
   * After a separator that is the end of a line, `\s*` skips the line
   * terminator and group 3 is the next line, which does not start with white
   * space, up to its own end.
   */
  lemma NextLineIsRest(s: string, x: nat, y: nat, r: nat, rest: string)
    requires x + 1 < y <= |s| && IsLineTerminator(s[x]) && !IsSpace(s[x + 1])
    requires forall i :: x + 1 <= i < y ==> !IsLineTerminator(s[i])
    requires AtLineEnd(s, y)
    requires RestAt(s, x, r, rest) && forall i :: 0 <= i < |rest| ==> !IsLineTerminator(rest[i])
    ensures rest == s[x + 1..y]
  {
    assert r == x + 1;
  }

  /**
   * What `exec` returns for a plain key at s[..n], `=`, a plain value at
   * s[n + 1..e] ended by the line terminator at e, and a next line s[e + 1..y]
   * that does not start with white space: group 3 is that line, and what
   * follows it is not part of the match.
   */
  lemma PlainPairLineGroups(s: string, n: nat, e: nat, y: nat)
    requires n < e && e + 1 < y <= |s| && s[n] == '=' && IsLineTerminator(s[e])
    requires PlainKey(s[..n]) && PlainValue(s[n + 1..e])
    requires !IsSpace(s[e + 1]) && AtLineEnd(s, y)
    requires forall i :: e + 1 <= i < y ==> !IsLineTerminator(s[i])
    ensures Exec(s) == Some(Groups(s[..n], s[n + 1..e], s[e + 1..y]))
  {
    var k, v := s[..n], s[n + 1..e];
    assert s[0] == k[0] && s[n + 1] == v[0];
    forall i | 0 <= i < n ensures s[i] != '=' {
      assert s[i] == k[i];
    }
    forall i | n + 1 <= i < e ensures s[i] != '\\' && s[i] != ';' && !IsLineTerminator(s[i]) {
      assert s[i] == v[i - n - 1];
    }
    assert Separator(s, e) == Some(e);
    PairPatternFacts.BarePairLeftmost(s, n, e);
    var g := GroupsOf(s, PairMatch(0, n, Rhs(n, n + 1, e, e)));
    var r :| RestAt(s, e, r, g.rest);
    NextLineIsRest(s, e, y, r, g.rest);
  }

  /** `k=v`, a line terminator, one line t and then u, which starts a new line: the groups. */
  lemma PairLineGroups(s: string, k: string, v: string, lt: char, t: string, u: string)
    requires s == k + "=" + v + [lt] + t + u
    requires PlainKey(k) && PlainValue(v) && IsLineTerminator(lt)
    requires t != [] && !IsSpace(t[0]) && forall i :: 0 <= i < |t| ==> !IsLineTerminator(t[i])
    requires u == [] || IsLineTerminator(u[0])
    ensures Exec(s) == Some(Groups(k, v, t))
  {
    var n, e := |k|, |k| + 1 + |v|;
    var y := e + 1 + |t|;
    assert s[n] == '=' && s[e] == lt && s[e + 1] == t[0];
    assert s[..n] == k && s[n + 1..e] == v && s[e + 1..y] == t;
    assert u != [] ==> s[y] == u[0];
    forall i | e + 1 <= i < y ensures !IsLineTerminator(s[i]) {
      assert s[i] == t[i - e - 1];
    }
    PlainPairLineGroups(s, n, e, y);
  }

  /**
   * `k=v`, a line terminator, the line t and then anything u on later lines:
   * the pair k, v is written, then what t writes, and u is never parsed.
   */
  lemma PairThenLine(k: string, v: string, lt: char, t: string, u: string)
    requires PlainKey(k) && PlainValue(v) && IsLineTerminator(lt)
    requires t != [] && !IsSpace(t[0]) && forall i :: 0 <= i < |t| ==> !IsLineTerminator(t[i])
    requires u == [] || IsLineTerminator(u[0])
    ensures Assignments(k + "=" + v + [lt] + t + u) == [(k, Classify(v))] + (if |t| > 1 then Assignments(t) else [])
  {
    var s := k + "=" + v + [lt] + t + u;
    PairLineGroups(s, k, v, lt, t, u);
    AssignmentsOf(s, Groups(k, v, t));
    PlainPairStored(k, v);
  }

  /**
   * `k1=v1`, a line terminator, `k2=v2` and then any further lines u: only
   * the first two pairs are written; the lines in u are lost.
   */
  lemma ThirdLineLost(k1: string, v1: string, lt: char, k2: string, v2: string, u: string)
    requires PlainKey(k1) && PlainValue(v1) && PlainKey(k2) && PlainValue(v2) && IsLineTerminator(lt)
    requires forall i :: 0 <= i < |k2| ==> !IsLineTerminator(k2[i])
    requires u == [] || IsLineTerminator(u[0])
    ensures Assignments(k1 + "=" + v1 + [lt] + (k2 + "=" + v2) + u) == [(k1, Classify(v1)), (k2, Classify(v2))]
  {
    OnePairOneLine(k2, v2);
    LastPair(k2, v2);
    PairLineThenOne(k1, v1, lt, k2 + "=" + v2, u, (k2, Classify(v2)));
  }

  /** In `a=1`, `b=2`, `c=3` on three lines, `c` is never written. */
  lemma ThreeLines()
    ensures Assignments("a=1\nb=2\nc=3") == [("a", Classify("1")), ("b", Classify("2"))]
  {
    assert PlainKey("a") && PlainValue("1") && PlainKey("b") && PlainValue("2");
    assert "a=1\nb=2\nc=3" == "a" + "=" + "1" + ['\n'] + ("b" + "=" + "2") + "\nc=3";
    ThirdLineLost("a", "1", '\n', "b", "2", "\nc=3");
  }

  /** `k=v`, a line terminator, a line t that writes the one pair y, then later lines u: k, v and then y. */
  lemma PairLineThenOne(k: string, v: string, lt: char, t: string, u: string, y: (string, Value))
    requires PlainKey(k) && PlainValue(v) && IsLineTerminator(lt)
    requires |t| > 1 && !IsSpace(t[0]) && forall i :: 0 <= i < |t| ==> !IsLineTerminator(t[i])
    requires u == [] || IsLineTerminator(u[0])
    requires Assignments(t) == [y]
    ensures Assignments(k + "=" + v + [lt] + t + u) == [(k, Classify(v)), y]
  {
    var s := k + "=" + v + [lt] + t + u;
    assert [(k, Classify(v))] + [y] == [(k, Classify(v)), y];
    assert Assignments(s) == [(k, Classify(v))] + Assignments(t) by {
      PairThenLine(k, v, lt, t, u);
    }
  }

  /** Plain keys and values are stored as written. */
  lemma PlainPairStored(k: string, v: string)
    requires PlainKey(k) && PlainValue(v)
    ensures StripKey(k) == k && StripValue(v) == v
  {
    PlainKeyKept([], k, []);
    assert [] + k + [] == k;
    InnerQuotesKept(v);
  }

  /** The writes of a text that `exec` splits into the groups g. */
  lemma AssignmentsOf(s: string, g: Groups)
    requires Exec(s) == Some(g)
    ensures Assignments(s) == [(StripKey(g.key), Classify(StripValue(g.value)))] + (if |g.rest| > 1 then Assignments(g.rest) else [])
  {
  }

  /**
   * `k=v;t`: the pair k, v is written first, then what t writes, t being
   * parsed on its own when it is longer than one character.
   */
  lemma PairThenRest(k: string, v: string, t: string)
    requires PlainKey(k) && PlainValue(v)
    requires t == [] || !IsSpace(t[0])
    requires forall i :: 0 <= i < |t| ==> !IsLineTerminator(t[i])
    ensures Assignments(k + "=" + v + ";" + t) == [(k, Classify(v))] + (if |t| > 1 then Assignments(t) else [])
  {
    var s := k + "=" + v + ";" + t;
    PairGroups(s, k, v, ";", t);
    AssignmentsOf(s, Groups(k, v, t));
    PlainPairStored(k, v);
  }

  /** `k=v` alone writes the one pair k, v. */
  lemma LastPair(k: string, v: string)
    requires PlainKey(k) && PlainValue(v)
    ensures Assignments(k + "=" + v) == [(k, Classify(v))]
  {
    var s := k + "=" + v;
    assert s == k + "=" + v + [] + [];
    PairGroups(s, k, v, [], []);
    PlainPairStored(k, v);
    AssignmentsOf(s, Groups(k, v, []));
  }

  /** `k=v`, then the separator sep, then one line t that does not start with white space. */
  lemma PairGroups(s: string, k: string, v: string, sep: string, t: string)
    requires s == k + "=" + v + sep + t
    requires PlainKey(k) && PlainValue(v)
    requires sep == ";" || (sep == "" && t == "")
    requires t == [] || !IsSpace(t[0])
    requires forall i :: 0 <= i < |t| ==> !IsLineTerminator(t[i])
    ensures Exec(s) == Some(Groups(k, v, t))
  {
    var n, e := |k|, |k| + 1 + |v|;
    assert s[n] == '=';
    assert s[..n] == k && s[n + 1..e] == v && s[e + |sep|..] == t;
    assert sep == ";" ==> s[e] == ';';
    forall i | e + |sep| <= i < |s| ensures !IsLineTerminator(s[i]) {
      assert s[i] == t[i - e - |sep|];
    }
    PlainPairGroups(s, n, e, e + |sep|);
  }

  /** `k1=v1;k2=v2` on one line writes k1 and then k2, each with its own value. */
  lemma TwoPairs(k1: string, v1: string, k2: string, v2: string)
    requires PlainKey(k1) && PlainValue(v1) && PlainKey(k2) && PlainValue(v2)
    requires forall i :: 0 <= i < |k2| ==> !IsLineTerminator(k2[i])
    ensures Assignments(k1 + "=" + v1 + ";" + (k2 + "=" + v2)) == [(k1, Classify(v1)), (k2, Classify(v2))]
  {
    OnePairOneLine(k2, v2);
    LastPair(k2, v2);
    PairThenOne(k1, v1, k2 + "=" + v2, (k2, Classify(v2)));
  }

  /** `k=v;t` where t writes the one pair y: the pair k, v, then y. */
  lemma PairThenOne(k: string, v: string, t: string, y: (string, Value))
    requires PlainKey(k) && PlainValue(v)
    requires |t| > 1 && !IsSpace(t[0]) && forall i :: 0 <= i < |t| ==> !IsLineTerminator(t[i])
    requires Assignments(t) == [y]
    ensures Assignments(k + "=" + v + ";" + t) == [(k, Classify(v)), y]
  {
    PairThenRest(k, v, t);
  }

  /** `k=v` with a plain k and v and no line terminator is one line that does not start with white space. */
  lemma OnePairOneLine(k: string, v: string)
    requires PlainKey(k) && PlainValue(v)
    requires forall i :: 0 <= i < |k| ==> !IsLineTerminator(k[i])
    ensures !IsSpace((k + "=" + v)[0])
    ensures forall i :: 0 <= i < |k + "=" + v| ==> !IsLineTerminator((k + "=" + v)[i])
  {
    var t := k + "=" + v;
    assert t[0] == k[0];
    forall i | 0 <= i < |t| ensures !IsLineTerminator(t[i]) {
      if i < |k| {
        assert t[i] == k[i];
      } else if i > |k| {
        assert t[i] == v[i - |k| - 1];
      }
    }
  }
}
