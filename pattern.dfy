/**
 * An explicit scanner for the regular expression (with the `m` flag) that
 * lib/parse-key-pair.js uses to find one `key=value` pair.  The expression is,
 * in order:
 *   group 1, the key: a double-quoted key, else a single-quoted key, else a
 *     run of characters other than `=`; a quoted key is the quote, at least
 *     one other character, a character that is not a backslash, the quote;
 *   white space, `=`, white space;
 *   group 2, the value: a double-quoted value, else a single-quoted value,
 *     else a bare value, else end of line; a quoted value is the quote, a
 *     lazy run of any characters ending in one that is not a backslash, the
 *     quote; a bare value is a lazy run of characters that are not line
 *     terminators followed by one character that is not a backslash;
 *   the separator: `;`, else end of line;
 *   optionally, white space and group 3: the text after that white space
 *     up to the end of its line (the white space may cross a line
 *     terminator, so group 3 may be the next line).
 *
 * The functions below reproduce what a backtracking engine does with it:
 * start positions are tried left to right, alternatives in their order,
 * greedy quantifiers longest first and lazy ones shortest first, and the
 * first way to complete the whole expression is the match.  Characters are
 * Unicode scalar values where the engine sees UTF-16 code units.  The two
 * part ways only on a quoted key whose content is one character outside the
 * Basic Multilingual Plane: the engine counts two code units and takes the
 * quoted alternative, this scanner the bare one, whose group 1 also holds
 * the white space before `=`.  Trimming and stripping then store the same
 * key, and the value and group 3 are the same.
 */
module PairPattern {
  import opened Wrappers
  import opened Search

  /** The characters `.` does not match and before which `$` matches under the `m` flag. */
  predicate IsLineTerminator(c: char) {
    c == '\n' || c == '\r' || c == '\U{2028}' || c == '\U{2029}'
  }

  /** The characters of `\s`; they are also the ones `String.prototype.trim` removes. */
  predicate IsSpace(c: char) {
    || c == ' ' || c == '\t' || c == '\U{B}' || c == '\U{C}'
    || c == '\U{A0}' || c == '\U{1680}' || ('\U{2000}' <= c <= '\U{200A}')
    || c == '\U{202F}' || c == '\U{205F}' || c == '\U{3000}' || c == '\U{FEFF}'
    || IsLineTerminator(c)
  }

  /** s[i..j] is all white space. */
  ghost predicate SpaceRun(s: string, i: nat, j: nat) {
    i <= j <= |s| && forall t :: i <= t < j ==> IsSpace(s[t])
  }

  /** Where a greedy `\s*` that starts at i stops. */
  function SkipSpace(s: string, i: nat): (k: nat)
    requires i <= |s|
    ensures SpaceRun(s, i, k)
    ensures k < |s| ==> !IsSpace(s[k])
    decreases |s| - i
  {
    if i < |s| && IsSpace(s[i]) then SkipSpace(s, i + 1) else i
  }

  /** The first index at or after i that holds c, or |s|. */
  function IndexFrom(s: string, i: nat, c: char): (k: nat)
    requires i <= |s|
    ensures i <= k <= |s|
    ensures k < |s| ==> s[k] == c
    ensures forall t :: i <= t < k ==> s[t] != c
    decreases |s| - i
  {
    if i < |s| && s[i] != c then IndexFrom(s, i + 1, c) else i
  }

  /** Where a greedy `.*` that starts at i stops: the next line terminator, or |s|. */
  function LineEnd(s: string, i: nat): (k: nat)
    requires i <= |s|
    ensures i <= k <= |s|
    ensures k < |s| ==> IsLineTerminator(s[k])
    ensures forall t :: i <= t < k ==> !IsLineTerminator(s[t])
    decreases |s| - i
  {
    if i < |s| && !IsLineTerminator(s[i]) then LineEnd(s, i + 1) else i
  }

  /** `$` under the `m` flag. */
  predicate AtLineEnd(s: string, i: nat)
    requires i <= |s|
  {
    i == |s| || IsLineTerminator(s[i])
  }

  /** The separator after a value, `;` tried before end of line: the position after it. */
  function Separator(s: string, x: nat): (r: Option<nat>)
    requires x <= |s|
    ensures x < |s| && s[x] == ';' ==> r == Some(x + 1)
    ensures AtLineEnd(s, x) ==> r == Some(x)
    ensures r.Some? ==> (x < |s| && s[x] == ';') || AtLineEnd(s, x)
  {
    if x < |s| && s[x] == ';' then Some(x + 1)
    else if AtLineEnd(s, x) then Some(x)
    else None
  }

  // ---------------------------------------------------------------------
  // What each part of the expression accepts, independently of the search

  /** s[v..e] has the form of a value in quotes q. */
  ghost predicate QuotedValueForm(s: string, q: char, v: nat, e: nat) {
    v + 3 <= e <= |s| && s[v] == q && s[e - 1] == q && s[e - 2] != '\\'
  }

  /** s[i..j] holds no line terminator. */
  ghost predicate NoLineTerminator(s: string, i: nat, j: nat)
    requires j <= |s|
  {
    forall t :: i <= t < j ==> !IsLineTerminator(s[t])
  }

  /** s[v..e] has the form of a bare value. */
  ghost predicate BareValueForm(s: string, v: nat, e: nat) {
    v < e <= |s| && s[e - 1] != '\\' && NoLineTerminator(s, v, e - 1)
  }

  /** s[v..e] is the empty value that the end-of-line alternative gives. */
  ghost predicate EmptyValueForm(s: string, v: nat, e: nat) {
    e == v <= |s| && AtLineEnd(s, v)
  }

  ghost predicate ValueForm(s: string, v: nat, e: nat) {
    || QuotedValueForm(s, '"', v, e) || QuotedValueForm(s, '\'', v, e)
    || BareValueForm(s, v, e) || EmptyValueForm(s, v, e)
  }

  /** A value s[v..e] that the separator can follow. */
  ghost predicate ValueThenSeparator(s: string, v: nat, e: nat) {
    ValueForm(s, v, e) && Separator(s, e).Some?
  }

  /** s[p..e] has the form of a key in quotes q. */
  ghost predicate QuotedKeyForm(s: string, q: char, p: nat, e: nat) {
    && p + 4 <= e <= |s| && s[p] == q && s[e - 1] == q && s[e - 2] != '\\'
    && forall t :: p < t < e - 2 ==> s[t] != q
  }

  /** s[p..e] has the form of a bare key. */
  ghost predicate BareKeyForm(s: string, p: nat, e: nat) {
    p < e <= |s| && forall t :: p <= t < e ==> s[t] != '='
  }

  ghost predicate KeyForm(s: string, p: nat, e: nat) {
    QuotedKeyForm(s, '"', p, e) || QuotedKeyForm(s, '\'', p, e) || BareKeyForm(s, p, e)
  }

  /** Positions of the part after the key: the `=`, the value and the end of the separator. */
  datatype Rhs = Rhs(eq: nat, valueStart: nat, valueEnd: nat, next: nat)

  ghost predicate RhsForm(s: string, e: nat, h: Rhs) {
    && SpaceRun(s, e, h.eq) && h.eq < |s| && s[h.eq] == '='
    && SpaceRun(s, h.eq + 1, h.valueStart)
    && ValueForm(s, h.valueStart, h.valueEnd)
    && Separator(s, h.valueEnd) == Some(h.next)
  }

  /** Positions of one whole match. */
  datatype PairMatch = PairMatch(keyStart: nat, keyEnd: nat, rhs: Rhs)

  /** m is a way for the whole expression to match s at m.keyStart. */
  ghost predicate IsMatch(s: string, m: PairMatch) {
    KeyForm(s, m.keyStart, m.keyEnd) && RhsForm(s, m.keyEnd, m.rhs)
  }

  // ---------------------------------------------------------------------
  // The search

  /** Result of matching a value and its separator: where each ends. */
  datatype ValueEnd = ValueEnd(valueEnd: nat, next: nat)

  /** The lazy part of a quoted value ends before c and the value closes there. */
  predicate ClosesQuoted(s: string, q: char, c: nat) {
    c + 1 < |s| && s[c] != '\\' && s[c + 1] == q && Separator(s, c + 2).Some?
  }

  function ClosesQuotedAt(s: string, q: char): nat -> bool {
    (c: nat) => ClosesQuoted(s, q, c)
  }

  /** The quoted alternative of the value at v: the shortest quoted value that the separator follows. */
  function QuotedValue(s: string, q: char, v: nat): (r: Option<ValueEnd>)
    requires v <= |s|
    ensures r.Some? ==> QuotedValueForm(s, q, v, r.value.valueEnd) && Separator(s, r.value.valueEnd) == Some(r.value.next)
  {
    if v < |s| && s[v] == q then
      match FirstUp(v + 1, |s|, ClosesQuotedAt(s, q))
      case None => None
      case Some(c) => Some(ValueEnd(c + 2, Separator(s, c + 2).value))
    else None
  }

  /** A bare value may end with the character at c. */
  predicate EndsBare(s: string, c: nat) {
    c < |s| && s[c] != '\\' && Separator(s, c + 1).Some?
  }

  function EndsBareAt(s: string): nat -> bool {
    (c: nat) => EndsBare(s, c)
  }

  /** Past the last position where a bare value starting at v may end. */
  function BareLimit(s: string, v: nat): (hi: nat)
    requires v <= |s|
    ensures v <= hi <= |s|
    ensures forall c :: v <= c < |s| && NoLineTerminator(s, v, c) ==> c < hi
    ensures forall c :: v <= c < hi ==> NoLineTerminator(s, v, c)
  {
    var e := LineEnd(s, v);
    if e < |s| then e + 1 else |s|
  }

  /** The bare alternative of the value at v: the shortest bare value that the separator follows. */
  function BareValue(s: string, v: nat): (r: Option<ValueEnd>)
    requires v <= |s|
    ensures r.Some? ==> BareValueForm(s, v, r.value.valueEnd) && Separator(s, r.value.valueEnd) == Some(r.value.next)
  {
    match FirstUp(v, BareLimit(s, v), EndsBareAt(s))
    case None => None
    case Some(c) => Some(ValueEnd(c + 1, Separator(s, c + 1).value))
  }

  /** The end-of-line alternative of the value at v. */
  function EmptyValue(s: string, v: nat): (r: Option<ValueEnd>)
    requires v <= |s|
    ensures r.Some? <==> AtLineEnd(s, v)
    ensures r.Some? ==> r.value == ValueEnd(v, v)
  {
    if AtLineEnd(s, v) then Some(ValueEnd(v, v)) else None
  }

  /** Group 2 starting at v and the separator after it: the four alternatives in order. */
  function ValueAt(s: string, v: nat): (r: Option<ValueEnd>)
    requires v <= |s|
    ensures r.Some? ==> ValueForm(s, v, r.value.valueEnd) && Separator(s, r.value.valueEnd) == Some(r.value.next)
  {
    OrElse(QuotedValue(s, '"', v), OrElse(QuotedValue(s, '\'', v), OrElse(BareValue(s, v), EmptyValue(s, v))))
  }

  predicate ValueStarts(s: string, v: nat) {
    v <= |s| && ValueAt(s, v).Some?
  }

  function ValueStartsAt(s: string): nat -> bool {
    (v: nat) => ValueStarts(s, v)
  }

  /**
   * The white space after the `=` at k, then group 2 and the separator.  The
   * white space is greedy, so the value starting furthest right is tried first.
   */
  function ValueAfter(s: string, k: nat): (r: Option<Rhs>)
    requires k < |s|
    ensures r.Some? ==> r.value.eq == k
    ensures r.Some? ==> SpaceRun(s, k + 1, r.value.valueStart) && ValueForm(s, r.value.valueStart, r.value.valueEnd)
    ensures r.Some? ==> Separator(s, r.value.valueEnd) == Some(r.value.next)
  {
    match LastDown(k + 1, SkipSpace(s, k + 1) + 1, ValueStartsAt(s))
    case None => None
    case Some(v) =>
      var t := ValueAt(s, v).value;
      Some(Rhs(k, v, t.valueEnd, t.next))
  }

  /**
   * Everything after group 1 ending at e.  A greedy `\s*` directly before
   * `=` can only succeed at its longest: any shorter run leaves a white-space
   * character where the `=` must be.
   */
  function RhsAt(s: string, e: nat): (r: Option<Rhs>)
    requires e <= |s|
    ensures r.Some? ==> RhsForm(s, e, r.value)
  {
    var k := SkipSpace(s, e);
    if k < |s| && s[k] == '=' then ValueAfter(s, k) else None
  }

  /** A quoted key may end with its closing quote at c + 1. */
  predicate QuotedKeyEnds(s: string, q: char, c: nat) {
    c + 1 < |s| && s[c] != '\\' && s[c + 1] == q && RhsAt(s, c + 2).Some?
  }

  function QuotedKeyEndsAt(s: string, q: char): nat -> bool {
    (c: nat) => QuotedKeyEnds(s, q, c)
  }

  /** Group 1 may end at e. */
  predicate KeyEnds(s: string, e: nat) {
    e <= |s| && RhsAt(s, e).Some?
  }

  function KeyEndsAt(s: string): nat -> bool {
    (e: nat) => KeyEnds(s, e)
  }

  lemma QuotedKeyFormAt(s: string, q: char, p: nat, c: nat, close: nat)
    requires p + 2 <= c <= close <= |s| && c + 1 < |s|
    requires s[p] == q && s[c] != '\\' && s[c + 1] == q
    requires forall t :: p + 1 <= t < close ==> s[t] != q
    ensures QuotedKeyForm(s, q, p, c + 2)
  {
  }

  /**
   * The quoted alternative of group 1 at p: the run of non-quote characters
   * is greedy, so the longest key that the rest of the expression accepts.
   */
  function QuotedKey(s: string, q: char, p: nat): (r: Option<nat>)
    requires p < |s|
    ensures r.Some? ==> QuotedKeyForm(s, q, p, r.value)
    ensures r.Some? ==> RhsAt(s, r.value).Some?
  {
    if s[p] == q then
      var close := IndexFrom(s, p + 1, q);
      match LastDown(p + 2, close + 1, QuotedKeyEndsAt(s, q))
      case None => None
      case Some(c) =>
        QuotedKeyFound(s, q, p, c, close);
        Some(c + 2)
    else None
  }

  /** An end that the search for a quoted key accepts gives the quoted form, and the rest follows it. */
  lemma QuotedKeyFound(s: string, q: char, p: nat, c: nat, close: nat)
    requires p < |s| && s[p] == q && close == IndexFrom(s, p + 1, q)
    requires p + 2 <= c <= close && QuotedKeyEndsAt(s, q)(c)
    ensures QuotedKeyForm(s, q, p, c + 2) && RhsAt(s, c + 2).Some?
  {
    assert QuotedKeyEnds(s, q, c);
    QuotedKeyFormAt(s, q, p, c, close);
  }

  /** The bare alternative of group 1 at p: the longest run without `=` that the rest accepts. */
  function BareKey(s: string, p: nat): (r: Option<nat>)
    requires p < |s|
    ensures r.Some? ==> BareKeyForm(s, p, r.value) && RhsAt(s, r.value).Some?
  {
    LastDown(p + 1, IndexFrom(s, p, '=') + 1, KeyEndsAt(s))
  }

  /** Group 1 at p: the three alternatives in order; the end of the key. */
  function KeyAt(s: string, p: nat): (r: Option<nat>)
    requires p < |s|
    ensures r.Some? ==> KeyForm(s, p, r.value) && RhsAt(s, r.value).Some?
  {
    OrElse(QuotedKey(s, '"', p), OrElse(QuotedKey(s, '\'', p), BareKey(s, p)))
  }

  /** The match of the whole expression that starts at p, if any. */
  function MatchAt(s: string, p: nat): (r: Option<PairMatch>)
    requires p < |s|
    ensures r.Some? ==> r.value.keyStart == p && IsMatch(s, r.value)
  {
    match KeyAt(s, p)
    case None => None
    case Some(e) => Some(PairMatch(p, e, RhsAt(s, e).value))
  }

  predicate Matches(s: string, p: nat) {
    p < |s| && MatchAt(s, p).Some?
  }

  function MatchesAt(s: string): nat -> bool {
    (p: nat) => Matches(s, p)
  }

  /** The match `exec` finds: the one at the leftmost start position that has one. */
  function Leftmost(s: string): (r: Option<PairMatch>)
    ensures r.Some? ==> IsMatch(s, r.value)
  {
    match FirstUp(0, |s|, MatchesAt(s))
    case None => None
    case Some(p) => MatchAt(s, p)
  }

  /** The three capture groups of a match. */
  datatype Groups = Groups(key: string, value: string, rest: string)

  /**
   * Groups 1 and 2 are the spans the match gives them; group 3 starts where
   * the white space after the separator stops and runs to the end of that
   * line.
   */
  function GroupsOf(s: string, m: PairMatch): (g: Groups)
    requires IsMatch(s, m)
    ensures g.key == s[m.keyStart..m.keyEnd] && g.value == s[m.rhs.valueStart..m.rhs.valueEnd]
    ensures |g.rest| + m.rhs.next <= |s|
    ensures exists r :: RestAt(s, m.rhs.next, r, g.rest)
    ensures g.rest == [] || !IsSpace(g.rest[0])
    ensures forall i :: 0 <= i < |g.rest| ==> !IsLineTerminator(g.rest[i])
  {
    var r := SkipSpace(s, m.rhs.next);
    var g := Groups(s[m.keyStart..m.keyEnd], s[m.rhs.valueStart..m.rhs.valueEnd], s[r..LineEnd(s, r)]);
    assert RestAt(s, m.rhs.next, r, g.rest);
    g
  }

  /**
   * rest is group 3 when the separator ends at x: white space runs from x to
   * r, where something other than white space (or the end) follows, and rest
   * runs from r to the end of the line.
   */
  ghost predicate RestAt(s: string, x: nat, r: nat, rest: string) {
    && SpaceRun(s, x, r) && (r == |s| || !IsSpace(s[r]))
    && r + |rest| <= |s| && rest == s[r..r + |rest|] && AtLineEnd(s, r + |rest|)
  }

  /**
   * What `exec` returns.  Group 3 is what follows the separator once white
   * space (new lines included) is skipped, up to the end of that line; it is
   * always shorter than the input by at least the key and the `=`.
   */
  function Exec(s: string): (r: Option<Groups>)
    ensures r.Some? ==> '=' in s
    ensures r.Some? ==> |r.value.rest| + 2 <= |s|
  {
    match Leftmost(s)
    case None => None
    case Some(m) => Some(GroupsOf(s, m))
  }
}
