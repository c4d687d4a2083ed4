/**
 * Worked inputs for the expression of lib/parse-key-pair.js:3, each followed
 * through the scanner step by step to the match `exec` finds.  Every match
 * here ends at the end of the input, so by ExecAtEnd group 3 is empty.
 */
module PairPatternExamples {
  import opened Wrappers
  import opened Search
  import opened PairPattern

  const Escaped := "a=x\\;y"

  const Swallowed := "a=;b=c"

  const QuotedSemicolon := "a=\"x;y\""

  const QuotedEquals := "\"a=b\"=c"

  const BackslashNewline := "a=x\\\n"

  const BackslashEnd := "a=x\\"

  /** When the separator is the end of the input, group 3 is empty. */
  lemma ExecAtEnd(s: string, m: PairMatch)
    requires Leftmost(s) == Some(m) && m.rhs.next == |s|
    ensures Exec(s) == Some(Groups(s[m.keyStart..m.keyEnd], s[m.rhs.valueStart..m.rhs.valueEnd], []))
  {
  }

  lemma EscapedValue()
    ensures ValueAt(Escaped, 2) == Some(ValueEnd(6, 6))
  {
    var s := Escaped;
    assert !EndsBareAt(s)(2) && !EndsBareAt(s)(3) && !EndsBareAt(s)(4) && EndsBareAt(s)(5);
    assert BareLimit(s, 2) == 6;
    assert BareValue(s, 2) == Some(ValueEnd(6, 6));
  }

  lemma EscapedRhs()
    ensures RhsAt(Escaped, 1) == Some(Rhs(1, 2, 6, 6))
  {
    var s := Escaped;
    EscapedValue();
    assert SkipSpace(s, 1) == 1 && SkipSpace(s, 2) == 2;
    assert ValueStartsAt(s)(2);
    assert LastDown(2, 3, ValueStartsAt(s)) == Some(2);
    assert ValueAfter(s, 1) == Some(Rhs(1, 2, 6, 6));
  }

  lemma EscapedKey()
    ensures KeyAt(Escaped, 0) == Some(1)
  {
    var s := Escaped;
    EscapedRhs();
    assert IndexFrom(s, 0, '=') == 1;
    assert KeyEndsAt(s)(1);
    assert BareKey(s, 0) == Some(1);
  }

  /** In `a=x\;y` the backslash before `;` keeps the `;` in the value: group 2 is `x\;y`. */
  lemma EscapedLeftmost()
    ensures Leftmost(Escaped) == Some(PairMatch(0, 1, Rhs(1, 2, 6, 6)))
  {
    var s := Escaped;
    EscapedKey();
    EscapedRhs();
    assert MatchAt(s, 0) == Some(PairMatch(0, 1, Rhs(1, 2, 6, 6)));
    assert MatchesAt(s)(0);
  }


  lemma SwallowedValue()
    ensures ValueAt(Swallowed, 2) == Some(ValueEnd(6, 6))
  {
    var s := Swallowed;
    assert !EndsBareAt(s)(2) && !EndsBareAt(s)(3) && !EndsBareAt(s)(4) && EndsBareAt(s)(5);
    assert BareLimit(s, 2) == 6;
    assert BareValue(s, 2) == Some(ValueEnd(6, 6));
  }

  lemma SwallowedRhs()
    ensures RhsAt(Swallowed, 1) == Some(Rhs(1, 2, 6, 6))
  {
    var s := Swallowed;
    SwallowedValue();
    assert SkipSpace(s, 1) == 1 && SkipSpace(s, 2) == 2;
    assert ValueStartsAt(s)(2);
    assert LastDown(2, 3, ValueStartsAt(s)) == Some(2);
    assert ValueAfter(s, 1) == Some(Rhs(1, 2, 6, 6));
  }

  lemma SwallowedKey()
    ensures KeyAt(Swallowed, 0) == Some(1)
  {
    var s := Swallowed;
    SwallowedRhs();
    assert IndexFrom(s, 0, '=') == 1;
    assert KeyEndsAt(s)(1);
    assert BareKey(s, 0) == Some(1);
  }

  /**
   * In `a=;b=c` the value cannot be empty: `$` does not match before a `;`,
   * which is no line terminator, so group 2 must take at least the `;`.  The
   * lazy bare value then grows until a separator follows it, which is only
   * at the end of the line, so group 2 is `;b=c` and `b` is never assigned.
   */
  lemma SwallowedLeftmost()
    ensures Leftmost(Swallowed) == Some(PairMatch(0, 1, Rhs(1, 2, 6, 6)))
  {
    var s := Swallowed;
    SwallowedKey();
    SwallowedRhs();
    assert MatchAt(s, 0) == Some(PairMatch(0, 1, Rhs(1, 2, 6, 6)));
    assert MatchesAt(s)(0);
  }

  /**
   * In `a="x;y"` the double-quoted alternative of group 2 comes first and
   * takes the whole quoted text; the bare one, tried only after it fails,
   * would stop at the `;` and leave `y"` for group 3.
   */
  lemma QuotedSemicolonValue()
    ensures ValueAt(QuotedSemicolon, 2) == Some(ValueEnd(7, 7))
    ensures BareValue(QuotedSemicolon, 2) == Some(ValueEnd(4, 5))
  {
    var s := QuotedSemicolon;
    assert !ClosesQuotedAt(s, '"')(3) && !ClosesQuotedAt(s, '"')(4) && ClosesQuotedAt(s, '"')(5);
    FirstUpAt(3, |s|, ClosesQuotedAt(s, '"'), 5);
    assert !EndsBareAt(s)(2) && EndsBareAt(s)(3);
    assert BareLimit(s, 2) == 7;
    FirstUpAt(2, 7, EndsBareAt(s), 3);
  }

  lemma QuotedSemicolonRhs()
    ensures RhsAt(QuotedSemicolon, 1) == Some(Rhs(1, 2, 7, 7))
  {
    var s := QuotedSemicolon;
    QuotedSemicolonValue();
    assert SkipSpace(s, 1) == 1 && SkipSpace(s, 2) == 2;
    assert ValueStartsAt(s)(2);
    LastDownAt(2, 3, ValueStartsAt(s), 2);
  }

  /** `exec` on `a="x;y"` gives group 1 `a` and group 2 the quoted `"x;y"`. */
  lemma QuotedSemicolonLeftmost()
    ensures Leftmost(QuotedSemicolon) == Some(PairMatch(0, 1, Rhs(1, 2, 7, 7)))
  {
    var s := QuotedSemicolon;
    QuotedSemicolonRhs();
    assert IndexFrom(s, 0, '=') == 1;
    assert KeyEndsAt(s)(1);
    LastDownAt(1, 2, KeyEndsAt(s), 1);
    assert KeyAt(s, 0) == Some(1);
    assert MatchesAt(s)(0);
    FirstUpAt(0, |s|, MatchesAt(s), 0);
  }

  lemma QuotedEqualsRhs()
    ensures RhsAt(QuotedEquals, 5) == Some(Rhs(5, 6, 7, 7))
    ensures RhsAt(QuotedEquals, 2) == Some(Rhs(2, 3, 7, 7))
  {
    var s := QuotedEquals;
    assert EndsBareAt(s)(6);
    FirstUpAt(6, 7, EndsBareAt(s), 6);
    assert SkipSpace(s, 5) == 5 && SkipSpace(s, 6) == 6;
    assert ValueStartsAt(s)(6);
    LastDownAt(6, 7, ValueStartsAt(s), 6);
    assert !EndsBareAt(s)(3) && !EndsBareAt(s)(4) && !EndsBareAt(s)(5) && EndsBareAt(s)(6);
    assert BareLimit(s, 3) == 7;
    FirstUpAt(3, 7, EndsBareAt(s), 6);
    assert SkipSpace(s, 2) == 2 && SkipSpace(s, 3) == 3;
    assert ValueStartsAt(s)(3);
    LastDownAt(3, 4, ValueStartsAt(s), 3);
  }

  /**
   * In `"a=b"=c` the double-quoted alternative of group 1 comes first and
   * takes `"a=b"`; the bare one, tried only after it fails, would stop at
   * the first `=` and give the key `"a`.
   */
  lemma QuotedEqualsKey()
    ensures KeyAt(QuotedEquals, 0) == Some(5)
    ensures BareKey(QuotedEquals, 0) == Some(2)
  {
    var s := QuotedEquals;
    QuotedEqualsRhs();
    assert IndexFrom(s, 1, '"') == 4;
    assert !QuotedKeyEndsAt(s, '"')(4) && QuotedKeyEndsAt(s, '"')(3);
    LastDownAt(2, 5, QuotedKeyEndsAt(s, '"'), 3);
    assert QuotedKey(s, '"', 0) == Some(5);
    assert IndexFrom(s, 0, '=') == 2;
    assert KeyEndsAt(s)(2);
    LastDownAt(1, 3, KeyEndsAt(s), 2);
  }

  /** `exec` on `"a=b"=c` gives group 1 `"a=b"` and group 2 `c`. */
  lemma QuotedEqualsLeftmost()
    ensures Leftmost(QuotedEquals) == Some(PairMatch(0, 5, Rhs(5, 6, 7, 7)))
  {
    var s := QuotedEquals;
    QuotedEqualsKey();
    QuotedEqualsRhs();
    assert MatchAt(s, 0) == Some(PairMatch(0, 5, Rhs(5, 6, 7, 7)));
    assert MatchesAt(s)(0);
    FirstUpAt(0, |s|, MatchesAt(s), 0);
  }

  /** The final character of a bare value may be a line terminator: after `x\` it is the newline. */
  lemma BackslashNewlineValue()
    ensures ValueAt(BackslashNewline, 2) == Some(ValueEnd(5, 5))
  {
    var s := BackslashNewline;
    assert !EndsBareAt(s)(2) && !EndsBareAt(s)(3) && EndsBareAt(s)(4);
    assert BareLimit(s, 2) == 5;
    FirstUpAt(2, 5, EndsBareAt(s), 4);
  }

  /** `exec` on `a=x\` and a newline gives group 1 `a` and group 2 `x\` with the newline. */
  lemma BackslashNewlineLeftmost()
    ensures Leftmost(BackslashNewline) == Some(PairMatch(0, 1, Rhs(1, 2, 5, 5)))
  {
    var s := BackslashNewline;
    BackslashNewlineValue();
    assert SkipSpace(s, 1) == 1 && SkipSpace(s, 2) == 2;
    assert ValueStartsAt(s)(2);
    LastDownAt(2, 3, ValueStartsAt(s), 2);
    assert RhsAt(s, 1) == Some(Rhs(1, 2, 5, 5));
    assert IndexFrom(s, 0, '=') == 1;
    assert KeyEndsAt(s)(1);
    LastDownAt(1, 2, KeyEndsAt(s), 1);
    assert MatchesAt(s)(0);
    FirstUpAt(0, |s|, MatchesAt(s), 0);
  }

  /** `a=x\` at the very end of the text has no match: no bare value can end in the backslash. */
  lemma BackslashEndNoMatch()
    ensures forall m :: !IsMatch(BackslashEnd, m)
    ensures Exec(BackslashEnd).None?
  {
    var s := BackslashEnd;
    assert forall j :: SpaceRun(s, 2, j) ==> j == 2 by {
      assert !IsSpace(s[2]);
    }
    assert forall e :: ValueForm(s, 2, e) ==> e == 3;
    assert Separator(s, 3).None?;
  }
}
