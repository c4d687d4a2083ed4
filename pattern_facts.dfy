/**
 * The scanner in PairPattern against the forms its parts accept: whenever the
 * expression can match, the scanner finds a match, at the leftmost start
 * position; a lazy value is the shortest that the separator can follow; the
 * white space after `=` is as long as the value allows.
 */
module PairPatternFacts {
  import opened Wrappers
  import opened PairPattern
  import Search

  /** Every run of white space from i ends at or before where `\s*` stops. */
  lemma SpaceRunWithinSkip(s: string, i: nat, j: nat)
    requires SpaceRun(s, i, j)
    ensures j <= SkipSpace(s, i)
  {
  }

  /** A quoted value is found whenever one is followed by the separator, and it is the shortest. */
  lemma QuotedValueShortest(s: string, q: char, v: nat, e: nat)
    requires QuotedValueForm(s, q, v, e) && Separator(s, e).Some?
    ensures QuotedValue(s, q, v).Some? && QuotedValue(s, q, v).value.valueEnd <= e
  {
    assert ClosesQuotedAt(s, q)(e - 2);
  }

  /**
   * A bare value is found whenever one is followed by the separator, and it
   * is the shortest: so a backslash before `;` never ends it.
   */
  lemma BareValueShortest(s: string, v: nat, e: nat)
    requires BareValueForm(s, v, e) && Separator(s, e).Some?
    ensures BareValue(s, v).Some? && BareValue(s, v).value.valueEnd <= e
  {
    assert v <= e - 1 < BareLimit(s, v);
    assert EndsBareAt(s)(e - 1);
  }

  /** Group 2 is found at v whenever some value there is followed by the separator. */
  lemma ValueAtComplete(s: string, v: nat, e: nat)
    requires v <= e <= |s| && ValueThenSeparator(s, v, e)
    ensures ValueAt(s, v).Some?
  {
    if QuotedValueForm(s, '"', v, e) {
      QuotedValueShortest(s, '"', v, e);
    } else if QuotedValueForm(s, '\'', v, e) {
      QuotedValueShortest(s, '\'', v, e);
    } else if BareValueForm(s, v, e) {
      BareValueShortest(s, v, e);
    }
  }

  /**
   * After the `=` at k a value is found whenever one can start after white
   * space, and it starts no further left than any such value.
   */
  lemma ValueAfterComplete(s: string, k: nat, v: nat, e: nat)
    requires k < |s| && SpaceRun(s, k + 1, v) && v <= e <= |s| && ValueThenSeparator(s, v, e)
    ensures ValueAfter(s, k).Some? && v <= ValueAfter(s, k).value.valueStart
  {
    SpaceRunWithinSkip(s, k + 1, v);
    ValueAtComplete(s, v, e);
    assert ValueStartsAt(s)(v);
  }

  /** Everything after the key is found whenever it has its form. */
  lemma RhsAtComplete(s: string, e: nat, h: Rhs)
    requires RhsForm(s, e, h)
    ensures RhsAt(s, e).Some?
  {
    SpaceRunWithinSkip(s, e, h.eq);
    assert SkipSpace(s, e) == h.eq;
    ValueAfterComplete(s, h.eq, h.valueStart, h.valueEnd);
  }

  /** Group 1 is found at p whenever some key there is followed by a right-hand side. */
  lemma KeyAtComplete(s: string, p: nat, e: nat)
    requires p < |s| && KeyForm(s, p, e) && RhsAt(s, e).Some?
    ensures KeyAt(s, p).Some?
  {
    if QuotedKeyForm(s, '"', p, e) {
      QuotedKeyComplete(s, '"', p, e);
    } else if QuotedKeyForm(s, '\'', p, e) {
      QuotedKeyComplete(s, '\'', p, e);
    } else {
      var close := IndexFrom(s, p, '=');
      assert e <= close;
      assert KeyEndsAt(s)(e);
    }
  }

  lemma QuotedKeyComplete(s: string, q: char, p: nat, e: nat)
    requires p < |s| && QuotedKeyForm(s, q, p, e) && RhsAt(s, e).Some?
    ensures QuotedKey(s, q, p).Some?
  {
    var close := IndexFrom(s, p + 1, q);
    assert e - 2 <= close;
    assert QuotedKeyEnds(s, q, e - 2);
    assert QuotedKeyEndsAt(s, q)(e - 2);
  }

  // ---------------------------------------------------------------------
  // The order of the alternatives

  /** Some value in quotes q starts at v and the separator can follow it. */
  ghost predicate QuotedValueFits(s: string, q: char, v: nat) {
    exists e :: QuotedValueForm(s, q, v, e) && Separator(s, e).Some?
  }

  /** Some bare value starts at v and the separator can follow it. */
  ghost predicate BareValueFits(s: string, v: nat) {
    exists e :: BareValueForm(s, v, e) && Separator(s, e).Some?
  }

  /** The quoted alternative of group 2 succeeds exactly when a quoted value fits. */
  lemma QuotedValueSucceeds(s: string, q: char, v: nat)
    requires v <= |s|
    ensures QuotedValue(s, q, v).Some? <==> QuotedValueFits(s, q, v)
  {
    if QuotedValueFits(s, q, v) {
      var e :| QuotedValueForm(s, q, v, e) && Separator(s, e).Some?;
      QuotedValueShortest(s, q, v, e);
    }
  }

  /** The bare alternative of group 2 succeeds exactly when a bare value fits. */
  lemma BareValueSucceeds(s: string, v: nat)
    requires v <= |s|
    ensures BareValue(s, v).Some? <==> BareValueFits(s, v)
  {
    if BareValueFits(s, v) {
      var e :| BareValueForm(s, v, e) && Separator(s, e).Some?;
      BareValueShortest(s, v, e);
    }
  }

  /**
   * Group 2 takes the first of its four alternatives that can be followed by
   * the separator: a double-quoted value, else a single-quoted one, else a
   * bare one, else the empty value at a line end.
   */
  lemma ValueAtOrder(s: string, v: nat)
    requires v <= |s|
    ensures QuotedValueFits(s, '"', v) ==> ValueAt(s, v).Some? && ValueAt(s, v) == QuotedValue(s, '"', v)
    ensures !QuotedValueFits(s, '"', v) && QuotedValueFits(s, '\'', v) ==>
              ValueAt(s, v).Some? && ValueAt(s, v) == QuotedValue(s, '\'', v)
    ensures !QuotedValueFits(s, '"', v) && !QuotedValueFits(s, '\'', v) && BareValueFits(s, v) ==>
              ValueAt(s, v).Some? && ValueAt(s, v) == BareValue(s, v)
    ensures !QuotedValueFits(s, '"', v) && !QuotedValueFits(s, '\'', v) && !BareValueFits(s, v) ==>
              ValueAt(s, v) == EmptyValue(s, v)
  {
    QuotedValueSucceeds(s, '"', v);
    QuotedValueSucceeds(s, '\'', v);
    BareValueSucceeds(s, v);
  }

  /** Some key in quotes q starts at p and the rest of the expression matches after it. */
  ghost predicate QuotedKeyFits(s: string, q: char, p: nat) {
    exists e :: QuotedKeyForm(s, q, p, e) && RhsAt(s, e).Some?
  }

  /** The quoted alternative of group 1 succeeds exactly when a quoted key fits. */
  lemma QuotedKeySucceeds(s: string, q: char, p: nat)
    requires p < |s|
    ensures QuotedKey(s, q, p).Some? <==> QuotedKeyFits(s, q, p)
  {
    if QuotedKeyFits(s, q, p) {
      var e :| QuotedKeyForm(s, q, p, e) && RhsAt(s, e).Some?;
      QuotedKeyComplete(s, q, p, e);
    }
  }

  /**
   * Group 1 takes the first of its three alternatives that the rest of the
   * expression can follow: a double-quoted key, else a single-quoted one,
   * else a bare one.
   */
  lemma KeyAtOrder(s: string, p: nat)
    requires p < |s|
    ensures QuotedKeyFits(s, '"', p) ==> KeyAt(s, p).Some? && KeyAt(s, p) == QuotedKey(s, '"', p)
    ensures !QuotedKeyFits(s, '"', p) && QuotedKeyFits(s, '\'', p) ==>
              KeyAt(s, p).Some? && KeyAt(s, p) == QuotedKey(s, '\'', p)
    ensures !QuotedKeyFits(s, '"', p) && !QuotedKeyFits(s, '\'', p) ==> KeyAt(s, p) == BareKey(s, p)
  {
    QuotedKeySucceeds(s, '"', p);
    QuotedKeySucceeds(s, '\'', p);
  }

  /** The whole expression is found at every position where it can match. */
  lemma MatchAtComplete(s: string, m: PairMatch)
    requires IsMatch(s, m)
    ensures m.keyStart < |s| && MatchAt(s, m.keyStart).Some?
  {
    RhsAtComplete(s, m.keyEnd, m.rhs);
    KeyAtComplete(s, m.keyStart, m.keyEnd);
  }

  /**
   * `exec` succeeds exactly when the expression can match somewhere, and its
   * match starts at the leftmost position where one can.
   */
  lemma LeftmostIsLeftmost(s: string)
    ensures Leftmost(s).None? <==> forall m :: !IsMatch(s, m)
    ensures Leftmost(s).Some? ==> forall m :: IsMatch(s, m) ==> Leftmost(s).value.keyStart <= m.keyStart
  {
    forall m | IsMatch(s, m)
      ensures MatchesAt(s)(m.keyStart)
    {
      MatchAtComplete(s, m);
    }
  }

  /** A string without `=` has no pair in it. */
  lemma NoEqualsNoPair(s: string)
    requires '=' !in s
    ensures Exec(s).None?
    ensures forall m :: !IsMatch(s, m)
  {
    LeftmostIsLeftmost(s);
  }

  // ---------------------------------------------------------------------
  // A plain pair, found step by step

  /**
   * A run of characters other than a backslash, `;` and line terminators,
   * followed by the separator, is the bare value whole: it cannot end any
   * earlier, since no separator follows inside it.
   */
  lemma BareValueRuns(s: string, v: nat, e: nat)
    requires v < e <= |s| && Separator(s, e).Some?
    requires forall i :: v <= i < e ==> s[i] != '\\' && s[i] != ';' && !IsLineTerminator(s[i])
    ensures BareValue(s, v) == Some(ValueEnd(e, Separator(s, e).value))
  {
    forall c | v <= c < e - 1
      ensures !EndsBareAt(s)(c)
    {
      assert Separator(s, c + 1).None?;
    }
    assert EndsBareAt(s)(e - 1);
    assert NoLineTerminator(s, v, e - 1);
    Search.FirstUpAt(v, BareLimit(s, v), EndsBareAt(s), e - 1);
  }

  /**
   * After an `=` at n, a bare value that starts with neither white space nor
   * a quote and runs to e is the right-hand side.
   */
  lemma BareRhs(s: string, n: nat, e: nat)
    requires n + 1 < e <= |s| && s[n] == '=' && Separator(s, e).Some?
    requires !IsSpace(s[n + 1]) && s[n + 1] != '"' && s[n + 1] != '\''
    requires forall i :: n + 1 <= i < e ==> s[i] != '\\' && s[i] != ';' && !IsLineTerminator(s[i])
    ensures RhsAt(s, n) == Some(Rhs(n, n + 1, e, Separator(s, e).value))
  {
    BareValueRuns(s, n + 1, e);
    assert ValueAt(s, n + 1) == Some(ValueEnd(e, Separator(s, e).value));
    assert SkipSpace(s, n + 1) == n + 1;
    assert ValueStartsAt(s)(n + 1);
    Search.LastDownAt(n + 1, n + 2, ValueStartsAt(s), n + 1);
  }

  /**
   * A key that starts with no quote and holds no `=`, followed directly by a
   * bare right-hand side, is what `exec` finds, from the start of the text.
   */
  lemma BarePairLeftmost(s: string, n: nat, e: nat)
    requires 0 < n && n + 1 < e <= |s| && s[n] == '=' && Separator(s, e).Some?
    requires s[0] != '"' && s[0] != '\''
    requires forall i :: 0 <= i < n ==> s[i] != '='
    requires !IsSpace(s[n + 1]) && s[n + 1] != '"' && s[n + 1] != '\''
    requires forall i :: n + 1 <= i < e ==> s[i] != '\\' && s[i] != ';' && !IsLineTerminator(s[i])
    ensures Leftmost(s) == Some(PairMatch(0, n, Rhs(n, n + 1, e, Separator(s, e).value)))
  {
    BareRhs(s, n, e);
    assert IndexFrom(s, 0, '=') == n;
    assert KeyEndsAt(s)(n);
    Search.LastDownAt(1, n + 1, KeyEndsAt(s), n);
    assert KeyAt(s, 0) == Some(n);
    assert MatchesAt(s)(0);
    Search.FirstUpAt(0, |s|, MatchesAt(s), 0);
  }
}
