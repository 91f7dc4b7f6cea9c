/** The regular expressions the client tests text replies against. Each one
    is an alternation of literals, some followed by `.+`, and `RegExp.test`
    searches anywhere in the text: so a pattern matches when one of its
    alternatives occurs somewhere in the text. */
module Patterns {
  import opened Common

  /** One alternative of a pattern: a literal, or a literal followed by at
      least one character other than a line terminator (`lit.+`). */
  datatype Alternative = Literal(text: string) | LiteralThenMore(text: string)

  /** An alternation `a|b|...`; the empty alternation matches nothing. */
  type Pattern = seq<Alternative>

  /** The characters `.` does not match. */
  predicate IsLineTerminator(c: char)
  {
    c == '\n' || c == '\r' || c == '\U{2028}' || c == '\U{2029}'
  }

  /** The alternative matches `s` starting at position `i`. */
  predicate MatchesAt(a: Alternative, s: string, i: int)
  {
    match a
    case Literal(lit) => OccursAt(s, lit, i)
    case LiteralThenMore(lit) => OccursAt(s, lit, i) && i + |lit| < |s| && !IsLineTerminator(s[i + |lit|])
  }

  /** `RegExp.test` for one alternative: it matches somewhere in `s`. */
  predicate AlternativeMatches(a: Alternative, s: string)
  {
    exists i | 0 <= i <= |s| :: MatchesAt(a, s, i)
  }

  /** `pattern.test(s)` */
  predicate Test(p: Pattern, s: string): (b: bool)
    ensures b ==> exists k | 0 <= k < |p| :: Includes(s, p[k].text)
  {
    exists k | 0 <= k < |p| :: AlternativeMatches(p[k], s)
  }

  /** `/done/` */
  const Done: Pattern := [Literal("done")]
  /** `/done|ERR:.+/` */
  const DoneOrError: Pattern := [Literal("done"), LiteralThenMore("ERR:")]
  /** `/True|False/` */
  const TrueOrFalse: Pattern := [Literal("True"), Literal("False")]
  /** `/done|Invalid/` */
  const DoneOrInvalid: Pattern := [Literal("done"), Literal("Invalid")]
  /** `/killed|already-stopped/` */
  const KilledOrStopped: Pattern := [Literal("killed"), Literal("already-stopped")]
  /** `/added|ERR:.+/` */
  const AddedOrError: Pattern := [Literal("added"), LiteralThenMore("ERR:")]
  /** `/done|Option.+/` */
  const DoneOrOption: Pattern := [Literal("done"), LiteralThenMore("Option")]
  /** `/asdgneigioqeg/`, the pattern given to expectations of JSON replies. */
  const Sentinel: Pattern := [Literal("asdgneigioqeg")]

  /** The search is unanchored: text around a match does not undo it. */
  lemma MatchSurvivesContext(p: Pattern, s: string, before: string, after: string)
    requires Test(p, s)
    ensures Test(p, before + s + after)
  {
    var k :| 0 <= k < |p| && AlternativeMatches(p[k], s);
    var i :| 0 <= i <= |s| && MatchesAt(p[k], s, i);
    var t := before + s + after;
    var j := |before| + i;
    var lit := p[k].text;
    assert t[|before|..|before| + |s|] == s;
    assert t[j..j + |lit|] == t[|before|..|before| + |s|][i..i + |lit|];
    if p[k].LiteralThenMore? {
      assert t[j + |lit|] == s[i + |lit|];
    }
    assert MatchesAt(p[k], t, j);
  }

  /** A literal alternative matches every text that holds it. */
  lemma LiteralMatchesIncludingText(p: Pattern, k: nat, s: string)
    requires k < |p| && p[k].Literal?
    requires Includes(s, p[k].text)
    ensures Test(p, s)
  {
    var i :| 0 <= i <= |s| && OccursAt(s, p[k].text, i);
    assert MatchesAt(p[k], s, i);
    assert AlternativeMatches(p[k], s);
  }

  /** Text shorter than every literal of a pattern matches nothing. */
  lemma ShortTextMatchesNothing(p: Pattern, s: string)
    requires forall k | 0 <= k < |p| :: |s| < |p[k].text|
    ensures !Test(p, s)
  {
  }

  /** The sentinel never matches a text shorter than itself, so no reply of
      the daemon's vocabulary resolves an expectation that carries it. */
  lemma SentinelMissesShortText(s: string)
    requires |s| < 13
    ensures !Test(Sentinel, s)
  {
    ShortTextMatchesNothing(Sentinel, s);
  }

  /** The replies the wrappers wait for are accepted by their patterns. */
  lemma ReplyTokensMatch()
    ensures Test(Done, "done") && Test(DoneOrError, "done") && Test(DoneOrInvalid, "done") && Test(DoneOrOption, "done")
    ensures Test(KilledOrStopped, "killed") && Test(KilledOrStopped, "already-stopped")
    ensures Test(TrueOrFalse, "True") && Test(TrueOrFalse, "False")
    ensures Test(AddedOrError, "added")
  {
    forall s: string ensures Includes(s, s) {
      assert OccursAt(s, s, 0);
    }
    LiteralMatchesIncludingText(Done, 0, "done");
    LiteralMatchesIncludingText(DoneOrError, 0, "done");
    LiteralMatchesIncludingText(DoneOrInvalid, 0, "done");
    LiteralMatchesIncludingText(DoneOrOption, 0, "done");
    LiteralMatchesIncludingText(KilledOrStopped, 0, "killed");
    LiteralMatchesIncludingText(KilledOrStopped, 1, "already-stopped");
    LiteralMatchesIncludingText(TrueOrFalse, 0, "True");
    LiteralMatchesIncludingText(TrueOrFalse, 1, "False");
    LiteralMatchesIncludingText(AddedOrError, 0, "added");
  }

  /** `ERR:.+` needs a character after the colon: "ERR:" alone is no match. */
  lemma BareErrorPrefixIsNoMatch()
    ensures !Test([LiteralThenMore("ERR:")], "ERR:")
    ensures Test([LiteralThenMore("ERR:")], "ERR:x")
  {
    assert MatchesAt(LiteralThenMore("ERR:"), "ERR:x", 0);
    assert AlternativeMatches([LiteralThenMore("ERR:")][0], "ERR:x");
  }
}
