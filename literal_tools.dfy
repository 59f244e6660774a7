/**
 * Quoting decision for a completion candidate (xonsh/completers/literal_tools.py).
 *
 * Before a candidate is written back into the input buffer, the shell decides
 * whether it must be quoted and with which quote character.  The lazily compiled
 * regular expression `PATTERN_NEED_QUOTES` becomes the predicate `NeedsQuotes`
 * (what the regex matches, stated with a quantifier) and the function
 * `SearchNeedQuotes` (the left-to-right search `re.search` performs), and the
 * platform flag that the pattern reads at load time becomes the parameter
 * `onWindows`.
 */
module LiteralTools {

  const SingleQuote: string := "'"
  const DoubleQuote: string := "\""

  /** The characters the regex class `\s` matches, restricted to ASCII:
      tab, line feed, vertical tab, form feed, carriage return, the four
      information separators 0x1C-0x1F, and space. */
  predicate IsSpace(c: char) {
    (9 <= c as int <= 13) || (28 <= c as int <= 32)
  }

  /** The fixed punctuation listed in the character class of the pattern. */
  predicate IsUnsafePunctuation(c: char) {
    c in "`${},*()\"'?&#"
  }

  /** One character matched by the pattern's character class; `%` only on Windows. */
  predicate IsUnsafeChar(c: char, onWindows: bool) {
    IsSpace(c) || IsUnsafePunctuation(c) || (onWindows && c == '%')
  }

  /** A word character for `\b`, restricted to ASCII: letters, digits and `_`. */
  predicate IsWordChar(c: char) {
    ('a' <= c <= 'z') || ('A' <= c <= 'Z') || ('0' <= c <= '9') || c == '_'
  }

  /** `\bw\b` matches at position `i` of `s`, for a word `w` made of word characters. */
  predicate WordAt(s: string, i: nat, w: string) {
    i + |w| <= |s| && s[i..i + |w|] == w
    && (i == 0 || !IsWordChar(s[i - 1]))
    && (i + |w| == |s| || !IsWordChar(s[i + |w|]))
  }

  /** Some alternative of the pattern matches starting at position `i`. */
  predicate MatchesAt(s: string, i: nat, onWindows: bool)
    requires i < |s|
  {
    IsUnsafeChar(s[i], onWindows) || WordAt(s, i, "and") || WordAt(s, i, "or")
  }

  /** The pattern matches somewhere in `s`: what `re.search` looks for. */
  ghost predicate NeedsQuotes(s: string, onWindows: bool) {
    exists i :: 0 <= i < |s| && MatchesAt(s, i, onWindows)
  }

  /** The search for a match, tried at every position from `from` on. */
  function SearchFrom(s: string, from: nat, onWindows: bool): (found: bool)
    requires from <= |s|
    ensures found <==> exists i :: from <= i < |s| && MatchesAt(s, i, onWindows)
    decreases |s| - from
  {
    if from == |s| then false
    else MatchesAt(s, from, onWindows) || SearchFrom(s, from + 1, onWindows)
  }

  /** `re.search(PATTERN_NEED_QUOTES, s)` found a match. */
  function SearchNeedQuotes(s: string, onWindows: bool): (found: bool)
    ensures found <==> NeedsQuotes(s, onWindows)
  {
    SearchFrom(s, 0, onWindows)
  }

  /** `_quote_to_use`: the double quote exactly when the text holds a single
      quote and no double quote, the single quote otherwise. */
  function QuoteToUse(x: string): (q: string)
    ensures q == DoubleQuote <==> ('\'' in x && '"' !in x)
    ensures q == SingleQuote <==> !('\'' in x && '"' !in x)
  {
    if '\'' in x && '"' !in x then DoubleQuote else SingleQuote
  }

  /** The triple `escape_quote_completion` returns. */
  datatype Quoted = Quoted(comp: string, openingQuote: string, closingQuote: string)

  /** `escape_quote_completion`: when no quote is open and the candidate needs
      quoting, open and close it with `QuoteToUse(comp)`; otherwise keep the
      quotes as given.  The branch for text containing a backslash has no body
      in the source, so the candidate text is always returned as it came. */
  function EscapeQuoteCompletion(comp: string, openingQuote: string, closingQuote: string,
                                 onWindows: bool): (r: Quoted)
    ensures r.comp == comp
    ensures openingQuote != "" ==>
      r.openingQuote == openingQuote && r.closingQuote == closingQuote
    ensures openingQuote == "" && NeedsQuotes(comp, onWindows) ==>
      r.openingQuote == QuoteToUse(comp) && r.closingQuote == QuoteToUse(comp)
    ensures openingQuote == "" && !NeedsQuotes(comp, onWindows) ==>
      r.openingQuote == openingQuote && r.closingQuote == closingQuote
  {
    if openingQuote == "" && SearchNeedQuotes(comp, onWindows) then
      var q := QuoteToUse(comp);
      Quoted(comp, q, q)
    else
      Quoted(comp, openingQuote, closingQuote)
  }

  // ---------------------------------------------------------------------
  // Properties of the quote choice

  /** The chosen quote never occurs in the text, unless the text holds both
      quote characters: the choice avoids escaping whenever it can. */
  lemma QuoteToUseAvoidsText(x: string)
    requires !('\'' in x && '"' in x)
    ensures QuoteToUse(x)[0] !in x
  {
  }

  /** Quoting is newly introduced exactly when no quote is open and the
      pattern matches; then both returned quotes are the same character,
      one of the two quote characters. */
  lemma QuotingIntroducedIff(comp: string, openingQuote: string, closingQuote: string,
                             onWindows: bool)
    ensures var r := EscapeQuoteCompletion(comp, openingQuote, closingQuote, onWindows);
      (r.openingQuote != openingQuote || r.closingQuote != closingQuote)
      <== (openingQuote == "" && NeedsQuotes(comp, onWindows))
    ensures var r := EscapeQuoteCompletion(comp, openingQuote, closingQuote, onWindows);
      (r.openingQuote != openingQuote || r.closingQuote != closingQuote) ==>
        openingQuote == "" && NeedsQuotes(comp, onWindows)
        && r.openingQuote == r.closingQuote
        && (r.openingQuote == SingleQuote || r.openingQuote == DoubleQuote)
  {
  }

  /** Feeding the result back in changes nothing: once a quote is open, the
      decision is not taken again. */
  lemma EscapeQuoteIdempotent(comp: string, openingQuote: string, closingQuote: string,
                              onWindows: bool)
    ensures var r := EscapeQuoteCompletion(comp, openingQuote, closingQuote, onWindows);
      EscapeQuoteCompletion(r.comp, r.openingQuote, r.closingQuote, onWindows) == r
  {
  }

  // ---------------------------------------------------------------------
  // Properties of the pattern

  /** `%` matters only on Windows: on other platforms it never triggers
      quoting, and whatever needs quoting elsewhere also needs it on Windows. */
  lemma PercentOnlyOnWindows(s: string)
    ensures NeedsQuotes(s, false) ==> NeedsQuotes(s, true)
    ensures '%' !in s ==> (NeedsQuotes(s, true) <==> NeedsQuotes(s, false))
    ensures '%' in s ==> NeedsQuotes(s, true)
    ensures forall i :: 0 <= i < |s| && s[i] == '%' ==> !MatchesAt(s, i, false)
    ensures !NeedsQuotes("50%", false)
  {
    if NeedsQuotes(s, false) {
      var i :| 0 <= i < |s| && MatchesAt(s, i, false);
      assert MatchesAt(s, i, true);
    }
    if '%' !in s && NeedsQuotes(s, true) {
      var i :| 0 <= i < |s| && MatchesAt(s, i, true);
      assert s[i] != '%';
      assert MatchesAt(s, i, false);
    }
    if '%' in s {
      var i :| 0 <= i < |s| && s[i] == '%';
      assert MatchesAt(s, i, true);
    }
  }

  /** The standalone words `and` and `or` trigger quoting. */
  lemma WholeWordsTrigger(onWindows: bool)
    ensures NeedsQuotes("and", onWindows)
    ensures NeedsQuotes("or", onWindows)
    ensures NeedsQuotes("a or b", onWindows)
  {
    assert MatchesAt("and", 0, onWindows);
    assert MatchesAt("or", 0, onWindows);
    assert MatchesAt("a or b", 1, onWindows);
  }

  /** `and` at the start or end of a longer word does not trigger quoting. */
  lemma AndroidNotQuoted(onWindows: bool)
    ensures !NeedsQuotes("android", onWindows)
    ensures !NeedsQuotes("band", onWindows)
  {
  }

  /** `or` at the start or end of a longer word does not trigger quoting. */
  lemma OrderNotQuoted(onWindows: bool)
    ensures !NeedsQuotes("order", onWindows)
    ensures !NeedsQuotes("floor", onWindows)
  {
  }

  /** A space leads to single quotes. */
  lemma SpaceGetsSingleQuotes(onWindows: bool)
    ensures EscapeQuoteCompletion("foo bar", "", "", onWindows) == Quoted("foo bar", "'", "'")
  {
    assert MatchesAt("foo bar", 3, onWindows);
  }

  /** An apostrophe, with no double quote, leads to double quotes. */
  lemma ApostropheGetsDoubleQuotes(onWindows: bool)
    ensures EscapeQuoteCompletion("it's", "", "", onWindows) == Quoted("it's", "\"", "\"")
  {
    assert MatchesAt("it's", 2, onWindows);
  }

  /** A plain word is not quoted. */
  lemma PlainWordUnquoted(onWindows: bool)
    ensures EscapeQuoteCompletion("foo", "", "", onWindows) == Quoted("foo", "", "")
  {
    assert !MatchesAt("foo", 0, onWindows) && !MatchesAt("foo", 1, onWindows) && !MatchesAt("foo", 2, onWindows);
  }

}
