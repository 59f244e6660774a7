# xonsh completion tools, modelled in Dafny

This project models two small parts of the xonsh shell's tab-completion machinery.

- **Quoting decision** (`literal_tools.dfy`, module `LiteralTools`). Before a completion
  candidate goes back into the input buffer, `escape_quote_completion` decides whether it
  must be quoted and with which quote character. Quoting is added only when no quote is
  already open and the candidate matches the `PATTERN_NEED_QUOTES` regular expression.
  That pattern is one character class (whitespace, backtick, `$ { } , * ( ) " ' ? & #`,
  and `%` on Windows only) or the standalone words `and` / `or`. The regex becomes
  `NeedsQuotes`, a quantified predicate saying "some position matches". `SearchFrom` is
  the left-to-right search that `re.search` performs, and it is proved equal to that
  predicate. The quote is chosen by `QuoteToUse`: a double quote only when the text
  holds `'` and no `"`.
- **Completer tools** (`completer_tools.dfy`, module `CompleterTools`):
  - the exact-case and case-folding prefix filters, and the selector driven by the
    `CASE_SENSITIVE_COMPLETIONS` flag;
  - the `RichCompletion` value, whose identity is its text;
  - `CompleterResult`, a datatype with three cases: no result, a set of completions,
    or a set with a replacement prefix length;
  - the tagging that marks a completer as contextual;
  - the wrapper that passes only the command context to a command-scoped completer.

Global state becomes parameters:
- the platform flag `xp.ON_WINDOWS` becomes `onWindows`;
- the environment lookup of `CASE_SENSITIVE_COMPLETIONS` becomes `caseSensitive: Option<bool>`,
  where `None` means the variable is unset.

Setting the `contextual` attribute on a function object becomes building the tagged value
`Completer.Contextual(f)`. An untagged function is `Completer.Legacy(g)`.

`wrappers.dfy` holds the `Option` datatype used for Python's `None`.

## Model

| member | source | states |
|---|---|---|
| `LiteralTools.SearchFrom` | xonsh/completers/literal_tools.py:42 | the search from a position succeeds exactly when some later position starts a match of the pattern |
| `LiteralTools.SearchNeedQuotes` | xonsh/completers/literal_tools.py:17-23 | `re.search(PATTERN_NEED_QUOTES, s)` finds a match exactly when some position of `s` holds an unsafe character or starts a standalone `and` / `or` |
| `LiteralTools.QuoteToUse` | xonsh/completers/literal_tools.py:26-32 | the result is `"` exactly when the text contains `'` and no `"`, and `'` in every other case |
| `LiteralTools.EscapeQuoteCompletion` | xonsh/completers/literal_tools.py:35-48 | the text is returned unchanged; an open quote keeps both quotes as given; with no quote open, a text that needs quoting gets `QuoteToUse(comp)` as both quotes, and any other text keeps the quotes unchanged |
| `LiteralTools.QuoteToUseAvoidsText` | xonsh/completers/literal_tools.py:26-32 | unless the text holds both quote characters, the chosen quote does not occur in it |
| `LiteralTools.QuotingIntroducedIff` | xonsh/completers/literal_tools.py:42-43 | either quote changes exactly when no quote was open and the pattern matches; then the new opening quote equals the new closing one and is `'` or `"` |
| `LiteralTools.EscapeQuoteIdempotent` | xonsh/completers/literal_tools.py:42-48 | applying the function again to its own result gives the same result |
| `LiteralTools.PercentOnlyOnWindows` | xonsh/completers/literal_tools.py:19-21 | `%` triggers quoting on Windows; off Windows no position holding `%` matches the pattern (so `50%` is not quoted there), and a text without `%` needs quoting on both platforms or on neither |
| `LiteralTools.WholeWordsTrigger` | xonsh/completers/literal_tools.py:22 | the standalone words `and` and `or` need quoting, including inside `a or b` |
| `LiteralTools.AndroidNotQuoted` | xonsh/completers/literal_tools.py:22 | `android` and `band` do not need quoting: `and` matches only as a whole word, not at the start or end of a longer one |
| `LiteralTools.OrderNotQuoted` | xonsh/completers/literal_tools.py:22 | `order` and `floor` do not need quoting: `or` matches only as a whole word, not at the start or end of a longer one |
| `LiteralTools.SpaceGetsSingleQuotes` | xonsh/completers/literal_tools.py:42-43 | with no quote open, `foo bar` is quoted with `'` on both sides and its text is kept |
| `LiteralTools.ApostropheGetsDoubleQuotes` | xonsh/completers/literal_tools.py:42-43 | with no quote open, `it's` is quoted with `"` on both sides and its text is kept |
| `LiteralTools.PlainWordUnquoted` | xonsh/completers/literal_tools.py:42-48 | with no quote open, `foo` is returned with empty quotes |
| `CompleterTools.Lower` | xonsh/completers/tools.py:15 | `str.lower` keeps the length and lowers each character in place |
| `CompleterTools.StartsWith` | xonsh/completers/tools.py:11 | `str.startswith` holds exactly when the second string is a prefix of the first |
| `CompleterTools.FilterNormal` | xonsh/completers/tools.py:10-11 | `_filter_normal(s, x)` holds exactly when `x` is an exact-case prefix of `s` |
| `CompleterTools.FilterIgnoreCase` | xonsh/completers/tools.py:14-15 | `_filter_ignorecase(s, x)` holds exactly when `x` is no longer than `s` and agrees with the start of `s` character by character once both are lowered |
| `CompleterTools.GetFilterFunction` | xonsh/completers/tools.py:18-27 | with the flag set and true, the returned filter is the exact-case prefix test; when the flag is false or absent, it is the lowered prefix test |
| `CompleterTools.LowerIdempotent` | xonsh/completers/tools.py:15 | lowering twice is lowering once |
| `CompleterTools.NormalImpliesIgnoreCase` | xonsh/completers/tools.py:10-15 | whatever passes the exact-case filter passes the case-folding filter |
| `CompleterTools.IgnoreCaseSeesNoCase` | xonsh/completers/tools.py:14-15 | lowering either argument first does not change the case-folding filter's answer |
| `CompleterTools.ReadmeExample` | xonsh/completers/tools.py:18-27 | `("README", "read")` passes when the flag is absent or false, and fails when it is true |
| `CompleterTools.NewRichCompletion` | xonsh/completers/tools.py:57-65 | the completion has the given text, prefix length, description and style; its display is the given one unless that is missing or empty, in which case it is the text |
| `CompleterTools.RichCompletionDefaults` | xonsh/completers/tools.py:57 | given only its text, a rich completion has no prefix length, shows its text, and has empty description and style |
| `CompleterTools.Text` | xonsh/completers/tools.py:40 | a plain completion stands for its string and a rich completion for its `value`, the string it was built from |
| `CompleterTools.SameCompletion` | xonsh/completers/tools.py:40 | two completions are equal in Python exactly when their texts are equal; structurally equal completions are always equal |
| `CompleterTools.OneCompletionPerText` | xonsh/completers/tools.py:91-92 | a set of completions never holds two distinct members with the same text, whatever their kind or metadata |
| `CompleterTools.EqualityIgnoresMetadata` | xonsh/completers/tools.py:40 | two rich completions with the same text are equal whatever their metadata, and a rich completion equals the plain string of its text |
| `CompleterTools.AddCompletion` | xonsh/completers/tools.py:91-92 | `set.add` on a set of completions whose texts are unique: an element whose text is already present leaves the set unchanged; otherwise the element itself, with its metadata, is added; either way the set of texts gains the new text |
| `CompleterTools.ContextualCompleter` | xonsh/completers/tools.py:96-105 | the result is tagged contextual and behaves as the given function on every context |
| `CompleterTools.IsContextualCompleter` | xonsh/completers/tools.py:108-109 | a completer is recognised as contextual exactly when it carries the contextual tag; an untagged one reads as not contextual |
| `CompleterTools.TaggingIsRecognised` | xonsh/completers/tools.py:104-109 | a tagged function is recognised as contextual, and an untagged one is not |
| `CompleterTools.ContextualCommandCompleter` | xonsh/completers/tools.py:112-123 | the wrapper is contextual; on a context without a command it returns no result, and otherwise it returns the wrapped function applied to the command context |

## Left out

- The backslash branch of `escape_quote_completion` (xonsh/completers/literal_tools.py:45-46) has no body, so the model escapes nothing and returns the text unchanged. Conventional shell quoting would escape backslashes; the code has no escaping, and the model follows the code.
- Regex `\s` and `\b` are restricted to ASCII. `\s` covers the characters 9-13, 28-31 and space, which is what Python's `\s` matches below 128. `\b` uses ASCII letters, digits and `_` as word characters. Non-ASCII whitespace and non-ASCII word characters are not modelled.
- `CompleterTools.Lower`: lowers only `A`-`Z`. Python's `str.lower` applies full Unicode case mapping, which can also change a string's length.
- `CompleterTools.GetFilterFunction`: the flag is taken as absent, false or true. Python tests any value for truthiness; an environment value other than a boolean is not modelled.
- `SLASH` (xonsh/completers/literal_tools.py:12-14) looks up the path separator and is not used by the quoting logic.
- `justify` (xonsh/completers/tools.py:30-37) wraps `textwrap` and is not modelled.
- `get_ptk_completer` (xonsh/completers/tools.py:73-88) reads the prompt-toolkit shell object and is not modelled.
- `CompleterTools.EqualityIgnoresMetadata`: Python equality of completions is modelled by `SameCompletion`, not by Dafny's `==`, which on `Completion` values is structural and so separates completions that differ only in metadata. Sets of completions are kept to one member per text by the type `CompletionSet`, but two such sets holding different completions with the same texts are equal in Python and unequal in the model.
- `RichCompletion.__repr__` is display formatting only. Python's hash and ordering of completions are not modelled separately: identity is the text, through `Text` and `SameCompletion`.
- `functools.wraps` copies the wrapped function's metadata onto the wrapper and records the wrapped function; none of that metadata is modelled.
- The legacy completer's fifth argument, the execution namespace `ctx`, is not modelled; `LegacyRequest` carries the prefix, the line and the two indices.
- `CompletionContext`, `CommandContext` and `CommandArg` are defined in xonsh/parsers/completion_context.py, which is not part of this model. They are kept to the fields used here, and no invariant is assumed about the argument index: like Python's `arg_index`, `argIndex` is a plain integer.
- The directory completers (xonsh/completers/dirs.py) and the bash completer test delegate to file-system listing, man-page parsing and an external `bash` process. They are not part of this model.
