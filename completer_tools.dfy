/**
 * Completer tools (xonsh/completers/tools.py): the prefix filters and their
 * selector, the rich completion value, the result type of a completer, and the
 * tagging that tells the dispatcher which calling convention a completer uses.
 *
 * The environment lookup of `CASE_SENSITIVE_COMPLETIONS` becomes a parameter,
 * and setting the `contextual` attribute on a function object becomes building
 * a tagged `Completer` value.
 */
module CompleterTools {
  import opened Wrappers

  // ---------------------------------------------------------------------
  // String helpers: `str.lower` and `str.startswith`

  /** Lower-casing of one character, restricted to ASCII letters. */
  function LowerChar(c: char): char {
    if 'A' <= c <= 'Z' then (c as int + 32) as char else c
  }

  /** `s.lower()`, restricted to ASCII: each character lowered in place. */
  function Lower(s: string): (r: string)
    ensures |r| == |s|
    ensures forall i :: 0 <= i < |s| ==> r[i] == LowerChar(s[i])
  {
    if s == [] then [] else [LowerChar(s[0])] + Lower(s[1..])
  }

  /** `s.startswith(x)`, compared character by character. */
  function StartsWith(s: string, x: string): (r: bool)
    ensures r <==> x <= s
  {
    if x == [] then true
    else if s == [] then false
    else s[0] == x[0] && StartsWith(s[1..], x[1..])
  }

  // ---------------------------------------------------------------------
  // Prefix filters and their selector

  /** `_filter_normal`: the typed text is an exact-case prefix of the candidate. */
  function FilterNormal(s: string, x: string): (r: bool)
    ensures r <==> |x| <= |s| && s[..|x|] == x
  {
    StartsWith(s, x)
  }

  /** `_filter_ignorecase`: the typed text is a prefix of the candidate once both are lowered. */
  function FilterIgnoreCase(s: string, x: string): (r: bool)
    ensures r <==> |x| <= |s| && forall i :: 0 <= i < |x| ==> LowerChar(s[i]) == LowerChar(x[i])
  {
    StartsWith(Lower(s), Lower(x))
  }

  /** `get_filter_function`: the exact-case filter when the flag is set and
      true, the case-folding filter when it is false or absent. */
  function GetFilterFunction(caseSensitive: Option<bool>): (f: (string, string) -> bool)
    ensures forall s, x :: f(s, x) <==> (if caseSensitive == Some(true) then x <= s else Lower(x) <= Lower(s))
  {
    if caseSensitive == Some(true) then FilterNormal else FilterIgnoreCase
  }

  /** Lowering is idempotent. */
  lemma LowerIdempotent(s: string)
    ensures Lower(Lower(s)) == Lower(s)
  {
  }

  /** Whatever passes the exact-case filter passes the case-folding one. */
  lemma NormalImpliesIgnoreCase(s: string, x: string)
    ensures FilterNormal(s, x) ==> FilterIgnoreCase(s, x)
  {
  }

  /** The case-folding filter does not see the case of either argument. */
  lemma IgnoreCaseSeesNoCase(s: string, x: string)
    ensures FilterIgnoreCase(s, x) == FilterIgnoreCase(Lower(s), x)
    ensures FilterIgnoreCase(s, x) == FilterIgnoreCase(s, Lower(x))
  {
    LowerIdempotent(s);
    LowerIdempotent(x);
  }

  /** `"README"` begins with `"read"` only when case is ignored. */
  lemma ReadmeExample()
    ensures GetFilterFunction(None)("README", "read")
    ensures GetFilterFunction(Some(false))("README", "read")
    ensures !GetFilterFunction(Some(true))("README", "read")
  {
  }

  // ---------------------------------------------------------------------
  // Rich completions

  /** A `RichCompletion`: text plus the metadata the completion menu shows. */
  datatype RichCompletion = RichCompletion(
    value: string,
    prefixLen: Option<int>,
    display: string,
    description: string,
    style: string)

  /** A completion is a plain string or a rich completion. */
  datatype Completion = Plain(text: string) | Rich(rich: RichCompletion)

  /** `RichCompletion.__new__`: the given text, the display falling back to the
      text when none or an empty one is given, the other fields as passed, with
      their defaults. */
  function NewRichCompletion(value: string, prefixLen: Option<int> := None,
                             display: Option<string> := None,
                             description: string := "", style: string := ""): (c: RichCompletion)
    ensures c.value == value && c.prefixLen == prefixLen
    ensures c.description == description && c.style == style
    ensures display.Some? && display.value != "" ==> c.display == display.value
    ensures display.None? || display == Some("") ==> c.display == value
  {
    var shown := if display.Some? && display.value != "" then display.value else value;
    RichCompletion(value, prefixLen, shown, description, style)
  }

  /** The string a completion stands for: its identity for equality and hashing. */
  function Text(c: Completion): (t: string)
    ensures c.Plain? ==> t == c.text
    ensures c.Rich? ==> t == c.rich.value
  {
    match c
    case Plain(s) => s
    case Rich(r) => r.value
  }

  /** Python equality of completions: that of the underlying strings. */
  function SameCompletion(a: Completion, b: Completion): (same: bool)
    ensures same <==> Text(a) == Text(b)
    ensures a == b ==> same
  {
    Text(a) == Text(b)
  }

  /** With only the text given, every metadata field takes its default. */
  lemma RichCompletionDefaults(value: string)
    ensures NewRichCompletion(value) == RichCompletion(value, None, value, "", "")
  {
  }

  /** Completions with the same text are equal whatever their metadata, and a
      rich completion equals the plain string of its text. */
  lemma EqualityIgnoresMetadata(value: string,
                                p1: Option<int>, d1: Option<string>, e1: string, y1: string,
                                p2: Option<int>, d2: Option<string>, e2: string, y2: string)
    ensures SameCompletion(Rich(NewRichCompletion(value, p1, d1, e1, y1)),
                           Rich(NewRichCompletion(value, p2, d2, e2, y2)))
    ensures SameCompletion(Rich(NewRichCompletion(value, p1, d1, e1, y1)), Plain(value))
  {
  }

  /** No two members of the set share a text, as in a Python set of completions. */
  predicate TextUnique(s: set<Completion>) {
    forall a, b :: a in s && b in s && Text(a) == Text(b) ==> a == b
  }

  /** A Python set of completions: members are told apart by their text only. */
  type CompletionSet = s: set<Completion> | TextUnique(s) witness {}

  /** A set of completions never holds a plain string and a rich completion
      with the same text, nor two rich completions differing only in metadata. */
  lemma OneCompletionPerText(s: CompletionSet, a: Completion, b: Completion)
    requires a in s && b in s && SameCompletion(a, b)
    ensures a == b
  {
  }

  /** The texts of a set of completions. */
  function Texts(s: set<Completion>): set<string> {
    set c | c in s :: Text(c)
  }

  /** `set.add` on completions: an element equal by text to one already present
      is not added, so plain and rich completions deduplicate against each other. */
  function AddCompletion(s: CompletionSet, c: Completion): (r: CompletionSet)
    ensures Texts(r) == Texts(s) + {Text(c)}
    ensures s <= r && |r| <= |s| + 1
    ensures (exists e :: e in s && Text(e) == Text(c)) ==> r == s
    ensures !(exists e :: e in s && Text(e) == Text(c)) ==> r == s + {c}
  {
    if exists e :: e in s && Text(e) == Text(c) then s
    else
      var r := s + {c};
      assert Texts(r) == Texts(s) + {Text(c)};
      r
  }

  // ---------------------------------------------------------------------
  // Completion contexts, results and completers

  /** One token of the command being typed. */
  datatype CommandArg = CommandArg(value: string)

  /** The command under the cursor: its arguments, the index of the active
      one and the text already typed there. */
  datatype CommandContext = CommandContext(args: seq<CommandArg>, argIndex: int, prefix: string)

  /** What contextual completers receive; only its command part is modelled. */
  datatype CompletionContext = CompletionContext(command: Option<CommandContext>)

  /** `CompleterResult`: no result, a set of completions, or a set together with
      the length of the prefix its members replace. */
  datatype CompleterResult =
    | NoResult
    | Completions(completions: CompletionSet)
    | CompletionsWithLen(completions: CompletionSet, prefixLen: int)

  /** The arguments of the legacy convention: prefix, line, begin and end index. */
  datatype LegacyRequest = LegacyRequest(prefix: string, line: string, begidx: int, endidx: int)

  /** A registered completer: an untagged function called with the legacy
      arguments, or one tagged `contextual` and called with the context. */
  datatype Completer =
    | Legacy(legacy: LegacyRequest -> CompleterResult)
    | Contextual(contextual: CompletionContext -> CompleterResult)

  /** `contextual_completer`: tags the function and returns it unchanged. */
  function ContextualCompleter(f: CompletionContext -> CompleterResult): (c: Completer)
    ensures c.Contextual?
    ensures forall ctx :: c.contextual(ctx) == f(ctx)
  {
    Contextual(f)
  }

  /** `is_contextual_completer`: the `contextual` tag, false when it was never set. */
  function IsContextualCompleter(c: Completer): (tagged: bool)
    ensures tagged <==> c.Contextual?
  {
    match c
    case Legacy(_) => false
    case Contextual(_) => true
  }

  /** A tagged function is recognised as contextual; an untagged one is not. */
  lemma TaggingIsRecognised(f: CompletionContext -> CompleterResult,
                            g: LegacyRequest -> CompleterResult)
    ensures IsContextualCompleter(ContextualCompleter(f))
    ensures !IsContextualCompleter(Legacy(g))
  {
  }

  /** `contextual_command_completer`: a contextual completer that declines when
      there is no command under the cursor and otherwise hands the command
      context to `f`. */
  function ContextualCommandCompleter(f: CommandContext -> CompleterResult): (c: Completer)
    ensures IsContextualCompleter(c)
    ensures forall ctx :: c.contextual(ctx) == (if ctx.command.None? then NoResult else f(ctx.command.value))
  {
    ContextualCompleter((ctx: CompletionContext) => if ctx.command.Some? then f(ctx.command.value) else NoResult)
  }
}
