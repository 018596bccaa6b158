# Vireo "Translate My Thought" — a Dafny model

Vireo is a small Streamlit app. The user types a thought and picks a poetic
style. The app then returns one line in that style. The line comes either from
a fixed offline template ("demo mode") or from a chat-completion service
("API mode"). API mode is unlocked by an access code and an API key. If the
service call fails, the app falls back to the offline line. The app can also
copy the line to the clipboard.

This project models the logic of `pages/01_Translate_My_Thought.py`:

- `base.dfy` (`Base`): `Option` and `Result`.
- `pystr.dfy` (`PyStr`): the Python string operations the page relies on.
  These are `str.strip`, `s.split(sep)[0]` and `str.capitalize`, over ASCII
  whitespace and ASCII letters.
- `styles.dfy` (`Styles`): the style catalog loaded from `poetic_modes.json`.
  It holds the `style_names` filter, `get_style_block`, and the
  `_meta.system_prefix` lookup.
- `prompt.dfy` (`Prompt`): `build_messages`, which builds the chat request:
  - the system prefix;
  - the style prompt;
  - the usable few-shot pairs;
  - the stripped user text.
- `demo.dfy` (`DemoLines`): `demo_translate` with its table of 22 templates,
  plus the default template.
- `paywall.dfy` (`Paywall`): the sidebar gate that sets `demo_mode`.
- `clipboard.dfy` (`Clipboard`): the escaping in `copy_button`, how a browser
  reads the result back, and a corrected escaping.
- `resolver.dfy` (`Resolver`): the Translate button. The chat service is a
  parameter: a total function from the request to `Generated(content)` or
  `Failed`.

Secrets, widget values and the JSON catalog are passed in as values.

## Behaviour worth knowing

- **Turn count.** `build_messages` adds a user turn and an assistant turn per
  kept example, so N kept examples give 2N+3 turns
  (`Prompt.BuildMessagesAllKept`).
- **System prefix.** `modes["_meta"]["system_prefix"]` is read
  unconditionally. Without it, `build_messages` raises. In live mode the call
  sits inside the `try`, so the user gets the demo line (`Resolver.Translate`).
- **Placeholder.** In `demo_translate` only the empty string gets the
  placeholder "this moment". A whitespace-only thought is stripped to an empty
  subject (`DemoLines.Subject`). The Translate button never passes such a
  thought.
- **Empty turns.** Only the example pairs are checked for text. The system
  prefix and the style prompt are sent as they are, even when empty; a style
  object without a `prompt` sends `""`.
- **Empty live reply.** A live reply is the generator's content, stripped. It
  can be empty. The page then shows it but skips the share section.
- **Blank access code.** A configured code that is blank once stripped lets an
  empty access code through (`Paywall.BlankCodeAccepted`).

## Model

| member | source | states |
|---|---|---|
| Styles.StyleNames | pages/01_Translate_My_Thought.py:20 | a name is listed exactly when it is a catalog key other than `_meta`; `_meta` is never listed |
| Styles.StyleNamesAppend | pages/01_Translate_My_Thought.py:20 | the filter keeps the catalog's key order: the list for two runs of keys is the two lists joined |
| Styles.StyleNamesWithoutMeta | pages/01_Translate_My_Thought.py:20 | keys without `_meta` are listed unchanged, in order |
| Styles.StyleNamesDropMeta | pages/01_Translate_My_Thought.py:20 | a `_meta` entry between styles `a` and `b` is dropped and the rest is `a` followed by `b` |
| Styles.StyleNamesDistinct | pages/01_Translate_My_Thought.py:20 | distinct catalog keys give a style list without repeats |
| Styles.StyleNamesResolve | pages/01_Translate_My_Thought.py:23-24 | in a catalog whose key list is the keys of its entries, every listed style resolves in `get_style_block`, so picking from the list never raises |
| Styles.GetStyleBlock | pages/01_Translate_My_Thought.py:23-33 | raises `KeyError(name)` exactly for a missing style; an object entry gives its prompt and examples, defaulting to "" and none; any other entry is the prompt, with no examples; `desc` is the description of the prompt |
| Styles.Describe | pages/01_Translate_My_Thought.py:32 | the description holds no `.`, has no surrounding whitespace, and is empty for an empty prompt |
| Styles.DescribeFirstSentence | pages/01_Translate_My_Thought.py:32 | for a prompt `a + "." + b` with no `.` in `a`, the description is `a` stripped: the first sentence |
| Styles.DescribeOneSentence | pages/01_Translate_My_Thought.py:32 | a prompt without `.` is described by the whole prompt, stripped |
| Styles.SystemPrefix | pages/01_Translate_My_Thought.py:37 | the prefix is found exactly when `_meta` is an object holding `system_prefix`; otherwise the error names the missing key or the entry that cannot be subscripted |
| PyStr.Strip | pages/01_Translate_My_Thought.py:45-46 | the result has no whitespace at either end; it is empty exactly when the input is all whitespace; otherwise it is the slice from the first to the last character that is not whitespace |
| PyStr.StripStripped | pages/01_Translate_My_Thought.py:45-46 | a string without whitespace at its ends is its own `strip` |
| PyStr.StripIdempotent | pages/01_Translate_My_Thought.py:45-46 | stripping twice equals stripping once |
| PyStr.StripPadding | pages/01_Translate_My_Thought.py:145 | whitespace added around a string does not change its `strip` |
| PyStr.BeforeFirst | pages/01_Translate_My_Thought.py:32 | `split(sep)[0]` is the longest prefix without `sep`: it is followed by `sep` or ends the string |
| PyStr.Capitalize | pages/01_Translate_My_Thought.py:195 | same length and same letters up to case; the first character is not lower case and the others are not upper case |
| PyStr.CapitalizeIdempotent | pages/01_Translate_My_Thought.py:195 | capitalizing twice equals capitalizing once |
| Prompt.KeptPairs | pages/01_Translate_My_Thought.py:44-47 | at most one pair per example; each side of each kept pair is non-empty and stripped; every example with text on both sides contributes its stripped pair |
| Prompt.FewShots | pages/01_Translate_My_Thought.py:44-49 | the loop's output is the kept pairs, in example order, each as a user turn then an assistant turn |
| Prompt.TurnsAt | pages/01_Translate_My_Thought.py:48-49 | turn `2i` is the user side of pair `i` and turn `2i+1` its assistant side |
| Prompt.KeptTurnAt | pages/01_Translate_My_Thought.py:44-49 | the few-shot turns alternate user and assistant, and each has stripped, non-empty text |
| Prompt.FewShotsAppend | pages/01_Translate_My_Thought.py:44-49 | the few-shot section of joined example lists is the two sections joined |
| Prompt.FewShotsSkipsEmpty | pages/01_Translate_My_Thought.py:47 | an example with an empty side, wherever it stands, adds nothing to the request |
| Prompt.FewShotsKeeps | pages/01_Translate_My_Thought.py:45-49 | an example with text on both sides, wherever it stands, adds its stripped thought as a user turn and its stripped line as an assistant turn, between the turns of its neighbours |
| Prompt.BuildMessages | pages/01_Translate_My_Thought.py:36-51 | succeeds exactly when the prefix and the style exist, else reports the error raised; on success it holds 3 + 2·(kept pairs) turns: the system prefix, the style prompt, the few-shot section, and the stripped user text last |
| Prompt.BuildMessagesFewShotTurns | pages/01_Translate_My_Thought.py:40-50 | between the two system turns and the final user turn, even positions are user turns and odd positions assistant turns, all with stripped, non-empty text |
| Prompt.BuildMessagesAllKept | pages/01_Translate_My_Thought.py:44-50 | when every example has text on both sides, the request has 3 + 2N turns for N examples |
| DemoLines.Subject | pages/01_Translate_My_Thought.py:192 | the empty thought becomes "this moment"; an all-whitespace thought becomes empty; any other thought is stripped and stays non-empty |
| DemoLines.Shown | pages/01_Translate_My_Thought.py:194-195 | the thought as placed in the line has the same length and the same letters up to case |
| DemoLines.TemplateAfterNonEmpty | pages/01_Translate_My_Thought.py:193-217 | every template, including the default, ends in fixed text |
| DemoLines.DemoTranslate | pages/01_Translate_My_Thought.py:191-217 | the line is never empty; it starts with the style's fixed opening, ends with its fixed ending, and has exactly the thought's length in between |
| DemoLines.DemoRoundTrip | pages/01_Translate_My_Thought.py:191-217 | reading the thought back out of a style's line gives the trimmed thought exactly (capitalized for Stoic) |
| DemoLines.DemoKeepsThought | pages/01_Translate_My_Thought.py:191-217 | in every style the line carries the trimmed thought, up to letter case |
| DemoLines.DemoDefault | pages/01_Translate_My_Thought.py:217 | a style outside the table gets "<thought> turns toward light." |
| DemoLines.DemoStoicExample | pages/01_Translate_My_Thought.py:195 | "I feel stuck." in the Stoic style gives "I feel stuck. is opinion; choose the next right action." |
| Paywall.ValidCodes | pages/01_Translate_My_Thought.py:124-133 | every valid code is stripped; a `codes` list gives exactly its items, each stripped, in order, even when empty; otherwise a `code` string gives that one code, stripped; otherwise, and without a `paywall` section, there are none |
| Paywall.DemoMode | pages/01_Translate_My_Thought.py:145-163 | live mode holds exactly when the paid mode is chosen, some code is configured, the stripped access code is one of them, and the API key has text |
| Paywall.AccessCodePadding | pages/01_Translate_My_Thought.py:145 | whitespace typed around the access code does not change the mode |
| Paywall.ConfiguredCodeUnlocks | pages/01_Translate_My_Thought.py:128-159 | any item of a configured `codes` list unlocks live mode when the API key has text |
| Paywall.BlankCodeAccepted | pages/01_Translate_My_Thought.py:145 | a configured code that is blank once stripped unlocks live mode with an empty access code |
| Paywall.LockedWithoutCodesOrKey | pages/01_Translate_My_Thought.py:145-163 | with no configured code, or no API key with text, the page is in demo mode whatever is typed |
| Clipboard.ReplaceAbsent | pages/01_Translate_My_Thought.py:223 | `replace` leaves a string without the pattern unchanged |
| Clipboard.ChainOne | pages/01_Translate_My_Thought.py:223 | the chain of `replace` calls escapes a single character once: backslashes added by a call are not escaped again by later calls |
| Clipboard.ChainAppend | pages/01_Translate_My_Thought.py:223 | the escaping of joined strings is the two escapings joined |
| Clipboard.ChainIsPerChar | pages/01_Translate_My_Thought.py:223 | the four `replace` calls amount to escaping each character on its own |
| Clipboard.Escape | pages/01_Translate_My_Thought.py:223 | `safe` holds no raw newline, and undoing the four escapes gives the line back |
| Clipboard.ChainRoundTrip | pages/01_Translate_My_Thought.py:223 | the four chained `replace` calls leave no raw newline and are undone by reading each escape back |
| Clipboard.EscapeUnchanged | pages/01_Translate_My_Thought.py:223 | text without backslash, backtick, double quote or newline passes unchanged |
| Clipboard.EscapeReadsBackWithoutDollar | pages/01_Translate_My_Thought.py:223-225 | for text without `$` or carriage return, the template literal evaluates to the text |
| Clipboard.EscapeOpensSubstitution | pages/01_Translate_My_Thought.py:223-225 | `${x}` survives the escaping, and the template literal does not evaluate to the text |
| Clipboard.EscapeBreaksAttribute | pages/01_Translate_My_Thought.py:223-225 | a `"` in the text, escaped with a backslash, still ends the `onclick` attribute |
| Clipboard.EscapeDecodesEntities | pages/01_Translate_My_Thought.py:223-225 | `&amp;` in the text reaches the clipboard as `&` |
| Clipboard.EscapeForTemplate | pages/01_Translate_My_Thought.py:223-225 | corrected escaping: the template literal evaluates to exactly the text |
| Clipboard.CopyAttribute | pages/01_Translate_My_Thought.py:223-225 | corrected escaping for both contexts: the attribute holds no raw `"`; the browser reads it as the template escaping, which evaluates to the text |
| Resolver.Translate | pages/01_Translate_My_Thought.py:236-260 | blank input gives no line. Demo mode gives the demo line. Otherwise the generator is called exactly when the request can be built, and with exactly that request. A live line is the stripped answer. Every other line is the non-empty demo line. |
| Resolver.OfflineIgnoresGenerator | pages/01_Translate_My_Thought.py:237-243 | blank input and demo mode give the same outcome whatever the generator |
| Resolver.GeneratorSeenOnlyOnRequest | pages/01_Translate_My_Thought.py:245-260 | the outcome depends on the generator only through its answer to the built request |
| Resolver.FailureFallsBack | pages/01_Translate_My_Thought.py:256-260 | a failed generation in live mode gives exactly the demo line |
| Resolver.TranslatePage | pages/01_Translate_My_Thought.py:145-246 | a request reaches the generator only in the paid mode, with a configured access code, and with an API key that has text |
| Resolver.AlwaysAnswers | pages/01_Translate_My_Thought.py:236-260 | text to translate always gets a line: the live line or the demo line |

## Left out

- UI. This covers page configuration, CSS, headings, status pills, warning and
  error texts, and how `st.success` renders the line. None of it affects which
  line is produced.
- Reading `poetic_modes.json`, `assets/vireo_theme.css` and `st.secrets`. The
  catalog, the paywall section and the API key are parameters.
- Non-string JSON values.
  - Prompts, example sides and `system_prefix` are modelled as strings, and
    examples as objects; an example that is not an object, which would make
    `build_messages` raise, is not modelled.
  - A non-string `prompt` that would make `split` raise is not modelled.
  - Items of a `codes` list are taken as already passed through `str()`.
  - A non-string `api_key` that would make `strip` raise is not modelled.
- The checkout link (lines 118-122 and 136-137). It is display only.
- The style picker's session state and `random.choice` in "Surprise Me"
  (lines 168-177). Randomness is out of scope. The selected style is a
  parameter.
- The `style_names[0]` crash on a catalog without styles (line 169). The
  model takes the selected style as given.
- The chat-completion call itself (lines 247-252).
  - The model name, temperature and token limit are not modelled.
  - Any exception is the generator's `Failed` answer. This includes a `None`
    content, whose `strip` raises inside the `try`.
- The share section (lines 262 onward). Not modelled:
  - the `#VIREO` suffix;
  - URL quoting;
  - the share links;
  - skipping the section for an empty line.

  The escaping in `copy_button` is modelled for any text.
- Unicode semantics.
  - Whitespace is the ASCII set that `str.isspace` accepts. Python also
    counts characters such as U+0085, U+00A0 and U+2000-U+200A.
  - `capitalize` changes ASCII letters only. Python's title-casing of special
    characters is not modelled.
- Clipboard.TemplateValue: only the escapes `\\`, `` \` ``, `\"`, `\$`, `\n`
  and `\r` are modelled. Any other backslash sequence reads as not plain text.
- Clipboard.AttributeValue: only `&amp;` and `&quot;` are modelled. Any other
  `&` reads as not plain text. This is stricter than HTML, which keeps an
  unmatched `&` as it is.
- `Home.py` and `translate_my_thought.py` are not part of this model.

## Findings

| source | as written | input that shows it | evidently intended | confidence | as-written member | corrected member |
|---|---|---|---|---|---|---|
| pages/01_Translate_My_Thought.py:223 | backslash, backtick, `"` and newline are escaped for the JavaScript template literal at line 225; `$` and carriage return are not | a line containing `${x}`: it passes unchanged and opens a substitution, so the text is not what gets copied (a raw carriage return would also be copied as a line feed) | the literal evaluates to exactly the line: also escape `$` as `\$` and carriage return as `\r` | not executed | Clipboard.EscapeOpensSubstitution | Clipboard.EscapeForTemplate |
| pages/01_Translate_My_Thought.py:223 | `"` is escaped as `\"`, but the literal sits inside a double-quoted HTML `onclick` attribute, where a backslash does not escape; `&` is not escaped either | a line containing `"` ends the attribute early (Clipboard.EscapeBreaksAttribute); a line containing `&amp;` is copied as `&` (Clipboard.EscapeDecodesEntities) | HTML-escape `&` and `"` after the template escaping, so the attribute decodes to the literal and the literal evaluates to the line | not executed | Clipboard.EscapeBreaksAttribute | Clipboard.CopyAttribute |
