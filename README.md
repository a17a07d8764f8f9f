# ccma profile store and message catalog, in Dafny

`ccma` manages named connection profiles for the Claude command-line
assistant. Each profile has a name, an endpoint URL, an auth token and an
optional model override. This project models the two pieces of logic in it.

- **The profile store** (`module Config`, config.dfy). `ConfigManager`
  keeps the record file `~/.ccma/config.json` as a field
  `file: Option<ConfigData>`, where `None` means missing or unparsable. Every
  operation loads the record with `Load`, which gives the default record
  `{configs: {}, language: zh}` for a missing or corrupt file and `zh` for a
  record without a language. The operation then changes the record and
  writes it back whole. Each mutator is proved against a specification
  function on records (`Added`, `Deleted`, `Activated`). These functions
  state the upsert, the exact deletion, the clearing of `current`, and the
  referential invariant `Consistent` (`current` names a stored profile or is
  unset). The project overlay `.claude/settings.local.json` is the second
  field `overlay: Option<Settings>`. `MergeOverlay` states how activation
  merges the three managed variables `ANTHROPIC_BASE_URL`,
  `ANTHROPIC_AUTH_TOKEN` and `ANTHROPIC_MODEL` into it. Lemmas over runs of
  add and delete commands (`ApplyOps`) show which profiles remain. They also
  show that `current` is cleared exactly when the active profile is deleted.
- **The message catalog** (`module Lang`, lang.dfy). A message table is a
  `Tree` (`Node` of named children or `Leaf` text). `I18n.T` walks the
  dotted key through the table in a loop and is proved equal to `Translate`.
  `Translate` falls back to the key when a segment is missing or falsy, when
  a segment is applied to a string, or when the path ends at an inner node.
  `Substitute` is the single left-to-right pass that replaces `{w}`
  (`w` made of `\w` characters) by a present, non-empty parameter and keeps
  the placeholder otherwise.

JavaScript truthiness is modelled explicitly. An empty model string counts
as no model (`Config.Truthy`). An empty `current` counts as no active
profile. An empty parameter value keeps its placeholder. An empty string in
the table counts as not found (`Lang.Truthy`). One consequence: activating a
profile named `""` succeeds, but `getCurrentConfig` then returns null. The
command line never does this, because `use` with an empty name lists the
profiles instead.

## Model

| member | source | states |
|---|---|---|
| Config.Load | src/lib/config.ts:34-50 | a missing or corrupt record reads as empty profiles, no current, language zh; a parsed record keeps its profiles and current, and gets zh when it has no language |
| Config.LanguageOf | src/lib/config.ts:129-132 | the language is English exactly when the stored record says `en`, and Chinese otherwise (missing file, corrupt file or no language) |
| Config.MakeProfile | src/lib/config.ts:61-66 | the built profile has the given name, url and token; it carries a model exactly when the model argument is non-empty, and then that model |
| Config.Added | src/lib/config.ts:61-69 | adding puts exactly the built profile under the name and replaces an earlier one wholesale; other profiles, current and language are unchanged; consistency is kept |
| Config.Deleted | src/lib/config.ts:76-84 | deleting a stored name removes exactly that key; current becomes unset exactly when it named it, and is otherwise unchanged; language is kept; consistency is kept |
| Config.CurrentOf | src/lib/config.ts:99-105 | the current profile is present exactly when current is set, non-empty and stored, and is then the stored profile |
| Config.Activated | src/lib/config.ts:87-97 | activating a stored name sets current to it and changes nothing else; a following getCurrentConfig returns that profile (null for the empty name) |
| Config.FormatToken | src/lib/config.ts:134-141 | tokens of at most 20 characters are shown unchanged; longer ones as 23 characters: the first ten, "...", the last ten |
| Config.FormatTokenIdempotent | src/lib/config.ts:134-141 | masking an already masked token changes nothing |
| Config.EnvOf | src/lib/config.ts:166 | the variables spread from an existing overlay: the fields of its `env` when that is an object, none otherwise |
| Config.ManagedEnv | src/lib/config.ts:165-176 | base URL and raw token are upserted; the model variable is present exactly when the profile has a non-empty model; every other env variable is kept as it was |
| Config.MergeOverlay | src/lib/config.ts:151-200 | a parsed overlay keeps every top-level key but env and gets the merged env; a missing or corrupt one becomes env plus empty allow/deny permissions, env holding only the managed variables |
| Config.MergeOverlayIdempotent | src/lib/config.ts:165-181 | activating the same profile twice leaves the overlay as after once |
| Config.MergeOverlayExample | src/lib/config.ts:165-181 | over `{env: {FOO}, permissions: {allow: [X]}}`, a profile without model gives FOO, base URL and token in env, the same permissions and no model |
| Config.ApplyOpsProfiles | src/lib/config.ts:61-84 | after a run of adds and deletes, a name is stored exactly when its last command was an add (or it was never named and was stored before), and holds the profile that add built |
| Config.ApplyOpsCurrent | src/lib/config.ts:71-84 | along adds and deletes from a consistent record, consistency holds, current is cleared exactly when the active profile is deleted in the run, and language is unchanged |
| Config.ActivateAfterAdd | src/lib/config.ts:87-105 | activating a name whose last command was an add makes getCurrentConfig return exactly the profile of that add |
| Config.ConfigManager.constructor | src/lib/config.ts:22-26 | the manager starts from the given record file and overlay file contents |
| Config.ConfigManager.AddConfig | src/lib/config.ts:61-69 | the record file becomes the loaded record with the profile upserted; the language read back is unchanged |
| Config.ConfigManager.DeleteConfig | src/lib/config.ts:71-85 | returns true exactly when the name is stored, and the file then holds the record with it deleted; on false the file is not written at all |
| Config.ConfigManager.UseConfig | src/lib/config.ts:87-97 | returns true exactly when the name is stored; then current names it, the overlay is merged with that profile, and getCurrentConfig returns it; on false neither file changes |
| Config.ConfigManager.GetCurrentConfig | src/lib/config.ts:99-105 | returns the current profile of the loaded record; in a consistent record with a non-empty current, it is present exactly when current is set |
| Config.ConfigManager.ListConfigs | src/lib/config.ts:107-111 | returns exactly the stored profiles and the current name |
| Config.ConfigManager.GetConfigNames | src/lib/config.ts:113-116 | returns exactly the stored names |
| Config.ConfigManager.ClearConfigs | src/lib/config.ts:118-121 | the file holds no profiles, no current and the language read before |
| Config.ConfigManager.SetLanguage | src/lib/config.ts:123-127 | the file holds the loaded record with the new language, and getLanguage then returns it |
| Config.ConfigManager.GetLanguage | src/lib/config.ts:129-132 | returns English exactly when the stored record says `en` |
| Config.ConfigManager.SetEnvironmentVariables | src/lib/config.ts:143-208 | the overlay file becomes the merge of the overlay read and the profile |
| Lang.Split | src/lib/lang/index.ts:22 | a key splits into at least one segment, and no segment contains a dot |
| Lang.JoinSplit | src/lib/lang/index.ts:22 | the segments joined with dots give back the key |
| Lang.Resolve | src/lib/lang/index.ts:23-30 | the empty path resolves to the table itself; a value reached by a non-empty path is never falsy |
| Lang.ResolveAppend | src/lib/lang/index.ts:25-30 | walking a path in two pieces is walking it at once, and a failed prefix fails the whole walk |
| Lang.Template | src/lib/lang/index.ts:22-34 | a key names a template exactly when its path ends at a string, which is then non-empty |
| Lang.WordPrefix | src/lib/lang/index.ts:37 | the result is the length of the longest run of `\w` characters at the start |
| Lang.PlaceholderAt | src/lib/lang/index.ts:37 | a recognised placeholder is `{`, a non-empty run of `\w` characters, `}` at the start of the text |
| Lang.PlaceholderAtWord | src/lib/lang/index.ts:37 | every `{w}` with `w` a non-empty word at the start of a text is recognised as a placeholder named w |
| Lang.SubstituteNoPlaceholder | src/lib/lang/index.ts:37-40 | a template with no placeholder is returned unchanged for any parameters |
| Lang.SubstituteIdempotent | src/lib/lang/index.ts:37-40 | substituting such a template twice is substituting it once |
| Lang.SubstituteEmptyParams | src/lib/lang/index.ts:38 | when every parameter is missing or empty, every placeholder stays verbatim |
| Lang.Replacement | src/lib/lang/index.ts:38 | a placeholder `{w}` becomes the parameter w when it is present and non-empty, and stays `{w}` otherwise; the replacement is never empty |
| Lang.Substitute | src/lib/lang/index.ts:37-39 | the global replace as one left-to-right pass: a `{w}` at the head becomes its replacement and scanning resumes after it, any other character is copied and scanning moves on by one; text without `{` is returned unchanged |
| Lang.SubstituteLiteralPrefix | src/lib/lang/index.ts:37 | text in which no placeholder starts, including a `{` that opens none, is copied unchanged in front of the substituted rest |
| Lang.SubstituteStrayBraces | src/lib/lang/index.ts:37-39 | for example, with n set to x, `{{n}}` becomes `{x}`: the outer braces open no placeholder and are copied |
| Lang.SubstitutePlaceholder | src/lib/lang/index.ts:37-39 | a leading `{w}` becomes the parameter when present and non-empty (itself otherwise), and scanning resumes after it without rescanning the inserted text |
| Lang.SubstituteSinglePass | src/lib/lang/index.ts:37 | for example, `{a}` with a set to `{b}` (and b set to x) becomes `{b}`: inserted text is not scanned again |
| Lang.Translate | src/lib/lang/index.ts:21-43 | the key itself when it names no string (missing or falsy segment, inner node); the template when there are no parameters; otherwise the template with placeholders substituted |
| Lang.TranslateMissingPrefix | src/lib/lang/index.ts:25-30 | if any prefix of the key's path fails to resolve, the translation is the key |
| Lang.I18n.TableFor | src/lib/lang/index.ts:18 | the zh table for Chinese and the en table for English |
| Lang.I18n.constructor | src/lib/lang/index.ts:11-14 | the loaded table is the one for the stored language |
| Lang.I18n.LoadMessages | src/lib/lang/index.ts:16-19 | the table becomes zh when the stored language is zh, en otherwise |
| Lang.I18n.T | src/lib/lang/index.ts:21-43 | the loop over the key's segments returns exactly Translate of the loaded table |
| Lang.I18n.SetLanguage | src/lib/lang/index.ts:45-48 | the stored language is updated and the table reselected for it |
| Lang.I18n.GetCurrentLanguage | src/lib/lang/index.ts:50-52 | returns the stored language |

## Left out

- File I/O and JSON: the two files are fields holding their parsed contents. Directory creation, reading, parsing, pretty-printing and the `console.error` logging are not modelled.
- Write failures are not modelled. In the source they propagate as exceptions. A failed overlay write after the record write in `useConfig` would leave the record changed.
- `displayEnvironmentInstructions` is not modelled. It prints platform-dependent shell instructions. Its only logic is the token mask, which is `FormatToken`.
- Records outside the declared type are not modelled: a record without `configs`, a language other than `zh`/`en`, or a non-object profile.
- Config.MergeOverlay: an `env` that is not an object contributes no variables. In JavaScript, spreading a string or an array would contribute its indices as keys. A parsed overlay that is not an object is treated as unparsable.
- Config.FormatToken: lengths count Dafny characters. JavaScript counts UTF-16 code units, so the two differ only on characters outside the Basic Multilingual Plane.
- `listConfigs`/`getConfigNames` return sets. The order of `Object.values`/`Object.keys` is not modelled.
- Lang.Translate: JavaScript property lookup quirks are not modelled. Indexing into a string (a segment applied to a `Leaf` counts as not found) and inherited keys such as `constructor` or `toString` in the table or in the parameters are left out.
- ConfigManager name lookups use a `map`, so JavaScript's inherited object keys are not modelled. Examples: `deleteConfig("toString")` in the source finds an inherited method, rewrites the file and returns true. `useConfig("constructor")` likewise succeeds. `addConfig("__proto__", …)` sets the prototype instead of storing a profile. In the model these names behave like any other name.
- The message tables `en.ts` and `zh.ts` are data. `I18n` takes them as constructor arguments.
- The command-line wiring (src/index.ts), the package check (src/lib/packageChecker.ts) and shell completion (src/lib/completion.ts) are not part of this model. They only call the operations above, run external commands, or print.
- Concurrent invocations are not modelled. In the source they race on the files, and the last writer wins.
