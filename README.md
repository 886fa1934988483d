# wat front end — a Dafny model

`wat` is a command-line cheat-sheet browser. Its front end, `src/index.js`,
registers the shell commands and translates the process's command line into
a first command. This project models the sequential logic in that file. Each
command handler becomes a function or method that takes the collaborators'
results as plain inputs. Each one returns what the handler logs and how many
times it calls its completion callback `cb`.

- **Recency window** (`Recency`, `Show`). `show updates` and `show hist`
  print the newest entries of the update queue or the history, newest
  first. The requested maximum falls back to 30 or 20 when it is absent or
  zero.
- **Queue labels** (`QueueLabel`, built on the JavaScript string operations
  in `Text`). A queued document path is cut down to its part after `docs/`.
  Its `/`s become spaces, and the first `.md`, `.detail`, `.install` and
  ` index` are rewritten.
- **Command-line translation** (`Argv`). The parsed command line becomes
  `args`. The `_` entry becomes `commands`. Every other key becomes an
  option, with `d` and `i` renamed to `detail` and `install`.
- **Catch-all lookup** (`Lookup`). A phrase that names no other command is
  looked up. A leading `wat` is dropped first. The handler then does one of
  these:
  - fetches the exact document, with a warning when the requested variant
    is missing;
  - lists the resolver's suggestions;
  - auto-selects a single positive search hit;
  - lists at most eight "did you mean" entries;
  - reports that nothing matched.
- **Update callback** (`UpdateCommand`). When the index update succeeds,
  the handler reports it, mentions the queue length and completes. When it
  fails, the handler logs nothing and never completes.

Conventions of the model:

- Colouring (`chalk`) is the identity.
- The log is a sequence of `Console.Line` values. The completion count is
  `Console.Reply.completions`.
- The resolver `buildPath`, the fuzzy `search`, the resource naming
  `buildExtension` and the document `fetch` are total functions in a
  `Lookup.Env`. Their code is not part of this model. The fetch callback's
  argument is the function's result.
- `fetch` and `clerk.index.update` each call their callback exactly once.
  The completion counts of `Lookup.CatchAll` and
  `UpdateCommand.OnIndexUpdated` rest on this.

## Model

| member | source | states |
|---|---|---|
| Recency.Limit | src/index.js:130-131 | Defines the clamped lower bound `max(0, n - 1 - m)` that both display loops stop above (also lines 161-162); no contract of its own. |
| Recency.Descend | src/index.js:137 | Defines the countdown `hi, hi - 1, ..., lo + 1` that the loop counter runs through (also line 164); no contract of its own. |
| Recency.Shown | src/index.js:130-137 | Defines the shown count for a positive maximum, `min(m, n - 1)`, and none for an empty list; no contract of its own. `Window` states its length with it. |
| Recency.Window | src/index.js:130-137 | The loop visits `Shown(n, m)` indices when `m` is positive and none for a non-positive maximum. The j-th visited index is `n - 1 - j`. |
| Recency.WindowOrder | src/index.js:130-137 | Visited indices go strictly downward from `n - 1` to `limit + 1`, where `limit = max(0, n - 1 - m)`. All of them lie in `[1, n - 1]`, so index 0 is never shown. |
| Recency.DescendAt | src/index.js:137 | A countdown from `hi` to just above `lo` has `hi - lo` steps, and its j-th step is `hi - j`. |
| Recency.WindowLog | src/index.js:137-146 | When a display loop stops, the lines after the header are exactly the entries of the window's indices, in window order. |
| Recency.LogStep | src/index.js:145 | Logging the entry for index `i` keeps line `j` equal to the entry for index `n - j`. |
| Recency.OldestEntryHidden | src/index.js:130-137 | As written, a list no longer than the maximum shows all entries but index 0, and a one-entry list shows none. |
| Recency.IntendedWindow | src/index.js:130-137 | The corrected window: the `min(m, n)` newest indices, counting down from `n - 1`, as the loop would visit them with the bound clamped to -1. |
| Recency.IntendedWindowShowsAll | src/index.js:130-137 | The corrected window shows every index of a list no longer than the maximum, index 0 included. |
| Show.MaxOrDefault | src/index.js:129 | Defines `max || default`: an absent or zero maximum gives the default (also line 160); no contract of its own. |
| Show.Entry | src/index.js:145 | Defines the line logged for one queued path: two spaces, then its label; no contract of its own. |
| Show.KindLabel | src/index.js:155-158 | Defines the `types` table: `command` and `update` have a column label and every other type has none; no contract of its own. |
| Show.Row | src/index.js:165-168 | Defines the row logged for one history record: its raw date, its type's column label and its value; no contract of its own. |
| Show.ShowUpdates | src/index.js:128-148 | Logs the header, or the empty-queue message when the queue is empty. Then it logs one label line per window index, newest first, then a blank line. It completes once. An absent or zero maximum shows `Shown(n, 30)` entries: `min(30, n - 1)`, and none for an empty queue. |
| Show.ShowHistory | src/index.js:159-171 | Logs the column header, one row per window index (newest first, default maximum 20), and a blank line. It completes once. |
| QueueLabel.Label | src/index.js:138-144 | Defines the label rewrite: the `docs/` part, split on `/` and joined with spaces, then the four rewrites in order. Its properties are the lemmas below. |
| QueueLabel.DocsPart | src/index.js:138-139 | Defines `split('docs/')` followed by taking the second piece if there is one, else the first; `DocsPartBetween` states what that keeps. |
| QueueLabel.ReplaceEach | src/index.js:141-144 | Defines the chain of first-occurrence `replace` calls, applied in order; `ReplaceEachKeepsOut` and `ReplaceEachAbsent` state its properties. |
| QueueLabel.DocsPartBetween | src/index.js:138-139 | With no `docs/`, the whole path is kept. Otherwise only the text between the first `docs/` and the next one (or the end) is kept. |
| QueueLabel.LabelHasNoSlash | src/index.js:138-144 | No label contains a `/`. |
| QueueLabel.ReplaceEachKeepsOut | src/index.js:141-144 | Rewrites whose replacement texts lack a character never introduce it. |
| QueueLabel.ReplaceEachAbsent | src/index.js:141-144 | Rewrites whose patterns do not occur leave the text unchanged. |
| QueueLabel.LabelOfPlainPath | src/index.js:138-144 | A path with no `docs/`, no `/` and none of the four suffixes is its own label. Nothing beyond the rewrites changes. |
| Text.IndexOf | src/index.js:138 | `indexOf`, which `split` and `replace` use to find their text pattern. Its result is -1 or a position where the pattern fits; `IndexOfFinds` states the rest. |
| Text.ReplaceFirst | src/index.js:141-144 | Defines `replace` with a text pattern; `ReplaceFirstAt` states its meaning. |
| Text.Split | src/index.js:138 | `split` with a non-empty text separator always gives at least one piece (also lines 140 and 230); `SplitAt` states where it cuts and `JoinSplit` that `join` inverts it. |
| Text.SplitAt | src/index.js:138 | Without an occurrence of the separator the text is a single piece. Otherwise the first piece is the text before the first occurrence, and the rest is the split of the text after it (also lines 140 and 230). |
| Text.Join | src/index.js:140 | Defines `join`: the pieces with the separator between them, an empty array giving the empty text; no contract of its own. |
| Text.IndexOfFinds | src/index.js:141 | `indexOf` returns the first occurrence of the pattern, or -1 exactly when the pattern does not occur. |
| Text.ReplaceFirstAt | src/index.js:141-144 | `replace` with a text pattern rewrites only the first occurrence and leaves the text as it is when there is none. |
| Text.ReplaceFirstChars | src/index.js:141-144 | A character absent from the text and from the replacement is absent from the result. |
| Text.ReplaceSelf | src/index.js:251 | Replacing a pattern by itself leaves the text unchanged. |
| Text.JoinSplit | src/index.js:140 | `split` followed by `join` with the same separator gives back the text. |
| Text.JoinSplitSlashes | src/index.js:140 | Splitting on `/` and joining with a space replaces every `/` by a space. The same expression builds the suggestion prefix at line 230. |
| Text.TrimStart | src/index.js:230 | Drops the leading white space only. The result is a suffix that starts with no white space. |
| Text.TrimEnd | src/index.js:230 | Drops the trailing white space only. The result is a prefix that ends with no white space. |
| Text.Trim | src/index.js:230 | `trim`'s result sits in the text between white-space-only margins, and it neither starts nor ends with white space. |
| Text.LowerAscii | src/index.js:198 | Defines `toLowerCase` on ASCII letters, every other character kept; no contract of its own. No character outside ASCII lower-cases into `w`, `a` or `t`, so for the comparison with `wat` this decides as full case mapping does. |
| Text.IsSpace | src/index.js:230 | Defines the characters `trim` removes: JavaScript's WhiteSpace and LineTerminator sets; no contract of its own. Every `Trim` row is stated with it. |
| Text.SpacesForSlashes | src/index.js:140 | Defines the reference for `split('/').join(' ')`: the text with each `/` made a space and every other character kept; no contract of its own. `JoinSplitSlashes` and `ListSuggestions` are stated against it (also line 230). |
| Text.Decimal | src/index.js:113 | The decimal numeral a template literal renders for a count, never empty; `DecimalValue` states that it stands for the count. |
| Text.DigitsValue | src/index.js:113 | Defines the number a string of decimal digits stands for, most significant digit first; no contract of its own. |
| Text.DecimalValue | src/index.js:113 | The rendered numeral is made of digits, stands for the count, and starts with `0` exactly when the count is zero. |
| Argv.OptionName | src/index.js:276-281 | Defines the option name a key is stored under: its alias from the `xlt` table, or the key itself; no contract of its own. |
| Argv.Translated | src/index.js:272-281 | Defines the `args` after the loop has visited a prefix of the entries; the lemmas below state its properties. |
| Argv.Translate | src/index.js:270-283 | The loop's `args` equals the fold `Translated` over the entries in enumeration order. |
| Argv.UnderscoreIsNoOption | src/index.js:273-275 | `_` never becomes an option. |
| Argv.OptionKeys | src/index.js:276-281 | A name is an option exactly when some non-`_` key is that name, or aliases to it. |
| Argv.LastEntryWins | src/index.js:276-281 | An option holds the value of the last entry stored under its name. When `d` and `detail` both occur, the later one wins. |
| Argv.CommandsFromUnderscore | src/index.js:273-275 | `commands` is the value of the last `_` entry. |
| Argv.NoCommandsWithoutUnderscore | src/index.js:270-283 | Without a `_` entry, `commands` stays absent. |
| Lookup.IsWat | src/index.js:198 | Defines the leading-word test: the word lower-cased is `wat`; `WatSpellings` states which words pass. |
| Lookup.WatSpellings | src/index.js:198 | The leading word counts as `wat` exactly for its eight capitalisations. |
| Lookup.StripWat | src/index.js:198-200 | At most one word is removed, and only a leading `wat` in any case. The remaining words keep their order. |
| Lookup.Warning | src/index.js:207-214 | A warning appears only for a requested variant the leaf lacks. A missing detailed write-up takes precedence over a missing install write-up. |
| Lookup.WarningLines | src/index.js:210-214 | At most one warning line is logged, and one is logged exactly when a warning applies. |
| Lookup.Report | src/index.js:217-221 | Defines the line the fetch callback logs: the document, or the error after its heading; no contract of its own. |
| Lookup.RouteOf | src/index.js:226-258 | Defines the dispatch test: exact path, then suggestions, then a single positive hit, then any hits, then none; `CatchAll` states what each route logs. |
| Lookup.Resolved | src/index.js:202 | Defines the first resolution: `buildPath` applied to the words left after `wat` is dropped, joined by spaces; no contract of its own. |
| Lookup.Hits | src/index.js:236 | Defines the search results: `search` receives the stripped word array itself, not the joined text; no contract of its own. |
| Lookup.RouteFor | src/index.js:202-239 | Defines the route one call takes: `RouteOf` of the first resolution and the search results for the stripped words. `CatchAll`'s contract is stated route by route with it; no contract of its own. |
| Lookup.Showing | src/index.js:241 | Defines the auto-select message naming the selected command; no contract of its own. |
| Lookup.ExecPath | src/index.js:205-224 | Fetches the name `buildExtension` gives. It logs the warning line (if any), then the document or the error, and completes once. |
| Lookup.ListSuggestions | src/index.js:228-233 | Logs the header, then one line per suggestion in order. Each line is prefixed by the trimmed path with its `/`s made spaces. A blank line follows. |
| Lookup.ListGuesses | src/index.js:247-254 | Logs the header, then the commands of the first `min(8, hits)` results in order, then a blank line. |
| Lookup.CatchAll | src/index.js:190-263 | Per route: an exact path is fetched; otherwise listed suggestions; otherwise an auto-selected single positive hit, fetched; otherwise the did-you-mean list; otherwise the no-match message. It completes twice on auto-select and once on every other route. |
| UpdateCommand.QueuedLine | src/index.js:113 | Defines the line reporting how many documents are queued; no contract of its own. |
| UpdateCommand.FailedUpdateNeverCompletes | src/index.js:108-117 | As written, a failed update logs nothing and never completes. |
| UpdateCommand.IntendedOnIndexUpdated | src/index.js:108-117 | The corrected callback completes exactly once on every outcome, logs nothing on an error and logs what the source logs on success. |
| UpdateCommand.OnIndexUpdated | src/index.js:108-117 | On success it logs the report, the queue line exactly when more than one document is queued, and a blank line, then completes once. On a truthy error it logs nothing and never completes. |

## Left out

- Vorpal wiring is not modelled: command registration, the delimiter, help
  removal and forwarding the command line to `vorpal.exec`. Nor is the
  SIGINT handler with its random goodbye and `process.exit`. These are user
  interface and process control.
- The `stackoverflow` command is not modelled. It is network scraping
  through a search engine and Stack Overflow's pages.
- The `index`, `search` and `compare` handlers and the autocompletion are
  not modelled. They only forward to collaborators whose code is not part
  of this model. That includes the JavaScript default `sort` of the
  completion list.
- The collaborators `buildPath`, `search`, `buildExtension`, `fetch`,
  `clerk.index.update` and the update queue are parameters. How they
  resolve, score or name documents is not part of this model.
- Date formatting (`moment`) and column padding (`utili.pad`) in
  `show hist` are foreign. A history row keeps the raw date, the type's
  column label (absent for an unknown type) and the value.
- The `--all` update path is not modelled. It only completes, and its
  option is commented out.
- How the shell parses the `--max` value is not modelled. The requested
  maximum is an optional integer, and an absent or zero value falls back to
  the default.
- The window is stated for any integer maximum. A negative value shows
  nothing, just as the loop does.
- Show.ShowUpdates: queue items are taken to be strings already. The
  `String(...)` coercion of other values is not modelled.
- Text.ReplaceFirstAt: the special `$` patterns of a replacement string
  are not modelled. No replacement in this file contains `$`, except the
  highlighted words of the "did you mean" list.
- Lookup.ListGuesses: the array of words is coerced to its comma-joined
  text and replaced by itself. With colouring as the identity, each command
  is shown unchanged, unless the words contain a `$` replacement pattern
  (words `a$$b` turn the command `x a$$b` into `x a$b`).
- Lookup.CatchAll: `path.exists === false` is modelled as a boolean
  `found`. A resolver result with no `exists` field would take the fetch
  branch in the source and is not modelled.
- Lookup.CatchAll: on auto-select, the order of the fetch callback's
  completion relative to the one at the end of the handler is not
  modelled. Only the count of completions is. Nothing is logged after the
  fetch starts on that branch, so the log order is unaffected.
- The fuzzy search score of a hit may be fractional. `Lookup.Hit` keeps it
  only up to its sign, as an integer, because the handler only tests
  whether it is positive.
- Argv.Translate: the command line is a sequence of key/value pairs in the
  object's enumeration order. Inherited object keys such as `constructor`,
  which would make the alias lookup truthy, are not modelled.

## Findings

| source | as written | input that shows it | evidently intended | confidence | as-written member | corrected member |
|---|---|---|---|---|---|---|
| src/index.js:131 | The lower bound is clamped to 0, and the loop runs while `i > limit`, so index 0 (the oldest entry) is never shown | a queue of one entry with the default maximum prints the header and no entry; a queue of 5 entries shows 4 | the newest `min(max, n)` entries, which a bound clamped to -1 gives | medium, not executed | Recency.OldestEntryHidden | Recency.IntendedWindowShowsAll |
| src/index.js:108-117 | `cb()` is called only inside `if (!err)`, so a failed update never completes the command | an update whose callback receives an error: nothing is logged and the shell waits for a completion that never comes | the callback completes exactly once on every outcome | medium, not executed | UpdateCommand.FailedUpdateNeverCompletes | UpdateCommand.IntendedOnIndexUpdated |

`Show.ShowUpdates`, `Show.ShowHistory` and `UpdateCommand.OnIndexUpdated`
keep the behaviour as written, because they model what the handlers do.

