# Merlin for Sublime Text: a verified model of the plugin's own logic

The plugin connects Sublime Text to Merlin, the OCaml analyzer. It provides
completion, type display, jump-to-definition, a file finder and error
display. The process client and the helpers it imports (`MerlinProcess`,
`MerlinView`, `merlin_pos`, `clean_whitespace`, `only_ocaml`) come from
`merlin/process.py` and `merlin/helpers.py`, which are not part of this model.
What is modelled is the logic written in `sublime-text-merlin.py` itself:

- `Autocomplete` (autocomplete.dfy): the three-state readiness latch
  (`None`/`False`/`True`, here `Idle`/`Pending`/`Ready`) and the completion
  store. It is a class whose methods are proved against the function
  `QueryStep`. The lemmas about `QueryStep` state what the latch promises:
  - exactly one query per request in `Idle`;
  - stored completions are offered once, then the store is emptied;
  - the store is non-empty only while `Ready`;
  - `Pending` absorbs all later requests.
- Completion prefix (completion_prefix.dfy): `re.findall(r"(([\w.]|->)+)", line)[-1][0]`
  is modelled as a scanner over tokens (a word character or `.`, or `->`).
  The model proves that the prefix is the last maximal run of tokens, and
  that it is `""` exactly when the line has no token.
- Completion shaping: each analyzer entry becomes `(name + "\t" + desc, name)`,
  in order.
- Type-enclosing formatting (type_enclosing.dfy): `_item_format`, `_items`
  and `_first`.
- Coordinates (coordinates.dfy): the editor's 0-based row becomes the
  analyzer's 1-based line. The column is unchanged.
- Locate (locate.dfy):
  - the `kind()` table of the locate commands and the query each command sends;
  - the three-way dispatch of `merlin_locate_result`;
  - the `file:line:col` target, which the model proves is read back with the
    column made 1-based.
- Which (which.dfy): the candidate file names of `MerlinFindMl` and
  `MerlinFindMli`, and what a quick-panel pick leads to. A pick follows
  Python's indexing rules.
- Errors (error_display.dfy): `MerlinBuffer` is a class.
  - `show_errors` keeps the diagnostics that have both ends, in order.
  - `display_in_error_panel` closes the panel for each entry before the first
    one that touches the caret, then shows that entry's `row: message`.

Facts about the source that the model makes explicit:

- `show_completions` is called inside the request that queried. A successful
  query therefore ends in `Ready`, not `Pending`. `Pending` outlives a
  request only when an exception escapes after the latch was set at line 397:
  when `complete_cursor` raises, or when reading `result['entries']`,
  `r['name']` or `r['desc']` raises (lines 402-404). The model folds all of
  these into one `Raised` response. After that, no request ever queries
  again (`PendingIsAbsorbing`).
- `MerlinLocateMf` and `MerlinLocateNameMf` are each defined twice. The later
  definitions win, so their kinds are `mfi` and `mf`.
- The by-name locate commands never pass their kind. As a result, no command
  ever sends kind `mf` (`QueryForSpec`).
- An empty completion answer and a request that is still pending get the
  same default reply. The code has no generation counter that would discard
  stale results. The model follows the code on both points.
- `Region.intersects` is not defined in this file. The model takes Sublime
  Text 3's definition as an assumption: two regions intersect when they are
  equal, or when an end point of one lies strictly inside the other
  (`ErrorDisplay.Intersects`).
- An error whose full line region is empty, such as one on the empty last
  line of a buffer that ends in a newline, is remembered as `Region(a - 1, a)`.
  No empty caret touches that region, so its message is never shown in the
  panel (`EmptyLineNeverHit`).
- How the editor reads the encoded `file:line:col` target is not defined in
  this file either. The model assumes it takes the last two `:`-separated
  fields as line and column (`Locate.DecodeTarget`).
- The row shown in the error panel is the row of the remembered region's
  `begin()`. That region was widened one to the left (line 540), so it begins
  at the newline that ends the previous line. The panel therefore shows row
  `R - 1` for an error on 0-based row `R`, and for an error on the first line
  it asks for the row of offset -1. The model keeps this: `DisplayInErrorPanel`
  passes the widened region's `Begin()` to `rowOf`.

## Model

| member | source | states |
|---|---|---|
| Coordinates.ToAnalyzer | sublime-text-merlin.py:173-181 | the analyzer line is the editor row plus one, so it is at least 1; the column is unchanged |
| Coordinates.ToAnalyzerInjective | sublime-text-merlin.py:272-273 | two editor positions give the same analyzer position only if they are equal |
| Common.DecimalRoundTrip | sublime-text-merlin.py:249 | the `%d` text of any integer parses back to that integer |
| CompletionPrefix.RunEnd | sublime-text-merlin.py:379 | the greedy run from a token start consists of tokens only, cannot be extended, and does not end in a `-` |
| CompletionPrefix.Matches | sublime-text-merlin.py:379 | every match `findall` reports from `i` on is a non-empty span inside the line, at or after `i` |
| CompletionPrefix.PrefixEmptyIff | sublime-text-merlin.py:378-381 | `Prefix`: the prefix is `""` exactly when no character of the text before the cursor starts a `[\w.]` or `->` token |
| CompletionPrefix.PrefixIsLastRun | sublime-text-merlin.py:375-381 | `Prefix`: a non-empty prefix is a substring of the text made only of tokens; it is maximal on both sides; no token starts after it |
| Autocomplete.ShapedAt | sublime-text-merlin.py:401-405 | shaping keeps count and order; entry i becomes `(name + "\t" + desc, name)` |
| Autocomplete.QueryStepSpec | sublime-text-merlin.py:386-409 | about `QueryStep`, one request: it queries exactly when the latch is `None`, with the prefix at `(row + 1, col)`; it offers stored completions exactly when `True` with a non-empty store, and then leaves the store empty; the latch goes from `True` to `None`, stays `False`, and from `None` becomes `False` when the query raises or `True` holding the shaped entries when it answers; the invariant is kept |
| Autocomplete.QueryThenDeliver | sublime-text-merlin.py:388-415 | after a successful query from `None`, the next request issues no query; it returns the shaped entries, or the default when there were none; the latch is back to `None` with an empty store |
| Autocomplete.OfferedOnce | sublime-text-merlin.py:388-394 | after a request that returns stored completions, the next request queries again and offers nothing |
| Autocomplete.RunKeepsInv | sublime-text-merlin.py:388-415 | over any series of requests, the store is non-empty only while the latch is `True` |
| Autocomplete.PendingIsAbsorbing | sublime-text-merlin.py:396-399 | once the latch is `False`, no later request changes it or issues a query |
| Autocomplete.CompletionListener.constructor | sublime-text-merlin.py:367-368 | the listener starts in `None` with an empty store |
| Autocomplete.CompletionListener.ShowCompletions | sublime-text-merlin.py:412-415 | the latch becomes `True`; the store is replaced only by a non-empty list |
| Autocomplete.CompletionListener.OnQueryCompletions | sublime-text-merlin.py:371-409 | the new fields, the query issued and the reply are those of `QueryStep`; the invariant is kept |
| TypeEnclosing.ItemFormat | sublime-text-merlin.py:190-196 | the result is "```" + language + newline + type + tail note + newline + "```"; the tail note is ` (*tail-position*)` for `position`, ` (*tail-call*)` for `call`, and nothing otherwise |
| TypeEnclosing.FormatUnfences | sublime-text-merlin.py:190-196 | removing the fence of the language gives back the type with its tail note |
| TypeEnclosing.ItemsAt | sublime-text-merlin.py:198-199 | `Items` (`_items`) has one entry per enclosing item, in order, each the formatted item |
| TypeEnclosing.FirstIsFirstItem | sublime-text-merlin.py:201-202 | `First` (`_first`) is the first menu entry; it fails (IndexError) exactly on an empty answer |
| Locate.QueryForSpec | sublime-text-merlin.py:266-321 | `QueryFor`: cursor commands send `(row + 1, col)` with their own `kind()` (`mli`, `ml`, `mfi`); by-name commands send the typed name and no kind; no command sends kind `mf` |
| Locate.CursorKindsDistinct | sublime-text-merlin.py:275-317 | the three cursor commands ask for three different kinds |
| Locate.TargetRoundTrip | sublime-text-merlin.py:249 | read by `DecodeTarget` (the assumed reading of the editor), the encoded target gives back the same file, line and `col + 1`, whatever the file name contains |
| Locate.DispatchSpec | sublime-text-merlin.py:245-259 | `Dispatch` (`merlin_locate_result`): a dict with `file` opens that file at line and `col + 1`; a dict without `file` moves the caret to its position; anything else is shown unchanged as a message |
| Which.CandidatesAt | sublime-text-merlin.py:340 | one candidate per extension, in order; candidate i is the module name followed by extension i |
| Which.FindersSameFiles | sublime-text-merlin.py:344-359 | FindMl and FindMli try the same four files; FindMl prefers `.ml`, FindMli prefers `.mli` |
| Which.PyIndex | sublime-text-merlin.py:339 | `self.files[index]` yields a value exactly for indexes from `-len` to `len - 1`, and a negative index counts from the end |
| Which.OnDonePicked | sublime-text-merlin.py:337-341 | `OnDone`: a pick in Python's range other than -1, negative ones counting from the end, asks `which_path` for the picked module's name with each extension, in the command's order |
| Which.OnDoneCases | sublime-text-merlin.py:337-341 | `OnDone`: index -1 cancels; an index Python cannot use raises IndexError |
| ErrorDisplay.CaretOnWidenedLine | sublime-text-merlin.py:540-541 | for a non-empty line region, widening it one to the left makes an empty caret hit it exactly when the caret is on that line, first column included |
| ErrorDisplay.EmptyLineNeverHit | sublime-text-merlin.py:539-540 | when the full line region is empty, the widened region `Region(a - 1, a)` is hit by no empty caret |
| ErrorDisplay.SpannedMembers | sublime-text-merlin.py:533-534 | `Spanned`: the kept diagnostics are exactly those that have both `start` and `end` |
| ErrorDisplay.SpannedAppend | sublime-text-merlin.py:533-548 | `Spanned` distributes over concatenation, so the original order is preserved |
| ErrorDisplay.FirstHit | sublime-text-merlin.py:569-570 | the index returned is the first entry that intersects the caret, or the list's length if none does |
| ErrorDisplay.PanelTextSplits | sublime-text-merlin.py:571 | the panel text `"%d: %s"` splits at its first colon back into the row and the message |
| ErrorDisplay.ErrorBuffer.constructor | sublime-text-merlin.py:484 | no errors are remembered at first |
| ErrorDisplay.ErrorBuffer.ShowErrors | sublime-text-merlin.py:522-548 | underlines and remembered entries are equally many, one per kept diagnostic, in order; each entry is the widened full line and the cleaned message |
| ErrorDisplay.ErrorBuffer.DisplayInErrorPanel | sublime-text-merlin.py:562-576 | one close per entry before the first hit; then, if some entry hits, one show of `row: message` for it, with the row where its region begins |
| ErrorDisplay.ErrorBuffer.OnPostSave | sublime-text-merlin.py:486-494 | refreshes the remembered errors and returns the underlines from the analyzer's diagnostics, as `show_errors` does, then updates the panel for the caret |

## Left out

- All editor and popup UI, which only renders results:
  - quick panels, input panels, popups, popup menus and message dialogs;
  - `add_regions`/`erase_regions` and `show_at_center`;
  - the output panel of `MerlinErrorPanel` (opening and showing are folded into one `Show` action);
  - `open_file` flags.
- `MerlinProcess`, `MerlinView` and the helpers `merlin_pos`, `clean_whitespace` and `only_ocaml` are not part of this model.
  - In error display, `merlin_pos`, `view.full_line`, `clean_whitespace` and the row of `view.rowcol` are parameters. No property of them is assumed.
  - In locate, the `merlin_pos` call for a same-file answer (line 255) is not modelled: `MoveCaret` carries the analyzer position, and converting it to an offset is left to the editor side.
  - `only_ocaml` is taken to let every call through.
  - The `sync()` calls before each query are not modelled.
- The build-path, source-path, extension and package commands (lines 35-159) are left out. Each one only forwards a quick-panel or input-panel pick to a `MerlinView` call.
- `MerlinTypeEnclosing._item_region` and its `on_done` are left out. They select a region computed by `merlin_pos`. `show_panel` and `show_menu` are UI.
- `gutter_icon_path` and `_plugin_dir` are left out (file-system and resource I/O). So are the working-directory defaults of the add-path commands.
- `set_timeout`, `show` and the `hide_auto_complete`/`auto_complete` commands are left out: event-loop scheduling.
- The global `running_process` singleton is left out: lazy construction of the process.
- CompletionPrefix.IsWordChar: `\w` is restricted to ASCII letters, digits and `_`. Python's `\w` also matches non-ASCII letters and digits.
- Dictionary keys that the code reads without checking are assumed to be present, except in completion. The KeyError the code would raise when one is missing is not modelled. These keys are:
  - a diagnostic's `message` (line 545);
  - a type-enclosing item's `type` and `tail` (lines 191-194), since `EnclosingItem` has no missing case;
  - a locate result's `pos` (line 247) and that position's `line` and `col` (line 249), since `LineCol` has no missing case.
- In completion, a failing `complete_cursor` call and a KeyError on `result['entries']`, `r['name']` or `r['desc']` (lines 399-404) are all modelled as one `Raised` response. The model does not capture that a KeyError in the middle of the loop leaves `cplns` partly built.
- The editor's `prefix` argument to `on_query_completions` is not modelled. The code overwrites it before using it.
