# Pylogue Plotly chart tool: a Dafny model

This project models the core of pylogue's Plotly chart tool and of the IPL
example agent that drives it, and proves properties of that model.

- **Python side** (`src/pylogue/dashboarding.py`). `render_plotly_chart_py`
  runs a chart snippet and serialises its figure. It decides whether the
  figure's height is explicit and returns a fixed message for every way this
  can fail. `_preview` shortens code for log lines.
- **Page script** (`src/pylogue/dashboarding.py`). This is the JavaScript the
  tool embeds in the chart page. At every render, `normalizeUpdateMenus`
  reshapes the data patches of the figure's dropdown "update" buttons, and
  `stripFragileAnnotationKeys` drops their annotation-text keys.
  `mobileHeight` sizes the chart from the viewport. The linked-interaction
  click handler turns a click on one trace into a restyle of another trace,
  driven by `layout.meta.pylogue_linked_interaction`.
- **IPL agent** (`scripts/agents/ipl/main.py`). `_normalize_sql_query`
  removes code fences, outer quotes and escaped control characters from a
  model-written query. The chart tool refuses anything but a SELECT and caps
  the query at 2000 rows. Every CSV file becomes a view named after its stem.

How the model represents the system:

- JSON values are the datatype `Json.JVal`. Member access, truthiness and
  `String()` follow JavaScript, or Python where the Python side reads the
  value.
- The page is the class `ChartPage.Page`. Its layout, frame height and linked
  configuration are fields, and the methods update them. The Plotly calls
  the page would make (`react`, `restyle`, `relayout`, `Plots.resize`) are
  appended to a `calls` sequence instead of being performed.
- The steps the Python side cannot see into are inputs to the ladder
  function: the snippet's `exec`, `to_plotly_json`, `json.dumps`,
  `store_html` and the SQL runner.

Where the prose description of the tool and its code differ, the model follows
the code:

- The title goes to annotation 1 whenever there is more than one annotation,
  not only when there are exactly two.
- `stripFragileAnnotationKeys` deletes every key that starts with
  `annotations[` and ends with `].text`, whatever lies between.
- `render()` sets `autosize` and clears `width` even when the height is
  explicit.

## Model

| member | source | states |
|---|---|---|
| PayloadNormalizer.NormalizePerTraceValue | src/pylogue/dashboarding.py:140-151 | null stays null, any other non-array becomes `[value]`, and an array is either kept or wrapped once |
| PayloadNormalizer.NormalizeCharacterised | src/pylogue/dashboarding.py:140-151 | for a non-null value and at least one trace, the result is the value itself exactly when it is already per-trace shaped (one trace: a non-empty array whose first entry is an array; several: that, or one array-or-null per trace), and `[value]` otherwise |
| PayloadNormalizer.NormalizeShapesArrays | src/pylogue/dashboarding.py:140-151 | every array comes out per-trace shaped |
| PayloadNormalizer.NormalizeIdempotentOnArrays | src/pylogue/dashboarding.py:140-151 | on arrays and null, a second application changes nothing |
| PayloadNormalizer.ScalarIsWrappedTwice | src/pylogue/dashboarding.py:140-151 | a bare string is wrapped again by a second application: "t", then ["t"], then [["t"]] |
| PayloadNormalizer.StripFragileAnnotationKeys | src/pylogue/dashboarding.py:152-157 | the loop deletes exactly the keys that start with `annotations[` and end with `].text` and keeps every other key with its value |
| PayloadNormalizer.StrippedIdempotent | src/pylogue/dashboarding.py:152-157 | stripping twice is stripping once |
| PayloadNormalizer.NormalizeDataArgs | src/pylogue/dashboarding.py:167-175 | the patch keeps exactly its keys that are not fragile annotation keys, and every kept key outside x, y, text and customdata keeps its value |
| PayloadNormalizer.MethodName | src/pylogue/dashboarding.py:166 | a string `method` is taken as it is, and a missing or null one reads as "" |
| PayloadNormalizer.NormalizeButton | src/pylogue/dashboarding.py:165-180 | a button that is not an update button is kept; an update button keeps its keys and the length of its `args` |
| PayloadNormalizer.NormalizeMenu | src/pylogue/dashboarding.py:163-181 | a menu without a `buttons` array is kept; otherwise it keeps its keys, every key but `buttons` keeps its value, and every button that is not an update button stays as it was |
| PayloadNormalizer.NormalizeLayout | src/pylogue/dashboarding.py:158-182 | the layout keeps its keys, and every key but `updatemenus` keeps its value |
| PayloadNormalizer.DataArgsFrame | src/pylogue/dashboarding.py:167-174 | in a data patch only x, y, text and customdata are reshaped, and only if present; exactly the fragile keys go; every other key keeps its value |
| PayloadNormalizer.ButtonFrame | src/pylogue/dashboarding.py:164-180 | a button that is not an update button with non-empty `args` is untouched; an update button changes only `args[0]` and `args[1]`, and `args` keeps its length |
| PayloadNormalizer.LayoutFrame | src/pylogue/dashboarding.py:158-182 | the pass changes no layout key but `updatemenus`, keeps the number of menus and of buttons, and leaves every other menu key alone |
| PayloadNormalizer.NormalizedLayoutIsClean | src/pylogue/dashboarding.py:158-182 | after the pass, no update button's data or layout patch holds a fragile annotation key |
| PayloadNormalizer.DataArgsIdempotent | src/pylogue/dashboarding.py:167-175 | a data patch whose per-trace values are arrays or null is unchanged by a second pass |
| PayloadNormalizer.ButtonIdempotent | src/pylogue/dashboarding.py:164-180 | likewise for one button |
| PayloadNormalizer.MenuIdempotent | src/pylogue/dashboarding.py:162-181 | likewise for one menu |
| PayloadNormalizer.LayoutIdempotent | src/pylogue/dashboarding.py:158-182 | likewise for the whole layout |
| PayloadNormalizer.ScalarLayoutNotIdempotent | src/pylogue/dashboarding.py:158-182 | with a bare scalar in a data patch, a second pass over the layout changes the result of the first |
| PayloadNormalizer.NormalizeButtonArgs | src/pylogue/dashboarding.py:167-179 | the button body's loop over the trace keys, then the two strips, computes the normalised `args` |
| PayloadNormalizer.NormalizeMenuButtons | src/pylogue/dashboarding.py:163-180 | the loop over one menu's buttons normalises each update button and skips every other button |
| ChartPage.Page.NormalizeUpdateMenus | src/pylogue/dashboarding.py:158-182 | rewriting the menus in place leaves the layout the pass over the old layout defines, with the trace count taken from the figure's data (1 when empty) |
| Sizing.DecideHeight | src/pylogue/dashboarding.py:117-120 | the height is explicit exactly when `layout.height` is a number (a Python bool counts too), and is then that number; otherwise it is 420 |
| Sizing.RoundSixTenths | src/pylogue/dashboarding.py:255 | `(6w+5)/10` is the integer nearest to 0.6w, which is what `Math.round(w*0.6)` returns |
| Sizing.MobileHeight | src/pylogue/dashboarding.py:252-256 | an explicit height is returned unchanged; otherwise the height lies between 280 and 560 |
| Sizing.MobileHeightIsRoundedSixTenths | src/pylogue/dashboarding.py:252-256 | without an explicit height, the result is 0.6 times the width clamped to 280..1400, rounded and clamped to 280..560 |
| Sizing.MobileHeightMonotone | src/pylogue/dashboarding.py:252-256 | without an explicit height, a wider (positive) viewport never gets a smaller chart |
| Sizing.ZeroWidthFallsBack | src/pylogue/dashboarding.py:254 | a width of 0 is read as 1024 and gives 560, while a width of 1 gives 280 |
| Sizing.ExplicitHeightIsConstant | src/pylogue/dashboarding.py:253 | an explicit height of 300 stays 300 at every width |
| ChartPage.Sized | src/pylogue/dashboarding.py:259-262 | render sets autosize to true, width to null and height to the computed value, and keeps every other layout key |
| ChartPage.Page.Render | src/pylogue/dashboarding.py:257-268 | one render runs the menu pass, sizes the layout, sets the frame's height when there is a frame, and appends one `Plotly.react` with the data and new layout; the menus come out clean |
| ChartPage.SecondRenderChangesButtons | src/pylogue/dashboarding.py:271-279 | as written, the render after a resize changes the buttons the first render produced |
| ChartPage.Page.RenderNormalizingOnce | src/pylogue/dashboarding.py:257-268 | corrected render: the menu pass runs on the first render only, and the layout apart from its size keys stays the once-normalised serialised layout |
| ChartPage.RenderTwice | src/pylogue/dashboarding.py:271-279 | with the corrected render, a second render at any width leaves everything but the size keys as the first left it |
| ChartPage.Page.OnResize | src/pylogue/dashboarding.py:271-279 | a resize renders and then appends one `Plots.resize` call |
| ChartPage.Start | src/pylogue/dashboarding.py:269-270 | start-up renders once and installs the click handler with the settings read from the serialised layout |
| ChartPage.ReadsMetaOnly | src/pylogue/dashboarding.py:184 | rendering does not change what the linked-interaction setup reads |
| ChartPage.Page.SetupLinkedInteraction | src/pylogue/dashboarding.py:183-190 | the handler is installed with exactly the settings the layout's meta yields, or not at all |
| LinkedInteraction.ReadLinkedConfig | src/pylogue/dashboarding.py:184-190 | a configuration is read exactly when `layout.meta.pylogue_linked_interaction` is an object; its lookup is always an object |
| LinkedInteraction.ContractFieldsTaken | src/pylogue/dashboarding.py:186-190 | each field is the contract's own value when it has the right kind (an integer trace, menu or title index; an object lookup; a non-null season, printed as a string) and otherwise its default: source 0, target 1, menu 0, lookup {}, season "", no title index |
| LinkedInteraction.MissingFieldsDefault | src/pylogue/dashboarding.py:186-190 | a contract that gives only a lookup gets source 0, target 1, menu 0, season "" and no title index |
| LinkedInteraction.ActiveSeason | src/pylogue/dashboarding.py:197-207 | without a truthy `updatemenus` the season is the configured default |
| LinkedInteraction.ActiveSeasonByIndex | src/pylogue/dashboarding.py:197-207 | the active season is the label of `menus[seasonMenuIndex].buttons[active]`, `active` defaulting to 0, else the default season when the menu, button or label is missing |
| LinkedInteraction.SeasonOfExample | src/pylogue/dashboarding.py:197-207 | with buttons "2019" and "2020", the active one's label is the season |
| LinkedInteraction.ResolvePayload | src/pylogue/dashboarding.py:213-215 | a payload is only ever an object |
| LinkedInteraction.LookupPrecedence | src/pylogue/dashboarding.py:213-215 | the "season\|\|label" entry wins over the bare label; with no such entry, the bare label alone decides |
| LinkedInteraction.NormalizeLinkedSeries | src/pylogue/dashboarding.py:191-196 | the value is kept or is the single entry of a one-entry array |
| LinkedInteraction.ClickWrapMatchesNormaliser | src/pylogue/dashboarding.py:216-222 | for one trace, the click's wrapping agrees with the menu normaliser on every array except those with two or more entries whose first is an array |
| LinkedInteraction.ClickUpdate | src/pylogue/dashboarding.py:216-222 | the update has exactly the keys among x, y, text and customdata that the payload has |
| LinkedInteraction.ClickUpdateValues | src/pylogue/dashboarding.py:216-222 | a value reaches the restyle unchanged exactly when it is not customdata and is a one-entry array holding an array (it is unwrapped, then wrapped back); every other value, customdata always, is wrapped as `[value]` |
| ChartPage.BuildUpdate | src/pylogue/dashboarding.py:216-222 | the handler's loop over the four keys builds that update |
| LinkedInteraction.TargetYRef | src/pylogue/dashboarding.py:225-227 | the target's axis reference is the axis the target trace is drawn on when that trace is known and its axis is non-empty, and "y" otherwise; it is never empty |
| LinkedInteraction.YLayoutKey | src/pylogue/dashboarding.py:228 | axis "y" is laid out under "yaxis"; every key starts with "yaxis" and is four characters longer than the reference |
| LinkedInteraction.YLayoutKeyOfNumberedAxis | src/pylogue/dashboarding.py:228 | axis "yN" is laid out under "yaxisN" |
| LinkedInteraction.TitleCall | src/pylogue/dashboarding.py:237-248 | a retitle happens exactly when the payload's title is truthy, and it is one relayout of one key |
| LinkedInteraction.AnnotationCount | src/pylogue/dashboarding.py:239 | a non-zero count is the length of the layout's `annotations` array |
| LinkedInteraction.TitleIndex | src/pylogue/dashboarding.py:240 | the configured title index when there is one; otherwise 1 exactly when there are at least two annotations, and 0 exactly when there are fewer |
| LinkedInteraction.TitleToConfiguredAnnotation | src/pylogue/dashboarding.py:240-244 | with a configured index i that names an existing annotation, the retitle sets `annotations[i].text` |
| LinkedInteraction.TitleToDefaultAnnotation | src/pylogue/dashboarding.py:240-244 | with no configured index, the retitle sets `annotations[1].text` when there are two or more annotations and `annotations[0].text` when there is one |
| LinkedInteraction.TitleToChartTitle | src/pylogue/dashboarding.py:241-246 | with no annotations, or a configured index outside them, the retitle sets the chart's `title` |
| LinkedInteraction.ClickCalls | src/pylogue/dashboarding.py:208-250 | a click makes at most three calls, and every restyle among them targets the configured target trace alone |
| LinkedInteraction.OtherTraceIgnored | src/pylogue/dashboarding.py:210 | a click on any trace but the source does nothing |
| LinkedInteraction.ClickShape | src/pylogue/dashboarding.py:208-250 | a click acts exactly when it hits the source trace and finds an object payload with a per-trace key. It then makes exactly one restyle, on the target trace only. A category switch comes first exactly when the payload's y starts with a string. That switch is the single relayout setting `<key>.type` to "category", where `<key>` is the layout key of the target trace's y-axis. A retitle comes last exactly when the title is truthy |
| LinkedInteraction.SeasonClickActs | src/pylogue/dashboarding.py:208-250 | with lookup {"2020\|\|MI": {y: [10, 20], title: "MI 2020"}} and season 2020 active, a click on "MI" restyles the target with y = [[10, 20]] and retitles the chart |
| LinkedInteraction.SeasonClickIgnored | src/pylogue/dashboarding.py:208-250 | the same click with season 2019 active does nothing |
| ChartPage.Page.Click | src/pylogue/dashboarding.py:208-250 | the handler appends exactly the calls the click defines, and none when there is no point or no handler |
| Dashboarding.PyHead | src/pylogue/dashboarding.py:28 | `s[:limit]` is a prefix of `s`, of length `limit` when that fits, and counts from the end for a negative limit |
| Dashboarding.Preview | src/pylogue/dashboarding.py:24-28 | empty code gives ""; otherwise the preview is the collapsed code when it fits the limit, and else its first `limit` characters and "..."; it is never longer than `limit + 3` |
| Dashboarding.Collapse | src/pylogue/dashboarding.py:27 | joining the words of the stripped code with single spaces equals squeezing the code: every run of whitespace between two words becomes one space, and whitespace at the ends is dropped |
| Dashboarding.CollapseKeepsText | src/pylogue/dashboarding.py:27 | the collapsed code has no whitespace at its ends and only single spaces inside, and keeps every other character in order |
| Dashboarding.JoinWordsCollapsed | src/pylogue/dashboarding.py:27 | joining words with one space gives a collapsed string |
| Dashboarding.JoinWordsNonSpace | src/pylogue/dashboarding.py:27 | joining words with one space loses and adds no non-space character |
| Dashboarding.PrepareFigure | src/pylogue/dashboarding.py:117-126 | the height rule comes from the layout's height; an explicit height leaves the figure as it was; otherwise only the layout changes, gaining autosize and losing width; a layout that is not a dict raises CPython's error |
| Dashboarding.DictLayoutPrepares | src/pylogue/dashboarding.py:117-126 | a dict layout always prepares; a numeric height is taken as explicit; otherwise the layout autosizes and has no width |
| Dashboarding.RenderPlotlyChartPy | src/pylogue/dashboarding.py:66-309 | the runner is called, with the query as given, exactly when the dependencies are present and both the runner and the query are given; the chart is stored exactly when every step succeeds, with message "Plotly chart rendered." |
| Dashboarding.FailuresAreMessages | src/pylogue/dashboarding.py:66-115 | each failure of the kinds the tool catches returns the fixed message of the first step that failed, and every message the tool returns is one of its fixed texts or prefixes |
| Dashboarding.StoredChartWithoutHeight | src/pylogue/dashboarding.py:117-126 | a dict layout without height gives the rule (not explicit, 420), and the page then sizes the chart between 280 and 560 |
| Json.Member | src/pylogue/dashboarding.py:213-215 | reading a key of an object gives its value exactly when the key is present; reading from anything but an object or array gives nothing |
| Json.JsString | src/pylogue/dashboarding.py:190 | a string prints as itself; a non-negative integer prints in the canonical decimal form read back as that integer; null, booleans and objects never print as an index |
| Text.IntToString | src/pylogue/dashboarding.py:243 | a non-negative index prints as the canonical decimal form that reads back as it; a negative one starts with '-' |
| Text.Words | src/pylogue/dashboarding.py:27 | `split()` yields non-empty runs without whitespace whose concatenation is the text minus its whitespace |
| Text.Strip | scripts/agents/ipl/main.py:61 | `strip()` removes only strippable characters, and only at the ends, and leaves none at either end |
| Text.SqueezeIsJoinedWords | src/pylogue/dashboarding.py:27 | `" ".join(s.split())` equals an independent one-pass squeeze that keeps every non-whitespace character and puts one space where a whitespace run separates two of them |
| IplAgent.NormalizeSqlQuery | scripts/agents/ipl/main.py:60-77 | the normalised query never starts with whitespace and never ends with ';' |
| IplAgent.EmptyNormalisesToEmpty | scripts/agents/ipl/main.py:61 | None and "" normalise to "" |
| IplAgent.StripFence | scripts/agents/ipl/main.py:62-65 | a query not starting with three backticks is kept, and the fence step never lengthens a query |
| IplAgent.UntaggedFenceStripped | scripts/agents/ipl/main.py:62-65 | a query fenced by three backticks at each end with no "sql" tag line keeps exactly what was between the backticks |
| IplAgent.FenceStripped | scripts/agents/ipl/main.py:62-65 | a query fenced by three backticks at each end, with an "sql" tag line in any case, keeps exactly its body |
| IplAgent.BackticksStripped | scripts/agents/ipl/main.py:63 | `strip("`")` removes the backticks at both ends and nothing else |
| IplAgent.TaggedText | scripts/agents/ipl/main.py:64-65 | the "sql\n" tag is recognised in any case and dropping four characters leaves the body |
| IplAgent.StripQuotes | scripts/agents/ipl/main.py:66-69 | a query changes only when it starts and ends with the same quote character, and then it loses exactly those two quotes |
| IplAgent.StripQuotesRoundTrip | scripts/agents/ipl/main.py:66-69 | wrapping a query in double or single quotes and stripping them gives the query back |
| IplAgent.QuotedQueryExamples | scripts/agents/ipl/main.py:66-69 | matching single quotes are removed, mismatched quotes kept, and a lone quote character becomes "" |
| IplAgent.NoNewlineEscapeLeft | scripts/agents/ipl/main.py:70-71 | after the first unescape pass, no backslash is followed by 'n' |
| IplAgent.UnescapeNewlineRoundTrip | scripts/agents/ipl/main.py:70-71 | on a query without a raw newline, the unescape pass is undone by escaping newlines back |
| IplAgent.Unescape | scripts/agents/ipl/main.py:70-73 | after the three passes no backslash is followed by 'n', 't' or 'r': a later pass never re-creates an escape an earlier one removed; the passes never lengthen a query |
| IplAgent.TabEscapeReplaced | scripts/agents/ipl/main.py:70-73 | between text without backslashes, backslash-t becomes a tab and nothing else changes |
| IplAgent.ReturnEscapeReplaced | scripts/agents/ipl/main.py:70-73 | between text without backslashes, backslash-r becomes a carriage return and nothing else changes |
| IplAgent.UnescapeWithoutBackslash | scripts/agents/ipl/main.py:70-73 | a query without a backslash passes the unescape passes unchanged |
| IplAgent.LimitedQuery | scripts/agents/ipl/main.py:167-169 | the runner's query starts with `SELECT * FROM (`, ends with `) t LIMIT 2000`, and holds between them exactly the query normalised again |
| IplAgent.Guarded | scripts/agents/ipl/main.py:164-175 | a query that is not a SELECT gets the fixed refusal and runs nothing; whatever runs is a SELECT, passed through the row cap |
| IplAgent.RenderPlotlyChart | scripts/agents/ipl/main.py:163-175 | whatever reaches the database is the normalised query inside the row cap |
| IplAgent.GuardedCases | scripts/agents/ipl/main.py:164-175 | for an already-normalised query: anything but a SELECT gets the refusal; a SELECT with the dependencies present runs the row-capped query; without them it gets the missing-dependencies message and runs nothing |
| IplAgent.GuardAndRowCap | scripts/agents/ipl/main.py:163-170 | a query that does not normalise to a SELECT gets the fixed refusal and runs nothing; a SELECT runs, once the dependencies are present, as `SELECT * FROM (<the query normalised again>) t LIMIT 2000` |
| IplAgent.NormalizeKeepsSelect | scripts/agents/ipl/main.py:167-169 | normalising a query that starts with "select" (any case) again still gives a SELECT |
| IplAgent.AcceptedQueryIsCappedSelect | scripts/agents/ipl/main.py:163-170 | an accepted query reaches the database as a SELECT inside the 2000-row cap |
| IplAgent.Stem | scripts/agents/ipl/main.py:90 | the stem is a prefix of the name; when it differs from the name, the next character is the last '.' of the name, and that dot is neither the first nor the last character; conversely, when the last '.' is neither first nor last, the stem differs from the name |
| IplAgent.ViewAlias | scripts/agents/ipl/main.py:90 | a view name never contains '-' |
| IplAgent.StemOfCsv | scripts/agents/ipl/main.py:90 | the stem of "<base>.csv" is the base, dots included |
| IplAgent.ViewAliasShape | scripts/agents/ipl/main.py:90 | for "<base>.csv" the view name is the base with every '-' made '_' |

## Left out

- Floating-point numbers: JSON numbers are integers, so `int()` truncation of a float height and non-integer `active` or trace indices are not modelled.
- PayloadNormalizer.NormalizeLayout: a truthy `updatemenus` (or `buttons`) that is an object, a non-zero number or `true` makes the script's `for...of` throw, which aborts that render. The model leaves such a layout unchanged.
- LinkedInteraction.AnnotationCount: a string `annotations` has a `length` in JavaScript. The model counts it as no annotations. `Json.Member` likewise gives `None` for every read of a string, although JavaScript reads its characters and `length`.
- The effects of the Plotly calls are not applied. They are recorded in `ChartPage.Page.calls`. The user's own dropdown selections, which change a menu's `active`, are not modelled. The page reads its season from the layout it holds, standing in for `gd.layout`.
- `gd._fullData`: the axis each trace is drawn on is a parameter of `ChartPage.Page.Click`.
- Event wiring (`ResizeObserver`, `window` resize, `plotly_click`) is not modelled. Only the handler bodies are.
- `ChartPage.Start` and `ChartPage.Page.OnResize` use the corrected render (see Findings). The render as written is `ChartPage.Page.Render`.
- `exec` of the snippet, `to_plotly_json`, `json.dumps`, `store_html` and the SQL runner are outcomes given to `Dashboarding.RenderPlotlyChartPy`. They are not executed.
- HTML and iframe assembly, `html.escape`, and all logging are left out.
- DuckDB connections, the CSV glob in `register_csv_views`, and the `read_csv_with_schema` and `execute_sql_on_csv` tools are left out as I/O. The view alias is modelled on the file's name.
- Python's `str.lower` and JavaScript's `toLowerCase` are lower-cased on ASCII only. A few other characters lower-case to ASCII (KELVIN SIGN to 'k', and LATIN CAPITAL LETTER I WITH DOT ABOVE to 'i' plus a combining dot), but none to a letter of "update", "select" or "sql", so those comparisons come out the same.
- Exceptions that do not derive from `Exception` (`SystemExit`, `KeyboardInterrupt` and other `BaseException` subclasses) escape the `except Exception` handlers at src/pylogue/dashboarding.py:95, 109 and 303. The model reports every failure as a message, so it covers only the failures those handlers catch.
- String lengths are counted in code points, not UTF-16 units.
- IplAgent.NormalizeSqlQuery: only the ends are stated; the result can end in whitespace ("a ;" gives "a "), so no trailing-whitespace guarantee is claimed.
- Sizing.MobileHeightMonotone: stated for widths of at least 1, because a width of 0 is read as 1024.
- Dashboarding.Preview: the shape is stated for non-negative limits. The function follows Python slicing for negative ones too.

## Findings

| source | as written | input that shows it | evidently intended | confidence | as-written member | corrected member |
|---|---|---|---|---|---|---|
| src/pylogue/dashboarding.py:257-258 | `render()` re-runs `normalizeUpdateMenus()` at every call: on load and on every resize. The pass wraps a non-array value again each time | one-trace figure with an update button whose data patch is `{"text": "t"}`: the first render makes it `["t"]`, the next (after a resize) `[["t"]]`, which Plotly reads as per-point text | normalise the buttons once, so that every render shows the same buttons | not executed | ChartPage.SecondRenderChangesButtons | ChartPage.Page.RenderNormalizingOnce |
