# Command library search engine, in Dafny

A model of the search engine inside `CommandLibrary`, the renderer class of the Command
Library desktop app. The app stores shell commands. Each command has a name, a command value,
a description and tags. Searching finds them while the user types.

The model covers:

- **edit distance** (`levenshteinDistance`): the matrix fill, proved equal to the Levenshtein
  recurrence.
- **fuzzy subsequence score** (`fuzzyMatchScore`): the greedy scan, proved equal to a
  tail-recursive reference scan. That scan is related to greedy matching and to the
  subsequence relation.
- **field score** (`calculateScore`): the four-branch priority chain (exact, substring, fuzzy,
  words with typo tolerance) and the word loop.
- **highlights** (`getHighlights`): the non-overlapping occurrence spans.
- **ranking** (`fuzzySearch`): the weighted total, the 0.1 threshold, and the stable
  descending sort.
- **object state**: `filteredCommands` and `selectedIndex` as driven by `handleSearch` and
  `handleKeyNavigation`, plus deleting, adding (tag parsing and the required-field check) and
  importing (validation and normalisation).
- **settings**: the transparency settings read back with defaults and clamps, and the slider
  handlers that store them.

The loops of the source are Dafny methods with loop invariants. Each method is proved against
a function of its inputs, and the properties are lemmas about those functions.
`CommandLibrary` is a class whose methods update its fields. The scores are Dafny `real`
values.

Modules:

| module | contents |
|---|---|
| `Basics` | an option type, `Math.max` / `Math.min`, and real-division facts |
| `Strings` | the string built-ins used (`trim`, `toLowerCase`, `indexOf`, `includes`, `startsWith`, `split(/\s+/)`, `split(',')`) |
| `EditDistance`, `Fuzzy`, `Scoring`, `Highlighting`, `Ranking` | the search engine |
| `Library` | the `CommandLibrary` state and its pure helpers |
| `Settings` | the transparency settings |

## Model

| member | source | states |
|---|---|---|
| Strings.Trim | app/script.js:151 | the trimmed search text is empty exactly when the text is all whitespace, otherwise it starts and ends with a non-space character, and an already trimmed text is unchanged |
| Strings.TrimIsSlice | app/script.js:151 | the trimmed search text is a slice of the text with only whitespace before and after it, so `trim` removes the leading and trailing whitespace and nothing else |
| Strings.IndexOfFirst | app/script.js:282 | `indexOf(q, from)` finds the first occurrence at or after `from`, and finds nothing only when there is no occurrence there |
| Strings.Contains | app/script.js:209 | `includes` holds exactly when the query occurs somewhere in the text |
| Strings.SplitWords | app/script.js:221 | `split(/\s+/)` gives at least one word, and no word holds whitespace or a character that is not in the text |
| Strings.SplitWordsConcat | app/script.js:221 | the words written one after another are the text with its whitespace removed |
| Strings.SplitWordsJoin | app/script.js:221 | the words joined with single spaces are the text with each maximal whitespace run replaced by one space |
| Strings.Lower | app/script.js:164 | `toLowerCase` keeps the length and lower-cases each ASCII letter, leaving every other character as it is |
| Strings.LowerIdempotent | app/script.js:164 | lower-casing an already lower-cased text changes nothing |
| Strings.SplitOn | app/script.js:609 | `split(',')` gives at least one piece and no piece holds a comma |
| Strings.SplitOnJoin | app/script.js:609 | comma-free pieces joined with commas split back into the same pieces |
| Strings.JoinSplitOn | app/script.js:609 | the pieces of `split(',')` joined with commas give back the text |
| EditDistance.LevenshteinDistance | app/script.js:296-324 | the `(|str2|+1) × (|str1|+1)` matrix fill returns the Levenshtein distance of the two strings (the recurrence `Distance`) |
| EditDistance.FillRow | app/script.js:309-321 | filling row `i` makes every cell of that row the recurrence value, given the rows above; the other rows are unchanged |
| EditDistance.DistanceFromEmpty | app/script.js:300-306 | the row-0 and column-0 initialisation: the distance between `""` and `s` is `|s|`, both ways round |
| EditDistance.DistanceSelf | app/script.js:309-323 | a string is at distance 0 from itself |
| EditDistance.LevCommonPrefix | app/script.js:310-311 | equal prefixes are at distance 0 (the diagonal copy on matching characters) |
| EditDistance.DistanceSymmetric | app/script.js:296-324 | the distance is symmetric |
| EditDistance.DistanceBounds | app/script.js:296-324 | the distance lies between the length difference and the longer length |
| EditDistance.DistanceZeroIff | app/script.js:296-324 | the distance is 0 exactly for equal strings |
| Fuzzy.FuzzyMatchScore | app/script.js:244-273 | the early returns, the `while` scan and the final formula compute the reference score; the loop keeps `matches == queryIndex <= |query|`, `consecutiveMatches <= maxConsecutive <= matches` and `textIndex <= |text|` |
| Fuzzy.ScanKeeps | app/script.js:254-265 | the loop invariants hold at exit, and the scan stops only when the query or the text is used up |
| Fuzzy.ScanCountsGreedy | app/script.js:254-265 | the matches counted from any state are the greedy matches of the remaining query in the remaining text |
| Fuzzy.GreedyBounds | app/script.js:254-265 | the matches never exceed the query length or the text length |
| Fuzzy.GreedyZeroIff | app/script.js:254-267 | nothing is matched exactly when the first query character is absent from the text |
| Fuzzy.GreedyEmbeds | app/script.js:254-265 | a complete greedy match yields increasing positions that spell the query in the text |
| Fuzzy.EmbeddingGreedy | app/script.js:254-265 | if the query is a subsequence of the text, the greedy scan finds all of it |
| Fuzzy.ScanMatchesAllIff | app/script.js:254-269 | the completion ratio is 1 exactly when the query is a subsequence of the text |
| Fuzzy.LengthPenaltyAbove | app/script.js:271 | the length penalty stays above 0.8, so its floor of 0 is never reached |
| Fuzzy.FuzzyScoreZeroIff | app/script.js:244-273 | the score is 0 exactly when the first query character is absent from the text, and never negative |
| Fuzzy.FuzzyScoreBound | app/script.js:267-272 | the score lies in [0, 1.5] |
| Fuzzy.FormulaIncreasesWithRun | app/script.js:269-272 | with the matches and lengths fixed, a longer consecutive run scores strictly higher |
| Scoring.CalculateScore | app/script.js:202-242 | the early-return chain and the word loop compute the field score `Score` |
| Scoring.WordScore | app/script.js:221-241 | the word branch is at least 0 and at least every word's candidate |
| Scoring.ScoreOfEmpty | app/script.js:203 | an empty query or an empty text scores 0 |
| Scoring.ScoreOfExact | app/script.js:206 | a non-empty text equal to the query scores exactly 1 |
| Scoring.SubstringScoreRange | app/script.js:209-213 | the position bonus lies in (0.5, 1]; the substring score lies in (0, 0.8], and below 0.8 unless the query fills the text |
| Scoring.SubstringScoreDecreases | app/script.js:210-213 | for fixed lengths, a later first occurrence scores strictly lower |
| Scoring.ScoreOfSubstring | app/script.js:209-214 | a query occurring in a different text is scored at its first occurrence, in (0, 0.8) |
| Scoring.ScoreOfFuzzy | app/script.js:217-218 | a non-substring query whose first character occurs in the text takes the fuzzy branch, in (0, 0.9] |
| Scoring.MatchNeedsFirstChar | app/script.js:224-227 | a word can start with or contain the query only if it holds the query's first character |
| Scoring.ScoreOfWords | app/script.js:220-241 | the word branch is reached only when the first query character is absent from the text; then every word gives only its typo candidate, and the value is in [0, 0.4] |
| Scoring.TypoCandidateRange | app/script.js:229-237 | a typo candidate is taken exactly when the distance is at most 2 and the similarity exceeds 0.6; it is at most 0.4; one edit needs length 3, two edits need length 6 |
| Scoring.TypoExamples | app/script.js:229-237 | "stauts" against the word "status" gives a candidate of at least 0.4 · (1 − 2/6), while "xyz" against "status" gives 0 |
| Scoring.WordScoreIsACandidate | app/script.js:221-241 | the word branch is 0 or the candidate of one of the words, and at most 0.7 |
| Scoring.WordCandidateRange | app/script.js:223-237 | one word contributes between 0 and 0.7 |
| Scoring.ScoreRange | app/script.js:202-242 | every field score lies in [0, 1], and it is 1 exactly for a non-empty exact match |
| Highlighting.GetHighlights | app/script.js:275-294 | the `while (true)` loop returns the spans found by repeated `indexOf` calls, the ones `Highlights` defines |
| Highlighting.HighlightsWellFormed | app/script.js:275-294 | each highlight covers `|q|` characters that spell the query, and every highlight ends at or before the start of each later one |
| Highlighting.SpansProperties | app/script.js:280-291 | the spans found from a position are occurrences at or after it, ordered and disjoint |
| Highlighting.SpansCover | app/script.js:280-291 | the start of every occurrence at or after the search position lies inside one of the spans |
| Highlighting.HighlightsCoverOccurrences | app/script.js:275-294 | the start of every occurrence of a non-empty query lies inside a highlighted span (an occurrence overlapping a found one need not lie inside a span as a whole) |
| Highlighting.HighlightsEmptyIff | app/script.js:276 | there are no spans exactly when the query is empty or does not occur |
| Ranking.TagsScore | app/script.js:172 | the tag score is at least 0 and at least every tag's score; it is 0 or one of the tag scores (so 0 for no tags) |
| Ranking.TagHighlights | app/script.js:192 | one highlight list per tag, in tag order |
| Ranking.TagScores | app/script.js:172 | the loop over the tags computes the tag score |
| Ranking.TagHighlightLists | app/script.js:192 | the loop over the tags computes the per-tag highlight lists |
| Ranking.WeightedScore | app/script.js:168-181 | the field scores weighted 3.0, 2.0, 1.0 and 2.5 give the total |
| Ranking.CommandHighlights | app/script.js:187-193 | the `_matchHighlights` of one command |
| Ranking.FuzzySearch | app/script.js:163-200 | the scoring loop and the sort return the ranking; it is sorted by score, highest first, and every entry is above 0.1 and belongs to an input command |
| Ranking.TotalScoreRange | app/script.js:176-181 | the total lies in [0, 8.5] |
| Ranking.TagsScoreRange | app/script.js:172 | the tag score lies in [0, 1] |
| Ranking.KeptMembers | app/script.js:166-196 | a command is kept exactly when it is an input command whose total exceeds 0.1; the kept entry is that command annotated with its total and highlights |
| Ranking.InsertPermutes | app/script.js:199 | inserting adds exactly one element |
| Ranking.InsertSorted | app/script.js:199 | inserting into a descending sequence keeps it descending |
| Ranking.InsertWithScore | app/script.js:199 | the inserted element goes ahead of the elements that share its score |
| Ranking.SortDescPermutes | app/script.js:199 | the sort yields a permutation of the kept results |
| Ranking.SortDescSorted | app/script.js:199 | the sort yields scores in descending order |
| Ranking.SortDescStable | app/script.js:199 | for every score, the results with that score keep their input order |
| Ranking.SortDescProperties | app/script.js:199 | the sort is a descending, stable permutation |
| Ranking.WithScoreMembers | app/script.js:199 | the subsequence for a score holds exactly input elements with that score, and it is non-empty when one exists |
| Ranking.SortedUnique | app/script.js:199 | two descending sequences with the same per-score subsequences are equal |
| Ranking.RankProperties | app/script.js:163-200 | the ranking is a stable descending permutation of the kept results; a command appears exactly when it is an input command whose total exceeds 0.1 |
| Ranking.RankEntries | app/script.js:184-199 | entry by entry, the ranking is above 0.1, belongs to input commands and descends |
| Ranking.RankIsTheStableSort | app/script.js:199 | any stable descending ordering of the kept results is the ranking, so the comparator sort determines the result |
| Ranking.ExactNameIsRanked | app/script.js:168-184 | a command whose lower-cased name is the non-empty lower-cased query totals at least 3.0 and is always ranked |
| Ranking.GitExample | app/script.js:163-200 | for the query "git", a command named "Git Status" scores 0.24 on its name, is ranked, and has its name highlighted on [0, 3) |
| Library.NextIndex | app/script.js:452-467 | ArrowDown and ArrowUp keep a selection in [-1, length); with a valid selection it is -1 exactly when the list is empty |
| Library.Selected | app/script.js:468-472 | Enter yields a command exactly when the index names an entry, and that entry's command |
| Library.CommandLibrary.constructor | app/script.js:2-5 | the library starts with no commands, no listed entries and selection -1 |
| Library.CommandLibrary.HandleSearch | app/script.js:150-161 | lists `Filtered(commands, searchText)`, selects 0 when something is listed and -1 otherwise, and leaves the commands alone |
| Library.CommandLibrary.HandleKeyNavigation | app/script.js:452-475 | moves the selection by `NextIndex`; on Enter it returns the selected command to copy; it keeps `Valid` |
| Library.CommandLibrary.DeleteCommand | app/script.js:571-577 | when confirmed, removes the commands with that id and searches again; otherwise nothing changes |
| Library.CommandLibrary.AddCommand | app/script.js:605-632 | appends the new command and searches again when the trimmed name and command are non-empty; otherwise nothing changes |
| Library.CommandLibrary.ImportCommands | app/script.js:642-675 | for an array, appends the accepted entries, searches again (selecting the first entry, or -1 when nothing is listed) and returns their count; otherwise nothing changes |
| Library.FilteredPassThrough | app/script.js:153-154 | a blank search lists exactly the stored commands, in order and unscored |
| Library.FilteredSearchResults | app/script.js:155-156 | a non-blank search lists only ranked entries, highest first, each above 0.1 and for a stored command |
| Library.FilteredSearchComplete | app/script.js:155-156 | a non-blank search lists every command whose total exceeds 0.1 |
| Library.NavigationInverse | app/script.js:454-467 | ArrowUp undoes an ArrowDown that moved, and ArrowDown undoes an ArrowUp that moved |
| Library.ArrowDownSaturates | app/script.js:454-459 | repeated ArrowDown presses stop at the last entry |
| Library.RemoveByIdMembers | app/script.js:573 | deleting keeps exactly the commands with another id |
| Library.RemoveByIdAbsent | app/script.js:573 | deleting an id that no command has changes nothing |
| Library.RemoveByIdIdempotent | app/script.js:573 | deleting twice is the same as deleting once |
| Library.ParseTagsClean | app/script.js:609 | every parsed tag is non-empty, has no comma and no surrounding whitespace |
| Library.ParseTagsJoin | app/script.js:609 | clean tags written out with commas parse back to the same tags |
| Library.NewCommandProperties | app/script.js:605-623 | the form is accepted exactly when the name and the command each contain a non-space character; the new command has the given id, a trimmed name and command, and clean tags |
| Library.ValidCommandsProperties | app/script.js:653-662 | the import keeps exactly the entries with a non-empty string name and value, normalised; it never adds more entries than it was given |
| Settings.Clamp | app/script.js:357-359 | `Math.max(lo, Math.min(hi, x))` lies in [lo, hi] and is `x` when `x` already does |
| Settings.SliderOpacity | app/script.js:413 | the opacity slider never hands on less than 70 |
| Settings.ReadInRange | app/script.js:350-370 | whatever is stored, the blur reads back in [0, 50], the opacity in [70, 100], and the tint is non-empty; nothing stored gives 20, '#000000' and 90 |
| Settings.ReadSaveRoundTrip | app/script.js:357-359 | with the corrected blur default, settings in range survive being stored and read back |
| Settings.ReadAsWrittenRoundTrip | app/script.js:357 | as written, the round trip holds exactly for a non-zero blur; a stored blur of 0 reads back as 20 |
| Settings.BlurZeroLost | app/script.js:357 | as written, setting the blur slider to 0 and then changing the tint stores a blur of 20 |
| Settings.UpdatesKeepOtherSettings | app/script.js:376-400 | with the corrected reading, changing the tint keeps the blur the slider set, and changing the blur keeps the tint and the opacity |
| Settings.ReadSaveRead | app/script.js:350-373 | with the corrected blur default, reading, storing and reading again gives the same settings (as written this fails, see `Settings.ReadAsWrittenNotStable`) |
| Settings.ReadAsWrittenNotStable | app/script.js:357 | as written, reading is not stable: a stored blur of −5 reads as 0, and that 0 reads back as 20 |
| Settings.OpacitySliderRoundTrip | app/script.js:411-420 | after the opacity slider stores `v`, the opacity read back is `v` clamped to [70, 100] |

## Left out

- Platform I/O is not modelled. This covers `main.js`, the DOM (`renderCommands`, `highlightText`, `escapeHtml`, `updateSelection`, modals, the loading screen, themes), alerts and timers.
- `copyCommand` needs the clipboard, so `HandleKeyNavigation` returns the command that Enter would copy instead.
- `localStorage` is replaced by a parameter: the parsed stored settings, `None` when nothing parses.
- The `FileReader` / `JSON.parse` step of the import is replaced by a parameter. A file that does not parse changes the state exactly as a non-array does, so both become `NotAnArray`; choosing no file changes nothing.
- `loadCommands`, `saveCommands` and `initializeCommands` are asynchronous storage plumbing. Note that `initializeCommands` does not call `handleSearch`.
- Record ids come from `Date.now()` and `Math.random()`, which are not deterministic, so they are parameters (one per added or imported entry). `createdAt` is left out because no searched property depends on it.
- The search box text and the `confirm()` answer are parameters. Escape's `clearSearch` is `HandleSearch("")`.
- The mouse-click selection in `renderCommands` is DOM event handling and is not modelled; it sets `selectedIndex` to the clicked entry.
- `e.preventDefault()` is a DOM effect and is not modelled.
- Scores are exact reals. IEEE-754 double rounding is not modelled.
- Unicode handling is not modelled. A Dafny `char` is a Unicode scalar value, while a JavaScript string is a sequence of UTF-16 code units. A character outside the Basic Multilingual Plane is one element in the model but two in `.length`, so for such text the model's `lengthRatio`, positions and highlight spans differ from the source's. Lone surrogates cannot be represented at all. `trim` and `\s` match ASCII whitespace only, and `toLowerCase` maps ASCII letters only.
- `Array.prototype.sort` is a library routine, modelled by the stable insertion sort `SortDesc`. `Ranking.RankIsTheStableSort` shows that any stable descending ordering gives the same result.
- `handleSearch` assigns `this.filteredCommands = this.commands` as a shared array. The model copies the list as a value. Every later push to `commands` is followed by a new search, so nothing observable changes.
- Import entries are typed in the model. A `description` is a string or absent, and `tags` is an array of strings or not an array. A truthy non-string description, non-string tag elements, and entries that are not objects are not modelled.
- Numeric stored settings are integers or absent. NaN from `parseInt` of a non-numeric value and fractional stored values are not modelled.
- `applyTransparencySettings` (CSS variables and the opacity IPC message) is presentation and is not modelled.
- Scoring.TypoExamples: proves a candidate of at least 0.4 · (1 − 2/6) for "stauts" rather than the exact 0.267, because only an upper bound of 2 on that distance is proved.
- Ranking.GitExample: does not prove that the "List Files" default command is excluded, because that needs lower bounds on concrete edit distances that are not proved.

## Findings

| source | as written | input that shows it | evidently intended | confidence | as-written member | corrected member |
|---|---|---|---|---|---|---|
| app/script.js:357 | `Math.max(0, Math.min(50, settings.blur \|\| 20))` treats a stored blur of 0 like a missing one | drag the blur slider to 0 (`updateBlur` stores `blur: 0`), then change the tint: `updateTint` reads blur 20 and stores 20 | a stored 0 is kept, since the clamp admits 0; fall back to 20 only when the blur is missing | medium; not executed | Settings.BlurZeroLost | Settings.ReadSaveRoundTrip |
