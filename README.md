# fundraise-swap, modelled in Dafny

fundraise-swap is a two-person "swipe on fundraises" app. Co-founders share a
workspace. Each of them swipes through one of two feeds of startup funding
rounds:

- The **archive** feed holds the last twelve months. It is shuffled with a
  per-workspace seed, so both members see the same order.
- The **recent** feed holds the last 48 hours, newest first.

When every member of a workspace likes the same fundraise in the same mode, a
**match** is created. Members may then attach a **reflection** (chips and an
optional note) to their own likes. Each member's position in each feed is kept
as a **progress cursor**. The feeds are created by importing two Crunchbase CSV
exports. Both the backend feed generator and the front-end fundraise service
de-duplicate the records by lower-cased company name and announcement time.

The model is a set of Dafny modules, one for each part of the program:

- `DeterministicShuffle` covers the seeded Mulberry32 generator, the string
  hash behind the seed, and the id-sort followed by an in-place Fisher–Yates
  pass over an `array`.
- `InviteCode` and `RandomSource` cover invite codes and workspace seeds. They
  draw from a stream of `Math.random` values given as a parameter.
- `CsvImporter` covers the quote-toggling line splitter, the header-to-value row
  maps, the funding-type classification, investor splitting and row mapping.
- `Dedup` covers keep-first de-duplication, used both by the backend and the
  front end.
- `FeedGenerator` has the `FeedStore` class. It holds the two datasets behind a
  load-once flag and serves the archive and recent feeds.
- `FundraiseService` has the `FundraiseStore` class for the front-end dataset:
  initialise, append-if-new, time windows, statistics and the card conversion.
- `Database` holds the SQL tables as maps in one `Store` class, whose invariant
  covers the tables; the feed store keeps its own. `Query` covers
  `ORDER BY` and `queryOne` over a table.
- The route handlers are methods on that store, returning
  `Ok | BadRequest | NotFound | ServerError`, as the HTTP status of each branch:
  - `Swipes` covers the swipe upsert and `checkAndCreateMatch`;
  - `ProgressRoutes` covers GET/PUT progress;
  - `FeedRoute` covers GET feed;
  - `MatchesRoutes` covers the match list and match detail;
  - `ReflectionsRoute` covers saving a reflection;
  - `WorkspacesRoutes` covers create, join and current workspace.

Timestamps are integers in milliseconds. The current time, fresh uuids and
random draws are parameters. The caller's session (`requireAuth`, and
`requireWorkspace` where the route uses it) is a precondition that the caller
is a user, or a user with a workspace.

## Model

| member | source | states |
|---|---|---|
| DeterministicShuffle.ToInt32 | backend/src/utils/deterministicShuffle.ts:28-29 | the result of `hash & hash` is a signed 32-bit value |
| DeterministicShuffle.SeedHash | backend/src/utils/deterministicShuffle.ts:25-30 | the recurrence `h*31 + charCode` over the UTF-16 code units, wrapped to signed 32 bits, stays in the signed 32-bit range |
| DeterministicShuffle.NumericSeed | backend/src/utils/deterministicShuffle.ts:31 | the absolute value of the hash of the string's code units lies in `[0, 2^31]` |
| DeterministicShuffle.StringToSeed | backend/src/utils/deterministicShuffle.ts:24-32 | the loop over `str.length` code units computes exactly the absolute value of the wrapped hash, and the result is at most 2^31 |
| DeterministicShuffle.Mulberry32.constructor | backend/src/utils/deterministicShuffle.ts:12 | the generator starts from the given seed |
| DeterministicShuffle.Mulberry32.Next | backend/src/utils/deterministicShuffle.ts:13-18 | each call advances the state by 0x6d2b79f5, and the output is the fixed mixing function of the new state modulo 2^32, so one seed always gives one stream |
| DeterministicShuffle.DrawIndex | backend/src/utils/deterministicShuffle.ts:55 | the drawn index `floor(u / 2^32 * (i+1))` satisfies `j <= i` |
| DeterministicShuffle.ScaleBound | backend/src/utils/deterministicShuffle.ts:55 | for `0 <= u < 2^32`, `u * (i+1) / 2^32 <= i` |
| DeterministicShuffle.IdLessIrreflexive | backend/src/utils/deterministicShuffle.ts:48 | no id sorts before itself |
| DeterministicShuffle.IdLessTrichotomy | backend/src/utils/deterministicShuffle.ts:48 | any two ids are equal or exactly one of them sorts first |
| DeterministicShuffle.IdLessTransitive | backend/src/utils/deterministicShuffle.ts:48 | the id order is transitive |
| DeterministicShuffle.IdLeTotalOrder | backend/src/utils/deterministicShuffle.ts:48 | the comparator used for the id sort is a total order (reflexive, total, antisymmetric, transitive) |
| DeterministicShuffle.Insert | backend/src/utils/deterministicShuffle.ts:48 | inserting one record adds exactly that record to the multiset |
| DeterministicShuffle.SortById | backend/src/utils/deterministicShuffle.ts:48 | the sorted copy is a permutation of the input |
| DeterministicShuffle.InsertSorted | backend/src/utils/deterministicShuffle.ts:48 | insertion keeps a sequence sorted by id |
| DeterministicShuffle.SortByIdSorted | backend/src/utils/deterministicShuffle.ts:48 | the copy is sorted by id |
| DeterministicShuffle.SortedUnique | backend/src/utils/deterministicShuffle.ts:48 | with unique ids there is only one id-sorted arrangement of a multiset |
| DeterministicShuffle.SortByIdCanonical | backend/src/utils/deterministicShuffle.ts:48 | two permutations of each other with unique ids sort to the same sequence |
| DeterministicShuffle.Swap | backend/src/utils/deterministicShuffle.ts:56 | a swap keeps the length and the multiset |
| DeterministicShuffle.FisherYates | backend/src/utils/deterministicShuffle.ts:54-57 | the descending swap pass returns a permutation of its input |
| DeterministicShuffle.ShuffledPermutes | backend/src/utils/deterministicShuffle.ts:43-60 | the shuffle returns a permutation of the input: same length, same multiset |
| DeterministicShuffle.ShuffledOrderIndependent | backend/src/utils/deterministicShuffle.ts:48-57 | with unique ids, inputs that are permutations of each other give the identical output for the same seed |
| DeterministicShuffle.ShuffledShortInput | backend/src/utils/deterministicShuffle.ts:54 | inputs of length 0 or 1 come back as the id-sorted copy, which is the input |
| DeterministicShuffle.SwapStep | backend/src/utils/deterministicShuffle.ts:55-56 | one draw and one swap in place take the array from step `i` to step `i-1` of the reference pass |
| DeterministicShuffle.ShuffleInPlace | backend/src/utils/deterministicShuffle.ts:54-57 | the in-place loop over the array leaves exactly the reference Fisher–Yates result |
| DeterministicShuffle.DeterministicShuffle | backend/src/utils/deterministicShuffle.ts:43-60 | the method returns the reference shuffle of the input, and that is a permutation of it; the input sequence is a value and is not changed |
| DeterministicShuffle.WorkspaceSeedOf | backend/src/utils/deterministicShuffle.ts:65-72 | the seed the draws determine has exactly 32 characters, each from the 62-character alphanumeric alphabet |
| DeterministicShuffle.GenerateWorkspaceSeed | backend/src/utils/deterministicShuffle.ts:65-72 | the loop builds exactly the seed the draws determine, one character per draw |
| RandomSource.PickIndex | backend/src/utils/inviteCode.ts:16 | `floor(r * n)` for a draw in `[0, 1)` is a valid index |
| RandomSource.PickChar | backend/src/utils/inviteCode.ts:16 | `charAt` of that index is a character of the alphabet |
| RandomSource.RandomString | backend/src/utils/deterministicShuffle.ts:65-72 | one character per draw, each from the alphabet |
| RandomSource.RandomStringSnoc | backend/src/utils/deterministicShuffle.ts:68-69 | one more draw appends the character it picks |
| InviteCode.GenerateInviteCode | backend/src/utils/inviteCode.ts:13-19 | the loop builds exactly the code the draws determine, one character per draw |
| InviteCode.InviteCodeOf | backend/src/utils/inviteCode.ts:7-19 | a generated code has 6 characters from the alphabet |
| InviteCode.NormalizeInviteCode | backend/src/utils/inviteCode.ts:24-26 | the output has no whitespace and no lower-case letter, and is no longer than the input |
| InviteCode.NormalizeFixedPoint | backend/src/utils/inviteCode.ts:24-26 | a code without whitespace or lower-case letters is left unchanged |
| InviteCode.NormalizeIdempotent | backend/src/utils/inviteCode.ts:24-26 | normalising twice is normalising once |
| InviteCode.GeneratedCodeIsNormal | backend/src/utils/inviteCode.ts:7-26 | every generated code is a fixed point of the normalisation |
| InviteCode.NormalizeIgnoresCase | backend/src/utils/inviteCode.ts:25 | a code typed in lower case normalises to the same code |
| JsStrings.CountOfConcat | backend/src/services/csvImporter.ts:100-111 | occurrence counts add up over concatenation |
| JsStrings.CountOfPositive | backend/src/services/csvImporter.ts:100-111 | a character occurs exactly when its count is positive |
| JsStrings.TrimStart | backend/src/services/csvImporter.ts:106 | `trimStart` drops the longest whitespace prefix and nothing else |
| JsStrings.TrimEnd | backend/src/services/csvImporter.ts:106 | `trimEnd` drops the longest whitespace suffix and nothing else |
| JsStrings.Trim | backend/src/services/csvImporter.ts:113 | a trimmed string has no whitespace at either end and only characters of the input |
| JsStrings.TrimKeeps | backend/src/services/csvImporter.ts:113 | trimming keeps every non-whitespace character and its count |
| JsStrings.TrimTrimmed | backend/src/services/csvImporter.ts:128 | trimming a trimmed string changes nothing |
| JsStrings.ToLower | backend/src/services/csvImporter.ts:31 | `toLowerCase` maps each character on its own and keeps the length |
| JsStrings.ToUpper | backend/src/utils/inviteCode.ts:25 | `toUpperCase` maps each character on its own and keeps the length |
| JsStrings.LowerOfCaseChange | backend/src/services/feedGenerator.ts:61 | lower-casing is idempotent and ignores an earlier upper-casing |
| JsStrings.SplitOn | backend/src/services/csvImporter.ts:121 | `split(sep)` gives one more piece than there are separators, and no piece contains the separator |
| JsStrings.SplitOnKeepsCount | backend/src/services/csvImporter.ts:69 | splitting keeps every other character and its count |
| JsStrings.Utf16Char | backend/src/utils/deterministicShuffle.ts:27 | a character below 0x10000 is one code unit, any other two |
| JsStrings.Utf16CharDecodes | backend/src/utils/deterministicShuffle.ts:27 | the code unit is the code point, or the pair is a high then a low surrogate that decode back to it |
| JsStrings.Utf16 | backend/src/utils/deterministicShuffle.ts:26-27 | a string has at least as many code units as characters |
| JsStrings.Utf16Concat | backend/src/utils/deterministicShuffle.ts:26-27 | the code units of a concatenation are the concatenated code units |
| JsStrings.Utf16Prefix | front-end/src/services/fundraiseService.ts:37 | a prefix of the string gives a prefix of its code units |
| JsStrings.Utf16Bmp | backend/src/utils/deterministicShuffle.ts:26-27 | a string without characters above 0xFFFF has one code unit per character, equal to its code point |
| CsvImporter.ScanQuoteParity | backend/src/services/csvImporter.ts:103-104 | after a prefix, `inQuotes` is set exactly when an odd number of quotes has been read |
| CsvImporter.ScanFieldCount | backend/src/services/csvImporter.ts:105-107 | one field is pushed per comma outside quotes |
| CsvImporter.ScanFieldsClean | backend/src/services/csvImporter.ts:103-110 | no pushed field and no partly built field contains a quote, and pushed fields are trimmed |
| CsvImporter.ScanCommas | backend/src/services/csvImporter.ts:105-110 | every comma of the line is either a field separator or kept inside a field |
| CsvImporter.SplitFieldsShape | backend/src/services/csvImporter.ts:95-115 | `parseCSVLine` returns (commas outside quotes) + 1 fields, each trimmed and without `"` |
| CsvImporter.SplitFieldsKeepQuotedCommas | backend/src/services/csvImporter.ts:103-110 | the commas inside quotes all stay inside the fields |
| CsvImporter.SplitFieldsWithoutQuotes | backend/src/services/csvImporter.ts:95-115 | a line without quotes splits on every comma |
| CsvImporter.ParseCsvLine | backend/src/services/csvImporter.ts:95-115 | the character loop computes the reference split of the line |
| CsvImporter.RowOf | backend/src/services/csvImporter.ts:132-136 | each row has exactly the headers as keys |
| CsvImporter.RowOfValue | backend/src/services/csvImporter.ts:134-136 | the value under a header is the value at its index, `''` when missing; with repeated headers the last assignment wins |
| CsvImporter.RowsOf | backend/src/services/csvImporter.ts:127-139 | at most one row per line, each keyed by the headers |
| CsvImporter.RowsOfStep | backend/src/services/csvImporter.ts:127-139 | one more data line adds its row unless it is blank |
| CsvImporter.ParseCsvRowsShape | backend/src/services/csvImporter.ts:120-142 | fewer than 2 lines give `[]`, there is at most one row per line after the header, and every row has every header as a key |
| CsvImporter.RowsOfCountsNonBlank | backend/src/services/csvImporter.ts:128-129 | a blank line adds no row and any other line adds one |
| CsvImporter.BuildRow | backend/src/services/csvImporter.ts:132-136 | the `forEach` fills the row the reference definition describes |
| CsvImporter.ParseCsv | backend/src/services/csvImporter.ts:120-142 | splitting on newlines and reading the lines gives the reference rows of the text |
| CsvImporter.ParseLines | backend/src/services/csvImporter.ts:122-141 | fewer than two lines give no rows; otherwise the header line keys the rows of the data lines |
| CsvImporter.ParseDataLines | backend/src/services/csvImporter.ts:127-141 | the line loop computes the reference rows of the lines after the header line |
| CsvImporter.MapFundingType | backend/src/services/csvImporter.ts:30-42 | a type containing 'pre-seed' or 'pre seed' in any case is Pre-Seed, which is checked before 'seed' |
| CsvImporter.MapFundingTypeDefault | backend/src/services/csvImporter.ts:41 | a type matching none of the keywords is Seed |
| CsvImporter.MapFundingTypeSeriesA | backend/src/services/csvImporter.ts:35 | 'series a' without an earlier keyword is Series A |
| CsvImporter.MapFundingTypeIgnoresCase | backend/src/services/csvImporter.ts:31 | the classification does not depend on letter case |
| CsvImporter.Or | backend/src/services/csvImporter.ts:85-87 | the `or` of two cells: the first when present (non-empty), else the second |
| CsvImporter.OrElse | backend/src/services/csvImporter.ts:80-81 | a present cell, else the fallback |
| CsvImporter.TrimEach | backend/src/services/csvImporter.ts:69 | `map(s => s.trim())` trims every piece and keeps the count |
| CsvImporter.CleanPieces | backend/src/services/csvImporter.ts:69 | after trimming and `filter(Boolean)`, every name is non-empty, trimmed and comma-free |
| CsvImporter.ParseInvestors | backend/src/services/csvImporter.ts:67-70 | blank or missing input gives `[]`; every name is non-empty, trimmed and contains no comma |
| CsvImporter.InvestorNames | backend/src/services/csvImporter.ts:69 | the split names are non-empty, trimmed and comma-free |
| CsvImporter.TrimEachKeepsCount | backend/src/services/csvImporter.ts:69 | trimming the pieces loses no non-whitespace character |
| CsvImporter.FilterNonEmptyKeepsCount | backend/src/services/csvImporter.ts:69 | dropping empty pieces loses no character |
| CsvImporter.ParseInvestorsKeepsNames | backend/src/services/csvImporter.ts:67-70 | no non-comma, non-whitespace character of the input is lost |
| CsvImporter.MapCrunchbaseRow | backend/src/services/csvImporter.ts:75-90 | the mapping throws exactly when 'Funding Type' is absent or a present date does not parse; otherwise it uses the given id and clock, and name and description are never empty |
| CsvImporter.MapCrunchbaseRowFallbacks | backend/src/services/csvImporter.ts:80-88 | 'Unknown' name, default description, the stage of the funding type, the clock for a missing date, the transaction URL then the organisation URL then `''`, Lead Investors then Investor Names, and geography `''` |
| CsvImporter.MapEach | backend/src/services/csvImporter.ts:149 | a `map` whose callback may throw gives, when it succeeds, one result per element |
| CsvImporter.MapEachFails | backend/src/services/csvImporter.ts:149 | such a `map` throws exactly when the callback throws on some element |
| CsvImporter.MapEachElementwise | backend/src/services/csvImporter.ts:149 | on success the `k`-th result is the callback on the `k`-th element |
| CsvImporter.MapRows | backend/src/services/csvImporter.ts:149 | a successful map gives one record per row |
| CsvImporter.MapRowsFails | backend/src/services/csvImporter.ts:149 | the map throws exactly when some row's mapping throws |
| CsvImporter.MapRowsElementwise | backend/src/services/csvImporter.ts:149 | on success the `k`-th record is the mapping of the `k`-th row |
| CsvImporter.ImportFromCsv | backend/src/services/csvImporter.ts:147-150 | one record per parsed row |
| Seqs.Filter | front-end/src/services/fundraiseService.ts:136-139 | `filter` keeps the elements satisfying the predicate, in order, each with exactly its number of copies in the input, and no other element |
| Seqs.FilterKeepsAll | front-end/src/services/fundraiseService.ts:120-123 | a filter that rejects nothing returns its input |
| Dedup.KeysOfSnoc | backend/src/services/feedGenerator.ts:60-65 | appending a record adds its key |
| Dedup.KeepFirstKeys | backend/src/services/feedGenerator.ts:61-64 | every key of the input is still present after de-duplication |
| Dedup.KeepFirstUnique | backend/src/services/feedGenerator.ts:61-64 | after de-duplication no two records share a key |
| Dedup.KeepFirstSubsequence | backend/src/services/feedGenerator.ts:57-68 | the result is a subsequence of the input, in input order |
| Dedup.KeepFirstElements | backend/src/services/feedGenerator.ts:57-68 | only input records, and no more of them than the input has |
| Dedup.LastIsFirstOfKey | backend/src/services/feedGenerator.ts:62 | the last record is kept exactly when its key was not seen before it |
| Dedup.PrefixFirstOfKey | backend/src/services/feedGenerator.ts:62 | whether a record is the first of its key does not depend on later records |
| Dedup.KeptIsFirstOfKey | backend/src/services/feedGenerator.ts:60-65 | every kept record is the first of its key at some position |
| Dedup.FirstOfKeyIsKept | backend/src/services/feedGenerator.ts:60-65 | the first record of every key is kept |
| Dedup.KeepFirstKeepsFirsts | backend/src/services/feedGenerator.ts:60-65 | a record is kept exactly when it is at a first occurrence of its key |
| Dedup.KeepFirstOfUnique | backend/src/services/feedGenerator.ts:57-68 | input with unique keys comes back unchanged |
| Dedup.KeepFirstIdempotent | backend/src/services/feedGenerator.ts:57-68 | de-duplication is idempotent |
| Dedup.DeduplicateFundraises | backend/src/services/feedGenerator.ts:57-68 | the map-filling loop computes exactly the keep-first de-duplication (also the front-end copy at front-end/src/services/fundraiseService.ts:94-107) |
| FeedGenerator.InsertByTime | backend/src/services/feedGenerator.ts:83-85 | insertion adds exactly one record |
| FeedGenerator.SortNewestFirst | backend/src/services/feedGenerator.ts:83-85 | the sorted copy is a permutation of the dataset |
| FeedGenerator.InsertNewestFirst | backend/src/services/feedGenerator.ts:83-85 | insertion keeps the order newest first |
| FeedGenerator.SortNewestFirstOrdered | backend/src/services/feedGenerator.ts:83-85 | `announced_at` is non-increasing along the recent feed |
| FeedGenerator.InsertAtTime | backend/src/services/feedGenerator.ts:83-85 | insertion places a record after the others of its time |
| FeedGenerator.SortNewestFirstStable | backend/src/services/feedGenerator.ts:83-85 | records with the same time keep dataset order (the sort is stable) |
| FeedGenerator.FeedPermutes | backend/src/services/feedGenerator.ts:91-100 | the archive feed is a permutation of the archive, and the recent feed a newest-first permutation of the recent dataset |
| FeedGenerator.FeedSharedBySeed | backend/src/services/feedGenerator.ts:73-100 | the recent feed does not depend on the seed, and the archive feed is the seeded shuffle of the archive |
| FeedGenerator.Dataset | backend/src/services/feedGenerator.ts:30-49 | an absent file gives the empty dataset, and a loaded dataset has unique keys |
| FeedGenerator.FeedStore.constructor | backend/src/services/feedGenerator.ts:15-17 | both datasets start empty and the flag unset |
| FeedGenerator.FeedStore.LoadFile | backend/src/services/feedGenerator.ts:30-38 | one file is imported and de-duplicated |
| FeedGenerator.FeedStore.LoadFundraiseData | backend/src/services/feedGenerator.ts:22-52 | a second load returns early and changes nothing; a first load replaces the archive, then the recent dataset, then sets the flag, stopping where an import throws |
| FeedGenerator.FeedStore.GetArchiveFeed | backend/src/services/feedGenerator.ts:73-76 | the seeded shuffle of the archive, a permutation of it |
| FeedGenerator.FeedStore.GetRecentFeed | backend/src/services/feedGenerator.ts:81-86 | a newest-first, stable permutation of the recent dataset, which is not changed |
| FeedGenerator.FeedStore.GetFeed | backend/src/services/feedGenerator.ts:91-101 | loads first if not yet loaded, then returns the feed of the mode |
| FeedGenerator.FeedStore.GetAllFundraises | backend/src/services/feedGenerator.ts:106-111 | loads if needed, then returns both datasets |
| FeedGenerator.FeedStore.GetDatasetStats | backend/src/services/feedGenerator.ts:116-128 | loads if needed, then reports exactly the two dataset lengths |
| FundraiseService.LogoIndex | front-end/src/services/fundraiseService.ts:18-34 | the palette index is the sum of the name's UTF-16 code units modulo 8, always valid |
| FundraiseService.LogoIndexOfSurrogatePair | front-end/src/services/fundraiseService.ts:34 | a character outside the BMP counts as its two surrogates: U+1F680 sums 0xD83D + 0xDE80 and gets slot 5 |
| FundraiseService.FirstSentenceIsPrefix | front-end/src/services/fundraiseService.ts:37 | `split('.')[0]` is the longest prefix without a full stop |
| FundraiseService.OneLinerShape | front-end/src/services/fundraiseService.ts:37 | the one-liner is a prefix of the description's code units: the code units of the first sentence (the longest prefix without a full stop), or the first 80 code units when that is empty |
| FundraiseService.ToUIFundraise | front-end/src/services/fundraiseService.ts:32-53 | logo colour from the palette by code-unit sum mod 8, the one-liner a prefix of the description's code units, location 'Unknown' by default, investors `[]` by default, round and tag the stage name, other fields copied |
| FundraiseService.Earliest | front-end/src/services/fundraiseService.ts:163 | `Math.min` of the dates is attained and bounds every date from below |
| FundraiseService.Latest | front-end/src/services/fundraiseService.ts:164 | `Math.max` of the dates is attained and bounds every date from above |
| FundraiseService.FundraiseStore.constructor | front-end/src/services/fundraiseService.ts:56 | the dataset starts empty |
| FundraiseService.FundraiseStore.InitializeFundraises | front-end/src/services/fundraiseService.ts:61-64 | the dataset becomes the keep-first de-duplication of the input, in input order |
| FundraiseService.FundraiseStore.IsDuplicate | front-end/src/services/fundraiseService.ts:71-75 | a duplicate is a record with the same lower-cased name and the same time |
| FundraiseService.FundraiseStore.AddFundraise | front-end/src/services/fundraiseService.ts:70-84 | returns false and changes nothing for a duplicate key; otherwise appends at the end and returns true; key uniqueness is preserved |
| FundraiseService.FundraiseStore.GetArchiveFundraises | front-end/src/services/fundraiseService.ts:115-124 | exactly the records in `[cutoff, now]`, in dataset order |
| FundraiseService.FundraiseStore.GetRecentFundraises | front-end/src/services/fundraiseService.ts:132-140 | exactly the records with `now - 48h <= announced_at <= now`, in dataset order |
| FundraiseService.FundraiseStore.GetAllFundraises | front-end/src/services/fundraiseService.ts:145-147 | a copy equal to the dataset |
| FundraiseService.FundraiseStore.ClearFundraises | front-end/src/services/fundraiseService.ts:178-180 | the dataset becomes empty |
| FundraiseService.FundraiseStore.GetDatasetStats | front-end/src/services/fundraiseService.ts:152-173 | total is the dataset size, both windows count at most the total, and oldest/newest are null exactly for an empty dataset and bound every date |
| Types.ParseMode | backend/src/routes/progress.ts:33-36 | only 'archive' and 'recent' are modes |
| Json.OrNull | backend/src/routes/reflections.ts:77 | `note \|\| null`: a truthy value or null |
| Json.RequiredString | backend/src/routes/swipes.ts:97-100 | accepted exactly when the value is a non-empty string |
| Query.FirstRow | backend/src/routes/matches.ts:84-87 | a non-empty table has a row that may be listed first |
| Query.OrderBy | backend/src/routes/matches.ts:84-87 | `ORDER BY` lists every row once, sorted by the key in the requested direction |
| Query.SelectKey | backend/src/routes/matches.ts:133-141 | `queryOne` finds a row satisfying the condition exactly when one exists |
| Database.Members | backend/src/routes/swipes.ts:32-35 | exactly the users with that workspace id |
| Swipes.DecisionOf | backend/src/routes/swipes.ts:103-106 | only the strings 'like' and 'pass' are decisions |
| Swipes.UpsertSwipe | backend/src/routes/swipes.ts:113-134 | exactly one row for (user, fundraise, mode) holding the new decision; an existing row keeps its id, a new row takes the fresh id; other rows untouched; keying and id uniqueness preserved |
| Swipes.ReswipeKeepsId | backend/src/routes/swipes.ts:120-148 | a re-swipe keeps the first swipe's id and overwrites its decision |
| Swipes.Likers | backend/src/routes/swipes.ts:42-47 | the likers are members of the workspace |
| Swipes.SubsetAsLarge | backend/src/routes/swipes.ts:50 | a subset of the members as large as the members is all of them |
| Swipes.QualifiesIffAllLike | backend/src/routes/swipes.ts:37-52 | the two guards pass exactly when there are at least 2 members and every member likes the fundraise in this same mode |
| Swipes.MatchesAfter | backend/src/routes/swipes.ts:54-71 | a qualifying missing match is inserted with the fresh id, an existing one is kept, no other row changes |
| Swipes.MatchesAfterIdempotent | backend/src/routes/swipes.ts:55-62 | a second qualifying like inserts no second match |
| Swipes.CheckAndCreateMatch | backend/src/routes/swipes.ts:26-76 | returns the match for (workspace, fundraise, mode) exactly when it qualifies, inserting it at most once, and changes no other table |
| Swipes.SaveSwipe | backend/src/routes/swipes.ts:82-150 | invalid mode, fundraise id or decision is rejected without a write; otherwise the swipe is upserted, a like runs the match check, a pass never matches, and `matchCreated` says whether a qualifying match exists after the call |
| Swipes.WriteSwipe | backend/src/routes/swipes.ts:118-134 | an existing row keeps its id and gets the new decision and time; otherwise a row with the fresh id is inserted; no other table changes |
| Swipes.TwoMemberFlow | backend/src/tests/match-flow.test.ts:143-178 | in a two-member workspace the first like does not qualify and the partner's like in the same mode does |
| ProgressRoutes.BoundedCursor | backend/src/routes/progress.ts:77-79 | `min(cursor, max(0, len-1))`: the cursor when within range, else the maximum; a non-negative cursor lands in `[0, max(0, len-1)]` |
| ProgressRoutes.BoundedCursorIdempotent | backend/src/routes/progress.ts:79 | clamping twice is clamping once |
| ProgressRoutes.CursorOf | backend/src/routes/progress.ts:67-70 | accepted exactly when the cursor is a non-negative number |
| ProgressRoutes.GetProgress | backend/src/routes/progress.ts:26-48 | a bad mode is rejected; otherwise the stored row, or cursor 0 when none exists; stored cursors are never negative |
| ProgressRoutes.UpdateProgress | backend/src/routes/progress.ts:54-107 | a bad mode or cursor is rejected with no write; otherwise the clamped cursor is stored under (user, mode) only, overwriting any earlier row, and a later GET returns it |
| ProgressRoutes.WriteProgress | backend/src/routes/progress.ts:90-100 | the row under (user, mode) becomes the new cursor and time, whether it was updated or inserted; no other table changes |
| FeedRoute.StoredCursor | backend/src/routes/feed.ts:45-50 | the stored cursor, 0 when there is no row, never negative |
| FeedRoute.GetFeedRoute | backend/src/routes/feed.ts:19-58 | bad mode gives BadRequest, a missing workspace NotFound; otherwise the feed of the mode and seed, its length, and the stored cursor clamped to `[0, max(0, len-1)]`; no table is written |
| MatchesRoutes.LikeRows | backend/src/routes/matches.ts:33-41 | exactly the like rows on (fundraise, mode) by members of the workspace |
| MatchesRoutes.ReflectionView | backend/src/routes/matches.ts:43-58 | user, names and like time from the like; the reflection's chips and its note or null, `[]` and null without one |
| MatchesRoutes.GetReflectionsForMatch | backend/src/routes/matches.ts:27-59 | one entry per member like, ordered by like time ascending |
| MatchesRoutes.ViewsAreLikers | backend/src/routes/matches.ts:33-57 | the users of the entries are exactly the members who like |
| MatchesRoutes.MatchListsEveryMember | backend/src/tests/match-flow.test.ts:216-218 | a qualifying match carries an entry for every member |
| MatchesRoutes.IndexByIdEntries | backend/src/routes/matches.ts:94-96 | every feed record's id is in the lookup table, under a record with that id |
| MatchesRoutes.IndexByIdLaterWins | backend/src/routes/matches.ts:94-96 | an id in the recent feed maps to the recent record, whatever the archive holds |
| MatchesRoutes.IndexByIdDistinct | backend/src/routes/matches.ts:94-96 | with distinct ids every record is found under its own id |
| MatchesRoutes.IndexSnoc | backend/src/routes/matches.ts:94-96 | each `forEach` step sets the record under its id, overwriting an earlier entry |
| MatchesRoutes.IndexInto | backend/src/routes/matches.ts:94-96 | one `forEach` over a dataset computes the index of everything set so far |
| MatchesRoutes.BuildFundraiseMap | backend/src/routes/matches.ts:94-96 | the two loops fill the table of archive then recent records, the later entry winning |
| MatchesRoutes.Lookup | backend/src/routes/matches.ts:100 | `fundraiseMap.get(id)`: the entry when present |
| MatchesRoutes.ItemOf | backend/src/routes/matches.ts:99-114 | match fields copied; a known fundraise gives its fields; a missing one gives 'Unknown Company' and empty description, stage and amount |
| MatchesRoutes.WorkspaceMatches | backend/src/routes/matches.ts:84-87 | exactly the matches of the workspace |
| MatchesRoutes.GetBothFeeds | backend/src/routes/matches.ts:90-91 | loads if needed, then returns the archive and recent feeds of the seed |
| MatchesRoutes.BuildItems | backend/src/routes/matches.ts:99-114 | one item per match, in order, each with its reflections |
| MatchesRoutes.ListMatches | backend/src/routes/matches.ts:65-118 | a missing workspace is NotFound; otherwise exactly the workspace matches, newest first, each with its fundraise from the table and its reflections |
| MatchesRoutes.FindById | backend/src/routes/matches.ts:155-157 | `feed.find`: the first record with the id, `None` when there is none |
| MatchesRoutes.GetMatchDetail | backend/src/routes/matches.ts:124-183 | a match id outside the caller's workspace is NotFound; the fundraise is looked up in the feed of the match's own mode only and is NotFound when absent; otherwise the detail with its reflections |
| ReflectionsRoute.ChipsOf | backend/src/routes/reflections.ts:39-42 | accepted exactly when `chips` is an array |
| ReflectionsRoute.BoundNote | backend/src/routes/reflections.ts:77-84 | the bound `note \|\| null`: null for a falsy note, `true` as 1, other values as given, and an exception exactly for a plain object |
| ReflectionsRoute.UpsertReflection | backend/src/routes/reflections.ts:65-86 | one reflection per swipe: a re-save keeps the id and replaces chips, note and time; other rows untouched; keying preserved |
| ReflectionsRoute.SavedReflectionShown | backend/src/routes/reflections.ts:65-86 | the match read-model then shows the saved chips and the note as bound: null, the note, or 1 for `true` |
| ReflectionsRoute.SaveReflection | backend/src/routes/reflections.ts:24-96 | bad swipe id or chips is BadRequest, a swipe not owned by the caller NotFound, a pass swipe BadRequest, a note that is an object ServerError, all without a write; otherwise a like upserts the reflection with the bound note and the response echoes swipe id, chips and `note \|\| null` |
| ReflectionsRoute.WriteReflection | backend/src/routes/reflections.ts:70-86 | an existing reflection keeps its id and gets the new chips, bound note and time; otherwise one with the fresh id is inserted; no other table changes |
| WorkspacesRoutes.CodeAt | backend/src/routes/workspaces.ts:46 | each attempt draws a 6-character code from the alphabet |
| WorkspacesRoutes.FirstFreeCode | backend/src/routes/workspaces.ts:44-59 | fails exactly when all remaining attempts up to 10 collide; otherwise the code is used by no workspace |
| WorkspacesRoutes.GenerateUniqueCode | backend/src/routes/workspaces.ts:44-54 | the do/while loop returns the first free code among 10 attempts |
| WorkspacesRoutes.InsertKeepsCodesUnique | backend/src/routes/workspaces.ts:62-68 | inserting a workspace with an unused code keeps invite codes unique |
| WorkspacesRoutes.CreateWorkspace | backend/src/routes/workspaces.ts:29-83 | blank name is BadRequest, a user already in a workspace BadRequest, 10 collisions ServerError, all without a write; otherwise the trimmed name, a fresh 32-character seed and an unused code are stored and the creator joins |
| WorkspacesRoutes.AddWorkspace | backend/src/routes/workspaces.ts:65-74 | the workspace row is inserted and the creator's `workspace_id` set to it, keeping invite codes unique; no other table changes |
| WorkspacesRoutes.JoinWorkspace | backend/src/routes/workspaces.ts:89-125 | a missing code or a user already in a workspace is BadRequest; the normalised code finds the workspace or gives NotFound; on success only the user's workspace changes, with no cap on members |
| WorkspacesRoutes.TypedCodeFindsWorkspace | backend/src/routes/workspaces.ts:103-114 | a generated code typed in lower case finds exactly its own workspace |
| WorkspacesRoutes.GetCurrentWorkspace | backend/src/routes/workspaces.ts:131-152 | null and `[]` without a workspace; otherwise the workspace and exactly the users with its id |
| WorkspacesRoutes.CallerIsMember | backend/src/routes/workspaces.ts:139-149 | the caller is among the listed members |

## Left out

- The front-end CSV importer, front-end/src/services/csvImporter.ts, differs from the backend copy only in comments, the order of declarations and its id source (`crypto.randomUUID`). The model therefore has one definition, in `CsvImporter`, for both copies. The two copies agree by construction, so no lemma relates them. `generateId` is the `ids` oracle, and `importFromCSVFile` is `fetch` I/O.
- `formatAmount`: float parsing and `toFixed` formatting. It is a function parameter of `Context`.
- Date handling:
  - `new Date(s).toISOString()` is the `parseDate` parameter, which returns `None` where it throws on an invalid date.
  - ISO timestamps are integers, which compare in the same order as the ISO strings.
  - The calendar `setMonth` cutoff of `getArchiveFundraises` is a parameter.
- The clock: `new Date()` is a `now` parameter, one reading for each call. One import uses one clock reading for all its rows.
- Randomness and ids:
  - `Math.random` is a stream of draws in `[0, 1)`. Invite-code generation gets one stream per attempt and the workspace seed a separate stream.
  - Fresh uuids are parameters. Preconditions say they differ from every id in their table, and the workspace id is non-empty.
- `localeCompare`: collation is replaced by a fixed total order on ids (lexicographic order on characters, that is on code points, a proper prefix first). The proofs use only that it is a total order.
- Strings are sequences of Unicode scalar values (Dafny `char`s). Where the source counts or reads UTF-16 code units (`charCodeAt` in `stringToSeed` and the logo colour, `slice(0, 80)` in the one-liner), `JsStrings.Utf16` gives the code units. The other string operations test only characters below 0x10000, so they agree on either view. A string holding a lone surrogate cannot arise from the model's inputs and is not modelled. `toLowerCase`/`toUpperCase` are modelled on ASCII letters only; other letters are left unchanged. `\s` and `trim` use the ECMAScript whitespace and line-terminator characters.
- `DeterministicShuffle.Mulberry32.Next`: the JS seed is a double that keeps growing. The model keeps it as an unbounded integer and reduces it modulo 2^32 before mixing. That matches the JS only while the double is exact, that is, below 2^53, or about 5 million draws.
- `DeterministicShuffle.DrawIndex`: the float product `u / 2^32 * (i+1)` is modelled as the integer quotient `u * (i+1) / 2^32`. The two agree while `i + 1 < 2^21`; the model does not capture feeds longer than that.
- `FundraiseService.Earliest`: `Math.min(...dates)` fails with a RangeError on arrays too large to spread. The model does not capture that; this applies equally to `Latest`.
- I/O:
  - `fs.existsSync`/`readFileSync` become the constructor's `Option<string>` file contents.
  - `console.log` output is left out.
  - `front-end/src/services/dataLoader.ts` is an asynchronous single-flight `fetch` and is not part of this model.
- SQL:
  - The sql.js engine and its persistence are replaced by a map per table.
  - Uniqueness constraints from the schema (not part of this model) are not assumed. The invariants in `Database.Store.Valid` are the ones the handlers themselves maintain.
  - Rows with equal `ORDER BY` keys come back in an unspecified order, and `queryOne` returns an unspecified matching row.
  - Member lists are returned as sets, because the query has no `ORDER BY`.
  - A column default `created_at` is the handler's `now`.
  - Re-reading a row just written (`SELECT * ... WHERE id = ?` after an INSERT) yields that row.
  - JSON columns (`chips`) are stored and read back unchanged: the `JSON.stringify`/`JSON.parse` round trip is taken as identity.
  - sql.js's parameter binding is not part of this model beyond `ReflectionsRoute.BoundNote`: strings and numbers are bound as themselves, `true` as 1, `null` as NULL, and a plain object throws.
- ReflectionsRoute.SaveReflection: a note that is a JSON array is stored and read back as given. sql.js binds an array as a blob, and what a blob reads back as is not part of this model. The request type declares `note?: string` (backend/src/types/index.ts:137), so arrays and objects are outside what clients are meant to send.
- Authentication: `requireAuth`, `requireWorkspace`, sessions and the auth routes are replaced by the precondition that the caller is a user (with a workspace, where the route requires one).
- Express wiring, error middleware and `index.ts` are left out, as is all React UI, including `Home.tsx` cursor handling and the repeated `getLogoColor` helpers.
- `ProgressRoutes.GetProgress`: `updatedAt` of a missing row is the `now` parameter.
- `WorkspacesRoutes.CreateWorkspace`: the response's re-read workspace is modelled as the inserted row.
- Seed and mock data files, the type declaration files and the integration test script contain no logic and are not modelled. The test file is cited only as a source of properties.
