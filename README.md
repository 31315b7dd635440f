# StockTerm watchlist core, modelled in Dafny

StockTerm is a terminal stock viewer written in Go. It keeps a watchlist
of ticker symbols in a text file as one comma-separated line. This
project models the parts of StockTerm that decide what that file holds:

- the watchlist service: add, remove, replace, and add/remove in batches;
- the file format and the file operations: load, save, and migration from
  the legacy file;
- the interactive list editor's state machine;
- the best-effort batch fetch of chart data;
- the command-line dispatcher.

It then proves what these operations promise.

Files and modules:

- `wrappers.dfy` (`Wrappers`) holds `Option`, `Result` and `Outcome`, which stand in for Go's `(value, error)` returns.
- `strings.dfy` (`Strings`) holds ASCII models of Go's `strings.ToUpper` and `strings.TrimSpace`, and of `strings.Split` and `strings.Join` with the separator `","`.
- `sorting.dfy` (`Sorting`) models `sort.Strings` as insertion sort. It proves that the result is a sorted permutation, and that a sorted permutation is unique.
- `config.dfy` (`Config`) holds the configuration record and the file system, modelled as a `Disk` object. It also holds `LoadWatchlist`, `SaveWatchlist` and `MigrateFromLegacy`.
- `watchlist.dfy` (`Watchlist`) holds the `Service` class. Each of its methods is proved to perform a pure step function on the watchlist file's content: `AddStep`, `RemoveStep` or `UpdateStep`. The lemmas state the properties of those steps. The loops of `AddTicker` and `RemoveTicker` over the loaded list are the methods `Contains` and `Without`, called where the source has them inline.
- `editor.dfy` (`Editor`) holds the `WatchlistModel` class. Its `Update` performs one transition of `Next`. The file also holds `GetRemainingChoices` and `RunWatchlistEditor`.
- `api.dfy` (`Api`) holds `FetchStockData` and `FetchMultipleStocks`, both over an oracle `net` from (ticker, time range) to a reply.
- `cli.dfy` (`Cli`) holds `executeCommand` and the helpers it calls, specified by the pure functions `Dispatch` and `Execute`.

Inputs from the environment are parameters:

- **File system:** a `Disk` object. `files` maps paths to contents, and writes to a path in `denied` fail.
- **Home directory:** an `Option<string>`.
- **Network:** the `net` oracle.
- **Terminal:** a finite sequence of key messages, plus a flag for a terminal program that fails to start.

## Model

| member | source | states |
|---|---|---|
| Strings.TrimSpaceTrimmed | internal/watchlist/watchlist.go:31 | a normalised ticker neither starts nor ends with white space |
| Strings.TrimSpaceDropsSpaces | internal/config/config.go:73-75 | trimming removes only white space, and only from the two ends |
| Strings.TrimSpaceIsSlice | internal/config/config.go:74 | the trimmed entry is a contiguous slice of the field it came from |
| Strings.TrimSpaceChars | internal/config/config.go:74 | trimming introduces no character, in particular no comma |
| Strings.TrimSpaceIdempotent | internal/watchlist/watchlist.go:31 | trimming a second time changes nothing |
| Strings.ToUpperIsUpper | internal/watchlist/watchlist.go:31 | upper-casing leaves no lower-case ASCII letter |
| Strings.SplitPieces | internal/config/config.go:70 | splitting gives one field per comma plus one, and no field holds a comma |
| Strings.JoinSplit | internal/config/config.go:70 | joining the fields of a split gives back the file content |
| Strings.SplitJoin | internal/config/config.go:83 | splitting a join of comma-free entries gives back the entries |
| Sorting.SortStringsCorrect | internal/watchlist/watchlist.go:53 | sort.Strings returns a sorted rearrangement of its input |
| Sorting.SortStringsNoDuplicates | internal/watchlist/watchlist.go:53 | sorting a duplicate-free list keeps it duplicate-free |
| Sorting.SortedPermutationUnique | internal/watchlist/watchlist.go:53 | two sorted arrangements of the same entries are equal, so the sorting algorithm does not matter |
| Config.DefaultConfig | internal/config/config.go:23-45 | time range "1d", currency "USD"; both files are `filepath.Join`s of `<home or .>/.stockterm` with their names, and the two paths differ |
| Config.PathJoinPlain | internal/config/config.go:32-41 | joining a plain name onto a path without empty, "." or ".." elements is plain concatenation with "/" |
| Config.PathJoinDistinct | internal/config/config.go:40-41 | two names that end in different characters give different joined paths |
| Config.DefaultConfigPlainHome | internal/config/config.go:25-41 | for a plain home directory the files are `<home>/.stockterm/watchlist.txt` and `<home>/.stockterm/config.yaml` |
| Config.DefaultConfigNoHome | internal/config/config.go:26-41 | without a home directory the paths are `.stockterm/watchlist.txt` and `.stockterm/config.yaml`, with no leading "./" |
| Config.DefaultConfigRootHome | internal/config/config.go:25-41 | the root as home directory gives `/.stockterm/...` with a single leading "/" |
| Config.DefaultConfigTrailingSlash | internal/config/config.go:25-41 | a trailing "/" on a plain home directory gives the same configuration |
| Config.ParseWatchlistFields | internal/config/config.go:65-75 | empty content loads as []; otherwise one trimmed entry per comma-separated field |
| Config.ParseWatchlistStorable | internal/config/config.go:65-75 | every loaded entry is comma-free and trimmed, so it survives a save and a load |
| Config.SaveThenLoad | internal/config/config.go:65-94 | saving a list of trimmed, comma-free entries and loading it gives the list back; `[""]` is the one exception |
| Config.SaveEmptyEntryLoadsEmpty | internal/config/config.go:65-67 | `[""]` is saved as empty content, which loads as [] |
| Config.LoadThenSave | internal/config/config.go:70-83 | content whose fields are already trimmed is unchanged by a load followed by a save |
| Config.FormatExample | internal/config/config.go:70-83 | `["AAPL","MSFT"]` is stored as `AAPL,MSFT` and read back as the same list |
| Config.LoadWatchlist | internal/config/config.go:48-78 | an absent file is created empty and gives []; a creation failure leaves the disk as it was; a present file is parsed and not changed |
| Config.SaveWatchlist | internal/config/config.go:81-99 | the file is overwritten with the comma-joined list, or the write fails and nothing changes |
| Config.PlanMigrationCases | internal/config/config.go:102-134 | migration copies exactly when the legacy file exists and the store does not; it copies verbatim and never overwrites |
| Config.MigrationRunsOnce | internal/config/config.go:110-113 | after a copy, a second migration does nothing |
| Config.MigrateFromLegacy | internal/config/config.go:102-135 | the disk changes only by the planned copy; a failed write changes nothing |
| Watchlist.NormalizeFacts | internal/watchlist/watchlist.go:31 | a normalised ticker is upper-case and trimmed, normalising twice is once, and normalising adds no comma |
| Watchlist.AddedFacts | internal/watchlist/watchlist.go:50-53 | the added list is sorted, its multiset is the old one plus the ticker, and it is duplicate-free when the old list was and the ticker was absent |
| Watchlist.RemovedMembers | internal/watchlist/watchlist.go:78-86 | removal keeps exactly the entries different from the ticker, as a multiset with the ticker's count set to zero |
| Watchlist.RemovedKeepsOrder | internal/watchlist/watchlist.go:78-86 | removal keeps the rest in order, so a sorted or duplicate-free list stays so |
| Watchlist.RemovedAbsent | internal/watchlist/watchlist.go:78-86 | filtering out an absent ticker changes nothing |
| Watchlist.AddThenRemove | internal/watchlist/watchlist.go:43-93 | adding a new ticker to a sorted list and removing it gives the list back |
| Watchlist.NormalizedNonEmptyFrom | internal/watchlist/watchlist.go:121-127 | every entry of the update pass is the non-empty normalised form of some input |
| Watchlist.NormalizedNonEmptyKeeps | internal/watchlist/watchlist.go:121-127 | every input whose normalised form is non-empty is kept |
| Watchlist.NormalizedNonEmptyNormal | internal/watchlist/watchlist.go:121-127 | kept entries are already normalised, and storable when no input holds a comma |
| Watchlist.ReplacedFacts | internal/watchlist/watchlist.go:121-128 | the replacement list is sorted, has the multiset of the normalised non-empty inputs, and holds only normalised non-empty entries |
| Watchlist.ReplacedKeepsDuplicates | internal/watchlist/watchlist.go:121-128 | UpdateWatchlist does not deduplicate: `["aapl","AAPL"]` becomes `["AAPL","AAPL"]` |
| Watchlist.AddStepOutcome | internal/watchlist/watchlist.go:29-61 | add fails on an empty ticker, a listed ticker or an unwritable file, and the listed entries are then unchanged; it succeeds exactly otherwise, storing the joined Added list |
| Watchlist.AddStepStores | internal/watchlist/watchlist.go:50-58 | after a successful add, the list read back is sorted, with multiset old plus the normalised ticker |
| Watchlist.AddStepKeepsInvariant | internal/watchlist/watchlist.go:43-58 | add preserves a sorted, duplicate-free stored list |
| Watchlist.AddTwice | internal/watchlist/watchlist.go:43-47 | adding the same ticker twice: the second add fails with "already in the watchlist" and changes nothing |
| Watchlist.NormalizeCommaExample | internal/watchlist/watchlist.go:31 | normalisation keeps commas: "a,b" becomes "A,B" |
| Watchlist.AddTwiceWithComma | internal/watchlist/watchlist.go:29-58 | a ticker holding a comma is stored as two entries, so adding it twice succeeds twice |
| Watchlist.AddCommaUnsorted | internal/watchlist/watchlist.go:29-58 | from a sorted, empty list, adding "b,a" stores "B,A", which loads back as the unsorted `["B","A"]` |
| Watchlist.RemoveStepOutcome | internal/watchlist/watchlist.go:64-98 | remove fails on an empty ticker, an absent ticker or an unwritable file, and the listed entries are then unchanged; it succeeds exactly otherwise, storing the joined filtered list |
| Watchlist.RemoveStepStores | internal/watchlist/watchlist.go:78-95 | after a successful remove, the ticker is gone and only old entries remain, in their old order |
| Watchlist.RemoveStepKeepsInvariant | internal/watchlist/watchlist.go:78-95 | remove preserves a sorted, duplicate-free stored list |
| Watchlist.RemoveTwice | internal/watchlist/watchlist.go:88-90 | removing a ticker a second time fails with "not in the watchlist" and changes nothing |
| Watchlist.UpdateStepStores | internal/watchlist/watchlist.go:119-136 | update succeeds exactly when the file is writable; failure changes nothing; success stores the sorted replacement list |
| Watchlist.AddAllKeepsInvariant | internal/watchlist/watchlist.go:101-107 | a batch of comma-free adds preserves a sorted, duplicate-free list |
| Watchlist.RemoveAllKeepsInvariant | internal/watchlist/watchlist.go:110-116 | a batch of removes preserves a sorted, duplicate-free list |
| Watchlist.BatchOnUnwritableFile | internal/watchlist/watchlist.go:101-116 | batches on an unwritable file change nothing |
| Watchlist.Service.constructor | internal/watchlist/watchlist.go:17-21 | the service holds the given configuration and disk |
| Watchlist.Service.GetWatchlist | internal/watchlist/watchlist.go:24-26 | a load: the listed entries, creating an absent file, or the creation error |
| Watchlist.Contains | internal/watchlist/watchlist.go:43-47 | the duplicate scan reports true exactly when the ticker is already listed |
| Watchlist.Without | internal/watchlist/watchlist.go:78-86 | the filtering pass keeps exactly Removed(list, ticker) and reports whether the ticker was seen |
| Watchlist.Service.AddTicker | internal/watchlist/watchlist.go:29-61 | the error and the new file content are exactly AddStep's; other files are untouched |
| Watchlist.Service.RemoveTicker | internal/watchlist/watchlist.go:64-98 | the error and the new file content are exactly RemoveStep's; other files are untouched |
| Watchlist.Service.AddMultipleTickers | internal/watchlist/watchlist.go:101-107 | every ticker's add is applied in order, errors are ignored, and the result is always nil |
| Watchlist.Service.RemoveMultipleTickers | internal/watchlist/watchlist.go:110-116 | every ticker's remove is applied in order, errors are ignored, and the result is always nil |
| Watchlist.Service.UpdateWatchlist | internal/watchlist/watchlist.go:119-136 | the error and the new file content are exactly UpdateStep's |
| Editor.InitialValid | internal/ui/list.go:20-25 | a new model holds the list, the cursor is at 0, nothing is selected, and it is not done or saved |
| Editor.NextValid | internal/ui/list.go:33-72 | every key keeps the cursor in [0, max(0, len-1)], keeps selections within that range, and never changes the choices |
| Editor.CursorMoves | internal/ui/list.go:48-58 | up decrements only from above 0; down increments only below len-1; nothing else changes |
| Editor.SaveAndQuit | internal/ui/list.go:37-46 | "s" sets saved and done; "q"/"ctrl+c" set done and leave saved; other keys change neither |
| Editor.ToggleTwice | internal/ui/list.go:60-67 | toggle flips the cursor's membership in the selection; toggling twice restores the selection |
| Editor.IgnoredChangesNothing | internal/ui/list.go:33-72 | unrecognised keys and non-key messages change nothing |
| Editor.RemainingAtUnselected | internal/ui/list.go:104-114 | the remaining entries are exactly the entries at unselected positions, in increasing position order |
| Editor.RunFacts | internal/ui/list.go:37-46 | a session keeps the choices and the invariant, and ends saved exactly when "s" comes before any quit key |
| Editor.EditorResultFacts | internal/ui/list.go:127-146 | saved is reported exactly when the program ran and "s" came first; unsaved returns the original list; saved returns the unselected entries |
| Editor.WatchlistModel.constructor | internal/ui/list.go:20-25 | the fields of a new model |
| Editor.WatchlistModel.Update | internal/ui/list.go:33-72 | the fields change exactly as Next, and quit is requested exactly on the save and quit keys |
| Editor.WatchlistModel.GetRemainingChoices | internal/ui/list.go:104-114 | returns the unselected choices in order |
| Editor.RunWatchlistEditor | internal/ui/list.go:127-146 | returns EditorResult of the session |
| Api.EffectiveRange | internal/api/yahoo.go:34-36 | an empty time range becomes "1d"; any other one is kept |
| Api.FetchOutcome | internal/api/yahoo.go:30-65 | a fetch succeeds exactly on a 200 reply whose body decodes, and returns that body; any other status is an error carrying the code |
| Api.EmptyRangeIsOneDay | internal/api/yahoo.go:34-36 | fetching with no range is fetching with "1d" |
| Api.FetchStockData | internal/api/yahoo.go:30-65 | the outcome is the classified reply to the request with the effective range |
| Api.SuccessesBound | internal/api/yahoo.go:71-79 | there are no more results than tickers |
| Api.SuccessesAppend | internal/api/yahoo.go:71-79 | the results for a + b are those for a followed by those for b, so a failure does not affect later tickers |
| Api.SuccessesSingle | internal/api/yahoo.go:72-78 | a ticker contributes its response on success and nothing on failure |
| Api.SuccessesMembers | internal/api/yahoo.go:71-79 | a response is in the batch exactly when some ticker's fetch returned it |
| Api.MiddleFailureSkipped | internal/api/yahoo.go:73-76 | with tickers a, b, c and b failing, the batch is [a's response, c's response] |
| Api.FetchMultipleStocks | internal/api/yahoo.go:68-82 | the result is the successes in input order, and the error is always nil |
| Cli.DispatchFacts | cmd/stockterm/main.go:60-95 | get/add/remove need an argument and take the first; the other known commands need none; any other word is an invalid command |
| Cli.TrimmedNonEmptyFrom | cmd/stockterm/main.go:179-183 | each ticker handed to the service is a trimmed, non-empty piece of the argument |
| Cli.TrimmedNonEmptyKeeps | cmd/stockterm/main.go:179-183 | every piece that is non-empty after trimming is handed to the service |
| Cli.CliTickersFacts | cmd/stockterm/main.go:176-183 | the tickers of an argument are non-empty, trimmed and comma-free |
| Cli.RefusedCommandDoesNothing | cmd/stockterm/main.go:60-95 | a missing argument or an unknown command returns its error and does nothing else |
| Cli.HelpAndVersion | cmd/stockterm/main.go:85-91 | help and version succeed and change nothing |
| Cli.GetAllEmptyFetchesNothing | cmd/stockterm/main.go:118-128 | get-all on an empty watchlist succeeds without fetching |
| Cli.GetAllFetchesWatchlist | cmd/stockterm/main.go:118-144 | get-all requests every entry in order, renders the successes and never fails after the load |
| Cli.ListUpdatesOnlyWhenSaved | cmd/stockterm/main.go:146-172 | list stores a new list only when the list is non-empty and the editor saved, and then stores exactly UpdateWatchlist's result |
| Cli.AddRemoveNeverFail | cmd/stockterm/main.go:174-216 | add and remove always succeed and apply each ticker of the argument in order |
| Cli.CommandsKeepInvariant | cmd/stockterm/main.go:174-216 | every command except list keeps the stored list sorted and duplicate-free |
| Cli.OtherCommandsKeepList | cmd/stockterm/main.go:60-144 | get, get-all, help, version and refused commands at most create the empty file |
| Cli.GetTickersPrice | cmd/stockterm/main.go:98-116 | the untrimmed comma-separated pieces are fetched for "1d" and the successes are rendered |
| Cli.GetWatchlistPrice | cmd/stockterm/main.go:118-144 | its effect is GetAllEffect's |
| Cli.DisplayWatchlist | cmd/stockterm/main.go:146-172 | its effect is ListEffect's |
| Cli.AddTickersToWatchlist | cmd/stockterm/main.go:174-194 | returns nil, and the file content is that of adding each trimmed non-empty piece in order |
| Cli.RemoveTickersFromWatchlist | cmd/stockterm/main.go:196-216 | returns nil, and the file content is that of removing each trimmed non-empty piece in order |
| Cli.ExecuteCommand | cmd/stockterm/main.go:52-96 | the error, the rendered responses, the requested tickers and the new file content are exactly Execute's |

## Left out

- HTTP request construction, the base URL, the 10-second client timeout and JSON decoding (internal/api/yahoo.go:14-27, 39-62) are network I/O and library calls. The `net` oracle returns their outcome: a request that cannot be built, a transport failure, or a status with a body that did or did not decode.
- Signal handling and `context.WithTimeout` (cmd/stockterm/main.go:20-21, 103-104, 131-132) are cancellation and concurrency. A deadline shows up only as the outcome the oracle returns. The oracle depends only on the ticker and the time range, not on the position in the batch or on time. So the one 10-second deadline shared by a whole batch, which could expire partway through it, is not modelled.
- `main` itself (cmd/stockterm/main.go:18-50) is process start-up. That covers the argument-count check, the start-up call of MigrateFromLegacy with "./ggs.config" and the exit status. The migration it performs is modelled in `Config.MigrateFromLegacy`.
- Config.PathJoin: models `filepath.Join` and `filepath.Clean` for the separator "/" only. Windows volume names and the separator "\\" are left out.
- The home-directory lookup is the parameter of `DefaultConfig`. Directory creation with `os.Stat`/`MkdirAll` and its warnings (internal/config/config.go:31-37, 85-91, 121-127), file modes and read errors (59-62, 116-119) are left out. In the model a path is either present and readable or absent, and a write fails exactly on the paths in `denied`. In Go, a `Stat` error other than "does not exist" makes the migration proceed; the model has no such third state.
- Unicode upper-casing and Unicode white space are left out. `ToUpper` and `TrimSpace` are modelled on ASCII only.
- internal/model/stock.go (floating-point price arithmetic) and internal/ui/table.go (rendering) are not part of this model. The rendered responses are reported as a sequence.
- `WatchlistModel.View`, `Init` and the bubbletea program loop (internal/ui/list.go:27-30, 75-101, 128-129) are terminal UI. A finite message sequence replaces the loop, and it stops at the first quit request. A stream that ends without "s" or "q" counts as not saved. `tea.Quit` (internal/ui/list.go:41, 46) is a command, so the real program may still process key messages already queued after it. The rule in `Editor.EditorResultFacts` that the first "s" or "q" decides holds for the model's loop only.
- The failed type assertion in RunWatchlistEditor (internal/ui/list.go:135-139) cannot occur, because the program hands back the model it was given. The start-up error of the program (129-133) is the `runFails` flag.
- The `err != nil` branches after FetchMultipleStocks (cmd/stockterm/main.go:108-110, 136-138) cannot be taken, because FetchMultipleStocks always returns nil. The model leaves them out.
- All printed output is left out: warnings, success messages, usage and version text (cmd/stockterm/main.go:186-190, 208-212, 218-251).
- `sort.Strings` sorts the slice in place. The model sorts a sequence value by insertion. `Sorting.SortedPermutationUnique` shows that any sorted permutation is the same value.
- Go's `selected` map is shared between copies of the value-receiver `WatchlistModel` (internal/ui/list.go:33-72). The model holds it as a set value. bubbletea keeps only the returned model, so no copy is observed.
- `WatchlistModel.IsSaved` and `IsDone` (internal/ui/list.go:117-124) are field reads. They are modelled as functions without a contract of their own, and their use is covered by `Editor.RunWatchlistEditor`.
- `Editor.RunFacts` takes a valid, unfinished state only, which is the only state a session starts from.
- Watchlist.AddStepStores: states the list read back only for a ticker without a comma. A comma inside a normalised ticker makes the next load split it into two entries, as `Watchlist.AddTwiceWithComma` shows.
- Watchlist.UpdateStepStores: states the list read back only for inputs without commas, for the same reason.
- Watchlist.AddStepKeepsInvariant: requires a comma-free ticker. Without that the stored list can come back unsorted, as `Watchlist.AddCommaUnsorted` shows.
- Watchlist.AddTwice: requires a comma-free ticker, because a ticker with a comma can be added twice, as `Watchlist.AddTwiceWithComma` shows.
- Watchlist.AddAllKeepsInvariant: requires comma-free tickers, for the same reason. The command line meets this requirement, as `Cli.CommandsKeepInvariant` shows.
