# FileTypeFetcher, modelled in Dafny

FileTypeFetcher harvests files of chosen types from the Common Crawl
archive. `main` reads the crawl catalog (`get_index_urls`), downloads
each crawl index's manifest, and cuts the manifest's `.gz` shard URLs
into batches of `num_procs`. `run_batch` starts one worker process per
shard. A worker (`fetch_files_in_cdx`) downloads its CDX shard and reads
it record by record. It matches each record against the type-rule config
(`filetype_config.json`): the detected mime type first, the URL
extension second. Matching files are saved through `save_file` under
their md5 name, and the worker counts them in a dict shared by all
workers. The run ends once every type has `limit` files. The repository
holds two drafts of each module: the newer one (src/ and
cmoncrawl-fetcher/) and an older one (filetypefetcher/ and ftf/).

The Dafny modules follow the program's files:

- `Py` holds the Python built-ins the code relies on: `str.split`,
  `rstrip`, `strip`, the last-segment idiom `s.split(c)[-1]`, and
  insertion-ordered dicts.
- `Cdx` holds the record decoding and category matching that both
  workers share, plus the shared count dict (a class).
- `Manifest` turns manifest lines into shard URLs and batches. Both
  drafts of `main` share it.
- `Ftf` models src/ftf.py: the worker with host tolerance, `run_batch`
  and `main`.
- `FtfDraft` models filetypefetcher/ftf.py. Its worker has no tolerance,
  its `run_batch` reports and returns nothing, and its `main` ignores
  failed batches.
- `Web` models cmoncrawl-fetcher/web.py and `WebDraft` models
  filetypefetcher/web.py.
- `Commands` models src/commands.py and `CommandsDraft` models
  ftf/commands.py.

The loops of the source are methods with loop invariants. Each method is
proved against a function of its inputs: `RunLines` for a shard,
`TryCategories` for one record, `IndexOf` for the catalog, `Chunks` and
`PlanAll` for the batches, and `Validation` for the argument checks. The
properties are then proved about those functions.

Whatever the code gets from outside is an input to the model:

- HTTP responses are `Fetch` values.
- `json.loads` is the function `parse`, and `urlparse(...).hostname` is
  `hostOf`.
- The result of the k-th `save_file` call of a worker is `saves(k)`.
- gzip decompression is `inflate` and md5 is `md5Hex`.
- The disk is a map from path to bytes (`Store`), plus a `Disk` of
  directories for the argument checks.
- The outcome of each batch, as `main` sees it, is `batches(b)`: the exit
  codes and the counts the shared dict then holds.

## Model

| member | source | states |
|---|---|---|
| Cdx.Payload | src/ftf.py:101 | The payload is None exactly when the line has no "{", the case where `split("{")[1]` raises. |
| Cdx.PayloadIsFirstObjectText | src/ftf.py:101 | The payload starts with "{" and holds no other "{"; the line is some "{"-free text, then the payload, then nothing or the rest from the next "{". |
| Cdx.RecordOf | src/ftf.py:104-118 | A record is usable exactly when the payload is an object with mime-detected, a string url and status "200", and then it holds those two fields. |
| Cdx.Extension | src/ftf.py:108 | The extension starts with "." and holds no other dot. |
| Cdx.MimePrecedence | src/ftf.py:137-162 | A rule with a mime type never matches a record with a different detected mime, whatever the extension. |
| Cdx.ExtensionFallback | src/ftf.py:162 | A rule without a mime type matches a record with a non-null mime exactly when the record's extension is listed. |
| Cdx.NullMimeMatchesNoMimeRule | src/ftf.py:142-151 | A record whose mime-detected is JSON null matches every rule without a mime type (Python's `None == None`). |
| Cdx.MissingConfigMatchesOnlyNullMime | src/ftf.py:137-151 | A category missing from the config falls back to `[filetype]`, which has no dot, so only a null-mime record matches it (unless the name starts with "."). |
| Cdx.FileCounts.constructor | src/ftf.py:221 | The shared count dict starts with the given counts. |
| Cdx.FileCounts.Set | src/ftf.py:155 | `file_counts[k] = v` changes that entry and keeps an existing key in its place. |
| Cdx.ZerosMapsEveryTypeToZero | src/ftf.py:226-227 | The initial counts map every requested type, and nothing else, to 0; a repeated type is one key. |
| Cdx.ZeroCounts | src/ftf.py:226-227 | The initialisation loop builds exactly `Zeros(filetypes)`. |
| Manifest.ShardUrlShape | src/ftf.py:260-266 | A kept manifest line becomes a URL on https://data.commoncrawl.org/ that ends in ".gz". |
| Manifest.ShardUrlsShape | src/ftf.py:259-269 | Every shard URL gathered from a manifest is on the archive host and ends in ".gz". |
| Manifest.ShardUrlsPrefix | src/ftf.py:259-269 | The URLs of the first n lines come first among all of a manifest's URLs. |
| Manifest.BatchSize | src/ftf.py:272 | A batch is run at the first length that is at least `num_procs` and positive: `num_procs`, or 1 when `num_procs` is below 1. |
| Manifest.ChunksSized | src/ftf.py:269-282 | Every batch run holds exactly the batch size of URLs. |
| Manifest.ChunksCover | src/ftf.py:269-282 | The batches are the URLs in order, cut into groups, with fewer than a batch left over and never run. |
| Manifest.Leftover | src/ftf.py:269-282 | The URLs still pending are fewer than a batch. |
| Manifest.ChunksSnoc | src/ftf.py:269-282 | One more URL either fills the pending batch, which is then run and emptied, or stays pending. |
| Manifest.SkipLine | src/ftf.py:263-264 | A line that is not a ".gz" line adds no URL. |
| Manifest.GatherShard | src/ftf.py:266-282 | After one more ".gz" line, the batches run and the pending URLs are again the groups and leftover of the URLs read. |
| Manifest.ChunksOfPrefix | src/ftf.py:259-282 | The batches cut from the first lines come first among the manifest's batches. |
| Manifest.ChunksMonotone | src/ftf.py:269-282 | More URLs never take back a batch already cut. |
| Manifest.PlanAllNext | src/ftf.py:234-245 | The next index adds nothing when its manifest was not downloaded, and its manifest's batches otherwise. |
| Manifest.PlanAllPrefix | src/ftf.py:234-288 | The batches planned for the first n indexes come first among all batches planned. |
| Manifest.PlanAllBatches | src/ftf.py:234-288 | Every planned batch has the batch size, and all its URLs are shard URLs on the archive host. |
| Ftf.TryCategory | src/ftf.py:133-174 | Trying one type keeps the key sets of the counts and of `tol_dict` and never ends the worker by itself; a type not wanted changes nothing; for a wanted type a raising save crashes the worker with the state it had, a save returning 0 adds one to that count and one call, and any other code adds one to the host's failures and one call. |
| Ftf.TryCategories | src/ftf.py:132-174 | Trying every type keeps the key sets of the counts and of `tol_dict`. |
| Ftf.Step | src/ftf.py:100-179 | One line keeps the count dict well formed with the same keys. |
| Ftf.RunLines | src/ftf.py:100-182 | Reading a shard keeps the count dict well formed with the same keys. |
| Ftf.RunLinesStops | src/ftf.py:176-182 | Once the worker has stopped, later lines change nothing. |
| Ftf.TryCategoriesStops | src/ftf.py:154-174 | Once a `save_file` call has raised, no later type is tried. |
| Ftf.FetchFilesInCdx | src/ftf.py:52-182 | A failed shard download or a config file that cannot be opened or parsed gives `exit(1)` with nothing counted; otherwise the counts are those of `RunLines`, and the exit is 0 unless an exception escaped (then 1). |
| Ftf.ProcessLine | src/ftf.py:100-179 | One pass of the record loop does what `Step` says; it stops exactly when `Step` does not go on, with `exit(0)` at the quotas. |
| Ftf.TryAllCategories | src/ftf.py:132-174 | The loop over the types does what `TryCategories` says and reports whether a save raised. |
| Ftf.TryCategoryOnce | src/ftf.py:133-174 | The loop body for one type does what `TryCategory` says. |
| Ftf.LineWithoutBraceCrashes | src/ftf.py:101 | A line without "{" ends the worker with an uncaught exception and changes nothing. |
| Ftf.UnusableRecordSkipped | src/ftf.py:104-118 | An unusable record leaves counts, `tol_dict` and the save calls unchanged. |
| Ftf.ExcludedHostSkipped | src/ftf.py:121-125 | A record whose host has more than `tol` failures is skipped before any type is tried. |
| Ftf.NewHostEntered | src/ftf.py:121-132 | A usable record from a host seen for the first time is tried from the state with the host entered in `tol_dict` at 0; the host stays entered, and the quota test follows the categories. |
| Ftf.TryCategoryOutcome | src/ftf.py:154-174 | A save returning 0 adds exactly 1 to the type's count; any other code adds exactly 1 to the host's failures; a raise ends the worker; nothing else changes. |
| Ftf.TryCategoryAdvances | src/ftf.py:133-174 | One type tried: counts never go down, a count at `limit` is not saved into, and a count at most `limit` stays so; failures never go down. |
| Ftf.TryCategoriesAdvances | src/ftf.py:132-174 | The same for all the types of one record. |
| Ftf.StepAdvances | src/ftf.py:100-179 | The same for one line. |
| Ftf.RunLinesAdvances | src/ftf.py:100-182 | The same for a whole shard. |
| Ftf.QuotaNeverExceeded | src/ftf.py:132-134 | Within one worker, counts that start at most `limit` end at most `limit`. |
| Ftf.ExcludedHostStaysExcluded | src/ftf.py:124-125 | A host once past the tolerance stays past it for the rest of the shard. |
| Ftf.DoneOnlyAtQuota | src/ftf.py:176-179 | The worker stops with `exit(0)` before the end of the shard only when every count is at `limit`. |
| Ftf.RunLinesAppend | src/ftf.py:100-182 | Reading a + b is reading a, then b from where a left off. |
| Ftf.NothingAfterDone | src/ftf.py:176-179 | Once the quotas are met, later lines are never read. |
| Ftf.MalformedLineTransparent | src/ftf.py:104-118 | An unusable record line can be removed from the shard without changing what the worker does. |
| Ftf.JpegScenario | src/ftf.py:100-179 | A concrete shard: the first record is a JPEG and its save returns 0, so with `limit` 1 the worker stops at once with "jpg" counted once, and the other lines are never read. |
| Ftf.RunBatch | src/ftf.py:41-49 | `run_batch` returns 0 exactly when every exit code is 0; otherwise -1. |
| Ftf.TimedOutWorkerFailsBatch | src/ftf.py:42-47 | A join that timed out (exit code None) or any non-zero exit fails the batch. |
| Ftf.Overlay | src/ftf.py:274 | After a batch, each reported type takes its reported count, every other type keeps its count, the keys and their order are unchanged and a well-formed count dict stays well-formed. |
| Ftf.OverlaySilent | src/ftf.py:274 | A batch that reports none of the types leaves the counts as they were. |
| Ftf.OverlayIdempotent | src/ftf.py:274 | Taking the same report twice is taking it once. |
| Ftf.OverlayLastWins | src/ftf.py:274 | A later report that covers every type of an earlier one hides the earlier one entirely. |
| Ftf.Harvest | src/ftf.py:185-290 | No arguments or an empty catalog give -1 and no batch. Otherwise the batches run are a prefix of the plan, and every batch but the last succeeded. The result is -1 exactly when the last batch failed. The final counts are those the batches reported. Stopping before the end of the plan means the quotas are met, and no batch starts after they are met. |
| Ftf.HarvestIndexes | src/ftf.py:234-290 | The loop over the catalog runs a prefix of the plan, all of it when it goes through, and keeps `Standing`. |
| Ftf.StandingEnds | src/ftf.py:234-290 | What `main` returns from where it stands: 0 at the end or at the quotas, -1 right after a failed batch. |
| Ftf.HarvestName | src/ftf.py:234-288 | One index: a manifest not downloaded is skipped; otherwise its batches are run as planned, up to a stop. |
| Ftf.HarvestIndex | src/ftf.py:259-286 | One manifest: the batches run are the groups of the lines read, and all lines are read unless `main` stops. |
| Ftf.TakeShard | src/ftf.py:268-286 | One shard URL: a full batch is run and emptied, a failed run gives -1, and met quotas give 0. |
| Ftf.NeverDoneNext | src/ftf.py:285-286 | Quotas not met after one more batch extend "never met so far". |
| Ftf.LaunchBatch | src/ftf.py:272-279 | Running a batch leaves the counts as its workers reported; `ok` is exactly `run_batch(...) == 0`. |
| FtfDraft.TryCategory | filetypefetcher/ftf.py:88-112 | Trying one type keeps the keys of the counts and never ends the worker by itself; a type not wanted changes nothing; for a wanted type a raising save crashes the worker, a save returning 0 adds one to that count and one call, and any other code adds one call and changes no count. |
| FtfDraft.TryCategories | filetypefetcher/ftf.py:87-112 | Trying every type keeps the keys of the counts. |
| FtfDraft.Step | filetypefetcher/ftf.py:66-115 | One line keeps the count dict well formed with the same keys. |
| FtfDraft.RunLines | filetypefetcher/ftf.py:66-118 | Reading a shard keeps the count dict well formed with the same keys. |
| FtfDraft.ExitCode | filetypefetcher/ftf.py:45-47 | A worker that returns, -1 included, exits with 0; only an uncaught exception gives a non-zero exit. |
| FtfDraft.RunLinesStops | filetypefetcher/ftf.py:114-115 | Once the worker has stopped, later lines change nothing. |
| FtfDraft.FetchFilesInCdx | filetypefetcher/ftf.py:37-118 | A download that returned "" or a config that does not parse returns -1; a corrupt shard or a missing config file raises; otherwise the counts are those of `RunLines`, with 0 returned unless an exception escaped. |
| FtfDraft.ProcessLine | filetypefetcher/ftf.py:66-115 | One pass of the record loop does what `Step` says. |
| FtfDraft.TryAllCategories | filetypefetcher/ftf.py:87-112 | The loop over the types does what `TryCategories` says. |
| FtfDraft.TryCategoryOnce | filetypefetcher/ftf.py:88-112 | The loop body for one type does what `TryCategory` says. |
| FtfDraft.UnusableRecordSkipped | filetypefetcher/ftf.py:70-84 | An unusable record changes neither the counts nor the save calls. |
| FtfDraft.TryCategoryOutcome | filetypefetcher/ftf.py:105-112 | A save returning 0 adds exactly 1 to the type's count; any other code changes no count; a raise ends the worker. |
| FtfDraft.NoCallNoChange | filetypefetcher/ftf.py:87-112 | Save calls never go down, and when no call was made for a record, nothing changed. |
| FtfDraft.EveryUsableRecordTried | filetypefetcher/ftf.py:86-112 | With no tolerance, a usable record that some type under quota would take always gets a `save_file` call (or the call raised). |
| FtfDraft.TriedAt | filetypefetcher/ftf.py:87-112 | A type that would take the record gets a save call when its turn comes, unless an earlier one already made a call or raised. |
| FtfDraft.CallsGrowAfter | filetypefetcher/ftf.py:87-112 | Calls made for the first types are not undone by the later ones. |
| FtfDraft.TryCategoryAdvances | filetypefetcher/ftf.py:88-112 | One type tried: counts never go down, and a count at `limit` is not saved into. |
| FtfDraft.TryCategoriesAdvances | filetypefetcher/ftf.py:87-112 | The same for all the types of one record. |
| FtfDraft.StepAdvances | filetypefetcher/ftf.py:66-115 | The same for one line. |
| FtfDraft.RunLinesAdvances | filetypefetcher/ftf.py:66-118 | The same for a whole shard. |
| FtfDraft.QuotaNeverExceeded | filetypefetcher/ftf.py:88-89 | Counts that start at most `limit` end at most `limit`. |
| FtfDraft.DoneOnlyAtQuota | filetypefetcher/ftf.py:114-115 | The worker returns early only when every count is at `limit`. |
| FtfDraft.RunBatch | filetypefetcher/ftf.py:26-34 | `process.join()` gives None, which is never 0, so every process of the batch is reported, whatever its exit. |
| FtfDraft.Harvest | filetypefetcher/ftf.py:121-197 | No arguments or an empty catalog give -1 and no batch. Otherwise the batches run are a prefix of the plan. -1 means some index's manifest was not downloaded, every earlier manifest was, and exactly the batches before it were run. A 0 with the quotas unmet means every manifest was downloaded and the whole plan ran. The counts are those the batches reported. Stopping before the end of the plan means the quotas are met, and no batch starts after they are met. |
| FtfDraft.HarvestIndexes | filetypefetcher/ftf.py:155-197 | The loop over the catalog runs a prefix of the plan, all of it, with every manifest downloaded, when it goes through; -1 means it stopped at the first manifest that was not downloaded, having run exactly the plan before that index. |
| FtfDraft.HarvestName | filetypefetcher/ftf.py:155-193 | One index: the result is -1 exactly when its manifest was not downloaded (`open("")` raises), and then no batch is run; otherwise its batches are run as planned, up to a stop. |
| FtfDraft.HarvestIndex | filetypefetcher/ftf.py:172-193 | One manifest: the batches run are the groups of the lines read, whatever the batches' outcomes; only met quotas stop it. |
| FtfDraft.TakeShard | filetypefetcher/ftf.py:179-193 | One shard URL: a full batch is run and emptied, and met quotas give 0. |
| FtfDraft.LaunchBatch | filetypefetcher/ftf.py:185-189 | Running a batch leaves the counts as its workers reported, and its outcome is not looked at. |
| Web.ReadAt | cmoncrawl-fetcher/web.py:32 | A read returns the next bytes of the stream, empty only at its clean end (or for a block size of 0), and raises at the end of a corrupt stream. |
| Web.CopyBlocks | cmoncrawl-fetcher/web.py:31-36 | The copy loop writes exactly the decompressed bytes, in order (nothing for a block size of 0), and raises exactly for a corrupt archive. |
| Web.DigestInput | cmoncrawl-fetcher/web.py:200-204 | The hash is fed exactly the file's bytes, block by block. |
| Web.GzipExtract | cmoncrawl-fetcher/web.py:26-45 | A missing source gives 1 and writes nothing. Otherwise the destination holds the copied bytes, and the result is 1 exactly when the copy raised, else 0. |
| Web.DownloadAndUngzip | cmoncrawl-fetcher/web.py:110-150 | A failed request or a non-200 status gives "" and writes nothing, with a back-off exactly on 503. On 200 the archive is kept and extracted. A failed extraction gives "" and leaves the archive; otherwise the archive is removed and the output path returned. |
| Web.Sanitise | cmoncrawl-fetcher/web.py:91 | The name keeps its length, with every space and slash made "_" and nothing else changed. |
| Web.CatalogTemplate | cmoncrawl-fetcher/web.py:87-88 | The template splits on "ID" into "https://data.commoncrawl.org/crawl-data/" and "/cc-index.paths.gz". |
| Web.IndexPathsUrlParts | cmoncrawl-fetcher/web.py:19-21 | The template is the host, "crawl-data/", "ID" and "/cc-index.paths.gz" in a row. |
| Web.TemplateSplits | cmoncrawl-fetcher/web.py:87-88 | A template a + "ID" + b with no "I" in a or b splits into exactly a and b. |
| Web.IndexOf | cmoncrawl-fetcher/web.py:90-93 | The dict built from the rows is well formed. |
| Web.FillIndex | cmoncrawl-fetcher/web.py:90-93 | The loop over the rows builds exactly `IndexOf` of them. |
| Web.IndexRaisedSticks | cmoncrawl-fetcher/web.py:90-93 | Once a row raises, the whole call raises. |
| Web.IndexRaisedIff | cmoncrawl-fetcher/web.py:90-93 | The call raises exactly when some row lacks a name or an id. |
| Web.IndexKeysAreSanitisedNames | cmoncrawl-fetcher/web.py:91 | Every key is the sanitised name of some row, so it has no space and no slash. |
| Web.LastRowWins | cmoncrawl-fetcher/web.py:90-93 | The last row with a given sanitised name decides its URL: prefix + id + suffix. |
| Web.GetIndexUrls | cmoncrawl-fetcher/web.py:56-95 | A failed request, a non-200 status or content that is not JSON gives {}; otherwise the rows are read with the crawl-data template's halves. |
| Web.TempName | cmoncrawl-fetcher/web.py:185-188 | The temporary name is the URL's last "/" segment, or "tmp" when that is empty; it is never empty and has no "/". |
| Web.SaveEffect | cmoncrawl-fetcher/web.py:193-217 | After a save, the hash path holds the content, the temporary file is gone, and every other file is as it was. |
| Web.ResaveIsNoOp | cmoncrawl-fetcher/web.py:200-217 | Saving bytes already stored under their hash name leaves the disk as it was. |
| Web.SaveFile | cmoncrawl-fetcher/web.py:163-219 | An empty directory raises. A failed request or a non-200 status returns -1 and writes nothing. Otherwise the content is stored under its md5 name in the directory with a trailing "/", and 0 is returned. |
| WebDraft.DraftCatalogTemplate | filetypefetcher/web.py:77-78 | The older template splits into "https://data.commoncrawl.org/crawl_data/" and "/cc-index.paths.gz". |
| WebDraft.DraftIndexPathsUrlParts | filetypefetcher/web.py:17-19 | The older template is the host, "crawl_data/", "ID" and "/cc-index.paths.gz" in a row. |
| WebDraft.GetIndexUrls | filetypefetcher/web.py:47-85 | The same guards as the newer draft give {}; otherwise the rows are read with the crawl_data template's halves. |
| WebDraft.TemplateKeepsNames | filetypefetcher/web.py:77-83 | Which rows raise, and the names in the dict and their order, do not depend on the template. |
| WebDraft.SameIdEitherTemplate | filetypefetcher/web.py:80-83 | Under either template, a name maps to the URL built from the same id. |
| WebDraft.DraftUrlsDiffer | filetypefetcher/web.py:18 | The two drafts read the same catalog into the same names, and every URL differs between them (crawl-data against crawl_data). |
| WebDraft.GzipExtract | filetypefetcher/web.py:24-36 | With no handler, a missing source raises and writes nothing; otherwise the destination holds the copied bytes and the call raises exactly for a corrupt archive. |
| WebDraft.DownloadAndUngzip | filetypefetcher/web.py:100-134 | Every status but 200, 503 included, gives "" at once and writes nothing. A corrupt archive raises out of the call and is left on disk. Otherwise the archive is removed and the output path returned. |
| WebDraft.SaveFile | filetypefetcher/web.py:147-189 | As the newer draft, but with no "tmp" fallback: a URL that is empty or ends in "/" makes the temporary path the directory itself, so the call raises and writes nothing. |
| Py.WithTrailingSlash | src/commands.py:91-92 | The path ends in "/": it is the path as it was, or the path with one "/" added. |
| Py.TrailingSlashIdempotent | src/commands.py:91-92 | Adding the trailing "/" twice is adding it once, and a path that already ends in "/" is left as it is. |
| Commands.SlashKeepsNode | src/commands.py:91-92 | The path with its trailing "/" names the same directory. |
| Commands.MakeDir | src/commands.py:75-84 | `mkdir` succeeds exactly for a non-empty path it can create, which then is a directory. |
| Commands.Namespace.constructor | src/commands.py:104-107 | The parsed arguments hold the given values. |
| Commands.Validation | src/commands.py:60-93 | The result is 0 or -1. It is 0 exactly when `limit` > 0, `num_procs` <= the CPU count, and the output is a directory or is created. On 0 the output gets its trailing "/", and the only disk change is the created directory. |
| Commands.ValidateArgs | src/commands.py:60-101 | `validate_args` does what `Validation` says, rewrites only `args.output`, and leaves every other argument as it was. |
| Commands.GetValidatedArgs | src/commands.py:104-113 | The arguments come back exactly when validation returned 0, and -1 (None) comes back otherwise. |
| Commands.ToleranceNeverChecked | src/commands.py:93-101 | The verdict does not depend on the tolerance, so 0 and negative tolerances are accepted. |
| Commands.ValidationIdempotent | src/commands.py:86-93 | A validated output ends in "/" and names a directory, and validating again changes nothing. |
| CommandsDraft.ValidateArgs | ftf/commands.py:49-64 | The result is 0 or 1, and 0 exactly when `limit` > 0, `num_procs` <= the CPU count and the output already is a directory. |
| CommandsDraft.NewerAcceptsMore | ftf/commands.py:49-64 | What the older check accepts, the newer one accepts without touching the disk. Where the output already is a directory the two agree, the older 1 being the newer -1. |
| CommandsDraft.MissingOutputOnlyNewerCreates | ftf/commands.py:60-62 | An output path that does not exist fails the older check, while the newer one accepts it when `mkdir` creates it. |
| CommandsDraft.RunMain | ftf/commands.py:66-82 | The validation result is dropped; `file_count` maps every requested type, once, to 0. |

## Left out

- HTTP, gzip decompression, md5, `json.loads`, `urlparse` and the CPU count are inputs, not computations.
- Logging, `print`, `time.sleep(8)` and `argparse` (`init_parser`) are not modelled; the 503 back-off is a flag (`backedOff`).
- src/config.py is not part of this model: it only opens and parses a JSON file.
- Concurrency is not modelled: process start, `join(PROCESS_TIMEOUT)` and the `Manager().dict()` proxy. A worker runs alone against the shared counts, and `main` sees a batch only through its `BatchOutcome`. Lost updates between workers of one batch are therefore not modelled.
- Whether a child inherits `tol` by fork or spawn is not modelled: the worker gets its tolerance as a parameter (`Context.tol`).
- Directory creation in `main` (`os.makedirs` for each type and each index) is not modelled; the `Store` has no directories for it.
- Python exceptions outside the decision logic are not modelled: `open` in general, `urlparse` of odd URLs, and a catalog or config that is JSON but not of the expected shape. Only the raises the source's own control flow depends on are kept.
- The `filetype !in file_counts` case of the record loop cannot happen, since the loop runs over the dict's own keys; the model keeps the case, doing nothing.
- In src/ftf.py, the branch where `open(result_dir)` raises (249-254) is not modelled: `main` opens only a path that `download_and_ungzip` has just written.
- Ftf.TakeShard: after a failed batch, the pending batch it returns is left unconstrained, because `main` returns -1 at once and never uses it.
- FtfDraft.Harvest: a corrupt manifest archive makes the older `download_and_ungzip` raise inside `main`. Here a manifest is only downloaded or not, so that crash is not modelled.
- WebDraft reuses the newer draft's loops (`Web.FillIndex`, `Web.CopyBlocks`, `Web.DigestInput`), which are the same code.
- The `save_file` doc comment says the path is returned; the code returns 0, and the model follows the code. The comment at src/commands.py:59 says 1 on failure; the code returns -1, and the model follows the code.
