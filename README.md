# slack-file-manage: a Dafny model of the fetch-and-cache core

slack-file-manage lists every file of a Slack workspace and finds the
"abandoned" ones. A file is abandoned when it is public, unstarred and
unpinned, and was last touched more than sixty days ago. The program prints
counts and byte totals for all files and for the abandoned files. This project
models the core of that program and proves properties of the model:

- `Paging`: the paginated accumulation loop `get_all_from_api_method`. It
  retries a page after an error, appends the items of each valid page, and
  stops at the page the server calls the last. The remote listing method is
  a script of replies: the k-th call gets the k-th reply.
- `Directory`: the id-to-record dictionaries that `create_channel_cache` and
  `create_user_cache` fill in a loop.
- `Enrichment`: the channel-name rewrite and the abandonment test of
  `create_file_cache`, as functions over values.
- `Session`: the `API` class. It has five memoised slots (`channels_by_id`,
  `users_by_id`, `raw_files`, `files`, `no_stars_no_pins_files`), its
  constructor from a cache, `serialize`, and the `create_*` / `get_*` methods.
  Each of those methods does nothing once its slot is present.
- `Statistics`: the two counting loops of `sfm/__main__.py`.
- `Cli`: `run()` without argument parsing and file I/O. It covers the cache
  policy (a missing cache file means no cache; `--no-file-cache` clears only
  `files`), the build, the report and the snapshot written back.

The model follows the code in these points:

- An ok page body with no `paging` key is not retried. The subscript
  `next_result['paging']` raises `KeyError`, which the loop does not catch,
  so the model ends with `KeyError`. Only an empty (falsy) `paging` is retried.
- Whether the loop goes on is decided by the page number the server reports
  (`page < pages`). The local counter only chooses the next page to request.
- The slots are tested with `is not None`, so a directory or list that was
  fetched and is empty is not confused with one never fetched.
- A `channels.list` / `users.list` body that is not ok only prints a warning.
  The directory is still built from the list in the body. A body without the
  list raises `KeyError` after the slot was already set to `{}`, so the slot
  stays present and empty.
- `--no-file-cache` clears only `files`. `create_file_cache` then starts both
  `files` and `no_stars_no_pins_files` empty and refills them, so no stale
  abandoned list survives (`Cli.Run`, the clause "`--no-file-cache` keeps the directories…").

## Model

| member | source | states |
|---|---|---|
| `Paging.FetchAll` | sfm/__init__.py:10-35 | The k-th call asks for page 1 + (valid non-final pages seen before it), so a failed call is retried with the same page number. The loop stops at the first valid reply whose server-reported `page` is not below `pages` (`Done`, with the items of all valid pages in arrival order), or at an ok body without `paging` (`KeyError`). If the script runs out first, the result is `Pending` with everything accumulated so far. |
| `Paging.FetchesIsDeterministic` | sfm/__init__.py:10-35 | The loop's specification fixes the outcome and the page requests completely: two runs on the same replies agree. |
| `Paging.RetriesLeaveNoTrace` | sfm/__init__.py:14-24 | An HTTP or Slack API error, `ok` false or an empty `paging` adds no items and does not move the page counter. |
| `Paging.CollectedAppend` | sfm/__init__.py:25 | Accumulation distributes over concatenation of reply sequences: nothing is dropped or reordered. |
| `Paging.CompleteListing` | sfm/__init__.py:25-34 | For N valid pages where the k-th reports page k of N, each page is requested exactly once in order, and the result is the concatenation of all pages. |
| `Paging.RetryConverges` | sfm/__init__.py:14-34 | After any prefix that has not ended the loop, a page that fails K times and then arrives valid is requested K + 1 times with the same page number, 1 + (pages moved past in the prefix). None of the failures ends the loop, and the page's items directly follow the items collected before. After it, the page counter has moved on by exactly one, unless the page is the last. |
| `Paging.RetryConvergesOnOnlyPage` | sfm/__init__.py:14-34 | The single-page case, stated with the loop's full specification: page 1 is requested exactly K + 1 times and its items are returned. |
| `Paging.FirstEnd` | sfm/__init__.py:13-34 | The index of the first reply that stops the loop: no earlier reply stops it, and the reply at that index does (or there is none). |
| `Paging.FetchesAgreesWithFetchedList` | sfm/__init__.py:10-35 | The loop returns a list exactly when the first reply that stops it is a valid last page, and the list is the items collected up to and including that page. |
| `Directory.BuildDirectory` | sfm/__init__.py:102-104 | The filling loop yields the directory of the listed entries, stored in list order. |
| `Directory.DirectoryKeys` | sfm/__init__.py:102-104 | The directory's keys are exactly the listed ids, and each maps to a listed record with that id. |
| `Directory.LastRecordWins` | sfm/__init__.py:103-104 | On a repeated id, the last record with that id is kept. |
| `Enrichment.ResolveChannels` | sfm/__init__.py:89-90 | The rewritten `channels` has one entry per id, in the same order. Each entry is the channel's `name` when the id is in the directory and has a name, and the id itself otherwise. |
| `Enrichment.Enrich` | sfm/__init__.py:88-90 | The enriched copy differs from the raw record only in `channels`. |
| `Enrichment.UnknownChannelsKept` | sfm/__init__.py:89-90 | Ids that are absent from the directory, or whose record has no name, stay unchanged. |
| `Enrichment.EnrichAll` | sfm/__init__.py:87-91 | `files` has the raw list's length, and its i-th element is the i-th raw file, enriched. |
| `Enrichment.Abandoned` | sfm/__init__.py:92-94 | The abandoned list is no longer than `files`, and each of its elements passes the abandonment test. |
| `Enrichment.AbandonedMembers` | sfm/__init__.py:92-94 | A file is in the abandoned list if and only if it is in `files` and passes the test. |
| `Enrichment.AbandonedIsSubsequence` | sfm/__init__.py:87-94 | The abandoned list keeps the order of `files`: it is a subsequence of it. |
| `Enrichment.AbandonedAppend` | sfm/__init__.py:87-94 | Classifying a list piece by piece gives the same as classifying it whole: the pass is a per-element filter. |
| `Enrichment.AbandonedIdempotent` | sfm/__init__.py:92-93 | Classifying the abandoned list again changes nothing. |
| `Enrichment.ClassifyingIgnoresEnrichment` | sfm/__init__.py:88-94 | The channel rewrite does not affect the test: classifying the enriched copies selects the enrichments of exactly the abandoned raw files. |
| `Enrichment.OneFieldKeepsFileInUse` | sfm/__init__.py:92-93 | Each of the four conditions is needed: making an abandoned file private, starred, pinned or recently touched removes it. A file without `updated` is judged by `created`. |
| `Session.Api.constructor` | sfm/__init__.py:48-65 | A session seeded from a cache serializes back to exactly that cache (the round trip with `serialize`, lines 116-128). Without a cache, all five slots are absent. |
| `Session.Api.GetRawFileList` | sfm/__init__.py:67-72 | A present raw list is returned with no call and nothing changes. Otherwise the paginated fetch runs, and the slot becomes the list the loop returns, if it returns one. |
| `Session.Api.CreateChannelCache` | sfm/__init__.py:96-104 | A present directory is a no-op. Otherwise the slot becomes the directory of the listed channels, whatever `ok` says. It stays absent when the call raises, and becomes `{}` when the body has no `channels` (the `KeyError` comes after line 102). No other slot changes. |
| `Session.Api.CreateUserCache` | sfm/__init__.py:106-114 | The same as `CreateChannelCache`, for the user directory. |
| `Session.Api.CreateFileCache` | sfm/__init__.py:74-94 | A present `files` is a no-op. Otherwise an absent directory becomes what the channel reply gives, and an absent raw list becomes the list the fetch returns (when the channel call did not raise). The build completes exactly when both of these hold: the directory was present, or the channel call neither raises nor returns a body without `channels`; and the raw list was present, or the fetch returns a list. A body without `channels` leaves the directory present as `{}` and still stops the build. On completion, `files` is every raw file enriched through the channel directory, and `no_stars_no_pins_files` is the abandoned subsequence at cutoff now − 60 days. A present directory or raw list is reused. Slots only go from absent to present. |
| `Session.Api.FillFileLists` | sfm/__init__.py:79-94 | The loop leaves `files` equal to the enriched raw list and `no_stars_no_pins_files` equal to its abandoned subsequence. |
| `Statistics.Summarize` | sfm/__main__.py:38-46 | The count is the number of files, the byte total the sum of sizes, and the image figures are those of the files whose `mimetype` contains "image". |
| `Statistics.Images` | sfm/__main__.py:42-45 | Every file counted as an image has "image" in its `mimetype`. |
| `Statistics.ImagesMembers` | sfm/__main__.py:42-45 | A file is counted as an image exactly when it is in the list and its `mimetype` contains "image". |
| `Statistics.ContainsIffOccurs` | sfm/__main__.py:43 | The image test is a substring test: true exactly when "image" occurs at some position of `mimetype`. |
| `Statistics.ImagesIsSubsequence` | sfm/__main__.py:42-45 | The image files form a subsequence of the files. |
| `Statistics.SubsequenceWithinTotals` | sfm/__main__.py:38-56 | Any subsequence of files with non-negative sizes has at most as many files and bytes. |
| `Statistics.ImagesWithinTotals` | sfm/__main__.py:42-46 | With non-negative sizes, `total_image_count <= total_count` and `total_image_bytes <= total_bytes`. |
| `Statistics.FiltersCommute` | sfm/__main__.py:52-53 | The abandoned image files are the images among the abandoned files, which equal the abandoned files among the images. |
| `Statistics.AbandonedWithinTotals` | sfm/__main__.py:48-56 | With non-negative sizes, each abandoned figure (count, bytes, image count, image bytes) is at most the matching figure for all files. |
| `Statistics.PlainTextIsNoImage` | sfm/__main__.py:43 | "text/plain" does not contain "image". |
| `Statistics.ImageTypesAreImages` | sfm/__main__.py:43 | "image/png" and "image/jpeg" contain "image". |
| `Statistics.ThreeFileExample` | sfm/__main__.py:38-46 | Files of 100, 200 and 300 bytes typed image/png, text/plain and image/jpeg give 3 files and 600 bytes, of which 2 are images with 400 bytes. |
| `Cli.Run` | sfm/__main__.py:24-65 | The report is the tallies of the final `files` and `no_stars_no_pins_files`. The snapshot is written only under `--cache`. Without a usable cache, the channel directory is what the channel reply gives, the raw list is what the fetch returns, a report is produced exactly when the channel call does not raise and the fetch returns, and both file lists are built from those. A cache whose `files` is kept is returned unchanged, and reported exactly when it also holds `no_stars_no_pins_files` (otherwise `len(None)` fails at line 48 before anything is printed or saved). A cache without `files`, or any cache under `--no-file-cache`, keeps its present directories and raw list and fetches the missing ones as `create_file_cache` does: a report is produced exactly when the channel directory and the raw list are then both available, and both file lists are rebuilt from them. |
| `Cli.FreshReportBounds` | sfm/__main__.py:38-56 | For freshly built lists with non-negative sizes: each abandoned figure is at most the matching total, and each image figure is at most the figure it is part of. |

## Left out

- The Slack client (`slacker`, `requests`): every call becomes a parameter holding its reply, or a script of replies for the paged listing. In the script, a reply does not depend on the page number requested.
- `Paging.FetchAll`: the original retries without bound. When the script runs out, the model returns `Pending` instead of calling again.
- `time.sleep(20)`, every `print` and `colorama` colouring: no effect on the state.
- `datetime.now` and the float `timestamp()`: the clock is the integer parameter `now` in seconds, and the cutoff is `now - 5184000`, compared with `<` as integers. The fraction of a second of the float cutoff is not modelled.
- `argparse`, reading the token file, and `json.load` / `json.dump`: `Cli.Run` takes the parsed cache (or `None` for a missing file) and returns the snapshot it would write. A malformed cache file, or one lacking one of the five keys, is not modelled.
- Records carry only the fields the core reads. A record lacking `id`, `created`, `channels`, `mimetype` or `size` (a `KeyError` in the original) is not modelled. Neither is a page body lacking `ok` or the listed items, nor a non-empty `paging` lacking `page` or `pages`: the original raises `KeyError` at sfm/__init__.py:26-27, after that page's items were already appended at line 25.
- Exceptions other than `requests.exceptions.HTTPError` and `slacker.Error` from the listing method (a `requests` `ConnectionError` or `Timeout`, say): the original does not catch them at sfm/__init__.py:16, so they end the loop and propagate. `Reply.Raised` stands only for the two caught kinds; the uncaught ones are not modelled.
- A `channels.list` / `users.list` body lacking `ok`: the original raises `KeyError` at sfm/__init__.py:100 / 110, before the slot is set. It is not modelled; `ListReply` always carries `ok`.
- A channel record whose `name` is present but `null` is not modelled: `name` is either absent or a string.
- `copy.deepcopy`: records are values here, so the raw list can never be changed through the enriched one. In the original, `files` and `no_stars_no_pins_files` hold the same dict objects (sfm/__init__.py:91, 94); nothing in the core mutates them after the build, so that sharing cannot be observed and the model keeps two lists of values.
- The directory loops: the model sets the slot to `{}` first, as the original does, then builds the full dictionary in a local variable and stores it. The original fills the slot in place. Nothing observable differs, because the model's loop cannot raise; a record lacking `id` is not modelled (see above).
- `create_user_cache` is modelled, but `run()` never calls it.
