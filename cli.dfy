/**
  The command-line entry point `run()` (sfm/__main__.py) without argument
  parsing, token reading and JSON file I/O: the cache policy, the build of the
  file lists, the two statistics loops, and the snapshot written back.
*/
module Cli {
  import opened Optional
  import opened Records
  import opened Paging
  import opened Enrichment
  import opened Statistics
  import opened Session

  /** The eight printed figures: for all files, and for the abandoned files. */
  datatype Report = Report(all: Tally, abandoned: Tally)

  /**
    `run()`. `useCache` is `--cache`; `stored` is the parsed cache file, `None`
    when the file does not exist; `cacheFilesResult` is false under
    `--no-file-cache`. `report` is absent when the program stops with an
    exception or is still fetching; `state` is what `serialize` returns at the end; `saved` is the
    snapshot written to the cache file, if any.
  */
  method Run(useCache: bool, stored: Option<Snapshot>, cacheFilesResult: bool,
             channelReply: ListReply, script: seq<Reply<FileRecord>>, now: int)
    returns (report: Option<Report>, state: Snapshot, saved: Option<Snapshot>)
    ensures saved == if useCache && report.Some? then Some(state) else None
    ensures report.Some? ==>
      state.files.Some? && state.nsnpf.Some? &&
      report.value == Report(TallyOf(state.files.value), TallyOf(state.nsnpf.value))
    // Without a usable cache everything is built from the replies.
    ensures (!useCache || stored.None?) ==>
      state.users == None &&
      state.channels == DirectorySlot(channelReply) &&
      state.rawFiles == (if ListFails(channelReply) then None else FetchedList(script)) &&
      (report.Some? <==> !ListFails(channelReply) && FetchedList(script).Some?) &&
      (report.Some? ==>
        state.channels.Some? && state.rawFiles.Some? &&
        state.files == Some(EnrichAll(state.rawFiles.value, state.channels.value)) &&
        state.nsnpf == Some(Abandoned(state.files.value, Cutoff(now))))
    // A cache with both file lists is reported as it is, with no call made.
    ensures useCache && stored.Some? && cacheFilesResult &&
            stored.value.files.Some? && stored.value.nsnpf.Some? ==>
      report.Some? && state == stored.value
    // A cache whose `files` is kept is reported as it is; without the abandoned list the loop over it fails.
    ensures useCache && stored.Some? && cacheFilesResult && stored.value.files.Some? ==>
      state == stored.value && (report.Some? <==> stored.value.nsnpf.Some?)
    // A cache without `files`, or under `--no-file-cache`: present slots are kept, missing ones fetched.
    ensures useCache && stored.Some? && (!cacheFilesResult || stored.value.files.None?) ==>
      var seed := stored.value;
      state.users == seed.users &&
      state.channels == (if seed.channels.Some? then seed.channels else DirectorySlot(channelReply)) &&
      state.rawFiles == (if seed.rawFiles.Some? then seed.rawFiles
                         else if seed.channels.Some? || !ListFails(channelReply) then FetchedList(script)
                         else None) &&
      (report.Some? <==> (seed.channels.Some? || !ListFails(channelReply)) &&
                         (seed.rawFiles.Some? || FetchedList(script).Some?)) &&
      (report.Some? ==>
        state.files == Some(EnrichAll(state.rawFiles.value, state.channels.value)) &&
        state.nsnpf == Some(Abandoned(state.files.value, Cutoff(now))))
    // `--no-file-cache` keeps the directories and the raw list, when the cache holds them, and rebuilds both file lists from them.
    ensures useCache && stored.Some? && !cacheFilesResult &&
            stored.value.channels.Some? && stored.value.rawFiles.Some? ==>
      report.Some? &&
      state.channels == stored.value.channels && state.users == stored.value.users &&
      state.rawFiles == stored.value.rawFiles &&
      state.files == Some(EnrichAll(state.rawFiles.value, state.channels.value)) &&
      state.nsnpf == Some(Abandoned(state.files.value, Cutoff(now)))
  {
    var api: Api;
    if useCache {
      var cache := stored;
      if !cacheFilesResult && cache.Some? {
        cache := Some(cache.value.(files := None));
      }
      api := new Api(cache);
    } else {
      api := new Api(None);
    }
    var completed := api.CreateFileCache(channelReply, script, now);
    state := api.Serialize();
    if !completed || api.files.None? || api.noStarsNoPinsFiles.None? {
      return None, state, None;
    }
    var all := Summarize(api.files.value);
    var abandoned := Summarize(api.noStarsNoPinsFiles.value);
    report := Some(Report(all, abandoned));
    saved := if useCache then Some(state) else None;
  }

  /**
    For a freshly built pair of lists with non-negative sizes, each printed
    figure for the abandoned files is at most the matching figure for all
    files, and each image figure is at most the figure it is part of.
  */
  lemma FreshReportBounds(raw: seq<FileRecord>, dir: map<string, Entry>, cutoff: int)
    requires SizesNonNegative(raw)
    ensures var files := EnrichAll(raw, dir);
            var report := Report(TallyOf(files), TallyOf(Abandoned(files, cutoff)));
            report.abandoned.count <= report.all.count &&
            report.abandoned.bytes <= report.all.bytes &&
            report.abandoned.imageCount <= report.all.imageCount &&
            report.abandoned.imageBytes <= report.all.imageBytes &&
            report.all.imageCount <= report.all.count &&
            report.all.imageBytes <= report.all.bytes &&
            report.abandoned.imageCount <= report.abandoned.count &&
            report.abandoned.imageBytes <= report.abandoned.bytes
  {
    var files := EnrichAll(raw, dir);
    assert SizesNonNegative(files);
    AbandonedWithinTotals(files, cutoff);
    ImagesWithinTotals(files);
    AbandonedSizes(files, cutoff);
    ImagesWithinTotals(Abandoned(files, cutoff));
  }
}
