/**
  The `API` class (sfm/__init__.py): a session holding five memoised slots,
  each absent (`None`) until it is computed or seeded from a saved cache.
  Every `create_*` / `get_*` method does nothing once its slot is present.

  The platform client is not held by the object: each method that calls it
  takes the replies it would get as a parameter.
*/
module Session {
  import opened Optional
  import opened Records
  import opened Paging
  import opened Directory
  import opened Enrichment

  /** The reply of a one-shot listing call (`channels.list`, `users.list`). */
  datatype ListReply =
    | ListRaised
    | ListBody(ok: bool, entries: Option<seq<Entry>>)

  /**
    The reply leads to an exception: the call raised, or the body has no list
    under its key, so the subscript raises `KeyError`.
  */
  predicate ListFails(reply: ListReply) {
    reply.ListRaised? || reply.entries.None?
  }

  /**
    The directory slot after a listing call made while it was absent: still
    absent when the call raised; the empty dictionary when the body has no
    list, because the slot is set to `{}` before the list is read; otherwise
    the directory of the listed entries, whether or not the body is ok.
  */
  function DirectorySlot(reply: ListReply): Option<map<string, Entry>> {
    match reply
    case ListRaised => None
    case ListBody(_, entries) => if entries.None? then Some(map[]) else Some(DirectoryOf(entries.value))
  }

  /** The dictionary `serialize` returns, under the keys `channels`, `users`, `raw_files`, `files` and `nsnpf`. */
  datatype Snapshot = Snapshot(
    channels: Option<map<string, Entry>>,
    users: Option<map<string, Entry>>,
    rawFiles: Option<seq<FileRecord>>,
    files: Option<seq<FileRecord>>,
    nsnpf: Option<seq<FileRecord>>)

  /** The snapshot of a session started without a cache: every slot absent. */
  const Unseeded := Snapshot(None, None, None, None, None)

  /**
    The slots only ever move from absent to present: a present directory, raw
    list or enriched list keeps its value, and so does the abandoned list
    while the enriched list it was built with is present.
  */
  ghost predicate Progressed(before: Snapshot, after: Snapshot) {
    (before.channels.Some? ==> after.channels == before.channels) &&
    (before.users.Some? ==> after.users == before.users) &&
    (before.rawFiles.Some? ==> after.rawFiles == before.rawFiles) &&
    (before.files.Some? ==> after.files == before.files && after.nsnpf == before.nsnpf) &&
    (before.nsnpf.Some? ==> after.nsnpf.Some?)
  }

  class Api {
    var channelsById: Option<map<string, Entry>>
    var usersById: Option<map<string, Entry>>
    var rawFiles: Option<seq<FileRecord>>
    var files: Option<seq<FileRecord>>
    var noStarsNoPinsFiles: Option<seq<FileRecord>>

    /** `serialize`: the five slots, absent ones included, under their fixed keys. */
    function Serialize(): Snapshot
      reads this
    {
      Snapshot(channelsById, usersById, rawFiles, files, noStarsNoPinsFiles)
    }

    /**
      `__init__`: seed every slot from the cache when there is one, else start
      with every slot absent. Serializing the new session gives back the cache.
    */
    constructor (fileCache: Option<Snapshot>)
      ensures fileCache.Some? ==> Serialize() == fileCache.value
      ensures fileCache.None? ==> Serialize() == Unseeded
    {
      if fileCache.Some? {
        var cache := fileCache.value;
        channelsById := cache.channels;
        usersById := cache.users;
        rawFiles := cache.rawFiles;
        files := cache.files;
        noStarsNoPinsFiles := cache.nsnpf;
      } else {
        channelsById := None;
        usersById := None;
        rawFiles := None;
        files := None;
        noStarsNoPinsFiles := None;
      }
    }

    /**
      `get_raw_file_list`: the stored raw list when there is one, without any
      call; otherwise the paginated fetch, whose list is stored when the loop
      returns. `outcome` is `Done(list, 0)` for the stored list.
    */
    method GetRawFileList(script: seq<Reply<FileRecord>>) returns (outcome: Outcome<FileRecord>, requested: seq<int>)
      modifies this
      ensures old(rawFiles).Some? ==> outcome == Done(old(rawFiles).value, 0) && requested == []
      ensures old(rawFiles).None? ==> Fetches(script, outcome, requested)
      ensures rawFiles == if outcome.Done? then Some(outcome.items) else None
      ensures old(rawFiles).None? ==> rawFiles == FetchedList(script)
      ensures channelsById == old(channelsById) && usersById == old(usersById)
      ensures files == old(files) && noStarsNoPinsFiles == old(noStarsNoPinsFiles)
    {
      if rawFiles.Some? {
        return Done(rawFiles.value, 0), [];
      }
      outcome, requested := FetchAll(script);
      FetchesAgreesWithFetchedList(script, outcome, requested);
      if outcome.Done? {
        rawFiles := Some(outcome.items);
      }
    }

    /**
      `create_channel_cache`: nothing when the directory is present; otherwise
      one listing call, and the directory of the returned channels. A reply
      that is not ok only warns: the directory is still built from its list.
      `failed` reports an exception: the call raised, and the slot stays
      absent, or the body has no `channels`, and the slot stays `{}`.
    */
    method CreateChannelCache(reply: ListReply) returns (failed: bool)
      modifies this
      ensures old(channelsById).Some? ==> !failed && channelsById == old(channelsById)
      ensures old(channelsById).None? ==> failed == ListFails(reply) && channelsById == DirectorySlot(reply)
      ensures usersById == old(usersById) && rawFiles == old(rawFiles)
      ensures files == old(files) && noStarsNoPinsFiles == old(noStarsNoPinsFiles)
    {
      if channelsById.Some? {
        return false;
      }
      if reply.ListRaised? {
        return true;
      }
      channelsById := Some(map[]);
      if reply.entries.None? {
        return true;
      }
      var dir := BuildDirectory(reply.entries.value);
      channelsById := Some(dir);
      failed := false;
    }

    /** `create_user_cache`: the same as `CreateChannelCache`, for the user directory. */
    method CreateUserCache(reply: ListReply) returns (failed: bool)
      modifies this
      ensures old(usersById).Some? ==> !failed && usersById == old(usersById)
      ensures old(usersById).None? ==> failed == ListFails(reply) && usersById == DirectorySlot(reply)
      ensures channelsById == old(channelsById) && rawFiles == old(rawFiles)
      ensures files == old(files) && noStarsNoPinsFiles == old(noStarsNoPinsFiles)
    {
      if usersById.Some? {
        return false;
      }
      if reply.ListRaised? {
        return true;
      }
      usersById := Some(map[]);
      if reply.entries.None? {
        return true;
      }
      var dir := BuildDirectory(reply.entries.value);
      usersById := Some(dir);
      failed := false;
    }

    /**
      `create_file_cache`: nothing when the enriched list is present.
      Otherwise ensure the channel directory and the raw list, then make one
      pass over the raw list: each file, with its channels resolved, goes to
      `files`, and also to `no_stars_no_pins_files` when it is abandoned at
      the clock reading `now`. `completed` is false when a call raised or the
      fetch did not return; the enriched slots are then left as they were.
    */
    method CreateFileCache(channelReply: ListReply, script: seq<Reply<FileRecord>>, now: int)
      returns (completed: bool)
      modifies this
      ensures Progressed(old(Serialize()), Serialize())
      ensures usersById == old(usersById)
      ensures old(files).Some? ==> completed && Serialize() == old(Serialize())
      ensures old(files).None? && completed ==>
        channelsById.Some? && rawFiles.Some? &&
        (old(rawFiles).Some? ==> rawFiles == old(rawFiles)) &&
        files == Some(EnrichAll(rawFiles.value, channelsById.value)) &&
        noStarsNoPinsFiles == Some(Abandoned(files.value, Cutoff(now)))
      ensures old(files).None? && !completed ==>
        files == None && noStarsNoPinsFiles == old(noStarsNoPinsFiles)
      // What the calls left in the directory and raw-list slots, and when the build completes.
      ensures old(files).None? && old(channelsById).None? ==> channelsById == DirectorySlot(channelReply)
      ensures old(files).None? && old(rawFiles).None? ==>
        rawFiles == if old(channelsById).Some? || !ListFails(channelReply) then FetchedList(script) else None
      ensures old(files).None? ==>
        (completed <==> (old(channelsById).Some? || !ListFails(channelReply)) &&
                        (old(rawFiles).Some? || FetchedList(script).Some?))
    {
      if files.Some? {
        return true;
      }
      var failed := CreateChannelCache(channelReply);
      if failed {
        return false;
      }
      var outcome, _ := GetRawFileList(script);
      if !outcome.Done? {
        return false;
      }
      FillFileLists(rawFiles.value, channelsById.value, Cutoff(now));
      completed := true;
    }

    /**
      The loop of `create_file_cache`: start both lists empty, then append each
      enriched copy to `files`, and to `no_stars_no_pins_files` when it is
      abandoned before `oldDate`.
    */
    method FillFileLists(raw: seq<FileRecord>, dir: map<string, Entry>, oldDate: int)
      modifies this`files, this`noStarsNoPinsFiles
      ensures files == Some(EnrichAll(raw, dir))
      ensures noStarsNoPinsFiles == Some(Abandoned(files.value, oldDate))
    {
      var enriched: seq<FileRecord> := [];
      var abandoned: seq<FileRecord> := [];
      files := Some(enriched);
      noStarsNoPinsFiles := Some(abandoned);
      for i := 0 to |raw|
        invariant files == Some(enriched) && noStarsNoPinsFiles == Some(abandoned)
        invariant enriched == EnrichAll(raw[..i], dir)
        invariant abandoned == Abandoned(enriched, oldDate)
      {
        var file := Enrich(raw[i], dir);
        assert raw[..i + 1][..i] == raw[..i];
        assert (enriched + [file])[..i] == enriched;
        enriched := enriched + [file];
        files := Some(enriched);
        if IsPublic(file) && !IsStarred(file) && !IsPinned(file) && LastTouched(file) < oldDate {
          abandoned := abandoned + [file];
          noStarsNoPinsFiles := Some(abandoned);
        }
      }
      assert raw[..|raw|] == raw;
    }
  }
}
