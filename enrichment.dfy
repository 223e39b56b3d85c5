/**
  The pure parts of `create_file_cache` (sfm/__init__.py): the channel-name
  rewrite applied to each copied file record, and the abandonment test that
  selects the files that are public, unstarred, unpinned and untouched for
  sixty days.
*/
module Enrichment {
  import opened Optional
  import opened Records

  /** Sixty days in seconds, the age after which an untouched file counts as abandoned. */
  const SixtyDays: int := 60 * 24 * 60 * 60

  /** The abandonment threshold for the clock reading `now` (seconds since the epoch). */
  function Cutoff(now: int): int {
    now - SixtyDays
  }

  /** `channels_by_id.get(id, {}).get('name', id)`: the channel's name when known, else the id itself. */
  function Resolve(id: string, dir: map<string, Entry>): string {
    if id in dir && dir[id].name.Some? then dir[id].name.value else id
  }

  /** The list comprehension that rewrites a file's `channels`: one name per id, in the same order. */
  function ResolveChannels(ids: seq<string>, dir: map<string, Entry>): (names: seq<string>)
    ensures |names| == |ids|
    ensures forall i :: 0 <= i < |ids| ==> names[i] == Resolve(ids[i], dir)
  {
    if ids == [] then [] else [Resolve(ids[0], dir)] + ResolveChannels(ids[1..], dir)
  }

  /** The deep copy of a raw file with `channels` rewritten; every other field is the raw file's. */
  function Enrich(f: FileRecord, dir: map<string, Entry>): (g: FileRecord)
    ensures g.channels == ResolveChannels(f.channels, dir)
    ensures g.(channels := f.channels) == f
  {
    f.(channels := ResolveChannels(f.channels, dir))
  }

  /** The test on line 92-93: public, not starred, not pinned, and last touched before the cutoff. */
  predicate IsAbandoned(f: FileRecord, cutoff: int) {
    IsPublic(f) && !IsStarred(f) && !IsPinned(f) && LastTouched(f) < cutoff
  }

  /** The list `files` that the loop builds: every raw file, enriched, in order. */
  function EnrichAll(raw: seq<FileRecord>, dir: map<string, Entry>): (files: seq<FileRecord>)
    ensures |files| == |raw|
    ensures forall i :: 0 <= i < |raw| ==> files[i] == Enrich(raw[i], dir)
  {
    if raw == [] then []
    else EnrichAll(raw[..|raw| - 1], dir) + [Enrich(raw[|raw| - 1], dir)]
  }

  /** The list `no_stars_no_pins_files` that the loop builds: the abandoned files, in order. */
  function Abandoned(files: seq<FileRecord>, cutoff: int): (r: seq<FileRecord>)
    ensures |r| <= |files|
    ensures forall i :: 0 <= i < |r| ==> IsAbandoned(r[i], cutoff)
  {
    if files == [] then []
    else
      var f := files[|files| - 1];
      Abandoned(files[..|files| - 1], cutoff) + (if IsAbandoned(f, cutoff) then [f] else [])
  }

  /** A file is in the abandoned list exactly when it is in the list and abandoned. */
  lemma {:induction false} AbandonedMembers(files: seq<FileRecord>, cutoff: int, g: FileRecord)
    ensures g in Abandoned(files, cutoff) <==> g in files && IsAbandoned(g, cutoff)
  {
    if files != [] {
      var n := |files|;
      AbandonedMembers(files[..n - 1], cutoff, g);
      assert files == files[..n - 1] + [files[n - 1]];
    }
  }

  /** `a` is `b` with some elements left out and the rest kept in order. */
  ghost predicate IsSubsequence<T>(a: seq<T>, b: seq<T>)
    decreases |b|
  {
    if a == [] then true
    else if b == [] then false
    else (a[|a| - 1] == b[|b| - 1] && IsSubsequence(a[..|a| - 1], b[..|b| - 1]))
         || IsSubsequence(a, b[..|b| - 1])
  }

  /** The abandoned list keeps the files' order: it is a subsequence of the enriched list. */
  lemma {:induction false} AbandonedIsSubsequence(files: seq<FileRecord>, cutoff: int)
    ensures IsSubsequence(Abandoned(files, cutoff), files)
  {
    if files != [] {
      var n := |files|;
      AbandonedIsSubsequence(files[..n - 1], cutoff);
      var a := Abandoned(files, cutoff);
      if IsAbandoned(files[n - 1], cutoff) {
        assert a[|a| - 1] == files[n - 1];
        assert a[..|a| - 1] == Abandoned(files[..n - 1], cutoff);
      } else {
        assert a == Abandoned(files[..n - 1], cutoff);
      }
    }
  }

  /** Classifying a list piece by piece gives the same result as classifying it whole. */
  lemma {:induction false} AbandonedAppend(a: seq<FileRecord>, b: seq<FileRecord>, cutoff: int)
    ensures Abandoned(a + b, cutoff) == Abandoned(a, cutoff) + Abandoned(b, cutoff)
  {
    if b == [] {
      assert a + b == a;
    } else {
      var n := |b|;
      assert (a + b)[..|a| + n - 1] == a + b[..n - 1];
      AbandonedAppend(a, b[..n - 1], cutoff);
    }
  }

  /** Classifying the abandoned list again changes nothing. */
  lemma {:induction false} AbandonedIdempotent(files: seq<FileRecord>, cutoff: int)
    ensures Abandoned(Abandoned(files, cutoff), cutoff) == Abandoned(files, cutoff)
  {
    if files != [] {
      var n := |files|;
      var f := files[n - 1];
      var init := Abandoned(files[..n - 1], cutoff);
      AbandonedIdempotent(files[..n - 1], cutoff);
      if IsAbandoned(f, cutoff) {
        AbandonedAppend(init, [f], cutoff);
        assert [f][..0] == [];
        assert Abandoned([f], cutoff) == [f];
        assert Abandoned(files, cutoff) == init + [f];
      } else {
        assert Abandoned(files, cutoff) == init;
      }
    }
  }

  /**
    The rewrite of `channels` does not affect the classification: classifying
    the enriched copies selects the enrichments of exactly the raw files that
    are abandoned.
  */
  lemma {:induction false} ClassifyingIgnoresEnrichment(raw: seq<FileRecord>, dir: map<string, Entry>, cutoff: int)
    ensures Abandoned(EnrichAll(raw, dir), cutoff) == EnrichAll(Abandoned(raw, cutoff), dir)
  {
    if raw != [] {
      var n := |raw|;
      var f := raw[n - 1];
      var init := raw[..n - 1];
      var files := EnrichAll(raw, dir);
      assert files == EnrichAll(init, dir) + [Enrich(f, dir)];
      assert files[..n - 1] == EnrichAll(init, dir);
      assert IsAbandoned(Enrich(f, dir), cutoff) == IsAbandoned(f, cutoff);
      ClassifyingIgnoresEnrichment(init, dir, cutoff);
      var kept := Abandoned(init, cutoff);
      if IsAbandoned(f, cutoff) {
        assert Abandoned(raw, cutoff) == kept + [f];
        assert (kept + [f])[..|kept|] == kept;
        assert EnrichAll(kept + [f], dir) == EnrichAll(kept, dir) + [Enrich(f, dir)];
      } else {
        assert Abandoned(raw, cutoff) == kept;
      }
    }
  }

  /**
    An abandoned file stops being abandoned when any one of the four
    conditions fails: it becomes private, starred, pinned, or touched at or
    after the cutoff. A file without `updated` is judged by `created`.
  */
  lemma OneFieldKeepsFileInUse(f: FileRecord, cutoff: int, stars: int, pin: string, recent: int)
    requires IsAbandoned(f, cutoff)
    requires stars != 0 && recent >= cutoff
    ensures !IsAbandoned(f.(isPublic := Some(false)), cutoff)
    ensures !IsAbandoned(f.(numStarred := Some(stars)), cutoff)
    ensures !IsAbandoned(f.(pinnedTo := Some([pin])), cutoff)
    ensures !IsAbandoned(f.(updated := Some(recent)), cutoff)
    ensures f.updated.None? ==> f.created < cutoff
  {
  }

  /** A channel id missing from the directory, or whose record has no name, is kept unchanged. */
  lemma UnknownChannelsKept(ids: seq<string>, dir: map<string, Entry>)
    requires forall i :: 0 <= i < |ids| ==> ids[i] !in dir || dir[ids[i]].name.None?
    ensures ResolveChannels(ids, dir) == ids
  {
  }
}
