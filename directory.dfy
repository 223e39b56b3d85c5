/**
  The id-to-record directories that `create_channel_cache` and
  `create_user_cache` fill in a loop (sfm/__init__.py): one entry per id, and
  when the listing repeats an id, the record that comes last is kept.
*/
module Directory {
  import opened Records

  /** The dictionary the loop ends with after storing every entry under its id, in list order. */
  function DirectoryOf(entries: seq<Entry>): map<string, Entry> {
    if entries == [] then map[]
    else
      var e := entries[|entries| - 1];
      DirectoryOf(entries[..|entries| - 1])[e.id := e]
  }

  /** The loop `for e in entries: dir[e['id']] = e`, starting from an empty dictionary. */
  method BuildDirectory(entries: seq<Entry>) returns (dir: map<string, Entry>)
    ensures dir == DirectoryOf(entries)
  {
    dir := map[];
    for i := 0 to |entries|
      invariant dir == DirectoryOf(entries[..i])
    {
      assert entries[..i + 1][..i] == entries[..i];
      dir := dir[entries[i].id := entries[i]];
    }
    assert entries[..|entries|] == entries;
  }

  /** The directory's keys are exactly the ids in the list, and each id maps to a record of the list carrying that id. */
  lemma {:induction false} DirectoryKeys(entries: seq<Entry>)
    ensures forall i :: 0 <= i < |entries| ==> entries[i].id in DirectoryOf(entries)
    ensures forall id :: id in DirectoryOf(entries) ==>
      exists i :: 0 <= i < |entries| && DirectoryOf(entries)[id] == entries[i] && entries[i].id == id
  {
    if entries != [] {
      var n := |entries|;
      DirectoryKeys(entries[..n - 1]);
      var dir := DirectoryOf(entries);
      forall id | id in dir
        ensures exists i :: 0 <= i < n && dir[id] == entries[i] && entries[i].id == id
      {
        if id != entries[n - 1].id {
          var i :| 0 <= i < n - 1 && DirectoryOf(entries[..n - 1])[id] == entries[..n - 1][i] && entries[..n - 1][i].id == id;
          assert entries[i] == entries[..n - 1][i];
        }
      }
    }
  }

  /** On a repeated id, the last record with that id is the one the directory keeps. */
  lemma {:induction false} LastRecordWins(entries: seq<Entry>, j: nat)
    requires j < |entries|
    requires forall k :: j < k < |entries| ==> entries[k].id != entries[j].id
    ensures entries[j].id in DirectoryOf(entries)
    ensures DirectoryOf(entries)[entries[j].id] == entries[j]
  {
    var n := |entries|;
    if j < n - 1 {
      var init := entries[..n - 1];
      forall k | j < k < |init| ensures init[k].id != init[j].id {
        assert init[k] == entries[k];
      }
      LastRecordWins(init, j);
    }
  }
}
