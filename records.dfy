/**
  The records the file manager reads from the chat platform's listing calls.
  A record is a JSON object in the original program; here it is a datatype with
  the fields the core reads. A key that may be missing from the object is an
  `Option`, so that "absent" and "present but falsy" stay distinguishable.
*/
module Records {
  import opened Optional

  /** A channel or user record: its `id` and its optional display `name`. */
  datatype Entry = Entry(id: string, name: Option<string>)

  /**
    A file record. `updated`, `is_public`, `num_starred` and `pinned_to` may be
    missing from the object; `created`, `channels`, `mimetype` and `size` are
    always read with a subscript.
  */
  datatype FileRecord = FileRecord(
    id: string,
    mimetype: string,
    size: int,
    created: int,
    updated: Option<int>,
    isPublic: Option<bool>,
    numStarred: Option<int>,
    pinnedTo: Option<seq<string>>,
    channels: seq<string>)

  /** `file.get('is_public')` is truthy. */
  predicate IsPublic(f: FileRecord) {
    f.isPublic == Some(true)
  }

  /** `file.get('num_starred')` is truthy: present and not zero. */
  predicate IsStarred(f: FileRecord) {
    f.numStarred.Some? && f.numStarred.value != 0
  }

  /** `file.get('pinned_to')` is truthy: present and not an empty list. */
  predicate IsPinned(f: FileRecord) {
    f.pinnedTo.Some? && f.pinnedTo.value != []
  }

  /** `file.get('updated', file['created'])`: the update time, or the creation time when there is none. */
  function LastTouched(f: FileRecord): int {
    match f.updated
    case Some(u) => u
    case None => f.created
  }
}
