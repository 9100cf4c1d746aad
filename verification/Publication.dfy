/**
 Publishing a set of output files, all or none (src/reprobit/classic_publication.py), on POSIX.

 Reading, compare-and-swap publication, exact removal and creation are single steps of the file tree.
 Before each step other writers may edit the tree, and each step may fail.
 */
module Publication {
  import opened Options

  type Bytes = seq<bv8>

  /** One version of a file. No two versions written at different times share a stamp. */
  datatype File = File(payload: Bytes, mode: nat, stamp: nat)

  type Files = map<string, File>

  datatype Request = Request(relative: string, payload: Bytes, mode: Option<nat>)

  const DEFAULT_MODE := 0x1A4
  const PERMISSIONS := 0x1FF

  function ModeOf(mode: Option<nat>): nat {
    if mode.Some? then mode.value else DEFAULT_MODE
  }

  function Lookup(files: Files, path: string): Option<File> {
    if path in files then Some(files[path]) else None
  }

  function With(files: Files, path: string, file: Option<File>): Files {
    if file.Some? then files[path := file.value] else files - {path}
  }

  /** What other writers do before a step, and whether the step then fails. */
  datatype Turn = Turn(fails: bool, edits: map<string, Option<(Bytes, nat)>>)

  function Edited(files: Files, edits: map<string, Option<(Bytes, nat)>>, stamp: nat): (edited: Files)
    ensures forall path | path !in edits :: Lookup(edited, path) == Lookup(files, path)
    ensures forall path | path in edits ::
              Lookup(edited, path) ==
              if edits[path].None? then None else Some(File(edits[path].value.0, edits[path].value.1, stamp))
  {
    (map path | path in files && path !in edits :: files[path]) +
    (map path | path in edits && edits[path].Some? :: File(edits[path].value.0, edits[path].value.1, stamp))
  }

  predicate IsQuiet(turns: seq<Turn>) {
    forall turn | turn in turns :: turn.edits == map[]
  }

  predicate NoFaults(turns: seq<Turn>) {
    forall turn | turn in turns :: !turn.fails
  }

  predicate Faulty(turns: seq<Turn>) {
    turns != [] && turns[0].fails
  }

  function After(turns: seq<Turn>): seq<Turn> {
    if turns == [] then [] else turns[1..]
  }

  function Seen(files: Files, turns: seq<Turn>, stamp: nat): Files {
    if turns == [] || turns[0].edits == map[] then files else Edited(files, turns[0].edits, stamp)
  }

  /** What this run did: it saw a version (or none), or changed one into another. */
  datatype Event =
    | Saw(path: string, file: Option<File>)
    | Wrote(path: string, before: Option<File>, after: Option<File>)

  class Tree {
    var files: Files
    var nextStamp: nat
    var turns: seq<Turn>
    ghost var log: seq<Event>

    ghost predicate Valid()
      reads this
    {
      forall path | path in files :: files[path].stamp < nextStamp
    }

    /** Other writers act; the step about to run may fail. */
    method Step() returns (fails: bool)
      requires Valid()
      modifies this
      ensures Valid() && nextStamp > old(nextStamp) && log == old(log)
      ensures fails == Faulty(old(turns)) && turns == After(old(turns))
      ensures files == Seen(old(files), old(turns), old(nextStamp))
    {
      fails := false;
      if turns != [] {
        fails := turns[0].fails;
        if turns[0].edits != map[] {
          files := Edited(files, turns[0].edits, nextStamp);
        }
        turns := turns[1..];
      }
      nextStamp := nextStamp + 1;
    }

    /** `os.path.lexists` and `read_relative_file`. */
    method Look(path: string) returns (found: Option<Option<File>>)
      requires Valid()
      modifies this
      ensures Valid() && nextStamp > old(nextStamp) && turns == After(old(turns))
      ensures files == Seen(old(files), old(turns), old(nextStamp))
      ensures found == if Faulty(old(turns)) then None else Some(Lookup(files, path))
      ensures log == old(log) + if found.Some? then [Saw(path, found.value)] else []
    {
      var fails := Step();
      if fails {
        return None;
      }
      log := log + [Saw(path, Lookup(files, path))];
      found := Some(Lookup(files, path));
    }

    /** Replace a path by a new version of this file, and log it. */
    method Put(path: string, payload: Bytes, mode: nat) returns (file: File)
      requires Valid()
      modifies this
      ensures Valid() && nextStamp > old(nextStamp) && turns == old(turns)
      ensures file == File(payload, mode, old(nextStamp)) && files == old(files)[path := file]
      ensures log == old(log) + [Wrote(path, old(Lookup(files, path)), Some(file))]
    {
      file := File(payload, mode, nextStamp);
      log := log + [Wrote(path, Lookup(files, path), Some(file))];
      files := files[path := file];
      nextStamp := nextStamp + 1;
    }

    /** `atomic_publish_relative_if_current`. */
    method PublishIfCurrent(path: string, payload: Bytes, expected: Option<File>, mode: Option<nat>)
      returns (file: Option<File>)
      requires Valid()
      modifies this
      ensures Valid() && nextStamp > old(nextStamp) && turns == After(old(turns))
      ensures
        var seen := Seen(old(files), old(turns), old(nextStamp));
        && (file.None? <==> Faulty(old(turns)) || ModeOf(mode) > PERMISSIONS || Lookup(seen, path) != expected)
        && files == (if file.Some? then seen[path := file.value] else seen)
      ensures file.Some? ==> file.value.payload == payload && file.value.mode == ModeOf(mode)
      ensures log == old(log) + if file.Some? then [Wrote(path, expected, file)] else []
    {
      var fails := Step();
      if fails || ModeOf(mode) > PERMISSIONS || Lookup(files, path) != expected {
        return None;
      }
      var written := Put(path, payload, ModeOf(mode));
      file := Some(written);
    }

    /** `remove_published_relative`: false, and nothing done, when the file is not the expected version. */
    method RemovePublished(path: string, expected: File) returns (removed: Option<bool>)
      requires Valid()
      modifies this
      ensures Valid() && nextStamp > old(nextStamp) && turns == After(old(turns))
      ensures
        var seen := Seen(old(files), old(turns), old(nextStamp));
        && removed == (if Faulty(old(turns)) then None else Some(Lookup(seen, path) == Some(expected)))
        && files == (if removed == Some(true) then seen - {path} else seen)
      ensures log == old(log) + if removed == Some(true) then [Wrote(path, Some(expected), None)] else []
    {
      var fails := Step();
      if fails {
        return None;
      }
      if Lookup(files, path) != Some(expected) {
        return Some(false);
      }
      log := log + [Wrote(path, Some(expected), None)];
      files := files - {path};
      removed := Some(true);
    }

    /** `atomic_publish_new_relative_from_stream`: create, never replace. */
    method PublishNew(path: string, payload: Bytes, mode: nat) returns (file: Option<File>)
      requires Valid()
      modifies this
      ensures Valid() && nextStamp > old(nextStamp) && turns == After(old(turns))
      ensures
        var seen := Seen(old(files), old(turns), old(nextStamp));
        && (file.None? <==> Faulty(old(turns)) || mode > PERMISSIONS || path in seen)
        && files == (if file.Some? then seen[path := file.value] else seen)
      ensures file.Some? ==> file.value.payload == payload && file.value.mode == mode
      ensures log == old(log) + if file.Some? then [Wrote(path, None, file)] else []
    {
      var fails := Step();
      if fails || mode > PERMISSIONS || path in files {
        return None;
      }
      var written := Put(path, payload, mode);
      file := Some(written);
    }
  }
}
