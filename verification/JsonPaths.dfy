/** Reading and replacing one place of a nested JSON value. */
module JsonPaths {
  import opened Options
  import opened JsonValues

  datatype Part = Name(name: string) | At(index: nat)

  type Path = seq<Part>

  function Child(value: Json, part: Part): Option<Json> {
    match part
    case Name(name) => if value.Object? && name in value.fields then Some(value.fields[name]) else None
    case At(index) => if value.Array? && index < |value.items| then Some(value.items[index]) else None
  }

  function WithChild(value: Json, part: Part, child: Json): (changed: Json)
    requires Child(value, part).Some?
    ensures Child(changed, part) == Some(child)
    ensures forall other | other != part :: Child(changed, other) == Child(value, other)
  {
    match part
    case Name(name) => Object(value.fields[name := child])
    case At(index) => Array(value.items[index := child])
  }

  function Get(value: Json, path: Path): Option<Json> {
    if path == [] then Some(value)
    else
      var child := Child(value, path[0]);
      if child.None? then None else Get(child.value, path[1..])
  }

  function Put(value: Json, path: Path, replacement: Json): (changed: Json)
    requires Get(value, path).Some?
    ensures Get(changed, path) == Some(replacement)
  {
    if path == [] then replacement
    else WithChild(value, path[0], Put(Child(value, path[0]).value, path[1..], replacement))
  }

  /** Putting back what was there undoes a replacement. */
  lemma {:induction false} PutBack(value: Json, path: Path, replacement: Json)
    requires Get(value, path).Some?
    ensures Put(Put(value, path, replacement), path, Get(value, path).value) == value
  {
    if path != [] {
      PutBack(Child(value, path[0]).value, path[1..], replacement);
    }
  }

  /** A replacement does not touch a path that parts from its own. */
  lemma {:induction false} GetAside(value: Json, path: Path, replacement: Json, other: Path, k: nat)
    requires Get(value, path).Some? && k < |path| && k < |other| && path[k] != other[k]
    ensures Get(Put(value, path, replacement), other) == Get(value, other)
  {
    if path[0] == other[0] {
      var child := Child(value, path[0]).value;
      GetAside(child, path[1..], replacement, other[1..], k - 1);
    }
  }

  /** The two ways a path goes on from a shared start. */
  lemma {:induction false} GetJoined(value: Json, path: Path, rest: Path)
    ensures Get(value, path + rest) ==
            if Get(value, path).None? then None else Get(Get(value, path).value, rest)
  {
    if path == [] {
      assert path + rest == rest;
    } else {
      assert (path + rest)[0] == path[0] && (path + rest)[1..] == path[1..] + rest;
      if Child(value, path[0]).Some? {
        GetJoined(Child(value, path[0]).value, path[1..], rest);
      }
    }
  }

  /** Replacing below a place changes what is at that place. */
  lemma {:induction false} PutJoined(tree: Json, prefix: Path, rest: Path, replacement: Json)
    requires Get(tree, prefix).Some? && Get(Get(tree, prefix).value, rest).Some?
    ensures Get(tree, prefix + rest).Some?
    ensures Put(tree, prefix + rest, replacement) == Put(tree, prefix, Put(Get(tree, prefix).value, rest, replacement))
  {
    if prefix == [] {
      assert prefix + rest == rest;
    } else {
      assert (prefix + rest)[0] == prefix[0] && (prefix + rest)[1..] == prefix[1..] + rest;
      PutJoined(Child(tree, prefix[0]).value, prefix[1..], rest, replacement);
    }
  }

  // ---- Change lists -----------------------------------------------------------------------

  datatype Kind = Knob | Derived | Insert

  /** One recorded difference: a place, the scalar that was there and the scalar that is. */
  datatype Change = Change(path: Path, before: Json, after: Json, kind: Kind)

  /** Make the recorded replacements in order; `None` when one does not find what it records. */
  function Apply(saved: Json, changes: seq<Change>): Option<Json> {
    if changes == [] then Some(saved)
    else
      var last := changes[|changes| - 1];
      var earlier := Apply(saved, changes[..|changes| - 1]);
      if earlier.None? || Get(earlier.value, last.path) != Some(last.before) then None
      else Some(Put(earlier.value, last.path, last.after))
  }

  /** `_replace_candidate_path` (src/reprobit/classic_donor_retune_materialization.py:66-105). */
  function ReplacePath(value: Json, path: Path, expected: Json, replacement: Json): Option<Json> {
    if |path| < 2 || path[0] != Name("parameters") then None
    else
      var actual := Get(value, path);
      if actual.None? || !PythonEqual(actual.value, expected) then None else Some(Put(value, path, replacement))
  }

  /** Undo from the last change back. */
  function Undo(value: Json, changes: seq<Change>): Option<Json>
    decreases |changes|
  {
    if changes == [] then Some(value)
    else
      var last := changes[|changes| - 1];
      var undone := ReplacePath(value, last.path, last.after, last.before);
      if undone.None? then None else Undo(undone.value, changes[..|changes| - 1])
  }

  predicate InParameters(changes: seq<Change>) {
    forall change | change in changes :: |change.path| >= 2 && change.path[0] == Name("parameters")
  }

  /** Undoing what was applied gives the saved value back. */
  lemma {:induction false} UndoRestores(saved: Json, changes: seq<Change>)
    requires Apply(saved, changes).Some? && InParameters(changes)
    ensures Undo(Apply(saved, changes).value, changes) == Some(saved)
  {
    if changes != [] {
      var last, earlier := changes[|changes| - 1], changes[..|changes| - 1];
      PutBack(Apply(saved, earlier).value, last.path, last.after);
      PythonEqualToItself(last.after);
      UndoRestores(saved, earlier);
    }
  }
}
