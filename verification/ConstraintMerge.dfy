/** Merging receipt pins into recipe parameters (src/reprobit/classic_donors.py). */
module ConstraintMerge {
  import opened Options
  import opened JsonValues
  import opened JsonPaths

  // ---- Equality and freezing ------------------------------------------------------------------

  /** `_json_equal`: same types all the way down, so 1, 1.0 and true differ. */
  predicate JsonEqual(left: Json, right: Json) {
    match left
    case Object(fields) =>
      && right.Object? && fields.Keys == right.fields.Keys
      && forall name | name in fields :: JsonEqual(fields[name], right.fields[name])
    case Array(items) =>
      && right.Array? && |items| == |right.items|
      && forall i | 0 <= i < |items| :: JsonEqual(items[i], right.items[i])
    case _ => left == right
  }

  /** Structural equality is equality. */
  lemma {:induction false} JsonEqualIsEquality(left: Json, right: Json)
    ensures JsonEqual(left, right) <==> left == right
  {
    if left.Object? && right.Object? && left.fields.Keys == right.fields.Keys {
      forall name | name in left.fields
        ensures JsonEqual(left.fields[name], right.fields[name]) <==> left.fields[name] == right.fields[name] {
        JsonEqualIsEquality(left.fields[name], right.fields[name]);
      }
      assert left == right <==> left.fields == right.fields;
    } else if left.Array? && right.Array? && |left.items| == |right.items| {
      forall i | 0 <= i < |left.items|
        ensures JsonEqual(left.items[i], right.items[i]) <==> left.items[i] == right.items[i] {
        JsonEqualIsEquality(left.items[i], right.items[i]);
      }
      assert left == right <==> left.items == right.items;
    }
  }

  /** Read-only views and tuples, as the merged constraints keep them. */
  datatype Frozen = View(members: map<string, Frozen>) | Tuple(elements: seq<Frozen>) | Leaf(value: Json)

  function Freeze(value: Json): Frozen {
    match value
    case Object(fields) => View(map name | name in fields :: Freeze(fields[name]))
    case Array(items) => Tuple(seq(|items|, i requires 0 <= i < |items| => Freeze(items[i])))
    case _ => Leaf(value)
  }

  function Thaw(frozen: Frozen): Json {
    match frozen
    case View(members) => Object(map name | name in members :: Thaw(members[name]))
    case Tuple(elements) => Array(seq(|elements|, i requires 0 <= i < |elements| => Thaw(elements[i])))
    case Leaf(value) => value
  }

  /** A materialized copy is what was frozen. */
  lemma {:induction false} ThawFreeze(value: Json)
    ensures Thaw(Freeze(value)) == value
  {
    match value
    case Object(fields) =>
      forall name | name in fields ensures Thaw(Freeze(fields[name])) == fields[name] {
        ThawFreeze(fields[name]);
      }
      assert Thaw(Freeze(value)).fields == fields;
    case Array(items) =>
      forall i | 0 <= i < |items| ensures Thaw(Freeze(items[i])) == items[i] {
        ThawFreeze(items[i]);
      }
      assert Thaw(Freeze(value)).items == items;
    case _ =>
  }

  // ---- Installing one pin -----------------------------------------------------------------------

  /** One dotted piece of a constraint path, with its array index if it has one. */
  datatype Piece = Piece(name: string, index: Option<nat>)

  function PieceParts(piece: Piece): Path {
    if piece.index.None? then [Name(piece.name)] else [Name(piece.name), At(piece.index.value)]
  }

  function PathOf(pieces: seq<Piece>): Path {
    if pieces == [] then [] else PieceParts(pieces[0]) + PathOf(pieces[1..])
  }

  /** Where a walk goes on below a piece; an absent or null member becomes an empty object. */
  function Below(value: Json, piece: Piece): Option<Json> {
    if !value.Object? then None
    else if piece.index.None? then
      if piece.name !in value.fields
          || value.fields[piece.name].Null? then Some(Object(map[])) else Some(value.fields[piece.name])
    else if piece.name in value.fields && value.fields[piece.name].Array?
        && piece.index.value < |value.fields[piece.name].items| then
      Some(value.fields[piece.name].items[piece.index.value])
    else None
  }

  function SetBelow(value: Json, piece: Piece, child: Json): Json
    requires Below(value, piece).Some?
  {
    if piece.index.None? then Object(value.fields[piece.name := child])
    else Object(value.fields[piece.name := Array(value.fields[piece.name].items[piece.index.value := child])])
  }

  /** The last piece: a present value must equal the pin, an absent member takes it. */
  function InstallLast(value: Json, piece: Piece, pin: Json): Option<Json> {
    if !value.Object? then None
    else if piece.index.None? && piece.name !in value.fields then Some(Object(value.fields[piece.name := pin]))
    else
      var present := if piece.index.None? then Some(value.fields[piece.name]) else Below(value, piece);
      if present.Some? && JsonEqual(present.value, pin) then Some(value) else None
  }

  function Install(value: Json, pieces: seq<Piece>, pin: Json): Option<Json>
    requires pieces != []
    decreases |pieces|
  {
    if |pieces| == 1 then InstallLast(value, pieces[0], pin)
    else
      var child := Below(value, pieces[0]);
      if child.None? then None
      else
        var installed := Install(child.value, pieces[1..], pin);
        if installed.None? then None else Some(SetBelow(value, pieces[0], installed.value))
  }

  // ---- Extension ----------------------------------------------------------------------------------

  /** The later value keeps everything of the earlier one; only a null may become an object. */
  predicate Extends(earlier: Json, later: Json) {
    match earlier
    case Null => later.Null? || later.Object?
    case Object(fields) =>
      later.Object? && forall name | name in fields :: name in later.fields && Extends(fields[name], later.fields[name])
    case Array(items) =>
      later.Array? && |items| == |later.items| && forall i | 0 <= i < |items| :: Extends(items[i], later.items[i])
    case _ => later == earlier
  }

  lemma {:induction false} ExtendsItself(value: Json)
    ensures Extends(value, value)
  {
    match value
    case Object(fields) =>
      forall name | name in fields ensures Extends(fields[name], fields[name]) {
        ExtendsItself(fields[name]);
      }
    case Array(items) =>
      forall i | 0 <= i < |items| ensures Extends(items[i], items[i]) {
        ExtendsItself(items[i]);
      }
    case _ =>
  }

  lemma {:induction false} ExtendsOnward(first: Json, second: Json, third: Json)
    requires Extends(first, second) && Extends(second, third)
    ensures Extends(first, third)
  {
    match first
    case Object(fields) =>
      forall name | name in fields ensures name in third.fields && Extends(fields[name], third.fields[name]) {
        ExtendsOnward(fields[name], second.fields[name], third.fields[name]);
      }
    case Array(items) =>
      forall i | 0 <= i < |items| ensures Extends(items[i], third.items[i]) {
        ExtendsOnward(items[i], second.items[i], third.items[i]);
      }
    case _ =>
  }

  /** An extension extends at every path. */
  lemma {:induction false} ExtendsEverywhere(earlier: Json, later: Json, path: Path)
    requires Extends(earlier, later) && Get(earlier, path).Some?
    ensures Get(later, path).Some? && Extends(Get(earlier, path).value, Get(later, path).value)
  {
    if path != [] {
      ExtendsEverywhere(Child(earlier, path[0]).value, Child(later, path[0]).value, path[1..]);
    }
  }

  lemma {:induction false} SetBelowExtends(value: Json, piece: Piece, child: Json)
    requires Below(value, piece).Some? && Extends(Below(value, piece).value, child) && child.Object?
    ensures Extends(value, SetBelow(value, piece, child))
  {
    var changed := SetBelow(value, piece, child);
    forall name | name in value.fields ensures Extends(value.fields[name], changed.fields[name]) {
      ExtendsItself(value.fields[name]);
      if name == piece.name && piece.index.Some? {
        var items := value.fields[name].items;
        forall i | 0 <= i < |items| ensures Extends(items[i], items[piece.index.value := child][i]) {
          ExtendsItself(items[i]);
        }
      }
    }
  }

  /** Installing a pin only adds. */
  lemma {:induction false} InstallExtends(value: Json, pieces: seq<Piece>, pin: Json)
    requires pieces != [] && Install(value, pieces, pin).Some?
    ensures Extends(value, Install(value, pieces, pin).value) && Install(value, pieces, pin).value.Object?
    decreases |pieces|
  {
    if |pieces| == 1 {
      ExtendsItself(value);
      forall name | name in value.fields ensures Extends(value.fields[name], value.fields[name]) {
        ExtendsItself(value.fields[name]);
      }
    } else {
      var child := Below(value, pieces[0]).value;
      InstallExtends(child, pieces[1..], pin);
      SetBelowExtends(value, pieces[0], Install(child, pieces[1..], pin).value);
    }
  }

  lemma {:induction false} GetBelow(value: Json, piece: Piece, child: Json, rest: Path)
    requires Below(value, piece).Some?
    ensures Get(SetBelow(value, piece, child), PieceParts(piece) + rest) == Get(child, rest)
  {
    var changed := SetBelow(value, piece, child);
    if piece.index.None? {
      assert ([Name(piece.name)] + rest)[1..] == rest;
    } else {
      var path := [Name(piece.name), At(piece.index.value)] + rest;
      assert path[1..] == [At(piece.index.value)] + rest && path[1..][1..] == rest;
      assert Child(changed, path[0]).value.Array?;
    }
  }

  /** Right after it is installed, a pin reads back as it is. */
  lemma {:induction false} InstallReadsBack(value: Json, pieces: seq<Piece>, pin: Json)
    requires pieces != [] && Install(value, pieces, pin).Some?
    ensures Get(Install(value, pieces, pin).value, PathOf(pieces)) == Some(pin)
    decreases |pieces|
  {
    if |pieces| == 1 {
      LastReadsBack(value, pieces[0], pin);
      assert pieces[1..] == [] && PieceParts(pieces[0]) + [] == PieceParts(pieces[0]);
    } else {
      var child := Below(value, pieces[0]).value;
      InstallReadsBack(child, pieces[1..], pin);
      GetBelow(value, pieces[0], Install(child, pieces[1..], pin).value, PathOf(pieces[1..]));
    }
  }

  lemma {:induction false} LastReadsBack(value: Json, piece: Piece, pin: Json)
    requires InstallLast(value, piece, pin).Some?
    ensures Get(InstallLast(value, piece, pin).value, PieceParts(piece)) == Some(pin)
  {
    var installed := InstallLast(value, piece, pin).value;
    var path := PieceParts(piece);
    if piece.index.None? {
      assert path[1..] == [];
      if piece.name in value.fields {
        JsonEqualIsEquality(value.fields[piece.name], pin);
      }
    } else {
      assert path[1..] == [At(piece.index.value)] && path[1..][1..] == [];
      assert Below(value, piece) == Child(Child(value, path[0]).value, path[1]);
      assert Get(Child(value, path[0]).value, path[1..]) == Child(Child(value, path[0]).value, path[1]);
      JsonEqualIsEquality(Below(value, piece).value, pin);
    }
  }

  /** The path takes another turn than the pieces at part `k`. */
  predicate TurnsAt(path: Path, pieces: seq<Piece>, k: nat) {
    k < |path| && k < |PathOf(pieces)| && path[..k] == PathOf(pieces)[..k] && path[k] != PathOf(pieces)[k]
  }

  ghost predicate Turns(path: Path, pieces: seq<Piece>) {
    exists k :: TurnsAt(path, pieces, k)
  }

  lemma {:induction false} SetBelowAside(value: Json, piece: Piece, child: Json, path: Path)
    requires Below(value, piece).Some? && path != []
    requires path[0] != Name(piece.name) || (piece.index.Some? && |path| > 1 && path[1] != At(piece.index.value))
    ensures Get(SetBelow(value, piece, child), path) == Get(value, path)
  {
    var changed := SetBelow(value, piece, child);
    if path[0] == Name(piece.name) {
      var items := value.fields[piece.name];
      assert Child(changed.fields[piece.name], path[1]) == Child(items, path[1]);
    } else {
      assert Child(changed, path[0]) == Child(value, path[0]);
    }
  }

  lemma {:induction false} LastAside(value: Json, piece: Piece, pin: Json, path: Path)
    requires InstallLast(value, piece, pin).Some? && path != [] && (piece.index.None? ==> path[0] != Name(piece.name))
    ensures Get(InstallLast(value, piece, pin).value, path) == Get(value, path)
  {
    assert piece.index.None? ==> Child(InstallLast(value, piece, pin).value, path[0]) == Child(value, path[0]);
  }

  /** What a walk finds below a piece, when it goes on. */
  lemma {:induction false} GetThrough(value: Json, piece: Piece, rest: Path)
    requires Below(value, piece).Some? && rest != []
    ensures Get(value, PieceParts(piece) + rest) == Get(Below(value, piece).value, rest)
  {
    var path := PieceParts(piece) + rest;
    if piece.index.None? {
      assert path[1..] == rest;
    } else {
      assert path[1..] == [At(piece.index.value)] + rest && path[1..][1..] == rest;
      assert Child(value, path[0]).value == value.fields[piece.name];
    }
  }

  lemma {:induction false} TurnsLater(path: Path, pieces: seq<Piece>, k: nat)
    requires pieces != [] && TurnsAt(path, pieces, k) && k >= |PieceParts(pieces[0])|
    ensures
      var n := |PieceParts(pieces[0])|;
      path == PieceParts(pieces[0]) + path[n..] && path[n..] != [] && |pieces| > 1
          && TurnsAt(path[n..], pieces[1..], k - n)
  {
    hide PieceParts;
    TurnsInTheRest(path, PieceParts(pieces[0]), PathOf(pieces[1..]), k);
  }

  lemma {:induction false} TurnsInTheRest(path: Path, parts: Path, rest: Path, k: nat)
    requires |parts| <= k < |path| && k < |parts + rest| && path[..k] == (parts + rest)[..k]
    requires path[k] != (parts + rest)[k]
    ensures path == parts + path[|parts|..] && rest != []
    ensures
      var tail, m := path[|parts|..], k - |parts|;
      m < |tail| && m < |rest| && tail[..m] == rest[..m] && tail[m] != rest[m]
  {
    assert forall i | 0 <= i < k :: path[i] == path[..k][i] == (parts + rest)[..k][i] == (parts + rest)[i];
    assert path[|parts|..][..k - |parts|] == rest[..k - |parts|];
  }

  /** Installing a pin changes nothing at a path that turns elsewhere. */
  lemma {:induction false} InstallAside(value: Json, pieces: seq<Piece>, pin: Json, path: Path, k: nat)
    requires pieces != [] && Install(value, pieces, pin).Some? && TurnsAt(path, pieces, k)
    ensures Get(Install(value, pieces, pin).value, path) == Get(value, path)
    decreases |pieces|
  {
    var piece := pieces[0];
    var n := |PieceParts(piece)|;
    assert PathOf(pieces)[..n] == PieceParts(piece);
    if k >= n {
      TurnsLater(path, pieces, k);
      var child := Below(value, piece).value;
      InstallAside(child, pieces[1..], pin, path[n..], k - n);
      GetBelow(value, piece, Install(child, pieces[1..], pin).value, path[n..]);
      GetThrough(value, piece, path[n..]);
    } else {
      assert k == 1 ==> path[..k][0] == path[0] && PathOf(pieces)[..k][0] == PathOf(pieces)[0];
      if |pieces| == 1 {
        LastAside(value, piece, pin, path);
      } else {
        SetBelowAside(value, piece, Install(Below(value, piece).value, pieces[1..], pin).value, path);
      }
    }
  }

  // ---- The walk -------------------------------------------------------------------------------------

  /** Installing below a place of the tree. */
  function InstallAt(tree: Json, prefix: Path, pieces: seq<Piece>, pin: Json): Option<Json>
    requires pieces != [] && Get(tree, prefix).Some?
  {
    var installed := Install(Get(tree, prefix).value, pieces, pin);
    if installed.None? then None else Some(Put(tree, prefix, installed.value))
  }

  lemma {:induction false} PutTwice(tree: Json, path: Path, first: Json, second: Json)
    requires Get(tree, path).Some?
    ensures Put(Put(tree, path, first), path, second) == Put(tree, path, second)
  {
    if path != [] {
      PutTwice(Child(tree, path[0]).value, path[1..], first, second);
    }
  }

  lemma {:induction false} SetTwice(value: Json, piece: Piece, first: Json, second: Json)
    requires Below(value, piece).Some?
    ensures Get(SetBelow(value, piece, first), PieceParts(piece)) == Some(first)
    ensures Put(SetBelow(value, piece, first), PieceParts(piece), second) == SetBelow(value, piece, second)
  {
    GetBelow(value, piece, first, []);
    assert PieceParts(piece) + [] == PieceParts(piece);
    var path, changed := PieceParts(piece), SetBelow(value, piece, first);
    if piece.index.None? {
      assert path[1..] == [];
    } else {
      assert path[1..] == [At(piece.index.value)] && path[1..][1..] == [];
      assert Child(changed, path[0]).value.Array?;
      assert Put(Child(changed, path[0]).value, path[1..], second) ==
          Array(value.fields[piece.name].items[piece.index.value := second]);
    }
  }

  /** One step of the walk: make the member below a place, and go on from there. */
  lemma {:induction false} WalkGoesOn(tree: Json, prefix: Path, pieces: seq<Piece>, pin: Json)
    requires |pieces| > 1 && Get(tree, prefix).Some? && Below(Get(tree, prefix).value, pieces[0]).Some?
    ensures
      var current := Get(tree, prefix).value;
      var made := Put(tree, prefix, SetBelow(current, pieces[0], Below(current, pieces[0]).value));
      && Get(made, prefix + PieceParts(pieces[0])) == Below(current, pieces[0])
      && InstallAt(made, prefix + PieceParts(pieces[0]), pieces[1..], pin) == InstallAt(tree, prefix, pieces, pin)
  {
    var current := Get(tree, prefix).value;
    var child := Below(current, pieces[0]).value;
    var made := Put(tree, prefix, SetBelow(current, pieces[0], child));
    SetTwice(current, pieces[0], child, child);
    GetJoined(made, prefix, PieceParts(pieces[0]));
    var installed := Install(child, pieces[1..], pin);
    if installed.Some? {
      SetTwice(current, pieces[0], child, installed.value);
      PutJoined(made, prefix, PieceParts(pieces[0]), installed.value);
      PutTwice(tree, prefix, SetBelow(current, pieces[0], child), SetBelow(current, pieces[0], installed.value));
    }
  }

  /** `_install_constraint`: walk down from the root, making missing members on the way. */
  method InstallConstraint(root: Json, pieces: seq<Piece>, pin: Json) returns (result: Option<Json>)
    requires pieces != []
    ensures result == Install(root, pieces, pin)
  {
    hide Install, SetBelow;
    var tree, prefix: Path := root, [];
    assert InstallAt(tree, prefix, pieces, pin) == Install(root, pieces, pin) by { WalkStarts(root, pieces, pin); }
    assert pieces[0..] == pieces;
    for position := 0 to |pieces| - 1
      invariant Get(tree, prefix).Some?
      invariant InstallAt(tree, prefix, pieces[position..], pin) == Install(root, pieces, pin)
    {
      assert pieces[position..][1..] == pieces[position + 1..];
      var current, piece := Get(tree, prefix).value, pieces[position];
      var child := Below(current, piece);
      if child.None? {
        WalkStops(tree, prefix, pieces[position..], pin);
        return None;
      }
      WalkGoesOn(tree, prefix, pieces[position..], pin);
      tree := Put(tree, prefix, SetBelow(current, piece, child.value));
      prefix := prefix + PieceParts(piece);
    }
    var last := InstallLast(Get(tree, prefix).value, pieces[|pieces| - 1], pin);
    WalkEnds(tree, prefix, pieces[|pieces| - 1..], pin);
    result := if last.None? then None else Some(Put(tree, prefix, last.value));
  }

  lemma {:induction false} WalkStarts(root: Json, pieces: seq<Piece>, pin: Json)
    requires pieces != []
    ensures InstallAt(root, [], pieces, pin) == Install(root, pieces, pin)
  {
    assert forall installed :: Put(root, [], installed) == installed;
  }

  lemma {:induction false} WalkStops(tree: Json, prefix: Path, pieces: seq<Piece>, pin: Json)
    requires |pieces| > 1 && Get(tree, prefix).Some? && Below(Get(tree, prefix).value, pieces[0]).None?
    ensures InstallAt(tree, prefix, pieces, pin).None?
  {
    assert Install(Get(tree, prefix).value, pieces, pin).None?;
  }

  lemma {:induction false} WalkEnds(tree: Json, prefix: Path, pieces: seq<Piece>, pin: Json)
    requires |pieces| == 1 && Get(tree, prefix).Some?
    ensures
      var last := InstallLast(Get(tree, prefix).value, pieces[0], pin);
      InstallAt(tree, prefix, pieces, pin) == if last.None? then None else Some(Put(tree, prefix, last.value))
  {
    assert Install(Get(tree, prefix).value, pieces, pin) == InstallLast(Get(tree, prefix).value, pieces[0], pin);
  }

  // ---- Merging -----------------------------------------------------------------------------------------

  /** A receipt's expected value at a constraint path, as written and in pieces. */
  datatype Pin = Pin(path: string, pieces: seq<Piece>, value: Json)

  predicate AreConstraints(pins: seq<Pin>) {
    forall pin | pin in pins :: pin.pieces != []
  }

  /** The pins installed one after another. */
  function Merge(parameters: Json, pins: seq<Pin>): Option<Json>
    requires AreConstraints(pins)
  {
    if pins == [] then Some(parameters)
    else
      var earlier := Merge(parameters, pins[..|pins| - 1]);
      if earlier.None? then None else Install(earlier.value, pins[|pins| - 1].pieces, pins[|pins| - 1].value)
  }

  lemma {:induction false} MergeFailureStays(parameters: Json, pins: seq<Pin>, n: nat)
    requires AreConstraints(pins) && n <= |pins| && Merge(parameters, pins[..n]).None?
    ensures Merge(parameters, pins).None?
  {
    if n < |pins| {
      assert pins[..|pins| - 1][..n] == pins[..n];
      MergeFailureStays(parameters, pins[..|pins| - 1], n);
    } else {
      assert pins[..n] == pins;
    }
  }

  /** `_reject_payload_fields`: no field at any depth has a payload-shaped name. */
  predicate PayloadFree(value: Json, payloadShaped: string -> bool) {
    match value
    case Object(fields) => forall name | name in fields ::
        !payloadShaped(name) && PayloadFree(fields[name], payloadShaped)
    case Array(items) => forall i | 0 <= i < |items| :: PayloadFree(items[i], payloadShaped)
    case _ => true
  }

  /** No path of the value ends in a field with a payload-shaped name. */
  ghost predicate HasNoPayload(value: Json, payloadShaped: string -> bool) {
    forall path: Path, name | Get(value, path + [Name(name)]).Some? :: !payloadShaped(name)
  }

  lemma {:induction false} ChildHasNone(value: Json, part: Part, payloadShaped: string -> bool)
    requires HasNoPayload(value, payloadShaped) && Child(value, part).Some?
    ensures HasNoPayload(Child(value, part).value, payloadShaped)
  {
    forall path: Path, name | Get(Child(value, part).value, path + [Name(name)]).Some? ensures !payloadShaped(name) {
      var longer := [part] + path;
      assert (longer + [Name(name)])[1..] == path + [Name(name)];
      assert Get(value, longer + [Name(name)]).Some?;
    }
  }

  /** Searching a value field by field finds every payload-shaped name at any depth. */
  lemma {:induction false} PayloadFreeIs(value: Json, payloadShaped: string -> bool)
    ensures PayloadFree(value, payloadShaped) <==> HasNoPayload(value, payloadShaped)
  {
    if PayloadFree(value, payloadShaped) {
      forall path: Path, name | Get(value, path + [Name(name)]).Some? ensures !payloadShaped(name) {
        PayloadFreeAt(value, payloadShaped, path, name);
      }
    }
    if HasNoPayload(value, payloadShaped) {
      NoPayloadIsFree(value, payloadShaped);
    }
  }

  lemma {:induction false} PayloadFreeAt(value: Json, payloadShaped: string -> bool, path: Path, name: string)
    requires PayloadFree(value, payloadShaped) && Get(value, path + [Name(name)]).Some?
    ensures !payloadShaped(name)
    decreases path
  {
    if path == [] {
      assert (path + [Name(name)])[0] == Name(name);
    } else {
      assert (path + [Name(name)])[0] == path[0] && (path + [Name(name)])[1..] == path[1..] + [Name(name)];
      PayloadFreeAt(Child(value, path[0]).value, payloadShaped, path[1..], name);
    }
  }

  lemma {:induction false} NoPayloadIsFree(value: Json, payloadShaped: string -> bool)
    requires HasNoPayload(value, payloadShaped)
    ensures PayloadFree(value, payloadShaped)
  {
    match value
    case Object(fields) =>
      forall name | name in fields ensures !payloadShaped(name) && PayloadFree(fields[name], payloadShaped) {
        var path: Path := [];
        assert (path + [Name(name)])[0] == Name(name) && (path + [Name(name)])[1..] == [];
        assert Get(value, path + [Name(name)]).Some?;
        ChildHasNone(value, Name(name), payloadShaped);
        NoPayloadIsFree(fields[name], payloadShaped);
      }
    case Array(items) =>
      forall i | 0 <= i < |items| ensures PayloadFree(items[i], payloadShaped) {
        ChildHasNone(value, At(i), payloadShaped);
        NoPayloadIsFree(items[i], payloadShaped);
      }
    case _ =>
  }

  /** Neither the recipe nor the expected values, keyed by their paths, hold a payload-shaped field. */
  predicate Declares(parameters: Json, pins: seq<Pin>, payloadShaped: string -> bool) {
    && PayloadFree(parameters, payloadShaped)
    && forall pin | pin in pins :: !payloadShaped(pin.path) && PayloadFree(pin.value, payloadShaped)
  }

  /** `merge_candidate_constraints`, with the frozen copy it hands out. */
  method MergeConstraints(parameters: Json, pins: seq<Pin>, payloadShaped: string -> bool)
    returns (merged: Option<Frozen>)
    requires AreConstraints(pins)
    ensures merged.Some? <==>
              && HasNoPayload(parameters, payloadShaped)
              && (forall i | 0 <= i < |pins| ::
                  !payloadShaped(pins[i].path) && HasNoPayload(pins[i].value, payloadShaped))
              && Merge(parameters, pins).Some?
    ensures merged.Some? ==> Thaw(merged.value) == Merge(parameters, pins).value
  {
    hide HasNoPayload, PayloadFree;
    PayloadFreeIs(parameters, payloadShaped);
    forall i | 0 <= i < |pins|
      ensures PayloadFree(pins[i].value, payloadShaped) <==> HasNoPayload(pins[i].value, payloadShaped) {
      PayloadFreeIs(pins[i].value, payloadShaped);
    }
    if !Declares(parameters, pins, payloadShaped) {
      return None;
    }
    var tree := parameters;
    for i := 0 to |pins|
      invariant Merge(parameters, pins[..i]) == Some(tree)
    {
      assert pins[..i + 1][..i] == pins[..i] && pins[i] in pins;
      var installed := InstallConstraint(tree, pins[i].pieces, pins[i].value);
      if installed.None? {
        MergeFailureStays(parameters, pins, i + 1);
        return None;
      }
      tree := installed.value;
    }
    assert pins[..|pins|] == pins;
    ThawFreeze(tree);
    merged := Some(Freeze(tree));
  }

  /** A merge only adds to the recipe. */
  lemma {:induction false} MergeExtends(parameters: Json, pins: seq<Pin>)
    requires AreConstraints(pins) && Merge(parameters, pins).Some?
    ensures Extends(parameters, Merge(parameters, pins).value)
  {
    if pins == [] {
      ExtendsItself(parameters);
    } else {
      var n := |pins| - 1;
      var earlier := Merge(parameters, pins[..n]).value;
      MergeExtends(parameters, pins[..n]);
      InstallExtends(earlier, pins[n].pieces, pins[n].value);
      ExtendsOnward(parameters, earlier, Merge(parameters, pins).value);
    }
  }

  /** Every non-null scalar of the recipe survives at its path. */
  lemma {:induction false} ScalarsSurvive(parameters: Json, pins: seq<Pin>, path: Path)
    requires AreConstraints(pins) && Merge(parameters, pins).Some? && Get(parameters, path).Some?
    requires var scalar := Get(parameters, path).value; !scalar.Null? && !scalar.Array? && !scalar.Object?
    ensures Get(Merge(parameters, pins).value, path) == Get(parameters, path)
  {
    MergeExtends(parameters, pins);
    ExtendsEverywhere(parameters, Merge(parameters, pins).value, path);
  }

  /** Every pin reads back, extended at most by later pins. */
  lemma {:induction false} PinsReadBack(parameters: Json, pins: seq<Pin>, k: nat)
    requires AreConstraints(pins) && Merge(parameters, pins).Some? && k < |pins|
    ensures
      var found := Get(Merge(parameters, pins).value, PathOf(pins[k].pieces));
      found.Some? && Extends(pins[k].value, found.value)
  {
    var n := |pins| - 1;
    var earlier := Merge(parameters, pins[..n]).value;
    if k == n {
      InstallReadsBack(earlier, pins[n].pieces, pins[n].value);
      ExtendsItself(pins[n].value);
    } else {
      var path := PathOf(pins[k].pieces);
      PinsReadBack(parameters, pins[..n], k);
      InstallExtends(earlier, pins[n].pieces, pins[n].value);
      ExtendsEverywhere(earlier, Merge(parameters, pins).value, path);
      ExtendsOnward(pins[k].value, Get(earlier, path).value, Get(Merge(parameters, pins).value, path).value);
    }
  }

  /** Where no pin points, the recipe is as it was. */
  lemma {:induction false} ElsewhereUnchanged(parameters: Json, pins: seq<Pin>, path: Path)
    requires AreConstraints(pins) && Merge(parameters, pins).Some?
    requires forall i | 0 <= i < |pins| :: Turns(path, pins[i].pieces)
    ensures Get(Merge(parameters, pins).value, path) == Get(parameters, path)
  {
    if pins != [] {
      var n := |pins| - 1;
      ElsewhereUnchanged(parameters, pins[..n], path);
      var k :| TurnsAt(path, pins[n].pieces, k);
      InstallAside(Merge(parameters, pins[..n]).value, pins[n].pieces, pins[n].value, path, k);
    }
  }
}
