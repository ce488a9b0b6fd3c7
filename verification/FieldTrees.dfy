/** The settings of a struct: its tagged fields, nested structs included, as a flat map. */
module FieldTrees {
  import opened Options

  // ---- Flattening a struct --------------------------------------------------------------

  /** A struct field: a simple value under its tag, if it has one; a struct; or a map, slice or array. */
  datatype Field = Leaf(tag: Option<string>, value: string) | Struct(fields: seq<Field>) | Collection

  datatype Setting = Setting(key: string, value: string)

  type Settings = map<string, string>

  /** The tagged values of a struct, outermost field first. */
  function Tagged(fields: seq<Field>): seq<Setting> {
    if fields == [] then [] else TaggedIn(fields[0]) + Tagged(fields[1..])
  }

  function TaggedIn(f: Field): seq<Setting> {
    match f
    case Leaf(Some(key), value) => [Setting(key, value)]
    case Leaf(None, _) => []
    case Struct(fields) => Tagged(fields)
    case Collection => []
  }

  /** No later setting of the same key follows. */
  ghost predicate LastAt(settings: seq<Setting>, i: nat) {
    i < |settings| && forall j :: i < j < |settings| ==> settings[j].key != settings[i].key
  }

  function Keys(settings: seq<Setting>): set<string> {
    set s | s in settings :: s.key
  }

  /** The settings put into a map one after the other. */
  function Put(entries: Settings, settings: seq<Setting>): Settings
    decreases |settings|
  {
    if settings == [] then entries
    else Put(entries[settings[0].key := settings[0].value], settings[1..])
  }

  lemma {:induction false} PutConcat(entries: Settings, a: seq<Setting>, b: seq<Setting>)
    ensures Put(entries, a + b) == Put(Put(entries, a), b)
    decreases |a|
  {
    if a == [] {
      assert a + b == b;
    } else {
      assert (a + b)[0] == a[0] && (a + b)[1..] == a[1..] + b;
      PutConcat(entries[a[0].key := a[0].value], a[1..], b);
    }
  }

  lemma {:induction false} PutKeys(entries: Settings, settings: seq<Setting>)
    ensures Put(entries, settings).Keys == entries.Keys + Keys(settings)
    ensures forall k :: k in entries && k !in Keys(settings) ==> Put(entries, settings)[k] == entries[k]
    decreases |settings|
  {
    if settings != [] {
      var first, others := settings[0], settings[1..];
      PutKeys(entries[first.key := first.value], others);
      assert settings == [first] + others;
      assert Keys(settings) == {first.key} + Keys(others);
    }
  }

  /** The map then holds the last setting of every key. */
  lemma {:induction false} PutHoldsLast(entries: Settings, settings: seq<Setting>, i: nat)
    requires LastAt(settings, i)
    ensures settings[i].key in Put(entries, settings) && Put(entries, settings)[settings[i].key] == settings[i].value
    decreases |settings|
  {
    var first, others := settings[0], settings[1..];
    if i == 0 {
      PutKeys(entries[first.key := first.value], others);
      assert first.key !in Keys(others);
    } else {
      PutHoldsLast(entries[first.key := first.value], others, i - 1);
    }
  }

  lemma KeysConcat(a: seq<Setting>, b: seq<Setting>)
    ensures Keys(a + b) == Keys(a) + Keys(b)
  {
  }

  // ---- The settings by their place in the tree ------------------------------------------

  /** The field at a path of indices, through structs. */
  function FieldAt(fields: seq<Field>, path: seq<nat>): Option<Field>
    decreases |path|
  {
    if path == [] || path[0] >= |fields| then None
    else if |path| == 1 then Some(fields[path[0]])
    else if fields[path[0]].Struct? then FieldAt(fields[path[0]].fields, path[1..])
    else None
  }

  /** At the path stands a simple value under the tag. */
  predicate TagAt(fields: seq<Field>, path: seq<nat>, key: string) {
    FieldAt(fields, path).Some? && FieldAt(fields, path).value.Leaf? && FieldAt(fields, path).value.tag == Some(key)
  }

  /** The place `q` comes after `p` when the tree is read from top to bottom. */
  predicate Later(p: seq<nat>, q: seq<nat>) {
    p != [] && q != [] && (p[0] < q[0] || (p[0] == q[0] && Later(p[1..], q[1..])))
  }

  ghost predicate LastTagAt(fields: seq<Field>, path: seq<nat>, key: string) {
    TagAt(fields, path, key) && forall q :: Later(path, q) ==> !TagAt(fields, q, key)
  }

  ghost predicate HasTag(fields: seq<Field>, key: string) {
    exists path :: TagAt(fields, path, key)
  }

  /**
   Reading the struct changes a map from `before` to `after`: a tag that occurs gets the value of its last place,
   every other key stays as it was.
   */
  ghost predicate ReadsInto(fields: seq<Field>, before: Settings, after: Settings) {
    && (forall path, key :: LastTagAt(fields, path, key) ==>
          key in after && after[key] == FieldAt(fields, path).value.value)
    && (forall key :: !HasTag(fields, key) ==>
          (key in after <==> key in before) && (key in before ==> after[key] == before[key]))
  }

  /** Places in the first field, and places after it. */
  lemma FirstPlaces(fields: seq<Field>, path: seq<nat>, key: string)
    requires fields != [] && fields[0].Struct?
    ensures path != [] ==> (TagAt(fields, [0] + path, key) <==> TagAt(fields[0].fields, path, key))
  {
    if path != [] {
      assert ([0] + path)[1..] == path;
    }
  }

  function Shift(path: seq<nat>): seq<nat>
    requires path != []
  {
    [path[0] + 1] + path[1..]
  }

  lemma OtherPlaces(fields: seq<Field>, path: seq<nat>)
    requires fields != [] && path != []
    ensures FieldAt(fields, Shift(path)) == FieldAt(fields[1..], path)
  {
    assert Shift(path)[1..] == path[1..];
  }

  /** Every listed key has a place. */
  lemma {:induction false} KeyHasPlace(fields: seq<Field>, key: string) returns (path: seq<nat>)
    requires key in Keys(Tagged(fields))
    ensures TagAt(fields, path, key)
    decreases fields
  {
    KeysConcat(TaggedIn(fields[0]), Tagged(fields[1..]));
    if key in Keys(TaggedIn(fields[0])) {
      if fields[0].Struct? {
        var inner := KeyHasPlace(fields[0].fields, key);
        FirstPlaces(fields, inner, key);
        path := [0] + inner;
      } else {
        path := [0];
      }
    } else {
      var other := KeyHasPlace(fields[1..], key);
      OtherPlaces(fields, other);
      path := Shift(other);
    }
  }

  /** Every place is listed. */
  lemma {:induction false} PlaceIsListed(fields: seq<Field>, path: seq<nat>, key: string)
    requires TagAt(fields, path, key)
    ensures key in Keys(Tagged(fields))
    decreases fields
  {
    KeysConcat(TaggedIn(fields[0]), Tagged(fields[1..]));
    if path[0] > 0 {
      var other := [path[0] - 1] + path[1..];
      assert Shift(other) == path;
      OtherPlaces(fields, other);
      PlaceIsListed(fields[1..], other, key);
    } else if |path| > 1 {
      PlaceIsListed(fields[0].fields, path[1..], key);
    }
  }

  lemma ListedExactly(fields: seq<Field>, key: string)
    ensures key in Keys(Tagged(fields)) <==> HasTag(fields, key)
  {
    if key in Keys(Tagged(fields)) {
      var path := KeyHasPlace(fields, key);
    }
    if path :| TagAt(fields, path, key) {
      PlaceIsListed(fields, path, key);
    }
  }

  /** Nothing later in the tree means nothing later in the first field and nothing at all after it. */
  lemma LastWithinFirst(fields: seq<Field>, path: seq<nat>, key: string)
    requires LastTagAt(fields, path, key) && path[0] == 0
    ensures |path| > 1 ==> LastTagAt(fields[0].fields, path[1..], key)
    ensures !HasTag(fields[1..], key)
  {
    forall q | TagAt(fields[1..], q, key) ensures false {
      OtherPlaces(fields, q);
      assert Later(path, Shift(q));
    }
    if |path| > 1 {
      forall q | Later(path[1..], q) ensures !TagAt(fields[0].fields, q, key) {
        FirstPlaces(fields, q, key);
        assert ([0] + q)[1..] == q;
        assert Later(path, [0] + q);
      }
    }
  }

  lemma LastAfterFirst(fields: seq<Field>, path: seq<nat>, key: string)
    requires LastTagAt(fields, path, key) && path[0] > 0
    ensures LastTagAt(fields[1..], [path[0] - 1] + path[1..], key)
  {
    var other := [path[0] - 1] + path[1..];
    assert Shift(other) == path && other[1..] == path[1..];
    OtherPlaces(fields, other);
    forall q | Later(other, q) ensures !TagAt(fields[1..], q, key) {
      OtherPlaces(fields, q);
      assert Shift(q)[1..] == q[1..];
      assert Later(path, Shift(q));
    }
  }

  lemma {:induction false} LastPlaceCounts(entries: Settings, fields: seq<Field>, path: seq<nat>, key: string)
    requires LastTagAt(fields, path, key)
    ensures var after := Put(entries, Tagged(fields));
            key in after && after[key] == FieldAt(fields, path).value.value
    decreases fields
  {
    hide LastTagAt, HasTag, Put;
    assert TagAt(fields, path, key) by { PlaceOfLast(fields, path, key); }
    var first, others := TaggedIn(fields[0]), Tagged(fields[1..]);
    var mid := Put(entries, first);
    PutConcat(entries, first, others);
    if path[0] == 0 {
      LastWithinFirst(fields, path, key);
      ListedExactly(fields[1..], key);
      PutKeys(mid, others);
      if |path| > 1 {
        LastPlaceCounts(entries, fields[0].fields, path[1..], key);
      } else {
        PutOne(entries, key, fields[0].value);
      }
    } else {
      var other := [path[0] - 1] + path[1..];
      LastAfterFirst(fields, path, key);
      assert Shift(other) == path;
      OtherPlaces(fields, other);
      LastPlaceCounts(mid, fields[1..], other, key);
    }
  }

  lemma PlaceOfLast(fields: seq<Field>, path: seq<nat>, key: string)
    requires LastTagAt(fields, path, key)
    ensures TagAt(fields, path, key)
  {
  }

  lemma PutOne(entries: Settings, key: string, value: string)
    ensures Put(entries, [Setting(key, value)]) == entries[key := value]
  {
    assert [Setting(key, value)][1..] == [];
  }

  /** What is put into the map is what stands in the tree. */
  lemma PuttingReads(entries: Settings, fields: seq<Field>)
    ensures ReadsInto(fields, entries, Put(entries, Tagged(fields)))
  {
    hide LastTagAt, HasTag, Put;
    forall path, key | LastTagAt(fields, path, key)
      ensures var after := Put(entries, Tagged(fields));
              && TagAt(fields, path, key) && key in after && after[key] == FieldAt(fields, path).value.value
    {
      PlaceOfLast(fields, path, key);
      LastPlaceCounts(entries, fields, path, key);
    }
    forall key | !HasTag(fields, key)
      ensures var after := Put(entries, Tagged(fields));
              (key in after <==> key in entries) && (key in entries ==> after[key] == entries[key])
    {
      ListedExactly(fields, key);
      PutKeys(entries, Tagged(fields));
    }
  }

  /** A tag that occurs has a last place, so what is read is fixed. */
  lemma {:induction false} LastPlaceExists(fields: seq<Field>, key: string) returns (path: seq<nat>)
    requires HasTag(fields, key)
    ensures LastTagAt(fields, path, key)
    decreases fields
  {
    var some :| TagAt(fields, some, key);
    if HasTag(fields[1..], key) {
      var other := LastPlaceExists(fields[1..], key);
      OtherPlaces(fields, other);
      path := Shift(other);
      forall q | Later(path, q) ensures !TagAt(fields, q, key) {
        var before := [q[0] - 1] + q[1..];
        assert Shift(before) == q && before[1..] == q[1..] && path[1..] == other[1..];
        OtherPlaces(fields, before);
        assert Later(other, before);
      }
    } else {
      InFirst(fields, some, key);
      if |some| == 1 {
        path := [0];
        forall q | Later(path, q) ensures !TagAt(fields, q, key) {
          AfterFirst(q);
          NotAfterFirst(fields, q, key);
        }
      } else {
        assert TagAt(fields[0].fields, some[1..], key);
        var inner := LastPlaceExists(fields[0].fields, key);
        FirstPlaces(fields, inner, key);
        path := [0] + inner;
        assert path[1..] == inner;
        forall q | Later(path, q) ensures !TagAt(fields, q, key) {
          if q[0] == 0 {
            assert [0] + q[1..] == q;
            FirstPlaces(fields, q[1..], key);
          } else {
            NotAfterFirst(fields, q, key);
          }
        }
      }
    }
  }

  lemma AfterFirst(q: seq<nat>)
    requires Later([0], q)
    ensures q[0] > 0
  {
    var p: seq<nat> := [0];
    assert !Later(p[1..], q[1..]);
  }

  lemma NotAfterFirst(fields: seq<Field>, q: seq<nat>, key: string)
    requires fields != [] && !HasTag(fields[1..], key) && q != [] && q[0] > 0
    ensures !TagAt(fields, q, key)
  {
    var before := [q[0] - 1] + q[1..];
    assert Shift(before) == q;
    OtherPlaces(fields, before);
    assert !TagAt(fields[1..], before, key);
  }

  lemma InFirst(fields: seq<Field>, path: seq<nat>, key: string)
    requires TagAt(fields, path, key) && !HasTag(fields[1..], key)
    ensures path[0] == 0
  {
    if path[0] > 0 {
      NotAfterFirst(fields, path, key);
    }
  }

  // ---- The walks ------------------------------------------------------------------------

  class KubeEnvMap {
    var entries: Settings

    constructor ()
      ensures entries == map[]
    {
      entries := map[];
    }

    /** Puts the tagged values of the struct into the map, a nested struct's in its place. */
    method StructToKubeEnvMap(fields: seq<Field>)
      modifies this
      ensures entries == Put(old(entries), Tagged(fields)) && ReadsInto(fields, old(entries), entries)
      decreases fields
    {
      hide ReadsInto;
      PuttingReads(entries, fields);
      var i := 0;
      while i < |fields|
        invariant 0 <= i <= |fields|
        invariant Put(entries, Tagged(fields[i..])) == Put(old(entries), Tagged(fields))
      {
        ghost var before, here, others := entries, TaggedIn(fields[i]), Tagged(fields[i + 1..]);
        assert fields[i..][0] == fields[i] && fields[i..][1..] == fields[i + 1..];
        match fields[i] {
          case Struct(inner) =>
            StructToKubeEnvMap(inner);
          case Collection =>
          case Leaf(Some(key), value) =>
            entries := entries[key := value];
            assert here[1..] == [];
          case Leaf(None, _) =>
        }
        assert entries == Put(before, here);
        PutConcat(before, here, others);
        i := i + 1;
      }
    }
  }

  // ---- The known keys -------------------------------------------------------------------

  /** Two structs of one type: they differ in values only. */
  ghost predicate SameType(a: seq<Field>, b: seq<Field>) {
    |a| == |b| && (a == [] || (SameFieldType(a[0], b[0]) && SameType(a[1..], b[1..])))
  }

  ghost predicate SameFieldType(f: Field, g: Field) {
    match f
    case Leaf(tag, _) => g.Leaf? && g.tag == tag
    case Struct(fields) => g.Struct? && SameType(fields, g.fields)
    case Collection => g.Collection?
  }

  lemma {:induction false} TypeFixesKeys(a: seq<Field>, b: seq<Field>)
    requires SameType(a, b)
    ensures Keys(Tagged(a)) == Keys(Tagged(b))
    decreases a
  {
    if a != [] {
      if a[0].Struct? {
        TypeFixesKeys(a[0].fields, b[0].fields);
      }
      TypeFixesKeys(a[1..], b[1..]);
      assert Keys(TaggedIn(a[0])) == Keys(TaggedIn(b[0]));
      KeysConcat(TaggedIn(a[0]), Tagged(a[1..]));
      KeysConcat(TaggedIn(b[0]), Tagged(b[1..]));
    }
  }

  /** The known keys are read off an empty host, and cover the settings of every host's spec. */
  lemma {:induction false} KnownKeysCoverSpec(empty: seq<Field>, i: nat, spec: seq<Field>)
    requires i < |empty| && empty[i].Struct? && SameType(empty[i].fields, spec)
    ensures Keys(Tagged(spec)) <= Keys(Tagged(empty))
  {
    KeysConcat(TaggedIn(empty[0]), Tagged(empty[1..]));
    if i == 0 {
      TypeFixesKeys(empty[0].fields, spec);
    } else {
      KnownKeysCoverSpec(empty[1..], i - 1, spec);
    }
  }

  /** The keys a struct type can set. */
  method ReadKubeEnvKeysFromVal(fields: seq<Field>) returns (keySet: set<string>)
    ensures keySet == Keys(Tagged(fields)) && forall key :: key in keySet <==> HasTag(fields, key)
    decreases fields
  {
    hide HasTag;
    forall key ensures key in Keys(Tagged(fields)) <==> HasTag(fields, key) {
      ListedExactly(fields, key);
    }
    keySet := {};
    for i := 0 to |fields|
      invariant keySet + Keys(Tagged(fields[i..])) == Keys(Tagged(fields))
    {
      assert fields[i..][0] == fields[i] && fields[i..][1..] == fields[i + 1..];
      KeysConcat(TaggedIn(fields[i]), Tagged(fields[i + 1..]));
      match fields[i] {
        case Struct(inner) =>
          var more := ReadKubeEnvKeysFromVal(inner);
          keySet := keySet + more;
        case Collection =>
        case Leaf(Some(key), _) =>
          keySet := keySet + {key};
        case Leaf(None, _) =>
      }
    }
  }
}
