/** The lenient decoder's pruner: a JSON value is cut down to what a schema defines. */
module Prune {
  import opened Time
  import Messages

  /** A JSON value; the order of an object's keys is not kept. */
  datatype Json = Leaf(text: string) | Array(items: seq<Json>) | Object(fields: map<string, Json>)

  /** What a property holds: something with no object in it, an object, or an array of objects. */
  datatype Kind<T> = Plain | Child(inner: T) | Children(inner: T)

  datatype Property<T> = Property(name: string, kind: Kind<T>)

  /** The properties of each object type. */
  type Schema<!T> = T -> Option<seq<Property<T>>>

  /** One step of a JSON path, and the path. */
  datatype Segment = Key(key: string) | Index(index: nat)

  type Path = seq<Segment>

  const MAX_PRUNE_DEPTH: nat := 16

  predicate Defines<T(==)>(properties: seq<Property<T>>, key: string) {
    exists p <- properties :: p.name == key
  }

  /** What pruning leaves alone at the level it looks at. */
  predicate Known<T(==)>(properties: seq<Property<T>>, key: string) {
    key == "message_type" || Defines(properties, key)
  }

  function KindOf<T>(properties: seq<Property<T>>, key: string): Kind<T> {
    if properties == [] then Plain
    else if properties[0].name == key then properties[0].kind
    else KindOf(properties[1..], key)
  }

  /** A schema lists each property of a type once. */
  ghost predicate NamesOnce<T(!new)>(schema: Schema<T>) {
    forall t: T :: schema(t).Some? ==>
      forall i, j :: 0 <= i < j < |schema(t).value| ==> schema(t).value[i].name != schema(t).value[j].name
  }

  /** Whether there is anything to prune at this level. */
  predicate Walks<T>(schema: Schema<T>, v: Json, t: T, depth: nat) {
    depth > 0 && schema(t).Some? && v.Object?
  }

  /** The value as the schema has it, walked to a given depth. */
  function Clean<T(==)>(schema: Schema<T>, v: Json, t: T, depth: nat): Json
    decreases depth, 0
  {
    if !Walks(schema, v, t, depth) then v
    else
      var properties := schema(t).value;
      Object(map k | k in v.fields && Known(properties, k) ::
        CleanChild(schema, v.fields[k], KindOf(properties, k), depth - 1))
  }

  function CleanChild<T(==)>(schema: Schema<T>, v: Json, kind: Kind<T>, depth: nat): Json
    decreases depth, 2
  {
    match kind
    case Plain => v
    case Child(inner) => Clean(schema, v, inner, depth)
    case Children(inner) => if v.Array? then Array(CleanItems(schema, v.items, inner, depth)) else v
  }

  function CleanItems<T(==)>(schema: Schema<T>, items: seq<Json>, inner: T, depth: nat): (r: seq<Json>)
    ensures |r| == |items|
    decreases depth, 1
  {
    seq(|items|, i requires 0 <= i < |items| => Clean(schema, items[i], inner, depth))
  }

  /** What is found by following a path. */
  function At(v: Json, p: Path): Option<Json>
    decreases p
  {
    if p == [] then Some(v)
    else
      match p[0]
      case Key(k) => if v.Object? && k in v.fields then At(v.fields[k], p[1..]) else None
      case Index(i) => if v.Array? && i < |v.items| then At(v.items[i], p[1..]) else None
  }

  /** The path names a property that is there and that the walk finds undefined. */
  predicate Stray<T(==)>(schema: Schema<T>, v: Json, t: T, depth: nat, p: Path)
    decreases depth, 0
  {
    && p != [] && p[0].Key? && Walks(schema, v, t, depth) && p[0].key in v.fields
    && var properties := schema(t).value;
       if !Known(properties, p[0].key) then |p| == 1
       else StrayChild(schema, v.fields[p[0].key], KindOf(properties, p[0].key), depth - 1, p[1..])
  }

  predicate StrayChild<T(==)>(schema: Schema<T>, v: Json, kind: Kind<T>, depth: nat, p: Path)
    decreases depth, 1
  {
    match kind
    case Plain => false
    case Child(inner) => Stray(schema, v, inner, depth, p)
    case Children(inner) =>
      v.Array? && p != [] && p[0].Index? && p[0].index < |v.items| &&
        Stray(schema, v.items[p[0].index], inner, depth, p[1..])
  }

  // -------------------------------------------------------------------------
  // What pruning means
  // -------------------------------------------------------------------------

  /** A stray path leads somewhere in the value, nowhere in the pruned one, and its parent is
      still there: strays are exactly the tops of what is removed. */
  lemma {:induction false} StraysAreTheTopsOfWhatGoes<T>(schema: Schema<T>, v: Json, t: T, depth: nat, p: Path)
    ensures Stray(schema, v, t, depth, p) <==>
      p != [] && At(v, p).Some? && At(Clean(schema, v, t, depth), p).None? &&
        At(Clean(schema, v, t, depth), p[..|p| - 1]).Some?
    decreases depth, 0
  {
    if Walks(schema, v, t, depth) && p != [] && p[0].Key? && p[0].key in v.fields {
      var properties, rest := schema(t).value, p[1..];
      var front := p[..|p| - 1];
      if Known(properties, p[0].key) {
        ChildStrays(schema, v.fields[p[0].key], KindOf(properties, p[0].key), depth - 1, rest);
        if |p| > 1 {
          assert front[0] == p[0] && front[1..] == rest[..|rest| - 1];
        }
      } else if |p| > 1 {
        assert front[0] == p[0];
        assert p[0].key !in Clean(schema, v, t, depth).fields;
      } else {
        assert p[0].key !in Clean(schema, v, t, depth).fields && front == [];
      }
    }
  }

  lemma {:induction false} ChildStrays<T>(schema: Schema<T>, v: Json, kind: Kind<T>, depth: nat, p: Path)
    ensures StrayChild(schema, v, kind, depth, p) <==>
      p != [] && At(v, p).Some? && At(CleanChild(schema, v, kind, depth), p).None?
      && At(CleanChild(schema, v, kind, depth), p[..|p| - 1]).Some?
    decreases depth, 1
  {
    match kind
    case Plain =>
    case Child(inner) => StraysAreTheTopsOfWhatGoes(schema, v, inner, depth, p);
    case Children(inner) =>
      if v.Array? && p != [] && p[0].Index? && p[0].index < |v.items| {
        var rest := p[1..];
        StraysAreTheTopsOfWhatGoes(schema, v.items[p[0].index], inner, depth, rest);
        if |p| > 1 { assert p[..|p| - 1][0] == p[0] && p[..|p| - 1][1..] == rest[..|rest| - 1]; }
      }
  }

  /** What the pruned value holds is what the value held: the same leaves, arrays of the same
      length, and objects with no key added. */
  predicate CutFrom(x: Json, y: Json) {
    match x
    case Leaf(_) => x == y
    case Array(items) => y.Array? && |items| == |y.items|
    case Object(fields) => y.Object? && fields.Keys <= y.fields.Keys
  }

  lemma {:induction false} NothingIsChanged<T>(schema: Schema<T>, v: Json, t: T, depth: nat, p: Path)
    ensures At(Clean(schema, v, t, depth), p).Some? ==>
      At(v, p).Some? && CutFrom(At(Clean(schema, v, t, depth), p).value, At(v, p).value)
    decreases depth, 0
  {
    if Walks(schema, v, t, depth) && p != [] && p[0].Key? && p[0].key in v.fields {
      NothingInsideIsChanged(schema, v.fields[p[0].key], KindOf(schema(t).value, p[0].key), depth - 1, p[1..]);
    }
  }

  lemma {:induction false} NothingInsideIsChanged<T>(schema: Schema<T>, v: Json, kind: Kind<T>, depth: nat, p: Path)
    ensures At(CleanChild(schema, v, kind, depth), p).Some? ==>
      At(v, p).Some? && CutFrom(At(CleanChild(schema, v, kind, depth), p).value, At(v, p).value)
    decreases depth, 1
  {
    match kind
    case Plain =>
    case Child(inner) => NothingIsChanged(schema, v, inner, depth, p);
    case Children(inner) =>
      if v.Array? { assert |CleanItems(schema, v.items, inner, depth)| == |v.items|; }
      if v.Array? && p != [] && p[0].Index? && p[0].index < |v.items| {
        NothingIsChanged(schema, v.items[p[0].index], inner, depth, p[1..]);
      }
  }

  /** Whatever is in the value and under no stray is in the pruned value. */
  lemma {:induction false} NothingElseGoes<T>(schema: Schema<T>, v: Json, t: T, depth: nat, p: Path)
    ensures At(Clean(schema, v, t, depth), p).Some? <==>
      At(v, p).Some? && forall k :: 0 <= k <= |p| ==> !Stray(schema, v, t, depth, p[..k])
    decreases |p|
  {
    NothingIsChanged(schema, v, t, depth, p);
    var w := Clean(schema, v, t, depth);
    if At(w, p).Some? {
      forall k | 0 <= k <= |p| ensures !Stray(schema, v, t, depth, p[..k]) {
        PrefixesAreThere(w, p, k);
        StraysAreTheTopsOfWhatGoes(schema, v, t, depth, p[..k]);
      }
    } else if At(v, p).Some? && p != [] {
      var front := p[..|p| - 1];
      PrefixesAreThere(v, p, |p| - 1);
      NothingElseGoes(schema, v, t, depth, front);
      StraysAreTheTopsOfWhatGoes(schema, v, t, depth, p);
      if At(w, front).Some? {
        assert p[..|p|] == p;
      } else {
        var k :| 0 <= k <= |front| && Stray(schema, v, t, depth, front[..k]);
        assert front[..k] == p[..k];
      }
    }
  }

  lemma {:induction false} PrefixesAreThere(v: Json, p: Path, k: nat)
    requires At(v, p).Some? && k <= |p|
    ensures At(v, p[..k]).Some?
    decreases p
  {
    if k > 0 {
      assert p[..k][0] == p[0] && p[..k][1..] == p[1..][..k - 1];
      match p[0]
      case Key(key) => PrefixesAreThere(v.fields[key], p[1..], k - 1);
      case Index(i) => PrefixesAreThere(v.items[i], p[1..], k - 1);
    }
  }

  /** The schema defines every key of the path in the type it finds itself in. */
  predicate SchemaDefines<T(==)>(schema: Schema<T>, t: T, p: Path)
    decreases p
  {
    p == [] || schema(t).None? || !p[0].Key?
    || (Known(schema(t).value, p[0].key)
        && match KindOf(schema(t).value, p[0].key)
           case Plain => true
           case Child(inner) => SchemaDefines(schema, inner, p[1..])
           case Children(inner) => |p| == 1 || SchemaDefines(schema, inner, p[2..]))
  }

  lemma {:induction false} WhatTheSchemaDefinesStays<T>(schema: Schema<T>, v: Json, t: T, depth: nat, p: Path)
    requires SchemaDefines(schema, t, p)
    ensures !Stray(schema, v, t, depth, p)
    decreases depth
  {
    if Walks(schema, v, t, depth) && p != [] && p[0].Key? && p[0].key in v.fields {
      var child := v.fields[p[0].key];
      match KindOf(schema(t).value, p[0].key)
      case Plain =>
      case Child(inner) => WhatTheSchemaDefinesStays(schema, child, inner, depth - 1, p[1..]);
      case Children(inner) =>
        if child.Array? && |p| > 1 && p[1].Index? && p[1].index < |child.items| {
          assert p[1..][1..] == p[2..];
          WhatTheSchemaDefinesStays(schema, child.items[p[1].index], inner, depth - 1, p[2..]);
        }
    }
  }

  /** Pruning what has been pruned changes nothing. */
  lemma {:induction false} PruningTwiceIsPruningOnce<T>(schema: Schema<T>, v: Json, t: T, depth: nat)
    ensures Clean(schema, Clean(schema, v, t, depth), t, depth) == Clean(schema, v, t, depth)
    decreases depth, 0
  {
    if Walks(schema, v, t, depth) {
      var properties, w := schema(t).value, Clean(schema, v, t, depth);
      forall k | k in w.fields
        ensures CleanChild(schema, w.fields[k], KindOf(properties, k), depth - 1) == w.fields[k]
      {
        ChildrenTwiceIsOnce(schema, v.fields[k], KindOf(properties, k), depth - 1);
      }
      assert Clean(schema, w, t, depth).fields == w.fields;
    }
  }

  lemma {:induction false} ChildrenTwiceIsOnce<T>(schema: Schema<T>, v: Json, kind: Kind<T>, depth: nat)
    ensures CleanChild(schema, CleanChild(schema, v, kind, depth), kind, depth) == CleanChild(schema, v, kind, depth)
    decreases depth, 1
  {
    match kind
    case Plain =>
    case Child(inner) => PruningTwiceIsPruningOnce(schema, v, inner, depth);
    case Children(inner) =>
      if v.Array? {
        forall i | 0 <= i < |v.items|
          ensures Clean(schema, Clean(schema, v.items[i], inner, depth), inner, depth) ==
            Clean(schema, v.items[i], inner, depth)
        {
          PruningTwiceIsPruningOnce(schema, v.items[i], inner, depth);
        }
        assert CleanItems(schema, CleanItems(schema, v.items, inner, depth), inner, depth) ==
          CleanItems(schema, v.items, inner, depth);
      }
  }

  /** A pruned value holds nothing the schema does not define, at any place the walk reaches. */
  lemma {:induction false} PrunedHoldsNoStray<T>(schema: Schema<T>, v: Json, t: T, depth: nat, p: Path)
    ensures !Stray(schema, Clean(schema, v, t, depth), t, depth, p)
  {
    PruningTwiceIsPruningOnce(schema, v, t, depth);
    StraysAreTheTopsOfWhatGoes(schema, Clean(schema, v, t, depth), t, depth, p);
  }

  // -------------------------------------------------------------------------
  // What goes, read off the schema and the value
  // -------------------------------------------------------------------------

  /** The first property of the name says this of its contents. */
  ghost predicate IsProperty<T>(properties: seq<Property<T>>, key: string, kind: Kind<T>) {
    exists i :: 0 <= i < |properties| && properties[i] == Property(key, kind)
                && forall j :: 0 <= j < i ==> properties[j].name != key
  }

  /** The path below its first key, or below the array element that follows it. */
  function Below(p: Path): (rest: Path)
    requires p != []
    ensures |rest| < |p|
  {
    if |p| > 1 && p[1].Index? then p[2..] else p[1..]
  }

  /** The schema takes the path from a value of type `t` to one of type `u`. */
  ghost predicate LeadsTo<T(!new)>(schema: Schema<T>, t: T, p: Path, u: T)
    decreases |p|
  {
    if p == [] then t == u
    else
      && p[0].Key? && schema(t).Some?
      && exists inner: T :: StepsInto(schema, t, p, inner) && LeadsTo(schema, inner, Below(p), u)
  }

  /** The path's first key holds an object of this type, or an array of them that the path goes into. */
  ghost predicate StepsInto<T>(schema: Schema<T>, t: T, p: Path, inner: T)
    requires p != [] && p[0].Key? && schema(t).Some?
  {
    IsProperty(schema(t).value, p[0].key, if |p| > 1 && p[1].Index? then Children(inner) else Child(inner))
  }

  /** How many objects a path goes through. */
  function Levels(p: Path): nat {
    if p == [] then 0 else (if p[0].Key? then 1 else 0) + Levels(p[1..])
  }

  lemma {:induction false} KindOfAProperty<T>(properties: seq<Property<T>>, key: string, kind: Kind<T>)
    ensures IsProperty(properties, key, kind) ==> Defines(properties, key) && KindOf(properties, key) == kind
    ensures Defines(properties, key) ==> IsProperty(properties, key, KindOf(properties, key))
    ensures !kind.Plain? && KindOf(properties, key) == kind ==> IsProperty(properties, key, kind)
  {
    if properties != [] {
      var rest := properties[1..];
      assert properties[0] in properties && forall p <- rest :: p in properties;
      assert forall p <- properties :: p == properties[0] || p in rest;
      if properties[0].name == key {
        assert IsProperty(properties, key, KindOf(properties, key));
      } else {
        KindOfAProperty(rest, key, kind);
        AFurtherProperty(properties, key, kind);
        AFurtherProperty(properties, key, KindOf(properties, key));
      }
    }
  }

  lemma {:induction false} AFurtherProperty<T>(properties: seq<Property<T>>, key: string, kind: Kind<T>)
    requires properties != [] && properties[0].name != key
    ensures IsProperty(properties, key, kind) <==> IsProperty(properties[1..], key, kind)
  {
    var rest := properties[1..];
    if IsProperty(properties, key, kind) {
      var i :| 0 <= i < |properties| && properties[i] == Property(key, kind)
        && forall j :: 0 <= j < i ==> properties[j].name != key;
      assert rest[i - 1] == properties[i] && forall j :: 0 <= j < i - 1 ==> rest[j] == properties[j + 1];
    }
    if IsProperty(rest, key, kind) {
      var i :| 0 <= i < |rest| && rest[i] == Property(key, kind) && forall j :: 0 <= j < i ==> rest[j].name != key;
      assert properties[i + 1] == rest[i] && forall j :: 0 < j < i + 1 ==> properties[j] == rest[j - 1];
    }
  }

  /** The value has this key where the path ends, in an object whose type the schema gives within the
      depth, and that type has no property of the name, which is not `message_type`. */
  ghost predicate IsUndefinedThere<T(!new)>(schema: Schema<T>, v: Json, t: T, depth: nat, p: Path) {
    && p != [] && p[|p| - 1].Key? && At(v, p).Some? && Levels(p) <= depth && p[|p| - 1].key != "message_type"
    && exists u: T ::
         LeadsTo(schema, t, p[..|p| - 1], u) && schema(u).Some? && !Defines(schema(u).value, p[|p| - 1].key)
  }

  /** The value a path's first step leads to: the child, or an element of it. */
  ghost predicate IsBelow<T>(schema: Schema<T>, v: Json, t: T, p: Path, inner: T, w: Json) {
    && |p| > 1 && p[0].Key? && schema(t).Some? && v.Object? && p[0].key in v.fields
    && var child, kind := v.fields[p[0].key], KindOf(schema(t).value, p[0].key);
       if p[1].Index? then
         kind == Children(inner) && |p| > 2 && child.Array? && p[1].index < |child.items| &&
           w == child.items[p[1].index]
       else kind == Child(inner) && w == child
  }

  lemma {:induction false} OneLevelDown<T(!new)>(schema: Schema<T>, v: Json, t: T, depth: nat, p: Path, inner: T,
                                                 w: Json)
    requires IsBelow(schema, v, t, p, inner, w)
    ensures IsUndefinedThere(schema, v, t, depth, p) <==>
      depth > 0 && IsUndefinedThere(schema, w, inner, depth - 1, Below(p))
  {
    var front, rest := p[..|p| - 1], Below(p);
    assert rest[|rest| - 1] == p[|p| - 1];
    assert Levels(p) == 1 + Levels(rest) by { if p[1].Index? { assert p[1..][1..] == p[2..]; } }
    assert At(v, p) == At(w, rest) by { if p[1].Index? { assert p[1..][1..] == p[2..]; } }
    assert Below(front) == rest[..|rest| - 1];
    forall x: T ensures StepsInto(schema, t, front, x) <==> x == inner {
      KindOfAProperty(schema(t).value, p[0].key, if |front| > 1 && front[1].Index? then Children(x) else Child(x));
    }
    hide StepsInto, IsProperty, Below, Defines, At, Levels;
    assert forall u: T :: LeadsTo(schema, t, front, u) <==> LeadsTo(schema, inner, rest[..|rest| - 1], u);
  }

  /** What is reported is exactly what the schema does not define where it stands, `message_type` aside,
      as deep as the walk goes. */
  lemma {:induction false} StraysAreUndefined<T(!new)>(schema: Schema<T>, v: Json, t: T, depth: nat, p: Path)
    ensures Stray(schema, v, t, depth, p) <==> IsUndefinedThere(schema, v, t, depth, p)
    decreases |p|
  {
    if |p| == 1 {
      OneKeyIsStray(schema, v, t, depth, p);
    } else if exists inner: T, w: Json :: IsBelow(schema, v, t, p, inner, w) {
      var inner: T, w: Json :| IsBelow(schema, v, t, p, inner, w);
      OneLevelDown(schema, v, t, depth, p, inner, w);
      KindOfAProperty(schema(t).value, p[0].key, KindOf(schema(t).value, p[0].key));
      if depth > 0 { StraysAreUndefined(schema, w, inner, depth - 1, Below(p)); }
      if p[1].Index? { assert p[1..][1..] == p[2..]; }
    } else if p != [] {
      NothingBelow(schema, v, t, depth, p);
    }
  }

  lemma {:induction false} OneKeyIsStray<T(!new)>(schema: Schema<T>, v: Json, t: T, depth: nat, p: Path)
    requires |p| == 1
    ensures Stray(schema, v, t, depth, p) <==> IsUndefinedThere(schema, v, t, depth, p)
  {
    assert p[..|p| - 1] == [] && p[1..] == [] && Levels(p[1..]) == 0;
    assert LeadsTo(schema, t, p[..|p| - 1], t);
    if Walks(schema, v, t, depth) && p[0].Key? && p[0].key in v.fields {
      assert At(v.fields[p[0].key], p[1..]).Some?;
      assert !StrayChild(schema, v.fields[p[0].key], KindOf(schema(t).value, p[0].key), depth - 1, p[1..]);
    }
  }

  /** A path that leads no further finds nothing, whichever way it is asked. */
  lemma {:induction false} NothingBelow<T(!new)>(schema: Schema<T>, v: Json, t: T, depth: nat, p: Path)
    requires |p| > 1 && forall inner: T, w: Json :: !IsBelow(schema, v, t, p, inner, w)
    ensures !Stray(schema, v, t, depth, p) && !IsUndefinedThere(schema, v, t, depth, p)
  {
    NothingWalkedInto(schema, v, t, depth, p);
    var front := p[..|p| - 1];
    if IsUndefinedThere(schema, v, t, depth, p) {
      var u: T :| LeadsTo(schema, t, front, u);
      assert front[0] == p[0] && front != [] && p[1..][0] == p[1] && At(v.fields[p[0].key], p[1..]).Some?;
      var x := FirstStep(schema, t, front, u);
      var kind := if |front| > 1 && front[1].Index? then Children(x) else Child(x);
      KindOfAProperty(schema(t).value, p[0].key, kind);
      var child := v.fields[p[0].key];
      if p[1].Index? {
        assert IsBelow(schema, v, t, p, x, child.items[p[1].index]);
      } else {
        assert IsBelow(schema, v, t, p, x, child);
      }
    }
  }

  lemma {:induction false} FirstStep<T(!new)>(schema: Schema<T>, t: T, p: Path, u: T) returns (x: T)
    requires LeadsTo(schema, t, p, u) && p != []
    ensures p[0].Key? && schema(t).Some? && StepsInto(schema, t, p, x)
  {
    x :| StepsInto(schema, t, p, x) && LeadsTo(schema, x, Below(p), u);
  }

  lemma {:induction false} NothingWalkedInto<T(!new)>(schema: Schema<T>, v: Json, t: T, depth: nat, p: Path)
    requires |p| > 1 && forall inner: T, w: Json :: !IsBelow(schema, v, t, p, inner, w)
    ensures !Stray(schema, v, t, depth, p)
  {
    if Walks(schema, v, t, depth) && p[0].Key? && p[0].key in v.fields {
      var child := v.fields[p[0].key];
      assert p[1..][0] == p[1];
      match KindOf(schema(t).value, p[0].key)
      case Plain =>
      case Child(x) =>
        assert IsBelow(schema, v, t, p, x, child) || p[1].Index?;
        assert !Stray(schema, child, x, depth - 1, p[1..]);
      case Children(x) =>
        if child.Array? && p[1].Index? && p[1].index < |child.items| {
          assert IsBelow(schema, v, t, p, x, child.items[p[1].index]) || p[1..][1..] == [];
          assert !Stray(schema, child.items[p[1].index], x, depth - 1, p[1..][1..]);
        }
        assert !StrayChild(schema, child, Children(x), depth - 1, p[1..]);
    }
  }

  /** The tag that says what a message is survives wherever the object it stands in does. */
  lemma {:induction false} TheTagStays<T(!new)>(schema: Schema<T>, v: Json, t: T, depth: nat, p: Path)
    requires At(Clean(schema, v, t, depth), p).Some? && At(v, p + [Key("message_type")]).Some?
    ensures At(Clean(schema, v, t, depth), p + [Key("message_type")]).Some?
  {
    var tag := p + [Key("message_type")];
    NothingElseGoes(schema, v, t, depth, p);
    StraysAreUndefined(schema, v, t, depth, tag);
    forall k | 0 <= k <= |tag| ensures !Stray(schema, v, t, depth, tag[..k]) {
      if k <= |p| { assert tag[..k] == p[..k]; } else { assert tag[..k] == tag; }
    }
    NothingElseGoes(schema, v, t, depth, tag);
  }

  // -------------------------------------------------------------------------
  // The depth cap never shows
  // -------------------------------------------------------------------------

  /** Each type's objects hold objects of lower rank only. */
  ghost predicate Ranks<T(!new)>(schema: Schema<T>, rank: T -> nat) {
    forall t: T, k: string :: schema(t).Some? ==>
      match KindOf(schema(t).value, k)
      case Plain => true
      case Child(inner) => rank(inner) < rank(t)
      case Children(inner) => rank(inner) < rank(t)
  }

  lemma {:induction false} DeepEnoughIsDeepEnough<T(!new)>(schema: Schema<T>, rank: T -> nat, v: Json, t: T, d: nat,
                                                           e: nat)
    requires Ranks(schema, rank) && rank(t) < d && rank(t) < e
    ensures Clean(schema, v, t, d) == Clean(schema, v, t, e)
    decreases rank(t)
  {
    if Walks(schema, v, t, d) {
      var properties := schema(t).value;
      forall k | k in v.fields && Known(properties, k)
        ensures CleanChild(schema, v.fields[k], KindOf(properties, k), d - 1) ==
          CleanChild(schema, v.fields[k], KindOf(properties, k), e - 1)
      {
        var child := v.fields[k];
        match KindOf(properties, k)
        case Plain =>
        case Child(inner) => DeepEnoughIsDeepEnough(schema, rank, child, inner, d - 1, e - 1);
        case Children(inner) =>
          if child.Array? {
            forall i | 0 <= i < |child.items|
              ensures Clean(schema, child.items[i], inner, d - 1) == Clean(schema, child.items[i], inner, e - 1)
            {
              DeepEnoughIsDeepEnough(schema, rank, child.items[i], inner, d - 1, e - 1);
            }
            assert CleanItems(schema, child.items, inner, d - 1) == CleanItems(schema, child.items, inner, e - 1);
          }
      }
      assert Clean(schema, v, t, d).fields == Clean(schema, v, t, e).fields;
    }
  }

  // -------------------------------------------------------------------------
  // The pruner
  // -------------------------------------------------------------------------

  ghost predicate NoRepeats(paths: seq<Path>) {
    forall i, j :: 0 <= i < j < |paths| ==> paths[i] != paths[j]
  }

  lemma {:induction false} NoRepeatsJoined(a: seq<Path>, b: seq<Path>)
    requires NoRepeats(a) && NoRepeats(b) && forall p <- b :: p !in a
    ensures NoRepeats(a + b)
  {
    forall i, j | 0 <= i < j < |a + b| ensures (a + b)[i] != (a + b)[j] {
      if i < |a| <= j { assert b[j - |a|] in b && a[i] in a; }
    }
  }

  /** The paths listed are the strays below `path`, each once. */
  ghost predicate ListsStrays<T(!new)>(schema: Schema<T>, v: Json, t: T, depth: nat, path: Path, listed: seq<Path>) {
    NoRepeats(listed) && forall p :: p in listed <==> path <= p && Stray(schema, v, t, depth, p[|path|..])
  }

  ghost predicate ListsChildStrays<T(!new)>(schema: Schema<T>, v: Json, kind: Kind<T>, depth: nat, path: Path,
                                            listed: seq<Path>) {
    NoRepeats(listed) && forall p :: p in listed <==> path <= p && StrayChild(schema, v, kind, depth, p[|path|..])
  }

  /** Prune what one property holds. */
  method PruneProperty<T(==, !new)>(schema: Schema<T>, child: Json, kind: Kind<T>, path: Path, depth: nat)
    returns (pruned: Json, removed: seq<Path>, count: nat)
    requires NamesOnce(schema)
    ensures pruned == CleanChild(schema, child, kind, depth)
    ensures count == |removed| && ListsChildStrays(schema, child, kind, depth, path, removed)
    decreases depth, 1
  {
    match kind {
      case Plain => return child, [], 0;
      case Child(inner) => pruned, removed, count := PruneAt(schema, child, inner, path, depth);
      case Children(inner) =>
        if !child.Array? { return child, [], 0; }
        var items := child.items;
        removed, count := [], 0;
        var i := 0;
        while i < |items|
          invariant 0 <= i <= |items| == |child.items|
          invariant forall j :: 0 <= j < i ==> items[j] == Clean(schema, child.items[j], inner, depth)
          invariant forall j :: i <= j < |items| ==> items[j] == child.items[j]
          invariant count == |removed| && NoRepeats(removed)
          invariant forall p :: p in removed <==>
            path < p && p[|path|].Index? && p[|path|].index < i
            && Stray(schema, child.items[p[|path|].index], inner, depth, p[|path| + 1..])
        {
          var below := path + [Index(i)];
          var item, more, n := PruneAt(schema, items[i], inner, below, depth);
          forall p ensures p in more <==>
            path < p && p[|path|] == Index(i) && Stray(schema, child.items[i], inner, depth, p[|path| + 1..])
          {
            if path < p && p[|path|] == Index(i) { assert p == below + p[|below|..]; }
          }
          NoRepeatsJoined(removed, more);
          items, removed, count := items[i := item], removed + more, count + n;
          i := i + 1;
        }
        assert items == CleanItems(schema, child.items, inner, depth);
        pruned := Array(items);
        forall p ensures p in removed <==> path <= p && StrayChild(schema, child, kind, depth, p[|path|..]) {
          if path < p { assert p[|path|..][1..] == p[|path| + 1..]; }
        }
    }
  }

  /** Remove, recursively, what the schema does not define; list and count what went. */
  method PruneAt<T(==, !new)>(schema: Schema<T>, value: Json, t: T, path: Path, depth: nat)
    returns (pruned: Json, removed: seq<Path>, count: nat)
    requires NamesOnce(schema)
    ensures pruned == Clean(schema, value, t, depth)
    ensures count == |removed| && ListsStrays(schema, value, t, depth, path, removed)
    decreases depth, 0
  {
    NothingToList(schema, value, t, depth, path);
    hide *;
    if depth == 0 || schema(t).None? || !value.Object? { return value, [], 0; }
    var fields;
    fields, removed, count := PruneFields(schema, value.fields, t, schema(t).value, path, depth);
    pruned := Object(fields);
  }

  /** Prune the object: first the keys its type does not have, then what its properties hold. */
  method PruneFields<T(==, !new)>(schema: Schema<T>, fields: map<string, Json>, t: T, properties: seq<Property<T>>,
                                  path: Path, depth: nat)
    returns (kept: map<string, Json>, removed: seq<Path>, count: nat)
    requires NamesOnce(schema) && depth > 0 && schema(t) == Some(properties)
    ensures Object(kept) == Clean(schema, Object(fields), t, depth)
    ensures count == |removed| && ListsStrays(schema, Object(fields), t, depth, path, removed)
    decreases depth - 1, 3
  {
    hide *;
    SchemaNamesOnce(schema, t, properties);
    var unpruned, unknown, n := RemoveUnknown(properties, fields, path);
    StartsUnpruned(schema, fields, properties, depth - 1, path, unpruned, unknown);
    var m;
    kept, removed, m := PruneProperties(schema, fields, properties, path, depth - 1, unpruned, unknown);
    count := n + m;
    PrunedThroughout(schema, fields, t, properties, depth, path, kept, removed);
  }

  /** Prune what each property of the type holds, in the order the type lists them. */
  method PruneProperties<T(==, !new)>(schema: Schema<T>, ghost fields: map<string, Json>,
                                      properties: seq<Property<T>>, path: Path,
                                      depth: nat, unpruned: map<string, Json>, unknown: seq<Path>)
    returns (kept: map<string, Json>, removed: seq<Path>, count: nat)
    requires NamesOnce(schema) && NoRepeats(unknown)
    requires forall j, k :: 0 <= j < k < |properties| ==> properties[j].name != properties[k].name
    requires PartlyPruned(schema, fields, properties, 0, depth, unpruned)
    requires PartlyListed(schema, fields, properties, 0, depth, path, unknown)
    ensures PartlyPruned(schema, fields, properties, |properties|, depth, kept)
    ensures PartlyListed(schema, fields, properties, |properties|, depth, path, removed)
    ensures |removed| == |unknown| + count && NoRepeats(removed)
    decreases depth, 2
  {
    hide Clean, CleanChild, Stray, StrayChild, PartlyPruned, PartlyListed, ListsChildStrays, NoRepeats, Known,
      Defines, NamesOnce;
    kept, removed, count := unpruned, unknown, 0;
    var i := 0;
    while i < |properties|
      invariant 0 <= i <= |properties|
      invariant PartlyPruned(schema, fields, properties, i, depth, kept)
      invariant |removed| == |unknown| + count && NoRepeats(removed)
      invariant PartlyListed(schema, fields, properties, i, depth, path, removed)
    {
      var name, kind := properties[i].name, properties[i].kind;
      OnePropertyPruned(schema, fields, properties, i, depth, kept);
      if name in kept {
        var below := path + [Key(name)];
        var child, more, n := PruneProperty(schema, kept[name], kind, below, depth);
        ListingsHaveNoRepeats(schema, fields[name], kind, depth, below, more);
        StraysOfOneProperty(schema, fields, properties, i, depth, path, removed, more);
        NoRepeatsJoined(removed, more);
        kept, removed, count := kept[name := child], removed + more, count + n;
      } else {
        NoStraysOfAbsentProperty(schema, fields, properties, i, depth, path, removed);
      }
      i := i + 1;
    }
  }

  lemma {:induction false} SchemaNamesOnce<T(!new)>(schema: Schema<T>, t: T, properties: seq<Property<T>>)
    requires NamesOnce(schema) && schema(t) == Some(properties)
    ensures forall i, j :: 0 <= i < j < |properties| ==> properties[i].name != properties[j].name
  {
  }

  lemma {:induction false} NothingToList<T(!new)>(schema: Schema<T>, v: Json, t: T, depth: nat, path: Path)
    ensures depth == 0 || schema(t).None? || !v.Object? ==>
      ListsStrays(schema, v, t, depth, path, []) && Clean(schema, v, t, depth) == v
  {
  }

  lemma {:induction false} ListingsHaveNoRepeats<T(!new)>(schema: Schema<T>, v: Json, kind: Kind<T>, depth: nat,
                                                          path: Path, listed: seq<Path>)
    requires ListsChildStrays(schema, v, kind, depth, path, listed)
    ensures NoRepeats(listed)
  {
  }

  lemma {:induction false} StartsUnpruned<T(!new)>(schema: Schema<T>, fields: map<string, Json>,
                                                   properties: seq<Property<T>>, depth: nat, path: Path,
                                kept: map<string, Json>, removed: seq<Path>)
    requires UnknownRemoved(properties, fields, path, kept, removed)
    ensures PartlyPruned(schema, fields, properties, 0, depth, kept)
    ensures PartlyListed(schema, fields, properties, 0, depth, path, removed)
  {
  }

  /** What pruning one more property does to the object, if the property is there. */
  lemma {:induction false} OnePropertyPruned<T>(schema: Schema<T>, fields: map<string, Json>,
                                                properties: seq<Property<T>>, i: nat, depth: nat,
                             kept: map<string, Json>)
    requires i < |properties| && PartlyPruned(schema, fields, properties, i, depth, kept)
    requires forall j, k :: 0 <= j < k < |properties| ==> properties[j].name != properties[k].name
    ensures var name := properties[i].name;
      if name in kept then
        && name in fields && kept[name] == fields[name]
        && PartlyPruned(schema, fields, properties, i + 1, depth,
                        kept[name := CleanChild(schema, fields[name], properties[i].kind, depth)])
      else name !in fields && PartlyPruned(schema, fields, properties, i + 1, depth, kept)
  {
    OneMoreProperty(schema, properties, i, properties[i].name);
    hide Defines, KindOf, CleanChild;
  }

  lemma {:induction false} NoStraysOfAbsentProperty<T(!new)>(schema: Schema<T>, fields: map<string, Json>,
                                                             properties: seq<Property<T>>, i: nat, depth: nat,
                                          path: Path, removed: seq<Path>)
    requires i < |properties| && properties[i].name !in fields
    requires forall j, k :: 0 <= j < k < |properties| ==> properties[j].name != properties[k].name
    requires PartlyListed(schema, fields, properties, i, depth, path, removed)
    ensures PartlyListed(schema, fields, properties, i + 1, depth, path, removed)
  {
    OneMoreProperty(schema, properties, i, properties[i].name);
    hide Defines, KindOf, StrayChild;
  }

  /** The known keys are kept as they are, and the others are listed. */
  ghost predicate UnknownRemoved<T>(properties: seq<Property<T>>, fields: map<string, Json>, path: Path,
                                    kept: map<string, Json>, removed: seq<Path>)
  {
    && (forall k <- kept :: k in fields && Known(properties, k) && kept[k] == fields[k])
    && (forall k <- fields :: Known(properties, k) ==> k in kept)
    && forall p :: p in removed <==>
         path < p && |p| == |path| + 1 && p[|path|].Key? && p[|path|].key in fields && !Known(properties, p[|path|].key)
  }

  /** Take out the keys the type does not have. */
  method RemoveUnknown<T(==)>(properties: seq<Property<T>>, fields: map<string, Json>, path: Path)
    returns (kept: map<string, Json>, removed: seq<Path>, count: nat)
    ensures UnknownRemoved(properties, fields, path, kept, removed)
    ensures count == |removed| && NoRepeats(removed)
  {
    var unknown := set k | k in fields && !Known(properties, k);
    kept, removed, count := fields, [], 0;
    ghost var keys: seq<string> := [];
    while unknown != {}
      invariant unknown <= kept.Keys && forall k <- unknown :: !Known(properties, k)
      invariant forall k <- kept :: k in fields && kept[k] == fields[k]
      invariant forall k <- fields :: k in kept <==> Known(properties, k) || k in unknown
      invariant count == |removed| == |keys| && forall i :: 0 <= i < |keys| ==> removed[i] == path + [Key(keys[i])]
      invariant forall i, j :: 0 <= i < j < |keys| ==> keys[i] != keys[j]
      invariant forall k :: k in keys <==> k in fields && k !in kept
      decreases |unknown|
    {
      hide Known;
      var key :| key in unknown;
      removed, keys := removed + [path + [Key(key)]], keys + [key];
      kept, unknown := kept - {key}, unknown - {key};
      count := count + 1;
    }
    KeysListed(properties, fields, path, kept, keys, removed);
  }

  lemma {:induction false} KeysListed<T>(properties: seq<Property<T>>, fields: map<string, Json>, path: Path,
                                         kept: map<string, Json>,
                      keys: seq<string>, removed: seq<Path>)
    requires forall k <- kept :: k in fields && kept[k] == fields[k]
    requires forall k <- fields :: k in kept <==> Known(properties, k)
    requires |removed| == |keys| && forall i :: 0 <= i < |keys| ==> removed[i] == path + [Key(keys[i])]
    requires forall i, j :: 0 <= i < j < |keys| ==> keys[i] != keys[j]
    requires forall k :: k in keys <==> k in fields && k !in kept
    ensures NoRepeats(removed) && UnknownRemoved(properties, fields, path, kept, removed)
  {
    hide Known;
    forall i, j | 0 <= i < j < |removed| ensures removed[i] != removed[j] {
      assert removed[i][|path|] == Key(keys[i]) && removed[j][|path|] == Key(keys[j]);
    }
    forall p: Path ensures p in removed <==>
      path < p && |p| == |path| + 1 && p[|path|].Key? && p[|path|].key in fields && !Known(properties, p[|path|].key)
    {
      if path < p && |p| == |path| + 1 && p[|path|].Key? && p[|path|].key in keys {
        var i :| 0 <= i < |keys| && keys[i] == p[|path|].key;
        assert p == removed[i];
      }
    }
  }

  /** The object with the unknown keys gone and the first `i` properties pruned. */
  ghost predicate PartlyPruned<T>(schema: Schema<T>, fields: map<string, Json>, properties: seq<Property<T>>, i: nat,
                                  depth: nat,
                                  kept: map<string, Json>)
    requires i <= |properties|
  {
    && kept.Keys == (set k | k in fields && Known(properties, k))
    && forall k <- kept ::
         kept[k] == if Defines(properties[..i], k) then CleanChild(schema, fields[k], KindOf(properties, k), depth)
           else fields[k]
  }

  predicate StrayBefore<T(==)>(schema: Schema<T>, fields: map<string, Json>, properties: seq<Property<T>>, i: nat,
                               depth: nat, p: Path)
    requires i <= |properties|
  {
    && p != [] && p[0].Key? && p[0].key in fields
    && if !Known(properties, p[0].key) then |p| == 1
       else
         && Defines(properties[..i], p[0].key)
         && StrayChild(schema, fields[p[0].key], KindOf(properties, p[0].key), depth, p[1..])
  }

  ghost predicate PartlyListed<T(!new)>(schema: Schema<T>, fields: map<string, Json>, properties: seq<Property<T>>,
                                        i: nat, depth: nat,
                                        path: Path, removed: seq<Path>)
    requires i <= |properties|
  {
    forall p :: p in removed <==> path <= p && StrayBefore(schema, fields, properties, i, depth, p[|path|..])
  }

  lemma {:induction false} KindOfIsTheFirst<T>(properties: seq<Property<T>>, i: nat)
    requires i < |properties| && forall j :: 0 <= j < i ==> properties[j].name != properties[i].name
    ensures KindOf(properties, properties[i].name) == properties[i].kind
    decreases i
  {
    if i > 0 {
      var rest := properties[1..];
      assert forall j :: 0 <= j < i - 1 ==> rest[j] == properties[j + 1];
      KindOfIsTheFirst(rest, i - 1);
    }
  }

  lemma {:induction false} OneMoreProperty<T>(schema: Schema<T>, properties: seq<Property<T>>, i: nat, name: string)
    requires i < |properties| && name == properties[i].name
    requires forall j, k :: 0 <= j < k < |properties| ==> properties[j].name != properties[k].name
    ensures !Defines(properties[..i], name) && Known(properties, name) && KindOf(properties, name) == properties[i].kind
    ensures forall k :: Defines(properties[..i + 1], k) <==> Defines(properties[..i], k) || k == name
  {
    KindOfIsTheFirst(properties, i);
    assert properties[..i + 1] == properties[..i] + [properties[i]];
    assert properties[i] in properties;
    assert forall p <- properties[..i] :: p.name != name;
  }

  lemma {:induction false} StraysOfOneProperty<T(!new)>(schema: Schema<T>, fields: map<string, Json>,
                                                        properties: seq<Property<T>>, i: nat, depth: nat,
                                     path: Path, removed: seq<Path>, more: seq<Path>)
    requires i < |properties| && properties[i].name in fields
    requires forall j, k :: 0 <= j < k < |properties| ==> properties[j].name != properties[k].name
    requires PartlyListed(schema, fields, properties, i, depth, path, removed)
    requires ListsChildStrays(schema, fields[properties[i].name], properties[i].kind, depth,
      path + [Key(properties[i].name)], more)
    ensures forall p <- more :: p !in removed
    ensures PartlyListed(schema, fields, properties, i + 1, depth, path, removed + more)
  {
    var name := properties[i].name;
    var below := path + [Key(name)];
    OneMoreProperty(schema, properties, i, name);
    forall p: Path
      ensures p in more <==>
        path <= p && p[|path|..] != [] && p[|path|] == Key(name) &&
          StrayChild(schema, fields[name], properties[i].kind, depth, p[|path|..][1..])
    {
      if path <= p && p[|path|..] != [] && p[|path|] == Key(name) {
        assert p == below + p[|below|..] && p[|path|..][1..] == p[|below|..];
      }
    }
  }

  lemma {:induction false} PrunedThroughout<T(!new)>(schema: Schema<T>, fields: map<string, Json>, t: T,
                                                     properties: seq<Property<T>>, depth: nat, path: Path,
                                  kept: map<string, Json>, removed: seq<Path>)
    requires depth > 0 && schema(t) == Some(properties) && NoRepeats(removed)
    requires PartlyPruned(schema, fields, properties, |properties|, depth - 1, kept)
    requires PartlyListed(schema, fields, properties, |properties|, depth - 1, path, removed)
    ensures Clean(schema, Object(fields), t, depth) == Object(kept)
    ensures ListsStrays(schema, Object(fields), t, depth, path, removed)
  {
    assert properties[..|properties|] == properties;
    forall k | k in kept && !Defines(properties, k) ensures KindOf(properties, k) == Plain {
      UndefinedIsPlain(properties, k);
    }
    assert kept == Clean(schema, Object(fields), t, depth).fields;
    forall p: Path | path <= p
      ensures StrayBefore(schema, fields, properties, |properties|, depth - 1, p[|path|..])
         <==> Stray(schema, Object(fields), t, depth, p[|path|..])
    {
      var q := p[|path|..];
      if q != [] && q[0].Key? && !Defines(properties, q[0].key) { UndefinedIsPlain(properties, q[0].key); }
    }
  }

  lemma {:induction false} UndefinedIsPlain<T>(properties: seq<Property<T>>, key: string)
    requires !Defines(properties, key)
    ensures KindOf(properties, key) == Plain
  {
    if properties != [] {
      assert properties[0] in properties;
      assert forall p <- properties[1..] :: p in properties;
      UndefinedIsPlain(properties[1..], key);
    }
  }

  // -------------------------------------------------------------------------
  // The tables of the two wires
  // -------------------------------------------------------------------------

  /** The object types that hold or are held by others; `Flat` is any of the rest. */
  datatype TypeName =
    | Flat | DdbcActuatorDescription | DdbcAverageDemandRateForecast | DdbcAverageDemandRateForecastElement
    | DdbcOperationMode | DdbcPresentDemandStatus | DdbcSystemDescription | FrbcActuatorDescription
    | FrbcFillLevelTargetProfile | FrbcFillLevelTargetProfileElement | FrbcLeakageBehaviour
    | FrbcLeakageBehaviourElement | FrbcOperationMode | FrbcOperationModeElement | FrbcStorageDescription
    | FrbcSystemDescription | FrbcUsageForecast | FrbcUsageForecastElement | NumberRange | OmbcOperationMode
    | OmbcSystemDescription | PebcAllowedLimitRange | PebcInstruction | PebcPowerConstraints
    | PebcPowerEnvelope | PebcPowerEnvelopeElement | PowerForecast | PowerForecastElement | PowerForecastValue
    | PowerMeasurement | PowerRange | PowerValue | PpbcPowerProfileDefinition | PpbcPowerProfileStatus
    | PpbcPowerSequence | PpbcPowerSequenceContainer | PpbcPowerSequenceContainerStatus
    | PpbcPowerSequenceElement | ResourceManagerDetails | Role | Timer | Transition

  /** The types whose objects a type's objects hold. */
  function Holds(profile: Messages.WireProfile, t: TypeName): set<TypeName> {
    match t
    case DdbcActuatorDescription => {DdbcOperationMode, Timer, Transition}
    case DdbcAverageDemandRateForecast => {DdbcAverageDemandRateForecastElement}
    case DdbcOperationMode => {NumberRange, PowerRange}
    case DdbcPresentDemandStatus => {NumberRange}
    case DdbcSystemDescription =>
      if profile == Messages.V0_0_2Beta then {DdbcActuatorDescription, NumberRange} else {DdbcActuatorDescription}
    case FrbcActuatorDescription => {FrbcOperationMode, Timer, Transition}
    case FrbcFillLevelTargetProfile => {FrbcFillLevelTargetProfileElement}
    case FrbcFillLevelTargetProfileElement => {NumberRange}
    case FrbcLeakageBehaviour => {FrbcLeakageBehaviourElement}
    case FrbcLeakageBehaviourElement => {NumberRange}
    case FrbcOperationMode => {FrbcOperationModeElement}
    case FrbcOperationModeElement => {NumberRange, PowerRange}
    case FrbcStorageDescription => {NumberRange}
    case FrbcSystemDescription => {FrbcActuatorDescription, FrbcStorageDescription}
    case FrbcUsageForecast => {FrbcUsageForecastElement}
    case OmbcOperationMode => {NumberRange, PowerRange}
    case OmbcSystemDescription => {OmbcOperationMode, Timer, Transition}
    case PebcAllowedLimitRange => {NumberRange}
    case PebcInstruction => {PebcPowerEnvelope}
    case PebcPowerConstraints => {PebcAllowedLimitRange}
    case PebcPowerEnvelope => {PebcPowerEnvelopeElement}
    case PowerForecast => {PowerForecastElement}
    case PowerForecastElement => {PowerForecastValue}
    case PowerMeasurement => {PowerValue}
    case PpbcPowerProfileDefinition => {PpbcPowerSequenceContainer}
    case PpbcPowerProfileStatus => {PpbcPowerSequenceContainerStatus}
    case PpbcPowerSequence => {PpbcPowerSequenceElement}
    case PpbcPowerSequenceContainer => {PpbcPowerSequence}
    case PpbcPowerSequenceElement => {PowerForecastValue}
    case ResourceManagerDetails => {Role}
    case _ => {}
  }

  /** How many levels of objects a type's objects can have below them. */
  function Rank(t: TypeName): nat {
    match t
    case FrbcSystemDescription | PpbcPowerProfileDefinition => 4
    case DdbcSystemDescription | FrbcActuatorDescription | PpbcPowerSequenceContainer => 3
    case DdbcActuatorDescription | FrbcFillLevelTargetProfile | FrbcLeakageBehaviour | FrbcOperationMode
       | OmbcSystemDescription | PebcInstruction | PebcPowerConstraints | PowerForecast | PpbcPowerSequence => 2
    case DdbcAverageDemandRateForecast | DdbcOperationMode | DdbcPresentDemandStatus
       | FrbcFillLevelTargetProfileElement | FrbcLeakageBehaviourElement | FrbcOperationModeElement
       | FrbcStorageDescription | FrbcUsageForecast | OmbcOperationMode | PebcAllowedLimitRange
       | PebcPowerEnvelope | PowerForecastElement | PowerMeasurement | PpbcPowerProfileStatus
       | PpbcPowerSequenceElement | ResourceManagerDetails => 1
    case _ => 0
  }

  /** The schema's object-valued properties are the table's. */
  ghost predicate IsOfTheTable(schema: Schema<TypeName>, profile: Messages.WireProfile) {
    forall t: TypeName, k: string :: schema(t).Some? ==>
      match KindOf(schema(t).value, k)
      case Plain => true
      case Child(inner) => inner in Holds(profile, t)
      case Children(inner) => inner in Holds(profile, t)
  }

  /** Objects nest at most five deep: four levels below the topmost, each of a lower rank. */
  lemma {:induction false} TheTableHasFiveLevels(profile: Messages.WireProfile, t: TypeName, inner: TypeName)
    ensures Rank(t) <= 4
    ensures inner in Holds(profile, t) ==> Rank(inner) < Rank(t)
  {
  }

  /** Against either wire's table the walk never gets near its cap: any cap of five or more, the
      one in force included, prunes alike. */
  lemma {:induction false} TheCapNeverShows(schema: Schema<TypeName>, profile: Messages.WireProfile, v: Json,
                                            t: TypeName, cap: nat)
    requires IsOfTheTable(schema, profile) && cap >= 5
    ensures Clean(schema, v, t, MAX_PRUNE_DEPTH) == Clean(schema, v, t, cap)
  {
    forall t: TypeName, k: string | schema(t).Some?
      ensures match KindOf(schema(t).value, k)
              case Plain => true
              case Child(inner) => Rank(inner) < Rank(t)
              case Children(inner) => Rank(inner) < Rank(t)
    {
      match KindOf(schema(t).value, k)
      case Plain =>
      case Child(inner) => TheTableHasFiveLevels(profile, t, inner);
      case Children(inner) => TheTableHasFiveLevels(profile, t, inner);
    }
    TheTableHasFiveLevels(profile, t, t);
    hide Rank, Holds, KindOf;
    DeepEnoughIsDeepEnough(schema, Rank, v, t, MAX_PRUNE_DEPTH, cap);
  }
}
