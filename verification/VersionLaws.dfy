/** The lens laws of the version fields, and what a successful bump means for the next check and the next bump. */
module VersionLaws {
  import opened Wrappers
  import opened JsonPaths
  import opened VersionManifests

  // ---------------------------------------------------------------- one field

  lemma PathIsAssignable(f: Field, j: Json)
    requires PathOf(f, j).Some? && !j.Arr?
    ensures Assignable(j, PathOf(f, j).value) && Get(f, j) == Some(Lookup(j, PathOf(f, j).value))
  {
    assert j.Obj?;
    hide Property, PluginIndex;
    match f
    case Version => LookupOne(j, "version");
    case RootPackageVersion =>
      var packages := Property(j, "packages").value;
      LookupTwo(packages, Key(""), "version");
      LookupStep(j, Key("packages"), [Key(""), Key("version")]);
      assert [Key("packages")] + [Key(""), Key("version")] == PathOf(f, j).value;
    case MetadataVersion => LookupTwo(j, Key("metadata"), "version");
    case PluginVersion =>
      var plugins := Property(j, "plugins").value;
      var i := PluginIndex(plugins.items);
      PluginIsObject(plugins.items);
      LookupTwo(plugins, At(i), "version");
      LookupStep(j, Key("plugins"), [At(i), Key("version")]);
      assert [Key("plugins")] + [At(i), Key("version")] == PathOf(f, j).value;
  }

  lemma PluginIsObject(items: seq<Json>)
    ensures var i := PluginIndex(items); i < |items| ==> items[i].Obj?
  {
  }

  lemma LookupStep(j: Json, step: Step, rest: Path)
    requires Child(j, step).Some? && rest != []
    ensures Lookup(j, [step] + rest) == Lookup(Child(j, step).value, rest)
    ensures Assignable(j, [step] + rest) <==> Assignable(Child(j, step).value, rest)
  {
    assert ([step] + rest)[1..] == rest;
  }

  lemma LookupTwo(j: Json, step: Step, key: string)
    requires Child(j, step).Some?
    ensures Lookup(j, [step, Key(key)]) == Property(Child(j, step).value, key)
    ensures Assignable(j, [step, Key(key)]) <==> Child(j, step).value.Obj?
  {
    hide Child;
    LookupOne(Child(j, step).value, key);
    LookupStep(j, step, [Key(key)]);
    assert [step] + [Key(key)] == [step, Key(key)];
  }

  lemma LookupOne(j: Json, key: string)
    ensures Lookup(j, [Key(key)]) == Property(j, key)
  {
    assert [Key(key)][1..] == [];
  }

  /** Setting a field does not move it: the same setter finds the same place afterwards. */
  lemma SetKeepsPath(f: Field, j: Json, version: string)
    requires PathOf(f, j).Some? && !j.Arr?
    ensures PathOf(f, Set(f, j, version).value) == PathOf(f, j) && !Set(f, j, version).value.Arr?
  {
    var v := Str(version);
    match f
    case Version => ChildOfWithChild(j, Key("version"), v, Key("version"));
    case RootPackageVersion =>
      var packages := Property(j, "packages").value;
      NestedKey(packages, "", [Key("version")], v);
      NestedKey(j, "packages", [Key(""), Key("version")], v);
      ChildOfWithChild(Property(packages, "").value, Key("version"), v, Key("version"));
    case MetadataVersion =>
      NestedKey(j, "metadata", [Key("version")], v);
      ChildOfWithChild(Property(j, "metadata").value, Key("version"), v, Key("version"));
    case PluginVersion => PluginKeepsPath(j, version);
  }

  /** An assignment below a property replaces that property. */
  lemma NestedKey(j: Json, key: string, rest: Path, v: Json)
    requires rest != [] && Property(j, key).Some?
    ensures Put(j, [Key(key)] + rest, v) == WithChild(j, Key(key), Put(Property(j, key).value, rest, v))
    ensures Property(Put(j, [Key(key)] + rest, v), key) == Some(Put(Property(j, key).value, rest, v))
  {
    assert ([Key(key)] + rest)[1..] == rest;
    ChildOfWithChild(j, Key(key), Put(Property(j, key).value, rest, v), Key(key));
  }

  lemma PluginKeepsPath(j: Json, version: string)
    requires PathOf(PluginVersion, j).Some?
    ensures PathOf(PluginVersion, Set(PluginVersion, j, version).value) == PathOf(PluginVersion, j)
    ensures !Set(PluginVersion, j, version).value.Arr?
  {
    var plugins := Property(j, "plugins").value;
    var i := PluginIndex(plugins.items);
    var plugin' := WithChild(plugins.items[i], Key("version"), Str(version));
    NestedKey(j, "plugins", [At(i), Key("version")], Str(version));
    assert [At(i), Key("version")][1..] == [Key("version")];
    ChildOfWithChild(plugins.items[i], Key("version"), Str(version), Key("name"));
    PluginStaysFirst(plugins.items, plugin');
  }

  lemma PluginStaysFirst(items: seq<Json>, plugin: Json)
    requires PluginIndex(items) < |items| && Property(plugin, "name") == Some(Str(PLUGIN_NAME))
    ensures PluginIndex(items[PluginIndex(items) := plugin]) == PluginIndex(items)
  {
    var i := PluginIndex(items);
    var after := items[i := plugin];
    assert forall k :: 0 <= k < i ==> after[k] == items[k];
    assert after[i] == plugin;
  }

  /** The three lens laws and the frame, for one field of a manifest that is an object. */
  lemma FieldLaws(f: Field, j: Json, version: string, other: Path)
    requires Set(f, j, version).Some? && !j.Arr?
    ensures var j' := Set(f, j, version).value;
      && Get(f, j') == Some(Some(Str(version)))
      && (Get(f, j) == Some(Some(Str(version))) <==> j' == j)
      && Set(f, j', version) == Some(j')
      && (Apart(PathOf(f, j).value, other) ==> Lookup(j', other) == Lookup(j, other))
      && PathOf(f, j') == PathOf(f, j) && !j'.Arr?
  {
    var path, v, j' := PathOf(f, j).value, Str(version), Set(f, j, version).value;
    PathIsAssignable(f, j);
    SetKeepsPath(f, j, version);
    PathIsAssignable(f, j');
    hide PathOf, Get;
    PutThenLookup(j, path, v);
    PutWhatIsThere(j', path, v);
    if Lookup(j, path) == Some(v) {
      PutWhatIsThere(j, path, v);
    }
    if Apart(path, other) {
      PutKeepsApart(j, path, v, other);
    }
  }

  // ---------------------------------------------------------------- the two fields of one manifest

  /** Fields of one manifest do not disturb each other. */
  predicate Beside(f: Field, g: Field) {
    (f == Version && g == RootPackageVersion) || (f == MetadataVersion && g == PluginVersion)
  }

  /** A field depends on one property of the top level only. */
  function Root(f: Field): string {
    match f
    case Version => "version"
    case RootPackageVersion => "packages"
    case MetadataVersion => "metadata"
    case PluginVersion => "plugins"
  }

  lemma FieldReadsItsRoot(f: Field, j: Json, k: Json)
    requires (k.Null? <==> j.Null?) && !j.Arr? && !k.Arr? && (k.Obj? <==> j.Obj?)
    requires Property(k, Root(f)) == Property(j, Root(f))
    ensures PathOf(f, k) == PathOf(f, j) && Get(f, k) == Get(f, j)
  {
    hide IndexOfKey, WithProperty, PluginIndex;
  }

  lemma BesideIsUndisturbed(f: Field, g: Field, j: Json, version: string)
    requires Beside(f, g) && !j.Arr?
    ensures Set(f, j, version).Some? ==>
      PathOf(g, Set(f, j, version).value) == PathOf(g, j) && Get(g, Set(f, j, version).value) == Get(g, j)
    ensures Set(g, j, version).Some? ==>
      PathOf(f, Set(g, j, version).value) == PathOf(f, j) && Get(f, Set(g, j, version).value) == Get(f, j)
  {
    if Set(f, j, version).Some? {
      SetLeavesOthers(f, g, j, version);
    }
    if Set(g, j, version).Some? {
      SetLeavesOthers(g, f, j, version);
    }
  }

  lemma SetLeavesOthers(f: Field, g: Field, j: Json, version: string)
    requires Root(f) != Root(g) && !j.Arr? && Set(f, j, version).Some?
    ensures PathOf(g, Set(f, j, version).value) == PathOf(g, j) && Get(g, Set(f, j, version).value) == Get(g, j)
  {
    PathStartsAtRoot(f, j);
    TopLevel(j, PathOf(f, j).value, Str(version));
    hide PathOf, Get, Property, Put;
    FieldReadsItsRoot(g, j, Set(f, j, version).value);
  }

  lemma PathStartsAtRoot(f: Field, j: Json)
    requires PathOf(f, j).Some?
    ensures PathOf(f, j).value != [] && PathOf(f, j).value[0] == Key(Root(f))
  {
  }

  /** An assignment touches one property of the top level only. */
  lemma TopLevel(j: Json, path: Path, v: Json)
    requires path != [] && path[0].Key? && !j.Arr?
    ensures var j' := Put(j, path, v);
      && (j'.Null? <==> j.Null?) && !j'.Arr? && (j'.Obj? <==> j.Obj?)
      && forall key :: key != path[0].key ==> Property(j', key) == Property(j, key)
  {
    var j' := Put(j, path, v);
    if |path| == 1 || Child(j, path[0]).Some? {
      var inner := if |path| == 1 then v else Put(Child(j, path[0]).value, path[1..], v);
      forall key | key != path[0].key
        ensures Property(j', key) == Property(j, key)
      {
        ChildOfWithChild(j, path[0], inner, Key(key));
      }
    }
  }

  /** Everything outside the fields of a target. */
  predicate Outside(t: Target, j: Json, other: Path) {
    forall f :: f in t.fields && PathOf(f, j).Some? ==> Apart(PathOf(f, j).value, other)
  }

  function Stale(file: string, f: Field, j: Json, version: string): seq<Mismatch> {
    if Get(f, j) == Some(Some(Str(version))) then [] else [Mismatch(file, f)]
  }

  lemma CheckOfOne(file: string, f: Field, j: Json, version: string)
    requires Get(f, j).Some?
    ensures CheckFields(file, j, [f], version) == Some(Stale(file, f, j, version))
  {
    hide Get;
    assert [f][1..] == [];
    var here := Stale(file, f, j, version);
    assert here + [] == here;
  }

  lemma CheckOfTwo(file: string, f: Field, g: Field, j: Json, version: string)
    requires Get(f, j).Some? && Get(g, j).Some?
    ensures CheckFields(file, j, [f, g], version) == Some(Stale(file, f, j, version) + Stale(file, g, j, version))
  {
    hide Get;
    assert [f, g][1..] == [g];
    CheckOfOne(file, g, j, version);
  }

  lemma SetAllOfOne(f: Field, j: Json, version: string)
    ensures SetAll([f], j, version) == Set(f, j, version)
  {
    hide Set;
    assert [f][1..] == [];
    if Set(f, j, version).Some? {
      assert SetAll([], Set(f, j, version).value, version) == Some(Set(f, j, version).value);
    }
  }

  lemma SetAllOfTwo(f: Field, g: Field, j: Json, version: string)
    ensures SetAll([f, g], j, version) ==
      if Set(f, j, version).Some? then Set(g, Set(f, j, version).value, version) else None
  {
    hide Set;
    assert [f, g][1..] == [g];
    if Set(f, j, version).Some? {
      SetAllOfOne(g, Set(f, j, version).value, version);
    }
  }

  lemma OneFieldLaws(file: string, f: Field, j: Json, version: string)
    requires Set(f, j, version).Some? && !j.Arr?
    ensures var j' := Set(f, j, version).value;
      && SetAll([f], j, version) == Some(j') && SetAll([f], j', version) == Some(j')
      && CheckFields(file, j', [f], version) == Some([])
      && CheckFields(file, j, [f], version).Some?
      && (j' != j <==> CheckFields(file, j, [f], version).value != [])
  {
    var j' := Set(f, j, version).value;
    FieldLaws(f, j, version, []);
    PathIsAssignable(f, j);
    SetAllOfOne(f, j, version);
    SetAllOfOne(f, j', version);
    CheckOfOne(file, f, j, version);
    CheckOfOne(file, f, j', version);
  }

  /** Both fields, before the bump and after it. */
  lemma TwoFieldsSet(f: Field, g: Field, j: Json, version: string, other: Path)
    requires Beside(f, g) && !j.Arr? && Set(f, j, version).Some? && Set(g, Set(f, j, version).value, version).Some?
    ensures var j2 := Set(g, Set(f, j, version).value, version).value;
      && Get(f, j).Some? && Get(g, j).Some?
      && Get(f, j2) == Some(Some(Str(version))) == Get(g, j2)
      && Set(f, j2, version) == Some(j2) == Set(g, j2, version)
      && (Get(f, j) == Some(Some(Str(version))) == Get(g, j) <==> j2 == j)
      && (Outside(Target("", [f, g]), j, other) ==> Lookup(j2, other) == Lookup(j, other))
  {
    var j1 := Set(f, j, version).value;
    SetNeedsPath(f, j, version);
    SetNeedsPath(g, j1, version);
    hide Get, PathOf, Set, Lookup, Apart;
    FieldLaws(f, j, version, other);
    FieldLaws(g, j1, version, other);
    var j2 := Set(g, j1, version).value;
    PathIsAssignable(f, j);
    PathIsAssignable(g, j1);
    BesideIsUndisturbed(f, g, j, version);
    BesideIsUndisturbed(f, g, j1, version);
    SetNeedsPath(f, j2, version);
    FieldLaws(f, j2, version, other);
    assert f in [f, g] && g in [f, g];
  }

  lemma TwoFieldLaws(file: string, f: Field, g: Field, j: Json, version: string, other: Path)
    requires Beside(f, g) && !j.Arr? && SetAll([f, g], j, version).Some?
    ensures var j' := SetAll([f, g], j, version).value;
      && SetAll([f, g], j', version) == Some(j')
      && CheckFields(file, j', [f, g], version) == Some([])
      && CheckFields(file, j, [f, g], version).Some?
      && (j' != j <==> CheckFields(file, j, [f, g], version).value != [])
      && (Outside(Target(file, [f, g]), j, other) ==> Lookup(j', other) == Lookup(j, other))
  {
    hide Get, PathOf, Set, SetAll, CheckFields, Lookup, Apart;
    SetAllOfTwo(f, g, j, version);
    TwoFieldsSet(f, g, j, version, other);
    var j2 := SetAll([f, g], j, version).value;
    SetAllOfTwo(f, g, j2, version);
    CheckOfTwo(file, f, g, j, version);
    CheckOfTwo(file, f, g, j2, version);
    var none: seq<Mismatch> := [];
    assert none + none == none;
  }

  lemma SetNeedsPath(f: Field, j: Json, version: string)
    ensures Set(f, j, version).Some? <==> PathOf(f, j).Some?
  {
  }

  /** An array has none of the places that the second field of a manifest needs. */
  lemma ArrayFailsSecondField(t: Target, j: Json, version: string)
    requires t in TARGETS && |t.fields| == 2 && j.Arr?
    ensures SetAll(t.fields, j, version).None?
  {
    SetAllOfTwo(t.fields[0], t.fields[1], j, version);
    assert t.fields == [t.fields[0], t.fields[1]];
  }

  /**
    * One manifest. When it is an object: after the bump it checks clean, a second bump leaves it alone, the check
    * named it beforehand if and only if the bump changed it, and everything outside the version fields is as before.
    * When it is an array the bump leaves it as it is, and out of date.
    */
  lemma TargetLaws(t: Target, j: Json, version: string, other: Path)
    requires t in TARGETS && SetAll(t.fields, j, version).Some?
    ensures var j' := SetAll(t.fields, j, version).value;
      && SetAll(t.fields, j', version) == Some(j')
      && CheckFields(t.file, j, t.fields, version).Some?
      && CheckFields(t.file, j', t.fields, version).Some?
      && (CheckFields(t.file, j', t.fields, version).value == [] <==> !j.Arr?)
      && (!j.Arr? ==> (j' != j <==> CheckFields(t.file, j, t.fields, version).value != []))
      && (j.Arr? ==> j' == j)
      && (Outside(t, j, other) ==> Lookup(j', other) == Lookup(j, other))
  {
    var f := t.fields[0];
    if |t.fields| == 1 {
      assert t.fields == [Version] && [Version][1..] == [];
      if !j.Arr? {
        OneFieldLaws(t.file, f, j, version);
        FieldLaws(f, j, version, other);
      }
    } else if j.Arr? {
      ArrayFailsSecondField(t, j, version);
    } else {
      var g := t.fields[1];
      assert t.fields == [f, g] && Beside(f, g);
      TwoFieldLaws(t.file, f, g, j, version, other);
      assert Target(t.file, [f, g]) == t;
    }
  }

  // ---------------------------------------------------------------- all manifests

  predicate Table(targets: seq<Target>) {
    && (forall t :: t in targets ==> t in TARGETS)
    && (forall i, j :: 0 <= i < j < |targets| ==> targets[i].file != targets[j].file)
  }

  lemma TargetsAreTable()
    ensures Table(TARGETS)
  {
  }

  /** A bump that succeeds has set every target of the table, each in its own file, and touched no other file. */
  lemma {:induction false} BumpSetsEach(files: map<string, Json>, targets: seq<Target>, version: string)
    requires Table(targets) && Bump(files, targets, version).1.Some?
    ensures var (after, changed) := Bump(files, targets, version);
      && after.Keys == files.Keys
      && (forall t :: t in targets ==>
          t.file in files && SetAll(t.fields, files[t.file], version) == Some(after[t.file]))
      && (forall file :: file in files && (forall t :: t in targets ==> t.file != file) ==> after[file] == files[file])
      && (forall file :: file in changed.value <==>
          exists t :: t in targets && t.file == file && after[file] != files[file])
    decreases |targets|
  {
    hide SetAll;
    if targets != [] {
      var t := targets[0];
      TableRest(targets);
      assert targets == [t] + targets[1..];
      var j := SetAll(t.fields, files[t.file], version).value;
      var next := if j != files[t.file] then files[t.file := j] else files;
      BumpSetsEach(next, targets[1..], version);
      hide Bump;
      var after := Bump(next, targets[1..], version).0;
      assert after[t.file] == j;
    }
  }

  lemma TableRest(targets: seq<Target>)
    requires Table(targets) && targets != []
    ensures Table(targets[1..]) && forall u :: u in targets[1..] ==> u.file != targets[0].file
  {
  }

  predicate Names(ms: seq<Mismatch>, file: string) {
    exists m :: m in ms && m.file == file
  }

  lemma {:induction false} CheckIsEach(files: map<string, Json>, targets: seq<Target>, version: string)
    requires forall t :: t in targets ==> t.file in files && CheckFields(t.file, files[t.file], t.fields, version).Some?
    ensures Check(files, targets, version).Some?
    ensures Check(files, targets, version).value == [] <==>
      forall t :: t in targets ==> CheckFields(t.file, files[t.file], t.fields, version).value == []
    ensures forall file :: Names(Check(files, targets, version).value, file) <==>
      exists t :: t in targets && t.file == file && CheckFields(t.file, files[t.file], t.fields, version).value != []
    decreases |targets|
  {
    if targets != [] {
      var t := targets[0];
      assert targets == [t] + targets[1..];
      CheckIsEach(files, targets[1..], version);
      MismatchesName(t.file, files[t.file], t.fields, version);
      hide CheckFields;
      var first := CheckFields(t.file, files[t.file], t.fields, version).value;
      var rest := Check(files, targets[1..], version).value;
      assert Check(files, targets, version) == Some(first + rest);
      hide Check;
      forall file: string
        ensures Names(first + rest, file) <==> (first != [] && file == t.file) || Names(rest, file)
      {
        NamesConcat(first, rest, t.file, file);
      }
      hide Names;
    }
  }

  lemma NamesConcat(first: seq<Mismatch>, rest: seq<Mismatch>, owner: string, file: string)
    requires forall m :: m in first ==> m.file == owner
    ensures Names(first + rest, file) <==> (first != [] && file == owner) || Names(rest, file)
  {
    if first != [] {
      assert first[0] in first + rest;
    }
  }

  lemma {:induction false} MismatchesName(file: string, j: Json, fields: seq<Field>, version: string)
    requires CheckFields(file, j, fields, version).Some?
    ensures forall m :: m in CheckFields(file, j, fields, version).value ==> m.file == file
    decreases |fields|
  {
    if fields != [] {
      MismatchesName(file, j, fields[1..], version);
    }
  }

  lemma {:induction false} BumpOfBumped(files: map<string, Json>, targets: seq<Target>, version: string)
    requires forall t :: t in targets ==>
      t.file in files && SetAll(t.fields, files[t.file], version) == Some(files[t.file])
    ensures Bump(files, targets, version) == (files, Some([]))
    decreases |targets|
  {
    if targets != [] {
      assert targets == [targets[0]] + targets[1..];
      BumpOfBumped(files, targets[1..], version);
      var none: seq<string> := [];
      assert none + none == none;
    }
  }

  /** No manifest of the table is an array. */
  predicate AllObjects(files: map<string, Json>) {
    forall t :: t in TARGETS && t.file in files ==> !files[t.file].Arr?
  }

  /**
    * After a bump that succeeds: a check for that version finds nothing, and the changed files are the ones the check
    * named beforehand, if and only if no manifest is an array. A second bump changes nothing in any case, no file
    * outside the table is touched, and outside the version fields every manifest is as before.
    */
  lemma BumpMeansInSync(files: map<string, Json>, version: string, t: Target, other: Path)
    requires Bump(files, TARGETS, version).1.Some? && t in TARGETS
    ensures var (after, changed) := Bump(files, TARGETS, version);
      && Bump(after, TARGETS, version) == (after, Some([]))
      && (Check(after, TARGETS, version) == Some([]) <==> AllObjects(files))
      && Check(files, TARGETS, version).Some?
      && (AllObjects(files) <==> forall file :: file in changed.value <==>
          Names(Check(files, TARGETS, version).value, file))
      && after.Keys == files.Keys
      && (forall file :: file in files && (forall u :: u in TARGETS ==> u.file != file) ==> after[file] == files[file])
      && t.file in files
      && (Outside(t, files[t.file], other) ==> Lookup(after[t.file], other) == Lookup(files[t.file], other))
  {
    var (after, changed) := Bump(files, TARGETS, version);
    TargetsAreTable();
    BumpSetsEach(files, TARGETS, version);
    forall u | u in TARGETS
      ensures Settled(u, files[u.file], after[u.file], version)
    {
      TargetLaws(u, files[u.file], version, []);
    }
    TargetLaws(t, files[t.file], version, other);
    hide SetAll, CheckFields, Check, Bump;
    BumpOfBumped(after, TARGETS, version);
    CheckIsEach(after, TARGETS, version);
    CheckIsEach(files, TARGETS, version);
    if !AllObjects(files) {
      var u :| u in TARGETS && u.file in files && files[u.file].Arr?;
      assert u.file !in changed.value by {
        TableOnce(u);
      }
      assert Names(Check(files, TARGETS, version).value, u.file);
    }
  }

  lemma CleanFields(file: string, fields: seq<Field>, j: Json, version: string)
    requires CheckFields(file, j, fields, version) == Some([])
    ensures forall f :: f in fields ==> Get(f, j) == Some(Some(Str(version)))
  {
    hide Get;
    if fields != [] {
      CleanFields(file, fields[1..], j, version);
      assert fields == [fields[0]] + fields[1..];
    }
  }

  /** What the getters read, as places in the file. */
  lemma FieldIsPlace(f: Field, j: Json, version: string)
    requires Get(f, j) == Some(Some(Str(version)))
    ensures match f
      case Version => Lookup(j, [Key("version")]) == Some(Str(version))
      case RootPackageVersion => Lookup(j, [Key("packages"), Key(""), Key("version")]) == Some(Str(version))
      case MetadataVersion => Lookup(j, [Key("metadata"), Key("version")]) == Some(Str(version))
      case PluginVersion => PluginHas(j, version)
  {
    hide IndexOfKey, PluginHas;
    match f
    case Version => LookupOne(j, "version");
    case RootPackageVersion =>
      LookupStep(j, Key("packages"), [Key(""), Key("version")]);
      LookupTwo(Property(j, "packages").value, Key(""), "version");
    case MetadataVersion => LookupTwo(j, Key("metadata"), "version");
    case PluginVersion =>
      var items := Property(j, "plugins").value.items;
      PluginIsPlace(j, items, version);
  }

  /** The first plugin of the list that is named opnd-codex has this version. */
  ghost predicate PluginHas(j: Json, version: string) {
    exists items: seq<Json>, i: int ::
      && Lookup(j, [Key("plugins")]) == Some(Arr(items)) && 0 <= i < |items|
      && Lookup(items[i], [Key("name")]) == Some(Str("opnd-codex"))
      && (forall k :: 0 <= k < i ==> Lookup(items[k], [Key("name")]) != Some(Str("opnd-codex")))
      && Lookup(items[i], [Key("version")]) == Some(Str(version))
  }

  lemma PluginIsPlace(j: Json, items: seq<Json>, version: string)
    requires Property(j, "plugins") == Some(Arr(items)) && PluginIndex(items) < |items|
    requires Property(items[PluginIndex(items)], "version") == Some(Str(version))
    ensures PluginHas(j, version)
  {
    hide Property, PluginIndex;
    var i := PluginIndex(items);
    LookupOne(j, "plugins");
    LookupOne(items[i], "version");
    forall k | 0 <= k < |items|
      ensures Lookup(items[k], [Key("name")]) == Property(items[k], "name")
    {
      LookupOne(items[k], "name");
    }
  }

  /**
    * After a bump that succeeds the new version stands in all six places of the four files; a manifest of one field
    * that is an array is the exception.
    */
  lemma BumpSetsAllSixPlaces(files: map<string, Json>, version: string)
    requires Bump(files, TARGETS, version).1.Some?
    ensures var after := Bump(files, TARGETS, version).0;
      var plugin := "plugins/opnd-codex/.claude-plugin/plugin.json";
      && {"package.json", "package-lock.json", plugin, ".claude-plugin/marketplace.json"} <= files.Keys * after.Keys
      && (!files["package.json"].Arr? ==> Lookup(after["package.json"], [Key("version")]) == Some(Str(version)))
      && Lookup(after["package-lock.json"], [Key("version")]) == Some(Str(version))
      && Lookup(after["package-lock.json"], [Key("packages"), Key(""), Key("version")]) == Some(Str(version))
      && (!files[plugin].Arr? ==> Lookup(after[plugin], [Key("version")]) == Some(Str(version)))
      && Lookup(after[".claude-plugin/marketplace.json"], [Key("metadata"), Key("version")]) == Some(Str(version))
      && PluginHas(after[".claude-plugin/marketplace.json"], version)
  {
    hide *;
    TargetsAre();
    AfterBumpReads(files, version, TARGETS[0], Version);
    AfterBumpReads(files, version, TARGETS[1], Version);
    AfterBumpReads(files, version, TARGETS[1], RootPackageVersion);
    AfterBumpReads(files, version, TARGETS[2], Version);
    AfterBumpReads(files, version, TARGETS[3], MetadataVersion);
    AfterBumpReads(files, version, TARGETS[3], PluginVersion);
  }

  lemma TargetsAre()
    ensures |TARGETS| == 4
    ensures TARGETS[0] == Target("package.json", [Version])
    ensures TARGETS[1] == Target("package-lock.json", [Version, RootPackageVersion])
    ensures TARGETS[2] == Target("plugins/opnd-codex/.claude-plugin/plugin.json", [Version])
    ensures TARGETS[3] == Target(".claude-plugin/marketplace.json", [MetadataVersion, PluginVersion])
  {
  }

  /** One field of one manifest after a bump that succeeds; only a manifest of one field can be an array. */
  lemma AfterBumpReads(files: map<string, Json>, version: string, t: Target, f: Field)
    requires Bump(files, TARGETS, version).1.Some? && t in TARGETS && f in t.fields
    ensures var after := Bump(files, TARGETS, version).0;
      && t.file in files && t.file in after && (files[t.file].Arr? ==> |t.fields| == 1)
      && (!files[t.file].Arr? ==>
            match f
            case Version => Lookup(after[t.file], [Key("version")]) == Some(Str(version))
            case RootPackageVersion =>
              Lookup(after[t.file], [Key("packages"), Key(""), Key("version")]) == Some(Str(version))
            case MetadataVersion => Lookup(after[t.file], [Key("metadata"), Key("version")]) == Some(Str(version))
            case PluginVersion => PluginHas(after[t.file], version))
  {
    hide *;
    TargetsAreTable();
    BumpSetsEach(files, TARGETS, version);
    var after := Bump(files, TARGETS, version).0;
    TargetLaws(t, files[t.file], version, []);
    if files[t.file].Arr? {
      OnlyOneFieldOfArray(t, files[t.file], version);
    } else {
      CleanFields(t.file, t.fields, after[t.file], version);
      FieldIsPlace(f, after[t.file], version);
    }
  }

  lemma OnlyOneFieldOfArray(t: Target, j: Json, version: string)
    requires t in TARGETS && j.Arr? && SetAll(t.fields, j, version).Some?
    ensures |t.fields| == 1
  {
    if |t.fields| == 2 {
      ArrayFailsSecondField(t, j, version);
    }
  }

  lemma TableOnce(u: Target)
    requires u in TARGETS
    ensures forall v :: v in TARGETS && v.file == u.file ==> v == u
  {
  }

  /** What `TargetLaws` says of one manifest before and after. */
  predicate Settled(t: Target, j: Json, j': Json, version: string) {
    && SetAll(t.fields, j', version) == Some(j')
    && CheckFields(t.file, j, t.fields, version).Some?
    && CheckFields(t.file, j', t.fields, version).Some?
    && (CheckFields(t.file, j', t.fields, version).value == [] <==> !j.Arr?)
    && (!j.Arr? ==> (j' != j <==> CheckFields(t.file, j, t.fields, version).value != []))
    && (j.Arr? ==> j' == j)
  }

  /** A manifest that is an array takes the version without an error, and is still reported afterwards. */
  lemma ArrayManifestStaysOutOfDate(items: seq<Json>, version: string)
    ensures SetAll([Version], Arr(items), version) == Some(Arr(items))
    ensures CheckFields("package.json", Arr(items), [Version], version) == Some([Mismatch("package.json", Version)])
  {
    SetAllOfOne(Version, Arr(items), version);
    CheckOfOne("package.json", Version, Arr(items), version);
  }

  predicate Throws(files: map<string, Json>, t: Target, version: string) {
    t.file !in files || SetAll(t.fields, files[t.file], version).None?
  }

  /** The `i`th manifest is reached, because nothing up to it throws. */
  predicate Reached(files: map<string, Json>, targets: seq<Target>, version: string, i: nat) {
    i < |targets| && forall k :: 0 <= k <= i ==> !Throws(files, targets[k], version)
  }

  ghost predicate ReachedAreSet(files: map<string, Json>, targets: seq<Target>, version: string) {
    forall i: nat :: Reached(files, targets, version, i) ==>
      SetAll(targets[i].fields, files[targets[i].file], version).value == files[targets[i].file]
  }

  /** Whether it succeeds or throws, a bump touches no file that is not a target's. */
  lemma {:induction false} BumpTouchesTargetsOnly(files: map<string, Json>, targets: seq<Target>, version: string,
                                                  file: string)
    requires file in files && forall t :: t in targets ==> t.file != file
    ensures var after := Bump(files, targets, version).0; file in after && after[file] == files[file]
    decreases |targets|
  {
    hide SetAll;
    if targets != [] {
      var t := targets[0];
      assert targets == [t] + targets[1..];
      if !Throws(files, t, version) {
        var j := SetAll(t.fields, files[t.file], version).value;
        BumpTouchesTargetsOnly(if j != files[t.file] then files[t.file := j] else files, targets[1..], version, file);
      }
    }
  }

  lemma ReachedFirst(files: map<string, Json>, targets: seq<Target>, version: string)
    requires targets != [] && Throws(files, targets[0], version)
    ensures ReachedAreSet(files, targets, version)
  {
  }

  lemma ReachedRest(files: map<string, Json>, targets: seq<Target>, version: string)
    requires targets != [] && !Throws(files, targets[0], version)
    requires SetAll(targets[0].fields, files[targets[0].file], version).value == files[targets[0].file]
    ensures ReachedAreSet(files, targets, version) <==> ReachedAreSet(files, targets[1..], version)
  {
    hide SetAll;
    forall i: nat
      ensures Reached(files, targets[1..], version, i) <==> Reached(files, targets, version, i + 1)
    {
      assert forall k :: 1 <= k <= i + 1 && k < |targets| ==> targets[k] == targets[1..][k - 1];
      assert forall k :: 0 <= k <= i && k < |targets| - 1 ==> targets[1..][k] == targets[k + 1];
    }
    assert forall i: nat :: i < |targets[1..]| ==> targets[1..][i] == targets[i + 1];
    forall i: nat | 0 < i && Reached(files, targets, version, i)
      ensures Reached(files, targets[1..], version, i - 1) && targets[i] == targets[1..][i - 1]
    {
    }
  }

  /**
    * A bump leaves every file as it was, also when it throws, if and only if every manifest before the first that
    * throws already has the version.
    */
  lemma {:induction false} BumpChangesNothingIff(files: map<string, Json>, targets: seq<Target>, version: string)
    requires Table(targets)
    ensures Bump(files, targets, version).0 == files <==> ReachedAreSet(files, targets, version)
    decreases |targets|
  {
    hide SetAll, ReachedAreSet;
    if targets == [] {
      NothingReached(files, version);
    } else if Throws(files, targets[0], version) {
      ReachedFirst(files, targets, version);
    } else {
      var t := targets[0];
      TableRest(targets);
      var j := SetAll(t.fields, files[t.file], version).value;
      if j == files[t.file] {
        BumpChangesNothingIff(files, targets[1..], version);
        ReachedRest(files, targets, version);
      } else {
        BumpTouchesTargetsOnly(files[t.file := j], targets[1..], version, t.file);
        FirstIsReached(files, targets, version);
      }
    }
  }

  lemma NothingReached(files: map<string, Json>, version: string)
    ensures ReachedAreSet(files, [], version)
  {
  }

  lemma FirstIsReached(files: map<string, Json>, targets: seq<Target>, version: string)
    requires targets != [] && !Throws(files, targets[0], version)
    requires SetAll(targets[0].fields, files[targets[0].file], version).value != files[targets[0].file]
    ensures !ReachedAreSet(files, targets, version)
  {
    hide SetAll;
    assert Reached(files, targets, version, 0);
  }

  /**
    * A bump has nothing to do on a manifest that is an array, where a version does not stay, or that the check passes.
    */
  predicate NothingToBump(files: map<string, Json>, t: Target, version: string)
    requires t.file in files
  {
    files[t.file].Arr? || CheckFields(t.file, files[t.file], t.fields, version) == Some([])
  }

  /**
    * For the program's table: a bump that throws has changed nothing if and only if every manifest before the throw
    * was an array or already up to date.
    */
  lemma FailedBumpChangesNothingIff(files: map<string, Json>, version: string)
    requires Bump(files, TARGETS, version).1.None?
    ensures Bump(files, TARGETS, version).0 == files <==>
      forall i: nat :: Reached(files, TARGETS, version, i) ==> NothingToBump(files, TARGETS[i], version)
  {
    TargetsAreTable();
    BumpChangesNothingIff(files, TARGETS, version);
    forall i: nat | Reached(files, TARGETS, version, i)
      ensures var t := TARGETS[i];
        SetAll(t.fields, files[t.file], version).value == files[t.file] <==> NothingToBump(files, t, version)
    {
      var t := TARGETS[i];
      assert !Throws(files, t, version);
      TargetLaws(t, files[t.file], version, []);
    }
  }

  /** A bump that fails on a later manifest does not take back what it wrote before. */
  lemma FailedBumpKeepsEarlierWrites(version: string)
    ensures var files := map["package.json" := Obj([])];
      Bump(files, TARGETS, version) == (map["package.json" := Obj([Member("version", Str(version))])], None)
  {
    var files := map["package.json" := Obj([])];
    SetAllOfOne(Version, Obj([]), version);
    var none: seq<Member> := [];
    assert none + [Member("version", Str(version))] == [Member("version", Str(version))];
    var j := Obj([Member("version", Str(version))]);
    assert WithProperty(Obj(none), "version", Str(version)) == j;
    assert Put(Obj(none), [Key("version")], Str(version)) == j;
    assert SetAll(TARGETS[0].fields, files["package.json"], version) == Some(j);
    assert TARGETS[1..][0].file == "package-lock.json" && "package-lock.json" != "package.json";
    assert Bump(files["package.json" := j], TARGETS[1..], version) == (files["package.json" := j], None);
    assert files["package.json" := j] == map["package.json" := j];
  }
}
