/** The version bumper: one version in six fields of four manifests, checked and set by the same table of targets. */
module VersionManifests {
  import opened Counting
  import opened Wrappers
  import opened JsonPaths

  datatype Field = Version | RootPackageVersion | MetadataVersion | PluginVersion

  datatype Target = Target(file: string, fields: seq<Field>)

  const PLUGIN_NAME := "opnd-codex"

  const TARGETS := [
    Target("package.json", [Version]),
    Target("package-lock.json", [Version, RootPackageVersion]),
    Target("plugins/opnd-codex/.claude-plugin/plugin.json", [Version]),
    Target(".claude-plugin/marketplace.json", [MetadataVersion, PluginVersion])]

  function PluginIndex(items: seq<Json>): (i: nat)
    ensures i <= |items|
    ensures i < |items| ==> Property(items[i], "name") == Some(Str(PLUGIN_NAME))
    ensures forall k :: 0 <= k < i ==> Property(items[k], "name") != Some(Str(PLUGIN_NAME))
  {
    FirstIndex(items, (item: Json) => Property(item, "name") == Some(Str(PLUGIN_NAME)))
  }

  /** Where a setter assigns; none when it throws because what leads there is no object. */
  function PathOf(f: Field, j: Json): Option<Path> {
    match f
    case Version => if j.Obj? || j.Arr? then Some([Key("version")]) else None
    case RootPackageVersion =>
      (match Property(j, "packages")
       case Some(packages) =>
         if Property(packages, "").Some? && Property(packages, "").value.Obj?
         then Some([Key("packages"), Key(""), Key("version")])
         else None
       case None => None)
    case MetadataVersion =>
      (match Property(j, "metadata")
       case Some(metadata) => if metadata.Obj? then Some([Key("metadata"), Key("version")]) else None
       case None => None)
    case PluginVersion =>
      (match Property(j, "plugins")
       case Some(plugins) =>
         if plugins.Arr? && PluginIndex(plugins.items) < |plugins.items|
         then Some([Key("plugins"), At(PluginIndex(plugins.items)), Key("version")]) else None
       case None => None)
  }

  /** A setter; none when it throws. */
  function Set(f: Field, j: Json, version: string): Option<Json> {
    match PathOf(f, j)
    case Some(path) => Some(Put(j, path, Str(version)))
    case None => None
  }

  /** A getter: none when it throws, otherwise the value, if there is one. */
  function Get(f: Field, j: Json): Option<Option<Json>> {
    if j.Null? then None
    else
      match f
      case Version => Some(Property(j, "version"))
      case RootPackageVersion =>
        var packages := Property(j, "packages");
        var root := if packages.Some? then Property(packages.value, "") else None;
        Some(if root.Some? then Property(root.value, "version") else None)
      case MetadataVersion =>
        var metadata := Property(j, "metadata");
        Some(if metadata.Some? then Property(metadata.value, "version") else None)
      case PluginVersion =>
        if PathOf(f, j).None? then None
        else
          var items := Property(j, "plugins").value.items;
          Some(Property(items[PluginIndex(items)], "version"))
  }

  datatype Mismatch = Mismatch(file: string, field: Field)

  function CheckFields(file: string, j: Json, fields: seq<Field>, expected: string): Option<seq<Mismatch>> {
    if fields == [] then Some([])
    else
      match Get(fields[0], j)
      case None => None
      case Some(actual) =>
        match CheckFields(file, j, fields[1..], expected)
        case None => None
        case Some(rest) => Some((if actual != Some(Str(expected)) then [Mismatch(file, fields[0])] else []) + rest)
  }

  /** `checkVersions`: what does not have the expected version; none when a file cannot be read or a getter throws. */
  function Check(files: map<string, Json>, targets: seq<Target>, expected: string): Option<seq<Mismatch>> {
    if targets == [] then Some([])
    else if targets[0].file !in files then None
    else
      match CheckFields(targets[0].file, files[targets[0].file], targets[0].fields, expected)
      case None => None
      case Some(first) =>
        match Check(files, targets[1..], expected)
        case None => None
        case Some(rest) => Some(first + rest)
  }

  function SetAll(fields: seq<Field>, j: Json, version: string): Option<Json> {
    if fields == [] then Some(j)
    else
      match Set(fields[0], j, version)
      case None => None
      case Some(j1) => SetAll(fields[1..], j1, version)
  }

  /** `bumpVersion`: the files afterwards, and the changed ones unless it threw; files written before stay written. */
  function Bump(files: map<string, Json>, targets: seq<Target>, version: string)
    : (map<string, Json>, Option<seq<string>>)
    decreases |targets|
  {
    if targets == [] then (files, Some([]))
    else
      var t := targets[0];
      if t.file !in files || SetAll(t.fields, files[t.file], version).None? then (files, None)
      else
        var j := SetAll(t.fields, files[t.file], version).value;
        var changed := j != files[t.file];
        var (after, rest) := Bump(if changed then files[t.file := j] else files, targets[1..], version);
        (after, if rest.Some? then Some((if changed then [t.file] else []) + rest.value) else None)
  }

  // ---------------------------------------------------------------- the script

  class Repository {
    var files: map<string, Json>

    constructor (files: map<string, Json>)
      ensures this.files == files
    {
      this.files := files;
    }

    method CheckVersions(expected: string) returns (mismatches: Option<seq<Mismatch>>)
      ensures mismatches == Check(files, TARGETS, expected)
    {
      var found: seq<Mismatch> := [];
      PrependNothing([], Check(files, TARGETS, expected));
      assert TARGETS[0..] == TARGETS;
      for i := 0 to |TARGETS|
        invariant Prepend(found, Check(files, TARGETS[i..], expected)) == Check(files, TARGETS, expected)
      {
        var t := TARGETS[i];
        if t.file !in files {
          return None;
        }
        var ofTarget := CheckTarget(files[t.file], t, expected);
        if ofTarget.None? {
          return None;
        }
        assert TARGETS[i..][1..] == TARGETS[i + 1..];
        ghost var rest := Check(files, TARGETS[i + 1..], expected);
        PrependTwice(found, ofTarget.value, rest);
        found := found + ofTarget.value;
      }
      PrependNothing(found, None);
      mismatches := Some(found);
    }

    method CheckTarget(j: Json, t: Target, expected: string) returns (mismatches: Option<seq<Mismatch>>)
      ensures mismatches == CheckFields(t.file, j, t.fields, expected)
    {
      var found: seq<Mismatch> := [];
      PrependNothing([], CheckFields(t.file, j, t.fields, expected));
      assert t.fields[0..] == t.fields;
      for i := 0 to |t.fields|
        invariant Prepend(found, CheckFields(t.file, j, t.fields[i..], expected)) ==
          CheckFields(t.file, j, t.fields, expected)
      {
        var actual := Get(t.fields[i], j);
        if actual.None? {
          return None;
        }
        assert t.fields[i..][1..] == t.fields[i + 1..];
        var here := if actual.value != Some(Str(expected)) then [Mismatch(t.file, t.fields[i])] else [];
        PrependTwice(found, here, CheckFields(t.file, j, t.fields[i + 1..], expected));
        found := found + here;
      }
      PrependNothing(found, None);
      mismatches := Some(found);
    }

    method SetTarget(t: Target, version: string) returns (json: Option<Json>)
      requires t.file in files
      ensures json == SetAll(t.fields, files[t.file], version)
    {
      var j := files[t.file];
      assert t.fields[0..] == t.fields;
      for i := 0 to |t.fields|
        invariant SetAll(t.fields[i..], j, version) == SetAll(t.fields, files[t.file], version)
      {
        var next := Set(t.fields[i], j, version);
        if next.None? {
          return None;
        }
        assert t.fields[i..][1..] == t.fields[i + 1..];
        j := next.value;
      }
      json := Some(j);
    }

    method BumpVersion(version: string) returns (changedFiles: Option<seq<string>>)
      modifies this
      ensures (files, changedFiles) == Bump(old(files), TARGETS, version)
    {
      var changed: seq<string> := [];
      PrependNothing([], Bump(files, TARGETS, version).1);
      assert TARGETS[0..] == TARGETS;
      for i := 0 to |TARGETS|
        invariant var (after, rest) := Bump(files, TARGETS[i..], version);
          Bump(old(files), TARGETS, version) == (after, Prepend(changed, rest))
      {
        var t := TARGETS[i];
        assert TARGETS[i..][1..] == TARGETS[i + 1..];
        if t.file !in files {
          return None;
        }
        var json := SetTarget(t, version);
        if json.None? {
          return None;
        }
        if json.value != files[t.file] {
          PrependTwice(changed, [t.file], Bump(files[t.file := json.value], TARGETS[i + 1..], version).1);
          files := files[t.file := json.value];
          changed := changed + [t.file];
        } else {
          PrependNothing(changed, Bump(files, TARGETS[i + 1..], version).1);
        }
      }
      PrependNothing(changed, None);
      changedFiles := Some(changed);
    }
  }

  function Prepend<T>(found: seq<T>, rest: Option<seq<T>>): Option<seq<T>> {
    if rest.Some? then Some(found + rest.value) else None
  }

  lemma PrependTwice<T>(a: seq<T>, b: seq<T>, rest: Option<seq<T>>)
    ensures Prepend(a + b, rest) == Prepend(a, Prepend(b, rest))
  {
    if rest.Some? {
      assert (a + b) + rest.value == a + (b + rest.value);
    }
  }

  lemma PrependNothing<T>(a: seq<T>, rest: Option<seq<T>>)
    ensures Prepend([], rest) == rest && Prepend(a, Some([])) == Some(a)
  {
    if rest.Some? {
      assert [] + rest.value == rest.value;
    }
    assert a + [] == a;
  }
}
