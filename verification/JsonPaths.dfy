/** JSON values, and reading and assigning a value at the end of a path. */
module JsonPaths {
  import opened Counting
  import opened Wrappers

  /** `Atom` is a number, `true` or `false`; the members of an object keep their order. */
  datatype Json = Null | Atom(text: string) | Str(text: string) | Arr(items: seq<Json>) | Obj(members: seq<Member>)

  datatype Member = Member(key: string, value: Json)

  datatype Step = Key(key: string) | At(index: nat)

  type Path = seq<Step>

  function IndexOfKey(members: seq<Member>, key: string): (i: nat)
    ensures i <= |members|
    ensures i < |members| ==> members[i].key == key
    ensures forall k :: 0 <= k < i ==> members[k].key != key
  {
    FirstIndex(members, (m: Member) => m.key == key)
  }

  /** Only objects have properties of the names used here. */
  function Property(j: Json, key: string): Option<Json> {
    if j.Obj? && IndexOfKey(j.members, key) < |j.members| then Some(j.members[IndexOfKey(j.members, key)].value)
        else None
  }

  /** Assign in place, or append; a property set on an array is no part of its text. */
  function WithProperty(j: Json, key: string, v: Json): Json {
    if !j.Obj? then j
    else
      var i := IndexOfKey(j.members, key);
      Obj(if i < |j.members| then j.members[i := Member(key, v)] else j.members + [Member(key, v)])
  }

  function Child(j: Json, step: Step): Option<Json> {
    match step
    case Key(key) => Property(j, key)
    case At(i) => if j.Arr? && i < |j.items| then Some(j.items[i]) else None
  }

  function WithChild(j: Json, step: Step, v: Json): Json {
    match step
    case Key(key) => WithProperty(j, key, v)
    case At(i) => if j.Arr? && i < |j.items| then Arr(j.items[i := v]) else j
  }

  function Lookup(j: Json, path: Path): Option<Json> {
    if path == [] then Some(j)
    else if Child(j, path[0]).Some? then Lookup(Child(j, path[0]).value, path[1..])
    else None
  }

  /** The value with `v` assigned at the end of the path; a path that breaks off assigns nothing. */
  function Put(j: Json, path: Path, v: Json): Json
    decreases |path|
  {
    if path == [] then v
    else if |path| == 1 then WithChild(j, path[0], v)
    else if Child(j, path[0]).Some? then WithChild(j, path[0], Put(Child(j, path[0]).value, path[1..], v))
    else j
  }

  /** Everything up to the last step is there, and the last step is a property of an object. */
  predicate Assignable(j: Json, path: Path)
    decreases |path|
  {
    && path != []
    && if |path| == 1 then path[0].Key? && j.Obj?
       else Child(j, path[0]).Some? && Assignable(Child(j, path[0]).value, path[1..])
  }

  /** Neither path leads through the end of the other. */
  predicate Apart(p: Path, q: Path) {
    !(p <= q) && !(q <= p)
  }

  // ---------------------------------------------------------------- the laws

  lemma ChildOfWithChild(j: Json, step: Step, v: Json, other: Step)
    ensures Child(j, step).Some? || (j.Obj? && step.Key?) ==> Child(WithChild(j, step, v), step) == Some(v)
    ensures other != step ==> Child(WithChild(j, step, v), other) == Child(j, other)
    ensures Child(j, step) == Some(v) ==> WithChild(j, step, v) == j
  {
    if j.Obj? && step.Key? {
      MembersAfter(j.members, step.key, v, if other.Key? then other.key else "");
    }
  }

  function Assigned(members: seq<Member>, key: string, v: Json): seq<Member> {
    var i := IndexOfKey(members, key);
    if i < |members| then members[i := Member(key, v)] else members + [Member(key, v)]
  }

  /** The first index is the only one with these properties. */
  lemma IndexOfKeyIs(members: seq<Member>, key: string, i: nat)
    requires i <= |members| && (i < |members| ==> members[i].key == key)
    requires forall k :: 0 <= k < i ==> members[k].key != key
    ensures IndexOfKey(members, key) == i
  {
    hide IndexOfKey;
  }

  lemma AssignedKey(members: seq<Member>, key: string, v: Json)
    ensures var after := Assigned(members, key, v); var i := IndexOfKey(members, key);
      IndexOfKey(after, key) == i < |after| && after[i] == Member(key, v)
  {
    hide IndexOfKey;
    IndexOfKeyIs(Assigned(members, key, v), key, IndexOfKey(members, key));
  }

  lemma AssignedOther(members: seq<Member>, key: string, v: Json, other: string)
    requires other != key
    ensures var after := Assigned(members, key, v); var k := IndexOfKey(members, other);
      if k < |members| then IndexOfKey(after, other) == k && after[k] == members[k]
      else IndexOfKey(after, other) == |after|
  {
    hide IndexOfKey;
    var after, k := Assigned(members, key, v), IndexOfKey(members, other);
    IndexOfKeyIs(after, other, if k < |members| then k else |after|);
  }

  lemma MembersAfter(members: seq<Member>, key: string, v: Json, other: string)
    ensures var j := WithProperty(Obj(members), key, v);
      && Property(j, key) == Some(v)
      && (other != key ==> Property(j, other) == Property(Obj(members), other))
      && (Property(Obj(members), key) == Some(v) ==> j == Obj(members))
  {
    AssignedKey(members, key, v);
    if other != key {
      AssignedOther(members, key, v, other);
    }
    hide IndexOfKey;
    var i := IndexOfKey(members, key);
    assert i < |members| ==> members[i] == Member(key, members[i].value);
  }

  /** What was assigned is read back. */
  lemma {:induction false} PutThenLookup(j: Json, path: Path, v: Json)
    requires Assignable(j, path)
    ensures Lookup(Put(j, path, v), path) == Some(v)
    decreases |path|
  {
    hide WithChild, Child;
    var step := path[0];
    if |path| == 1 {
      ChildOfWithChild(j, step, v, step);
      assert path[1..] == [];
    } else {
      var inner := Put(Child(j, step).value, path[1..], v);
      PutThenLookup(Child(j, step).value, path[1..], v);
      ChildOfWithChild(j, step, inner, step);
    }
  }

  /** Assigning what is there already changes nothing. */
  lemma {:induction false} PutWhatIsThere(j: Json, path: Path, v: Json)
    requires path != [] && Lookup(j, path) == Some(v)
    ensures Put(j, path, v) == j
    decreases |path|
  {
    hide WithChild, Child;
    var step := path[0];
    ChildOfWithChild(j, step, Child(j, step).value, step);
    if |path| == 1 {
      assert path[1..] == [];
    } else {
      PutWhatIsThere(Child(j, step).value, path[1..], v);
    }
  }

  /** What is apart from the path stays as it was. */
  lemma {:induction false} PutKeepsApart(j: Json, path: Path, v: Json, other: Path)
    requires Assignable(j, path) && Apart(path, other)
    ensures Lookup(Put(j, path, v), other) == Lookup(j, other)
    decreases |path|
  {
    hide WithChild, Child;
    var step := path[0];
    var inner := if |path| == 1 then v else Put(Child(j, step).value, path[1..], v);
    assert path == [step] + path[1..] && other == [other[0]] + other[1..];
    ChildOfWithChild(j, step, inner, other[0]);
    if other[0] == step {
      assert |path| > 1 && Apart(path[1..], other[1..]);
      PutKeepsApart(Child(j, step).value, path[1..], v, other[1..]);
      ChildOfWithChild(j, step, inner, step);
    }
  }

  lemma {:induction false} PutKeepsAssignable(j: Json, path: Path, v: Json, other: Path)
    requires Assignable(j, path) && Apart(path, other) && Assignable(j, other)
    ensures Assignable(Put(j, path, v), other)
    decreases |path|
  {
    var step := path[0];
    assert path == [step] + path[1..] && other == [other[0]] + other[1..];
    var inner := if |path| == 1 then v else Put(Child(j, step).value, path[1..], v);
    ChildOfWithChild(j, step, inner, other[0]);
    if other[0] == step && |path| > 1 && |other| > 1 {
      assert Apart(path[1..], other[1..]);
      PutKeepsAssignable(Child(j, step).value, path[1..], v, other[1..]);
    }
  }
}
