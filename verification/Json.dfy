/** JSON documents, and the references `refs` collects from them (scripts/admin_openapi.py).
    An object is the sequence of its fields. */
module Json {
  import opened Basics

  datatype Value = Atom(n: int) | Str(s: string) | List(items: seq<Value>) | Obj(fields: seq<Field>)

  datatype Field = Field(key: string, value: Value)

  const REF := "$ref"

  predicate IsRef(f: Field) {
    f.key == REF && f.value.Str?
  }

  /** The strings under `$ref`, at any depth. */
  function Raw(x: Value): (s: set<string>) {
    match x
    case Obj(fs) =>
      (set i | 0 <= i < |fs| && IsRef(fs[i]) :: fs[i].value.s)
      + (set i, r | 0 <= i < |fs| && r in Raw(fs[i].value) :: r)
    case List(items) => set i, r | 0 <= i < |items| && r in Raw(items[i]) :: r
    case _ => {}
  }

  /** The names that `rs` holds behind `prefix`. */
  function Named(rs: set<string>, prefix: string): (names: set<string>)
    ensures forall n :: n in names <==> prefix + n in rs
  {
    var names := set r | r in rs && prefix <= r :: r[|prefix|..];
    assert forall n | prefix + n in rs :: (prefix + n)[|prefix|..] == n;
    assert forall r | r in rs && prefix <= r :: prefix + r[|prefix|..] == r;
    names
  }

  const PREFIX := "#/components/schemas/"

  /** The component schemas referenced under `x`. */
  function Refs(x: Value): (names: set<string>) {
    Named(Raw(x), PREFIX)
  }

  function OfField(f: Field): (s: set<string>) {
    (if IsRef(f) then {f.value.s} else {}) + Raw(f.value)
  }

  /** `r` is found in one of the first `i` fields. */
  predicate InFields(fs: seq<Field>, i: nat, r: string)
    requires i <= |fs|
  {
    exists j | 0 <= j < i :: r in OfField(fs[j])
  }

  predicate InItems(items: seq<Value>, i: nat, r: string)
    requires i <= |items|
  {
    exists j | 0 <= j < i :: r in Raw(items[j])
  }

  lemma RawObj(fs: seq<Field>, r: string)
    ensures r in Raw(Obj(fs)) <==> InFields(fs, |fs|, r)
  {
    if r in Raw(Obj(fs)) {
      var j :| 0 <= j < |fs| && ((IsRef(fs[j]) && fs[j].value.s == r) || r in Raw(fs[j].value));
      assert r in OfField(fs[j]);
    }
  }

  lemma RawList(items: seq<Value>, r: string)
    ensures r in Raw(List(items)) <==> InItems(items, |items|, r)
  {
  }

  /** What stands at the end of a path; a step goes to a field or to an item by its position. */
  function At(x: Value, path: seq<nat>): (r: Option<Value>)
    decreases |path|
  {
    if path == [] then Some(x)
    else
      match x
      case Obj(fs) => if path[0] < |fs| then At(fs[path[0]].value, path[1..]) else None
      case List(items) => if path[0] < |items| then At(items[path[0]], path[1..]) else None
      case _ => None
  }

  /** An object at the end of `path` has the reference `r`. */
  predicate RefAt(x: Value, path: seq<nat>, r: string) {
    At(x, path).Some? && At(x, path).value.Obj? && Field("$ref", Str(r)) in At(x, path).value.fields
  }

  lemma {:induction false} RawSomewhere(x: Value, r: string) returns (path: seq<nat>)
    requires r in Raw(x)
    ensures RefAt(x, path, r)
    decreases x
  {
    var i: nat;
    match x
    case Obj(fs) =>
      if Field("$ref", Str(r)) in fs { return []; }
      i :| i < |fs| && r in Raw(fs[i].value);
      path := RawSomewhere(fs[i].value, r);
      assert ([i] + path)[1..] == path;
      path := [i] + path;
    case List(items) =>
      i :| i < |items| && r in Raw(items[i]);
      path := RawSomewhere(items[i], r);
      assert ([i] + path)[1..] == path;
      path := [i] + path;
  }

  lemma {:induction false} SomewhereRaw(x: Value, path: seq<nat>, r: string)
    requires RefAt(x, path, r)
    ensures r in Raw(x)
    decreases |path|
  {
    if path == [] {
      var i :| 0 <= i < |x.fields| && x.fields[i] == Field("$ref", Str(r));
      assert IsRef(x.fields[i]);
    } else if x.Obj? {
      SomewhereRaw(x.fields[path[0]].value, path[1..], r);
    } else {
      SomewhereRaw(x.items[path[0]], path[1..], r);
    }
  }

  /** The references of a document: a name is found exactly if an object at the end of some path has
      `$ref` with that name behind `#/components/schemas/`. */
  lemma RefsIff(x: Value, n: string)
    ensures n in Refs(x) <==> exists path: seq<nat> :: RefAt(x, path, "#/components/schemas/" + n)
  {
    if n in Refs(x) { var path := RawSomewhere(x, PREFIX + n); }
    if path: seq<nat> :| RefAt(x, path, "#/components/schemas/" + n) { SomewhereRaw(x, path, PREFIX + n); }
  }

  /** `refs`: the walk that adds the names to a shared set. */
  method CollectRefs(x: Value, out: set<string>) returns (r: set<string>)
    ensures forall n :: n in r <==> n in out || n in Refs(x)
    decreases x
  {
    r := out;
    match x
    case Obj(fs) =>
      for i := 0 to |fs|
        invariant forall n :: n in r <==> n in out || InFields(fs, i, PREFIX + n)
      {
        var f := fs[i];
        if IsRef(f) && PREFIX <= f.value.s { r := r + {f.value.s[|PREFIX|..]}; }
        r := CollectRefs(f.value, r);
        forall n ensures n in r <==> n in out || InFields(fs, i + 1, PREFIX + n) {
          FieldNames(f, n);
          FieldsNext(fs, i, PREFIX + n);
        }
      }
      forall n ensures n in Refs(x) <==> InFields(fs, |fs|, PREFIX + n) {
        RawObj(fs, PREFIX + n);
      }
    case List(items) =>
      for i := 0 to |items|
        invariant forall n :: n in r <==> n in out || InItems(items, i, PREFIX + n)
      {
        r := CollectRefs(items[i], r);
        forall n ensures InItems(items, i + 1, PREFIX + n) <==> InItems(items, i, PREFIX + n) || n in Refs(items[i]) {
          ItemsNext(items, i, PREFIX + n);
        }
      }
      forall n ensures n in Refs(x) <==> InItems(items, |items|, PREFIX + n) {
        RawList(items, PREFIX + n);
      }
    case _ =>
  }

  method RefsOf(x: Value) returns (r: set<string>)
    ensures r == Refs(x)
  {
    r := CollectRefs(x, {});
  }

  lemma FieldNames(f: Field, n: string)
    ensures PREFIX + n in OfField(f) <==>
            (IsRef(f) && PREFIX <= f.value.s && f.value.s[|PREFIX|..] == n) || n in Refs(f.value)
  {
    if IsRef(f) && PREFIX <= f.value.s { assert PREFIX + f.value.s[|PREFIX|..] == f.value.s; }
    assert (PREFIX + n)[|PREFIX|..] == n;
  }

  lemma FieldsNext(fs: seq<Field>, i: nat, r: string)
    requires i < |fs|
    ensures InFields(fs, i + 1, r) <==> InFields(fs, i, r) || r in OfField(fs[i])
  {
  }

  lemma ItemsNext(items: seq<Value>, i: nat, r: string)
    requires i < |items|
    ensures InItems(items, i + 1, r) <==> InItems(items, i, r) || r in Raw(items[i])
  {
  }
}
