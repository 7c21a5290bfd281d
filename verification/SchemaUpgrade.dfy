/** The conversion of Swagger 2.0 schemas to OpenAPI 3.0 (`upgrade_ref` and `upgrade_schema` in
    scripts/merge_openapi.py): references are renamed, and 64-bit strings become integers. */
module SchemaUpgrade {
  import opened Basics
  import opened Json
  import opened SchemaClosure

  // ----- Replacing one prefix by another

  /** All occurrences of `from` in `s[i..]`, from left to right, become `to`. */
  function Replace(s: string, i: nat, from: string, to: string): (r: string)
    requires i <= |s| && from != []
    decreases |s| - i
  {
    if i == |s| then []
    else if StandsAt(s, from, i) then to + Replace(s, i + |from|, from, to)
    else [s[i]] + Replace(s, i + 1, from, to)
  }

  /** Both begin with the same character, which neither has again, and they differ. */
  ghost predicate Apart(from: string, to: string) {
    && from != [] && to != [] && from[0] == to[0]
    && (forall i | 1 <= i < |from| :: from[i] != from[0]) && (forall i | 1 <= i < |to| :: to[i] != from[0])
    && (exists d :: 0 <= d < |from| && d < |to| && from[d] != to[d])
  }

  lemma FirstReplaced(s: string, i: nat, from: string, to: string)
    requires i < |s| && Apart(from, to)
    ensures |Replace(s, i, from, to)| > 0
    ensures StandsAt(s, from, i) ==> Replace(s, i, from, to)[0] == from[0]
    ensures !StandsAt(s, from, i) ==> Replace(s, i, from, to)[0] == s[i]
  {
  }

  /** Up to the first such character nothing is replaced. */
  lemma {:induction false} SameBefore(s: string, i: nat, from: string, to: string, m: nat)
    requires i <= |s| && Apart(from, to) && m <= |Replace(s, i, from, to)|
    requires forall k | 0 <= k < m :: Replace(s, i, from, to)[k] != from[0]
    ensures i + m <= |s| && forall k | 0 <= k < m :: s[i + k] == Replace(s, i, from, to)[k]
    decreases |s| - i
  {
    if m > 0 {
      FirstReplaced(s, i, from, to);
      var r, rest := Replace(s, i, from, to), Replace(s, i + 1, from, to);
      assert r == [s[i]] + rest;
      forall k | 0 <= k < m - 1 ensures rest[k] != from[0] {
        assert r[k + 1] == rest[k];
      }
      SameBefore(s, i + 1, from, to, m - 1);
      forall k | 0 <= k < m ensures s[i + k] == r[k] {
        if k > 0 { assert s[i + 1 + (k - 1)] == rest[k - 1]; }
      }
    }
  }

  lemma StandsShift(a: string, b: string, t: string, p: nat)
    requires p >= |a|
    ensures StandsAt(a + b, t, p) <==> StandsAt(b, t, p - |a|)
  {
    if StandsAt(b, t, p - |a|) {
      forall k | 0 <= k < |t| ensures (a + b)[p + k] == t[k] {
        assert b[p - |a| + k] == t[k];
      }
    }
    if StandsAt(a + b, t, p) {
      forall k | 0 <= k < |t| ensures b[p - |a| + k] == t[k] {
        assert (a + b)[p + k] == t[k];
      }
    }
  }

  /** None begins inside a replacement. */
  lemma NotInside(rest: string, from: string, to: string, p: nat)
    requires Apart(from, to) && p < |to|
    ensures !StandsAt(to + rest, from, p)
  {
    if p == 0 {
      var d :| 0 <= d < |from| && d < |to| && from[d] != to[d];
      assert (to + rest)[0 + d] == to[d];
    } else {
      assert (to + rest)[p + 0] == to[p];
    }
  }

  /** `rest` begins with `from` after its first character. */
  predicate Follows(rest: string, from: string) {
    |from| - 1 <= |rest| && forall k | 1 <= k < |from| :: rest[k - 1] == from[k]
  }

  lemma StandsFirst(c: char, rest: string, from: string)
    requires from != [] && StandsAt([c] + rest, from, 0)
    ensures c == from[0] && Follows(rest, from)
  {
    var r := [c] + rest;
    assert r[0 + 0] == from[0];
    forall k | 1 <= k < |from| ensures rest[k - 1] == from[k] {
      assert r[0 + k] == from[k];
    }
  }

  lemma NoHead(rest: string, from: string, to: string)
    requires Apart(from, to) && Follows(rest, from)
    ensures forall k | 0 <= k < |from| - 1 :: rest[k] != from[0]
  {
    forall k | 0 <= k < |from| - 1 ensures rest[k] != from[0] {
      assert rest[k] == from[k + 1];
    }
  }

  lemma StandsThere(s: string, i: nat, rest: string, from: string)
    requires from != [] && i + |from| <= |s| && s[i] == from[0] && Follows(rest, from)
    requires forall k | 0 <= k < |from| - 1 :: s[i + 1 + k] == rest[k]
    ensures StandsAt(s, from, i)
  {
    forall k | 0 <= k < |from| ensures s[i + k] == from[k] {
      if k > 0 { assert s[i + 1 + (k - 1)] == rest[k - 1]; }
    }
  }

  /** What follows a character that was not replaced was there before. */
  lemma WasThere(s: string, i: nat, from: string, to: string)
    requires i < |s| && Apart(from, to) && s[i] == from[0] && Follows(Replace(s, i + 1, from, to), from)
    ensures StandsAt(s, from, i)
  {
    var rest := Replace(s, i + 1, from, to);
    NoHead(rest, from, to);
    SameBefore(s, i + 1, from, to, |from| - 1);
    StandsThere(s, i, rest, from);
  }

  lemma NotFirst(s: string, i: nat, from: string, to: string)
    requires i < |s| && Apart(from, to) && !StandsAt(s, from, i)
    ensures !StandsAt([s[i]] + Replace(s, i + 1, from, to), from, 0)
  {
    if StandsAt([s[i]] + Replace(s, i + 1, from, to), from, 0) {
      StandsFirst(s[i], Replace(s, i + 1, from, to), from);
      WasThere(s, i, from, to);
    }
  }

  lemma NotBehind(rest: string, from: string, to: string, p: nat)
    requires Apart(from, to) && (p >= |to| ==> !StandsAt(rest, from, p - |to|))
    ensures !StandsAt(to + rest, from, p)
  {
    if p < |to| { NotInside(rest, from, to, p); } else { StandsShift(to, rest, from, p); }
  }

  lemma NotKept(s: string, i: nat, from: string, to: string, p: nat)
    requires i < |s| && Apart(from, to) && !StandsAt(s, from, i)
    requires p > 0 ==> !StandsAt(Replace(s, i + 1, from, to), from, p - 1)
    ensures !StandsAt([s[i]] + Replace(s, i + 1, from, to), from, p)
  {
    if p > 0 { StandsShift([s[i]], Replace(s, i + 1, from, to), from, p); } else { NotFirst(s, i, from, to); }
  }

  /** No occurrence is left, and none is made. */
  lemma {:induction false} NoneLeft(s: string, i: nat, from: string, to: string, p: nat)
    requires i <= |s| && Apart(from, to)
    ensures !StandsAt(Replace(s, i, from, to), from, p)
    decreases |s| - i
  {
    if i < |s| {
      if StandsAt(s, from, i) {
        if p >= |to| { NoneLeft(s, i + |from|, from, to, p - |to|); }
        NotBehind(Replace(s, i + |from|, from, to), from, to, p);
      } else {
        if p > 0 { NoneLeft(s, i + 1, from, to, p - 1); }
        NotKept(s, i, from, to, p);
      }
    }
  }

  lemma {:induction false} NothingToReplace(s: string, i: nat, from: string, to: string)
    requires i <= |s| && from != [] && forall p | i <= p :: !StandsAt(s, from, p)
    ensures Replace(s, i, from, to) == s[i..]
    decreases |s| - i
  {
    if i < |s| { NothingToReplace(s, i + 1, from, to); }
  }

  /** `str.replace`: up to the first occurrence nothing changes, it becomes `to`, and so on behind
      it. */
  lemma ReplaceFirst(a: string, b: string, from: string, to: string)
    requires from != [] && forall p | 0 <= p < |a| :: !StandsAt(a + from + b, from, p)
    ensures Replace(a + from + b, 0, from, to) == a + to + Replace(b, 0, from, to)
  {
    var s := a + from + b;
    ReplacePast(s, 0, |a|, from, to);
    assert s[0..|a|] == a;
    StandsBetween(a, from, b);
    ReplaceBehind(a + from, b, 0, from, to);
    Associate(a, to, Replace(b, 0, from, to));
  }

  lemma {:induction false} ReplaceBehind(a: string, b: string, i: nat, from: string, to: string)
    requires i <= |b| && from != []
    ensures Replace(a + b, |a| + i, from, to) == Replace(b, i, from, to)
    decreases |b| - i
  {
    if i < |b| {
      StandsShift(a, b, from, |a| + i);
      if StandsAt(b, from, i) {
        ReplaceBehind(a, b, i + |from|, from, to);
      } else {
        ReplaceBehind(a, b, i + 1, from, to);
      }
    }
  }

  lemma FirstOfSlice(s: string, i: nat, m: nat, rest: string)
    requires i < m <= |s|
    ensures s[i..m] + rest == [s[i]] + (s[i + 1..m] + rest)
  {
    assert s[i..m] == [s[i]] + s[i + 1..m];
  }

  /** Where none stands nothing changes. */
  lemma {:induction false} ReplacePast(s: string, i: nat, m: nat, from: string, to: string)
    requires i <= m <= |s| && from != [] && forall p | i <= p < m :: !StandsAt(s, from, p)
    ensures Replace(s, i, from, to) == s[i..m] + Replace(s, m, from, to)
    decreases m - i
  {
    if i < m {
      ReplacePast(s, i + 1, m, from, to);
      FirstOfSlice(s, i, m, Replace(s, m, from, to));
    } else {
      assert s[i..m] == [];
    }
  }

  lemma StandsBetween(a: string, t: string, b: string)
    ensures StandsAt(a + t + b, t, |a|)
  {
    forall k | 0 <= k < |t| ensures (a + t + b)[|a| + k] == t[k] {
    }
  }

  const OLD := "#/definitions/"

  function UpgradeRef(r: string): (u: string) {
    Replace(r, 0, OLD, PREFIX)
  }

  /** `upgrade_ref`: the first old prefix becomes the new one, and so on behind it. */
  lemma UpgradeRefFirst(a: string, b: string)
    requires forall p | 0 <= p < |a| :: !StandsAt(a + "#/definitions/" + b, "#/definitions/", p)
    ensures UpgradeRef(a + "#/definitions/" + b) == a + "#/components/schemas/" + UpgradeRef(b)
  {
    ReplaceFirst(a, b, OLD, PREFIX);
  }

  /** Some reference to `#/definitions/` is in it. */
  ghost predicate IsOld(r: string) {
    exists p: nat :: StandsAt(r, OLD, p)
  }

  lemma PrefixesApart()
    ensures Apart(OLD, PREFIX)
  {
    assert OLD[2] == 'd' && PREFIX[2] == 'c';
  }

  lemma UpgradedNotOld(r: string)
    ensures !IsOld(UpgradeRef(r))
  {
    PrefixesApart();
    forall p: nat ensures !StandsAt(UpgradeRef(r), OLD, p) {
      NoneLeft(r, 0, OLD, PREFIX, p);
    }
  }

  lemma NotOldSame(r: string)
    requires !IsOld(r)
    ensures UpgradeRef(r) == r
  {
    NothingToReplace(r, 0, OLD, PREFIX);
    assert r[0..] == r;
  }

  // ----- Schemas

  const TYPE := "type"
  const FORMAT := "format"

  predicate HasText(fs: seq<Field>, key: string, text: string) {
    exists i | 0 <= i < |fs| :: fs[i].key == key && fs[i].value == Str(text)
  }

  /** A 64-bit integer that is declared as a string. */
  predicate Is64(fs: seq<Field>) {
    HasText(fs, TYPE, "string") && (HasText(fs, FORMAT, "int64") || HasText(fs, FORMAT, "uint64"))
  }

  /** One field; `fix`: the object it is in is a 64-bit string. */
  function UpField(f: Field, fix: bool): (g: Field)
    decreases f.value, 2
  {
    if fix && f.key == TYPE && f.value.Str? then Field(TYPE, Str("integer"))
    else if fix && f.key == FORMAT && f.value.Str? then Field(FORMAT, Str("int64"))
    else if IsRef(f) then Field(REF, Str(UpgradeRef(f.value.s)))
    else if f.value.Obj? then Field(f.key, Upgrade(f.value))
    else if f.value.List? then
      var items := f.value.items;
      Field(f.key, List(seq(|items|, j requires 0 <= j < |items| => Upgrade(items[j]))))
    else f
  }

  /** `upgrade_schema`: only objects are converted, so a list directly inside a list is not. */
  function Upgrade(x: Value): (y: Value)
    decreases x, 1
  {
    if x.Obj? then
      var fs := x.fields;
      Obj(seq(|fs|, i requires 0 <= i < |fs| => UpField(fs[i], Is64(fs))))
    else x
  }

  // ----- References

  /** The references in objects that the conversion visits. */
  function Visible(x: Value): (s: set<string>)
    decreases x, 1
  {
    if x.Obj? then
      (set i | 0 <= i < |x.fields| && IsRef(x.fields[i]) :: x.fields[i].value.s)
      + (set i, r | 0 <= i < |x.fields| && r in VisibleIn(x.fields[i].value) :: r)
    else {}
  }

  function VisibleIn(v: Value): (s: set<string>)
    decreases v, 2
  {
    match v
    case Obj(_) => Visible(v)
    case List(items) => set j, r | 0 <= j < |items| && r in Visible(items[j]) :: r
    case _ => {}
  }

  /** Those in objects that it does not visit. */
  function Hidden(x: Value): (s: set<string>)
    decreases x, 1
  {
    match x
    case Obj(fs) => set i, r | 0 <= i < |fs| && r in HiddenIn(fs[i].value) :: r
    case List(_) => Raw(x)
    case _ => {}
  }

  function HiddenIn(v: Value): (s: set<string>)
    decreases v, 2
  {
    match v
    case Obj(_) => Hidden(v)
    case List(items) => set j, r | 0 <= j < |items| && r in Hidden(items[j]) :: r
    case _ => {}
  }

  /** `r` is what the conversion makes of a reference in `s`. */
  predicate Upgraded(s: set<string>, r: string) {
    exists q | q in s :: UpgradeRef(q) == r
  }

  function VisibleOf(f: Field): (s: set<string>) {
    (if IsRef(f) then {f.value.s} else {}) + VisibleIn(f.value)
  }

  lemma ItemRefs(items: seq<Value>, r: string)
    requires forall j | 0 <= j < |items| :: r in Raw(Upgrade(items[j])) <==> r in Hidden(items[j]) || Upgraded(Visible(items[j]), r)
    ensures var ups := seq(|items|, j requires 0 <= j < |items| => Upgrade(items[j]));
            r in Raw(List(ups)) <==> r in HiddenIn(List(items)) || Upgraded(VisibleIn(List(items)), r)
  {
    var ups := seq(|items|, j requires 0 <= j < |items| => Upgrade(items[j]));
    RawList(ups, r);
    if InItems(ups, |ups|, r) {
      var j :| 0 <= j < |ups| && r in Raw(ups[j]);
      assert ups[j] == Upgrade(items[j]);
    }
    if r in HiddenIn(List(items)) {
      var j :| 0 <= j < |items| && r in Hidden(items[j]);
      assert r in Raw(ups[j]);
    }
    if Upgraded(VisibleIn(List(items)), r) {
      var q :| q in VisibleIn(List(items)) && UpgradeRef(q) == r;
      var j :| 0 <= j < |items| && q in Visible(items[j]);
      assert r in Raw(ups[j]);
    }
  }

  lemma KeysDiffer()
    ensures TYPE != REF && FORMAT != REF && TYPE != FORMAT
  {
    assert TYPE[0] == 't' && FORMAT[0] == 'f' && REF[0] == '$';
  }

  lemma UpgradedOne(q: string, r: string)
    ensures Upgraded({q}, r) <==> UpgradeRef(q) == r
    ensures !Upgraded({}, r)
  {
  }

  /** What is claimed of every value, and shown by induction. */
  ghost predicate RefsConverted(x: Value, r: string) {
    r in Raw(Upgrade(x)) <==> r in Hidden(x) || Upgraded(Visible(x), r)
  }

  lemma FieldRefs(f: Field, fix: bool, r: string)
    requires f.value.Obj? ==> RefsConverted(f.value, r)
    requires f.value.List? ==> forall j | 0 <= j < |f.value.items| :: RefsConverted(f.value.items[j], r)
    ensures r in OfField(UpField(f, fix)) <==> r in HiddenIn(f.value) || Upgraded(VisibleOf(f), r)
  {
    KeysDiffer();
    if IsRef(f) {
      UpgradedOne(f.value.s, r);
      assert VisibleOf(f) == {f.value.s};
    } else if f.value.List? {
      ItemRefs(f.value.items, r);
      assert VisibleOf(f) == VisibleIn(f.value);
    } else {
      assert VisibleOf(f) == VisibleIn(f.value);
      UpgradedOne(REF, r);
    }
  }

  lemma VisibleFields(fs: seq<Field>, q: string)
    ensures q in Visible(Obj(fs)) <==> exists i | 0 <= i < |fs| :: q in VisibleOf(fs[i])
  {
    if q in Visible(Obj(fs)) {
      var i :| 0 <= i < |fs| && ((IsRef(fs[i]) && fs[i].value.s == q) || q in VisibleIn(fs[i].value));
      assert q in VisibleOf(fs[i]);
    }
    if exists i | 0 <= i < |fs| :: q in VisibleOf(fs[i]) {
      var i :| 0 <= i < |fs| && q in VisibleOf(fs[i]);
    }
  }

  lemma UpgradedField(fs: seq<Field>, r: string)
    ensures Upgraded(Visible(Obj(fs)), r) <==> exists i | 0 <= i < |fs| :: Upgraded(VisibleOf(fs[i]), r)
  {
    if Upgraded(Visible(Obj(fs)), r) {
      var q :| q in Visible(Obj(fs)) && UpgradeRef(q) == r;
      VisibleFields(fs, q);
      var i :| 0 <= i < |fs| && q in VisibleOf(fs[i]);
      assert Upgraded(VisibleOf(fs[i]), r);
    }
    if exists i | 0 <= i < |fs| :: Upgraded(VisibleOf(fs[i]), r) {
      var i :| 0 <= i < |fs| && Upgraded(VisibleOf(fs[i]), r);
      var q :| q in VisibleOf(fs[i]) && UpgradeRef(q) == r;
      VisibleFields(fs, q);
    }
  }

  lemma ObjRefs(fs: seq<Field>, r: string)
    requires forall i | 0 <= i < |fs| ::
               r in OfField(UpField(fs[i], Is64(fs))) <==> r in HiddenIn(fs[i].value) || Upgraded(VisibleOf(fs[i]), r)
    ensures RefsConverted(Obj(fs), r)
  {
    var gs := Upgrade(Obj(fs)).fields;
    assert forall i | 0 <= i < |fs| :: gs[i] == UpField(fs[i], Is64(fs));
    RawObj(gs, r);
    UpgradedField(fs, r);
    if InFields(gs, |gs|, r) {
      var i :| 0 <= i < |gs| && r in OfField(gs[i]);
      assert r in HiddenIn(fs[i].value) || Upgraded(VisibleOf(fs[i]), r);
    }
    if r in Hidden(Obj(fs)) {
      var i :| 0 <= i < |fs| && r in HiddenIn(fs[i].value);
      assert r in OfField(gs[i]);
    }
    if Upgraded(Visible(Obj(fs)), r) {
      var i :| 0 <= i < |fs| && Upgraded(VisibleOf(fs[i]), r);
      assert r in OfField(gs[i]);
    }
  }

  /** For every document: after the conversion the references are the renamed ones of the
      objects it visits, and those of the others as they were. */
  lemma {:induction false} UpgradeRefs(x: Value, r: string)
    ensures RefsConverted(x, r)
    decreases x
  {
    if x.Obj? {
      forall i | 0 <= i < |x.fields|
        ensures r in OfField(UpField(x.fields[i], Is64(x.fields))) <==>
                r in HiddenIn(x.fields[i].value) || Upgraded(VisibleOf(x.fields[i]), r)
      {
        var f := x.fields[i];
        if f.value.Obj? { UpgradeRefs(f.value, r); }
        if f.value.List? {
          forall j | 0 <= j < |f.value.items| ensures RefsConverted(f.value.items[j], r) {
            UpgradeRefs(f.value.items[j], r);
          }
        }
        FieldRefs(f, Is64(x.fields), r);
      }
      ObjRefs(x.fields, r);
    }
  }

  /** No `#/definitions/` is left exactly when none is in an object that is not visited. */
  lemma NoOldLeftIff(x: Value)
    ensures (forall r | r in Raw(Upgrade(x)) :: !IsOld(r)) <==> (forall r | r in Hidden(x) :: !IsOld(r))
  {
    forall r: string ensures r in Raw(Upgrade(x)) && IsOld(r) <==> r in Hidden(x) && IsOld(r) {
      UpgradeRefs(x, r);
      if Upgraded(Visible(x), r) {
        var q :| q in Visible(x) && UpgradeRef(q) == r;
        UpgradedNotOld(q);
      }
    }
  }

  // ----- 64-bit strings

  predicate Any64(x: Value) {
    match x
    case Obj(fs) => Is64(fs) || exists i | 0 <= i < |fs| :: Any64(fs[i].value)
    case List(items) => exists j | 0 <= j < |items| :: Any64(items[j])
    case _ => false
  }

  /** One in an object that the conversion does not visit. */
  predicate Hidden64(x: Value)
    decreases x, 1
  {
    match x
    case Obj(fs) => exists i | 0 <= i < |fs| :: Hidden64In(fs[i].value)
    case List(_) => Any64(x)
    case _ => false
  }

  predicate Hidden64In(v: Value)
    decreases v, 2
  {
    match v
    case Obj(_) => Hidden64(v)
    case List(items) => exists j | 0 <= j < |items| :: Hidden64(items[j])
    case _ => false
  }

  /** A text under `type` or `format` is changed only in a 64-bit string, and then to one that
      is none. */
  lemma TextKept(f: Field, fix: bool, key: string, text: string)
    requires key != REF
    ensures var g := UpField(f, fix);
            g.key == key && g.value == Str(text) <==>
            if fix && f.value.Str? && f.key == TYPE then key == TYPE && text == "integer"
            else if fix && f.value.Str? && f.key == FORMAT then key == FORMAT && text == "int64"
            else f.key == key && f.value == Str(text)
  {
    KeysDiffer();
  }

  lemma NotString()
    ensures "integer" != "string"
  {
    assert "integer"[0] == 'i' && "string"[0] == 's';
  }

  lemma FixedNot64(fs: seq<Field>)
    ensures !Is64(Upgrade(Obj(fs)).fields)
  {
    var gs := Upgrade(Obj(fs)).fields;
    KeysDiffer();
    NotString();
    if Is64(fs) {
      forall i | 0 <= i < |gs| ensures !(gs[i].key == TYPE && gs[i].value == Str("string")) {
        TextKept(fs[i], true, TYPE, "string");
      }
    } else {
      TextUnchanged(fs, TYPE, "string");
      TextUnchanged(fs, FORMAT, "int64");
      TextUnchanged(fs, FORMAT, "uint64");
    }
  }

  lemma TextUnchanged(fs: seq<Field>, key: string, text: string)
    requires !Is64(fs) && key != REF
    ensures HasText(Upgrade(Obj(fs)).fields, key, text) <==> HasText(fs, key, text)
  {
    var gs := Upgrade(Obj(fs)).fields;
    forall i | 0 <= i < |fs|
      ensures (gs[i].key == key && gs[i].value == Str(text)) <==> (fs[i].key == key && fs[i].value == Str(text))
    {
      TextKept(fs[i], false, key, text);
    }
  }

  ghost predicate Converted64(x: Value) {
    Any64(Upgrade(x)) <==> Hidden64(x)
  }

  lemma Items64(items: seq<Value>)
    requires forall j | 0 <= j < |items| :: Converted64(items[j])
    ensures Any64(List(seq(|items|, j requires 0 <= j < |items| => Upgrade(items[j])))) <==> Hidden64In(List(items))
  {
    var ups := seq(|items|, j requires 0 <= j < |items| => Upgrade(items[j]));
    assert forall j | 0 <= j < |items| :: Any64(ups[j]) <==> Hidden64(items[j]);
  }

  lemma Field64(f: Field, fix: bool)
    requires f.value.Obj? ==> Converted64(f.value)
    requires f.value.List? ==> forall j | 0 <= j < |f.value.items| :: Converted64(f.value.items[j])
    ensures Any64(UpField(f, fix).value) <==> Hidden64In(f.value)
  {
    if f.value.List? { Items64(f.value.items); }
  }

  /** For every document: a 64-bit string is left exactly in an object that is not visited. */
  lemma {:induction false} Upgrade64(x: Value)
    ensures Any64(Upgrade(x)) <==> Hidden64(x)
    decreases x
  {
    if x.Obj? {
      FixedNot64(x.fields);
      var gs := Upgrade(x).fields;
      forall i | 0 <= i < |x.fields| ensures Any64(gs[i].value) <==> Hidden64In(x.fields[i].value) {
        var f := x.fields[i];
        if f.value.Obj? { Upgrade64(f.value); }
        if f.value.List? {
          forall j | 0 <= j < |f.value.items| ensures Converted64(f.value.items[j]) {
            Upgrade64(f.value.items[j]);
          }
        }
        Field64(f, Is64(x.fields));
      }
    }
  }

  /** A visited 64-bit string becomes a 64-bit integer, and no field is lost, added or moved. */
  lemma BecomesInteger(fs: seq<Field>)
    requires Is64(fs)
    ensures var gs := Upgrade(Obj(fs)).fields;
            && HasText(gs, TYPE, "integer") && HasText(gs, FORMAT, "int64")
            && |gs| == |fs| && forall i | 0 <= i < |fs| :: gs[i].key == fs[i].key
  {
    var gs := Upgrade(Obj(fs)).fields;
    KeysDiffer();
    var i :| 0 <= i < |fs| && fs[i].key == TYPE && fs[i].value == Str("string");
    TextKept(fs[i], true, TYPE, "integer");
    assert gs[i] == UpField(fs[i], true);
    var j :| 0 <= j < |fs| && fs[j].key == FORMAT && fs[j].value.Str?;
    TextKept(fs[j], true, FORMAT, "int64");
    assert gs[j] == UpField(fs[j], true);
  }

  // ----- What becomes of every part of a document

  /** On the path, no list is directly inside a list. */
  predicate NoListInList(x: Value, path: seq<nat>)
    decreases |path|
  {
    path != [] ==>
      match x
      case Obj(fs) => path[0] < |fs| ==> NoListInList(fs[path[0]].value, path[1..])
      case List(items) => path[0] < |items| ==> !items[path[0]].List? && NoListInList(items[path[0]], path[1..])
      case _ => true
  }

  /** The conversion gets there. */
  predicate Visited(x: Value, path: seq<nat>) {
    !x.List? && NoListInList(x, path)
  }

  function Items(items: seq<Value>): (r: seq<Value>)
    ensures |r| == |items| && forall j | 0 <= j < |items| :: r[j] == Upgrade(items[j])
  {
    seq(|items|, j requires 0 <= j < |items| => Upgrade(items[j]))
  }

  lemma UpFieldValue(f: Field, fix: bool)
    ensures f.value.Obj? ==> UpField(f, fix).value == Upgrade(f.value)
    ensures f.value.List? ==> UpField(f, fix).value == List(Items(f.value.items))
    ensures UpField(f, fix).key == f.key
  {
  }

  /** `w` is what the conversion makes of the object or list `v`, if it gets there. */
  predicate Becomes(v: Value, w: Value, visited: bool) {
    w == if !visited then v else if v.List? then List(Items(v.items)) else Upgrade(v)
  }

  lemma ItemAt(items: seq<Value>, path: seq<nat>, v: Value)
    requires path != [] && path[0] < |items| && At(items[path[0]], path[1..]) == Some(v)
    requires var w := At(Upgrade(items[path[0]]), path[1..]); w.Some? && Becomes(v, w.value, Visited(items[path[0]], path[1..]))
    ensures var w := At(List(Items(items)), path); w.Some? && Becomes(v, w.value, NoListInList(List(items), path))
  {
    assert Items(items)[path[0]] == Upgrade(items[path[0]]);
  }

  lemma {:induction false} ConvertedAt(x: Value, path: seq<nat>, v: Value)
    requires At(x, path) == Some(v) && (v.Obj? || v.List?)
    ensures var w := At(Upgrade(x), path); w.Some? && Becomes(v, w.value, Visited(x, path))
    decreases |path|
  {
    if path != [] && x.Obj? {
      var f := x.fields[path[0]];
      UpFieldValue(f, Is64(x.fields));
      assert Upgrade(x).fields[path[0]] == UpField(f, Is64(x.fields));
      if f.value.Obj? {
        ConvertedAt(f.value, path[1..], v);
      } else if path[1..] != [] {
        ConvertedAt(f.value.items[path[1]], path[1..][1..], v);
        ItemAt(f.value.items, path[1..], v);
      } else {
        assert v == f.value && NoListInList(x, path);
      }
    }
  }

  /** What a string or number in field `i` of a visited object becomes: only a reference, and `type`
      and `format` of a 64-bit string, are not left as they are. */
  function Rewritten(fs: seq<Field>, i: nat): (v: Value)
    requires i < |fs|
  {
    var long := HasText(fs, "type", "string") && (HasText(fs, "format", "int64") || HasText(fs, "format", "uint64"));
    if !fs[i].value.Str? then fs[i].value
    else if fs[i].key == "$ref" then Str(UpgradeRef(fs[i].value.s))
    else if long && fs[i].key == "type" then Str("integer")
    else if long && fs[i].key == "format" then Str("int64")
    else fs[i].value
  }

  predicate SameKind(v: Value, w: Value) {
    (v.Obj? <==> w.Obj?) && (v.List? <==> w.List?)
  }

  lemma FieldBecomes(fs: seq<Field>, i: nat)
    requires i < |fs|
    ensures var gs := Upgrade(Obj(fs)).fields;
            && |gs| == |fs| && gs[i].key == fs[i].key && SameKind(fs[i].value, gs[i].value)
            && (fs[i].value.Str? || fs[i].value.Atom? ==> gs[i].value == Rewritten(fs, i))
  {
    KeysDiffer();
    assert Upgrade(Obj(fs)).fields[i] == UpField(fs[i], Is64(fs));
    UpFieldValue(fs[i], Is64(fs));
    if fs[i].value.Obj? { assert Upgrade(fs[i].value).Obj?; }
  }

  /** Of an object anywhere in a document: it stays an object with the same keys in the same places,
      and its strings and numbers stay, but for those that are rewritten where it is visited. */
  lemma FieldKept(x: Value, path: seq<nat>, fs: seq<Field>, i: nat)
    requires At(x, path) == Some(Obj(fs)) && i < |fs|
    ensures var w := At(Upgrade(x), path);
            && w.Some? && w.value.Obj? && |w.value.fields| == |fs|
            && w.value.fields[i].key == fs[i].key && SameKind(fs[i].value, w.value.fields[i].value)
            && (fs[i].value.Str? || fs[i].value.Atom? ==>
                  w.value.fields[i].value == if Visited(x, path) then Rewritten(fs, i) else fs[i].value)
  {
    ConvertedAt(x, path, Obj(fs));
    FieldBecomes(fs, i);
  }

  /** Of a list anywhere in a document: it stays a list of the same length, and its strings and
      numbers stay. */
  lemma ItemKept(x: Value, path: seq<nat>, items: seq<Value>, j: nat)
    requires At(x, path) == Some(List(items)) && j < |items|
    ensures var w := At(Upgrade(x), path);
            && w.Some? && w.value.List? && |w.value.items| == |items| && SameKind(items[j], w.value.items[j])
            && (items[j].Str? || items[j].Atom? ==> w.value.items[j] == items[j])
  {
    ConvertedAt(x, path, List(items));
  }

  /** An object that the conversion changes where it visits it. */
  ghost predicate Stale(v: Value) {
    v.Obj? && (Is64(v.fields) || exists i | 0 <= i < |v.fields| :: IsRef(v.fields[i]) && IsOld(v.fields[i].value.s))
  }

  ghost predicate StaleAt(x: Value, path: seq<nat>) {
    Visited(x, path) && At(x, path).Some? && Stale(At(x, path).value)
  }

  lemma StaleChanges(x: Value, path: seq<nat>)
    requires StaleAt(x, path)
    ensures Upgrade(x) != x
  {
    var fs := At(x, path).value.fields;
    var i: nat;
    if Is64(fs) {
      i :| i < |fs| && fs[i].key == TYPE && fs[i].value == Str("string");
      NotString();
      KeysDiffer();
    } else {
      i :| i < |fs| && IsRef(fs[i]) && IsOld(fs[i].value.s);
      UpgradedNotOld(fs[i].value.s);
    }
    FieldKept(x, path, fs, i);
  }

  lemma StaleBelow(fs: seq<Field>, i: nat, path: seq<nat>)
    requires i < |fs| && (fs[i].value.Obj? ==> StaleAt(fs[i].value, path))
    requires fs[i].value.List? ==> path != [] && path[0] < |fs[i].value.items| && StaleAt(fs[i].value.items[path[0]], path[1..])
    requires fs[i].value.Obj? || fs[i].value.List?
    ensures StaleAt(Obj(fs), [i] + path)
  {
    assert ([i] + path)[1..] == path;
  }

  lemma FieldSame(f: Field)
    requires !(IsRef(f) && IsOld(f.value.s)) && (f.value.Obj? ==> Upgrade(f.value) == f.value)
    requires f.value.List? ==> forall j | 0 <= j < |f.value.items| :: Upgrade(f.value.items[j]) == f.value.items[j]
    ensures UpField(f, false) == f
  {
    if IsRef(f) { NotOldSame(f.value.s); }
    if f.value.List? { assert UpField(f, false).value.items == f.value.items; }
  }

  lemma {:induction false} NothingStale(x: Value)
    requires forall path: seq<nat> :: !StaleAt(x, path)
    ensures Upgrade(x) == x
    decreases x
  {
    if x.Obj? {
      var fs := x.fields;
      assert !StaleAt(x, []);
      forall i | 0 <= i < |fs| ensures UpField(fs[i], false) == fs[i] {
        var v := fs[i].value;
        if v.Obj? {
          forall path: seq<nat> ensures !StaleAt(v, path) { if StaleAt(v, path) { StaleBelow(fs, i, path); } }
          NothingStale(v);
        }
        if v.List? {
          forall j | 0 <= j < |v.items| ensures Upgrade(v.items[j]) == v.items[j] {
            ItemNotStale(fs, i, j);
            NothingStale(v.items[j]);
          }
        }
        FieldSame(fs[i]);
      }
      assert Upgrade(x).fields == fs;
    }
  }

  lemma ItemNotStale(fs: seq<Field>, i: nat, j: nat)
    requires i < |fs| && fs[i].value.List? && j < |fs[i].value.items| && forall path: seq<nat> :: !StaleAt(Obj(fs), path)
    ensures forall path: seq<nat> :: !StaleAt(fs[i].value.items[j], path)
  {
    forall path: seq<nat> ensures !StaleAt(fs[i].value.items[j], path) {
      if StaleAt(fs[i].value.items[j], path) {
        assert ([j] + path)[1..] == path;
        StaleBelow(fs, i, [j] + path);
      }
    }
  }

  /** A document is left as it is exactly when no object that is visited has an old reference or is
      a 64-bit string. */
  lemma UnchangedIff(x: Value)
    ensures Upgrade(x) == x <==> forall path: seq<nat> :: !StaleAt(x, path)
  {
    if path: seq<nat> :| StaleAt(x, path) {
      StaleChanges(x, path);
    } else {
      NothingStale(x);
    }
  }

  // ----- Converting twice

  lemma UpFieldTwice(f: Field, fix: bool)
    requires f.value.Obj? ==> Upgrade(Upgrade(f.value)) == Upgrade(f.value)
    requires f.value.List? ==>
               forall j | 0 <= j < |f.value.items| :: Upgrade(Upgrade(f.value.items[j])) == Upgrade(f.value.items[j])
    ensures UpField(UpField(f, fix), false) == UpField(f, fix)
  {
    KeysDiffer();
    if IsRef(f) {
      UpgradedNotOld(f.value.s);
      NotOldSame(UpgradeRef(f.value.s));
    }
  }

  /** The conversion changes nothing the second time, for every document. */
  lemma {:induction false} UpgradeTwice(x: Value)
    ensures Upgrade(Upgrade(x)) == Upgrade(x)
    decreases x
  {
    if x.Obj? {
      FixedNot64(x.fields);
      var gs := Upgrade(x).fields;
      forall i | 0 <= i < |x.fields| ensures UpField(gs[i], false) == gs[i] {
        var f := x.fields[i];
        if f.value.Obj? { UpgradeTwice(f.value); }
        if f.value.List? {
          forall j | 0 <= j < |f.value.items|
            ensures Upgrade(Upgrade(f.value.items[j])) == Upgrade(f.value.items[j])
          {
            UpgradeTwice(f.value.items[j]);
          }
        }
        UpFieldTwice(f, Is64(x.fields));
      }
      assert Upgrade(Upgrade(x)).fields == gs;
    }
  }

  // ----- Documents without a list directly inside a list

  predicate NoNested(x: Value) {
    match x
    case Obj(fs) => forall i | 0 <= i < |fs| :: NoNested(fs[i].value)
    case List(items) => forall j | 0 <= j < |items| :: !items[j].List? && NoNested(items[j])
    case _ => true
  }

  /** The conversion visits every object of such a schema. */
  lemma {:induction false} NothingHidden(x: Value)
    requires NoNested(x) && !x.List?
    ensures Hidden(x) == {} && !Hidden64(x)
    decreases x
  {
    if x.Obj? {
      forall i | 0 <= i < |x.fields| ensures HiddenIn(x.fields[i].value) == {} && !Hidden64In(x.fields[i].value) {
        var v := x.fields[i].value;
        if v.Obj? { NothingHidden(v); }
        if v.List? {
          forall j | 0 <= j < |v.items| ensures Hidden(v.items[j]) == {} && !Hidden64(v.items[j]) {
            NothingHidden(v.items[j]);
          }
        }
      }
    }
  }

  /** So it leaves neither an old reference nor a 64-bit string. */
  lemma FullyConverted(x: Value)
    requires NoNested(x) && !x.List?
    ensures (forall r | r in Raw(Upgrade(x)) :: !IsOld(r)) && !Any64(Upgrade(x))
  {
    NothingHidden(x);
    NoOldLeftIff(x);
    Upgrade64(x);
  }

  // ----- The reference graph

  /** The new prefix is left alone. */
  lemma PrefixStays(n: string)
    ensures UpgradeRef(PREFIX + n) == PREFIX + UpgradeRef(n)
  {
    PrefixesApart();
    forall p | 0 <= p < |PREFIX| ensures !StandsAt(PREFIX + n, OLD, p) {
      NotInside(n, OLD, PREFIX, p);
    }
    ReplacePast(PREFIX + n, 0, |PREFIX|, OLD, PREFIX);
    assert (PREFIX + n)[0..|PREFIX|] == PREFIX;
    ReplaceBehind(PREFIX, n, 0, OLD, PREFIX);
  }

  /** A reference to the schema `n`, in the old form or the new, becomes one in the new form; but
      the name is converted too. */
  lemma NameRenamed(n: string)
    ensures UpgradeRef(OLD + n) == UpgradeRef(PREFIX + n) == PREFIX + UpgradeRef(n)
  {
    PrefixStays(n);
    assert StandsAt(OLD + n, OLD, 0);
    ReplaceBehind(OLD, n, 0, OLD, PREFIX);
  }

  /** A reference of another form does not become one to a schema. */
  lemma OtherStays(q: string, from: string, to: string, n: string)
    requires Apart(from, to) && !StandsAt(q, from, 0) && Replace(q, 0, from, to) == to + n
    ensures to <= q
  {
    FirstReplaced(q, 0, from, to);
    var rest := Replace(q, 1, from, to);
    assert to + n == [q[0]] + rest;
    forall k | 0 <= k < |to| - 1 ensures rest[k] == to[k + 1] {
      assert (to + n)[k + 1] == ([q[0]] + rest)[k + 1];
    }
    SameBefore(q, 1, from, to, |to| - 1);
    forall k | 0 <= k < |to| ensures q[k] == to[k] {
      if k > 0 { assert q[1 + (k - 1)] == rest[k - 1]; } else { assert (to + n)[0] == q[0]; }
    }
  }

  lemma SameTail(a: string, m: string, n: string)
    ensures a + m == a + n <==> m == n
  {
    assert (a + m)[|a|..] == m && (a + n)[|a|..] == n;
  }

  lemma NotPrefix(q: string, t: string)
    requires !(t <= q)
    ensures !StandsAt(q, t, 0)
  {
    if |t| <= |q| {
      var k :| 0 <= k < |t| && q[k] != t[k];
      assert q[0 + k] != t[k];
    }
  }

  /** The names a schema references, in the old form or the new. */
  function Targets(x: Value): (names: set<string>) {
    Named(Raw(x), OLD) + Named(Raw(x), PREFIX)
  }

  /** What becomes a reference to `n` was one to a schema whose name becomes `n`. */
  lemma RefWas(q: string, n: string) returns (m: string)
    requires UpgradeRef(q) == PREFIX + n
    ensures (q == OLD + m || q == PREFIX + m) && UpgradeRef(m) == n
  {
    PrefixesApart();
    if !(OLD <= q) {
      NotPrefix(q, OLD);
      OtherStays(q, OLD, PREFIX, n);
    }
    m := if OLD <= q then q[|OLD|..] else q[|PREFIX|..];
    assert q == OLD + m || q == PREFIX + m;
    NameRenamed(m);
    SameTail(PREFIX, UpgradeRef(m), n);
  }

  /** What `refs` finds afterwards are the names that were referenced before, each converted like
      a reference. */
  lemma EdgesRenamed(x: Value, n: string)
    requires NoNested(x) && !x.List?
    ensures n in Refs(Upgrade(x)) <==> Upgraded(Targets(x), n)
  {
    NothingHidden(x);
    UpgradeRefs(x, PREFIX + n);
    if Upgraded(Visible(x), PREFIX + n) {
      var q :| q in Visible(x) && UpgradeRef(q) == PREFIX + n;
      VisibleIsRaw(x, q);
      var m := RefWas(q, n);
      assert m in Targets(x);
    }
    if Upgraded(Targets(x), n) {
      var m :| m in Targets(x) && UpgradeRef(m) == n;
      NameRenamed(m);
      VisibleIsRaw(x, OLD + m);
      VisibleIsRaw(x, PREFIX + m);
    }
  }

  /** The conversion keeps the references of a schema, exactly when none of the names has an old
      reference in it. */
  lemma EdgesKeptIff(x: Value)
    requires NoNested(x) && !x.List?
    ensures Refs(Upgrade(x)) == Targets(x) <==> forall n | n in Targets(x) :: !IsOld(n)
  {
    forall n ensures n in Refs(Upgrade(x)) <==> Upgraded(Targets(x), n) {
      EdgesRenamed(x, n);
    }
    if forall n | n in Targets(x) :: !IsOld(n) {
      forall n ensures Upgraded(Targets(x), n) <==> n in Targets(x) {
        if n in Targets(x) { NotOldSame(n); }
        if m :| m in Targets(x) && UpgradeRef(m) == n { NotOldSame(m); }
      }
    } else {
      var n :| n in Targets(x) && IsOld(n);
      OldNotTarget(Targets(x), n);
    }
  }

  lemma OldNotTarget(names: set<string>, n: string)
    requires IsOld(n)
    ensures !Upgraded(names, n)
  {
    if m :| m in names && UpgradeRef(m) == n { UpgradedNotOld(m); }
  }

  /** Otherwise a reference changes the schema it names: `a#/definitions/b`, whatever `a` and `b`
      are, becomes another name. */
  lemma EdgeChanges(a: string, b: string)
    ensures var x, n := Obj([Field(REF, Str(OLD + (a + OLD + b)))]), a + OLD + b;
            Targets(x) == {n} && Refs(Upgrade(x)) == {UpgradeRef(n)} && UpgradeRef(n) != n
  {
    var n := a + OLD + b;
    var x := Obj([Field(REF, Str(OLD + n))]);
    OneRef(OLD + n);
    OneTarget(x, n);
    StandsBetween(a, OLD, b);
    UpgradedNotOld(n);
    forall m ensures m in Refs(Upgrade(x)) <==> m == UpgradeRef(n) {
      EdgesRenamed(x, m);
    }
  }

  lemma OneRef(r: string)
    ensures var x := Obj([Field(REF, Str(r))]); Raw(x) == {r} && NoNested(x)
  {
    var fs := [Field(REF, Str(r))];
    forall q ensures q in Raw(Obj(fs)) <==> q == r {
      RawObj(fs, q);
      assert fs[0] == Field(REF, Str(r)) && OfField(fs[0]) == {r};
    }
  }

  lemma OneTarget(x: Value, n: string)
    requires Raw(x) == {OLD + n}
    ensures Targets(x) == {n}
  {
    forall m ensures m in Targets(x) <==> m == n {
      SameTail(OLD, m, n);
      FormsDiffer(m, n);
    }
  }

  lemma FormsDiffer(m: string, n: string)
    ensures PREFIX + m != OLD + n
  {
    assert (PREFIX + m)[2] == 'c' && (OLD + n)[2] == 'd';
  }

  /** Every reference is visible or hidden. */
  lemma {:induction false} VisibleIsRaw(x: Value, r: string)
    ensures r in Raw(x) <==> r in Visible(x) || r in Hidden(x)
    decreases x
  {
    if x.Obj? {
      forall i | 0 <= i < |x.fields|
        ensures r in Raw(x.fields[i].value) <==> r in VisibleIn(x.fields[i].value) || r in HiddenIn(x.fields[i].value)
      {
        var v := x.fields[i].value;
        if v.Obj? { VisibleIsRaw(v, r); }
        if v.List? {
          forall j | 0 <= j < |v.items| ensures r in Raw(v.items[j]) <==> r in Visible(v.items[j]) || r in Hidden(v.items[j]) {
            VisibleIsRaw(v.items[j], r);
          }
        }
      }
    }
  }

  function UpgradeAll(schemas: Schemas): (up: Schemas)
    ensures up.Keys == schemas.Keys && forall n | n in schemas :: up[n] == Upgrade(schemas[n])
  {
    map n | n in schemas :: Upgrade(schemas[n])
  }

  /** The reference graph before the conversion. */
  function TargetGraph(schemas: Schemas): (g: Graph)
    ensures g.Keys == schemas.Keys && forall n | n in schemas :: g[n] == Targets(schemas[n])
  {
    map n | n in schemas :: Targets(schemas[n])
  }

  ghost predicate AllFlat(schemas: Schemas) {
    forall m | m in schemas :: NoNested(schemas[m]) && !schemas[m].List?
  }

  /** The graph `h` has the edges of `g`, with the names converted. */
  ghost predicate Renames(g: Graph, h: Graph) {
    g.Keys == h.Keys && forall m, n :: m in g ==> (n in h[m] <==> Upgraded(g[m], n))
  }

  /** A schema that is reached references a name with an old reference in it only if that name is
      a root anyway, and what it becomes is reached anyway. */
  ghost predicate Harmless(roots: set<string>, g: Graph) {
    forall m, n | m in g && Reached(m, roots, g) && n in g[m] && IsOld(n) ::
      n in roots && Reached(UpgradeRef(n), roots, g)
  }

  ghost predicate SameReached(roots: set<string>, g: Graph, h: Graph) {
    forall n :: Reached(n, roots, h) <==> Reached(n, roots, g)
  }

  /** Afterwards no old name is reached that is not a root. */
  lemma OldNotReached(n: string, roots: set<string>, g: Graph, h: Graph)
    requires Renames(g, h) && IsOld(n) && Reached(n, roots, h)
    ensures n in roots
  {
    var s := Least(roots, h);
    if n !in roots {
      forall m | m in s - {n} && m in h ensures h[m] <= s - {n} {
        OldNotTarget(g[m], n);
      }
      assert Closed(s - {n}, roots, h);
    }
  }

  lemma KeptHarmless(roots: set<string>, g: Graph, h: Graph)
    requires Renames(g, h) && SameReached(roots, g, h)
    ensures Harmless(roots, g)
  {
    forall m, n | m in g && Reached(m, roots, g) && n in g[m] && IsOld(n)
      ensures n in roots && Reached(UpgradeRef(n), roots, g)
    {
      RefsReached(m, roots, g);
      OldNotReached(n, roots, g, h);
      assert Upgraded(g[m], UpgradeRef(n));
      assert UpgradeRef(n) in h[m];
      RefsReached(m, roots, h);
    }
  }

  /** The names reached before are closed under the references afterwards. */
  lemma HarmlessClosed(s: set<string>, roots: set<string>, g: Graph, h: Graph)
    requires Renames(g, h) && Harmless(roots, g) && Closed(s, roots, g) && AllReached(s, roots, g)
    ensures Closed(s, roots, h)
  {
    forall m, n | m in s && m in h && n in h[m] ensures n in s {
      var q :| q in g[m] && UpgradeRef(q) == n;
      if !IsOld(q) { NotOldSame(q); }
    }
  }

  /** And what of them is reached afterwards is closed under the references before. */
  lemma HarmlessKept(s: set<string>, roots: set<string>, g: Graph, h: Graph)
    requires Renames(g, h) && Harmless(roots, g) && Closed(s, roots, h) && AllReached(s, roots, h)
    requires AllReached(s, roots, g)
    ensures Closed(s, roots, g)
  {
    forall m, n | m in s && m in g && n in g[m] ensures n in s {
      if !IsOld(n) {
        NotOldSame(n);
        assert Upgraded(g[m], n);
      }
    }
  }

  lemma HarmlessSame(roots: set<string>, g: Graph, h: Graph)
    requires Renames(g, h) && Harmless(roots, g)
    ensures SameReached(roots, g, h)
  {
    var before := Least(roots, g);
    var after := Least(roots, h);
    HarmlessClosed(before, roots, g, h);
    assert after <= before;
    HarmlessKept(after, roots, g, h);
    assert before <= after;
  }

  lemma ConversionRenames(schemas: Schemas)
    requires AllFlat(schemas)
    ensures Renames(TargetGraph(schemas), GraphOf(UpgradeAll(schemas)))
  {
    forall m, n | m in schemas
      ensures n in GraphOf(UpgradeAll(schemas))[m] <==> Upgraded(TargetGraph(schemas)[m], n)
    {
      EdgesRenamed(schemas[m], n);
    }
  }

  /** The schemas reached from the roots are the same before and after, exactly when no old name
      that is referenced matters. */
  lemma ReachedKeptIff(schemas: Schemas, roots: set<string>)
    requires AllFlat(schemas)
    ensures SameReached(roots, TargetGraph(schemas), GraphOf(UpgradeAll(schemas))) <==> Harmless(roots, TargetGraph(schemas))
  {
    var g, h := TargetGraph(schemas), GraphOf(UpgradeAll(schemas));
    ConversionRenames(schemas);
    if SameReached(roots, g, h) { KeptHarmless(roots, g, h); }
    if Harmless(roots, g) { HarmlessSame(roots, g, h); }
  }
}
