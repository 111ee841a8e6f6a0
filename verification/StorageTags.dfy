/**
  The derive macros that give enums storage tags.

  Enum definitions are data. The generators turn a definition into the match arms of the generated
  code or refuse it, and the generated serializer and deserializer are interpreters of those arms
  over the serde data model: a human-readable format identifies a variant by name, any other by
  its tag, and only the former records how many fields it wrote.
  */
module StorageTags {

  // ---- Definitions ----

  /** The value of a `name = value` attribute. */
  datatype AttrValue = IntLit(n: nat) | OtherExpr

  datatype Attr = NameValue(path: string, value: AttrValue) | OtherMeta

  datatype Fields = Unit | Unnamed(count: nat) | Named

  datatype Variant = Variant(name: string, attrs: seq<Attr>, fields: Fields)

  datatype TagResult = Tag(tag: nat) | NotProvided | Invalid

  const U32_MAX: nat := 0xFFFF_FFFF

  /** `extract_storage_tag`: the first `storage_tag` attribute decides, an integer that fits a `u32`. */
  function ExtractTag(attrs: seq<Attr>): (r: TagResult) {
    if attrs == [] then NotProvided
    else if attrs[0].NameValue? && attrs[0].path == "storage_tag" then
      match attrs[0].value
      case IntLit(n) => if n <= U32_MAX then Tag(n) else Invalid
      case OtherExpr => Invalid
    else ExtractTag(attrs[1..])
  }

  predicate IsTag(a: Attr) {
    a.NameValue? && a.path == "storage_tag"
  }

  /** The first storage tag attribute decides, whatever surrounds it; there is none exactly if no tag is provided. */
  lemma {:induction false} FirstTagDecides(attrs: seq<Attr>, i: nat)
    requires i <= |attrs| && (i < |attrs| ==> IsTag(attrs[i]))
    requires forall j :: 0 <= j < i ==> !IsTag(attrs[j])
    ensures ExtractTag(attrs) ==
            if i == |attrs| then NotProvided
            else if attrs[i].value.IntLit? && attrs[i].value.n <= U32_MAX then Tag(attrs[i].value.n)
            else Invalid
    decreases attrs
  {
    if i == 0 {
    } else {
      assert attrs[1..][i - 1..] == attrs[i..];
      FirstTagDecides(attrs[1..], i - 1);
    }
  }

  // ---- Generators ----

  /** How a supported variant carries its data: zero, one or two unnamed fields. */
  function Arity(f: Fields): (n: nat)
    requires Supported(f)
    ensures n <= 2
  {
    if f.Unit? then 0 else f.count
  }

  predicate Supported(f: Fields) {
    f.Unit? || (f.Unnamed? && 1 <= f.count <= 2)
  }

  /** An arm of the generated code. */
  datatype Arm = Arm(name: string, tag: nat, arity: nat)

  function ArmOf(v: Variant): (a: Arm)
    requires ExtractTag(v.attrs).Tag? && Supported(v.fields)
  {
    Arm(v.name, ExtractTag(v.attrs).tag, Arity(v.fields))
  }

  ghost predicate DistinctTags(arms: seq<Arm>) {
    forall i, j :: 0 <= i < j < |arms| ==> arms[i].tag != arms[j].tag
  }

  ghost predicate DistinctNames(def: seq<Variant>) {
    forall i, j :: 0 <= i < j < |def| ==> def[i].name != def[j].name
  }

  /** What the macros demand of a definition. */
  ghost predicate Accepted(def: seq<Variant>) {
    && (forall i :: 0 <= i < |def| ==> ExtractTag(def[i].attrs).Tag? && Supported(def[i].fields))
    && DistinctTags(Arms(def))
  }

  ghost function Arms(def: seq<Variant>): (arms: seq<Arm>)
    requires forall i :: 0 <= i < |def| ==> ExtractTag(def[i].attrs).Tag? && Supported(def[i].fields)
    ensures |arms| == |def| && forall i :: 0 <= i < |def| ==> arms[i] == ArmOf(def[i])
  {
    seq(|def|, i requires 0 <= i < |def| => ArmOf(def[i]))
  }

  /** `serialize`: one arm per variant; panics on a missing or bad tag, a duplicate, or other fields. */
  method GenerateSerialize(def: seq<Variant>) returns (panicked: bool, arms: seq<Arm>)
    ensures panicked <==> !Accepted(def)
    ensures !panicked ==> arms == Arms(def)
  {
    panicked, arms := false, [];
    var tags: set<nat> := {};
    for k := 0 to |def|
      invariant Accepted(def[..k]) && arms == Arms(def[..k])
      invariant tags == set i | 0 <= i < k :: arms[i].tag
    {
      var v := def[k];
      assert def[..k + 1][k] == v && forall i :: 0 <= i < k ==> def[..k + 1][i] == def[..k][i];
      var tag := ExtractTag(v.attrs);
      if !tag.Tag? { return true, []; }
      if tag.tag in tags {
        DuplicateTag(def, k, arms);
        return true, [];
      }
      tags := tags + {tag.tag};
      if !Supported(v.fields) { return true, []; }
      arms := arms + [ArmOf(v)];
      assert arms == Arms(def[..k + 1]);
    }
    assert def[..|def|] == def;
  }

  lemma DuplicateTag(def: seq<Variant>, k: nat, arms: seq<Arm>)
    requires k < |def| && ExtractTag(def[k].attrs).Tag?
    requires Accepted(def[..k]) && arms == Arms(def[..k])
    requires exists i :: 0 <= i < k && arms[i].tag == ExtractTag(def[k].attrs).tag
    ensures !Accepted(def)
  {
    var i :| 0 <= i < k && arms[i].tag == ExtractTag(def[k].attrs).tag;
    assert arms[i] == ArmOf(def[..k][i]) == ArmOf(def[i]);
  }

  /** `deserialize`: arms by tag and arms by name, and whether a tuple visitor is generated. */
  method GenerateDeserialize(def: seq<Variant>)
    returns (panicked: bool, byTag: seq<Arm>, byName: seq<Arm>, tupleVisitor: bool)
    ensures panicked <==> !Accepted(def)
    ensures !panicked ==> byTag == byName == Arms(def)
    ensures !panicked ==> (tupleVisitor <==> exists i :: 0 <= i < |def| && Arms(def)[i].arity == 2)
  {
    panicked, byTag, byName, tupleVisitor := false, [], [], false;
    var tags: set<nat> := {};
    for k := 0 to |def|
      invariant Accepted(def[..k]) && byTag == byName == Arms(def[..k])
      invariant tags == set i | 0 <= i < k :: byTag[i].tag
      invariant tupleVisitor <==> exists i :: 0 <= i < k && byTag[i].arity == 2
    {
      var v := def[k];
      assert def[..k + 1][k] == v && forall i :: 0 <= i < k ==> def[..k + 1][i] == def[..k][i];
      var tag := ExtractTag(v.attrs);
      if !tag.Tag? { return true, [], [], false; }
      if tag.tag in tags {
        DuplicateTag(def, k, byTag);
        return true, [], [], false;
      }
      tags := tags + {tag.tag};
      if !Supported(v.fields) { return true, [], [], false; }
      ghost var before := byTag;
      if Arity(v.fields) == 2 { tupleVisitor := true; }
      byTag := byTag + [ArmOf(v)];
      byName := byName + [ArmOf(v)];
      assert byTag == Arms(def[..k + 1]);
      assert byTag[k].arity == Arity(v.fields) && forall i :: 0 <= i < k ==> byTag[i] == before[i];
    }
    assert def[..|def|] == def;
  }

  // ---- Generated code ----

  /** A value of the enum; field values are whatever the field types serialise. */
  datatype Value<T> = Value(variant: string, fields: seq<T>)

  /** What a format stores: how it names the variant, and the fields in order. */
  datatype Selector = ByName(name: string) | ByTag(tag: nat)

  datatype Stored<T> = Stored(selector: Selector, fields: seq<T>)

  datatype Result<T> = Ok(value: T) | Err

  function FindByName(arms: seq<Arm>, name: string): (i: nat)
    ensures i <= |arms|
    ensures i < |arms| ==> arms[i].name == name
    ensures forall k :: 0 <= k < i ==> arms[k].name != name
  {
    if arms == [] || arms[0].name == name then 0 else 1 + FindByName(arms[1..], name)
  }

  function FindByTag(arms: seq<Arm>, tag: nat): (i: nat)
    ensures i <= |arms|
    ensures i < |arms| ==> arms[i].tag == tag
    ensures forall k :: 0 <= k < i ==> arms[k].tag != tag
  {
    if arms == [] || arms[0].tag == tag then 0 else 1 + FindByTag(arms[1..], tag)
  }

  /** A value of the enum `arms` was generated for. */
  predicate IsValue<T>(arms: seq<Arm>, v: Value<T>) {
    var i := FindByName(arms, v.variant);
    i < |arms| && arms[i].arity == |v.fields|
  }

  /** The generated `Serialize`: one call with the tag and the name; the format keeps one of them. */
  function Serialize<T>(arms: seq<Arm>, human: bool, v: Value<T>): (s: Stored<T>)
    requires IsValue(arms, v)
  {
    var arm := arms[FindByName(arms, v.variant)];
    Stored(if human then ByName(arm.name) else ByTag(arm.tag), v.fields)
  }

  /**
    `unit_variant`, `newtype_variant` or `tuple_variant` with the two-element visitor. A
    human-readable format checks the shape; any other hands out the next `arity` fields it holds.
    */
  function ReadFields<T>(human: bool, arity: nat, fields: seq<T>): (r: Result<seq<T>>) {
    if human then if |fields| == arity then Ok(fields) else Err
    else if |fields| >= arity then Ok(fields[..arity])
    else Err
  }

  /** The body of arm `i`, or the catch-all after the last one. */
  function ReadArm<T>(human: bool, arms: seq<Arm>, i: nat, fields: seq<T>): (r: Result<Value<T>>)
    requires i <= |arms|
  {
    if i == |arms| then Err
    else
      match ReadFields(human, arms[i].arity, fields)
      case Ok(read) => Ok(Value(arms[i].name, read))
      case Err => Err
  }

  /** The generated `Deserialize`: the visitor for the format's kind, then the arm's fields. */
  function Deserialize<T>(byTag: seq<Arm>, byName: seq<Arm>, human: bool, s: Stored<T>): (r: Result<Value<T>>) {
    match s.selector
    case ByName(name) => if human then ReadArm(human, byName, FindByName(byName, name), s.fields) else Err
    case ByTag(tag) => if human then Err else ReadArm(human, byTag, FindByTag(byTag, tag), s.fields)
  }

  // ---- Round trip and evolution ----

  lemma FindArm(arms: seq<Arm>, i: nat)
    requires i < |arms| && DistinctTags(arms)
    ensures FindByTag(arms, arms[i].tag) == i
  {
  }

  /** The enum read with still has the variant, under the same tag and with the same fields. */
  ghost predicate Shared(def: seq<Variant>, arm: Arm)
    requires Accepted(def)
  {
    arm in Arms(def)
  }

  /** The arm a value is written with. */
  function ArmFor<T>(arms: seq<Arm>, v: Value<T>): (a: Arm)
    requires IsValue(arms, v)
  {
    arms[FindByName(arms, v.variant)]
  }

  /**
    Storage is stable under evolution. A value stored with one definition reads back the same with
    another, in any format without names, if and only if the other still has that variant with the
    same name, tag and number of fields. The order of variants and the variants around it do not
    matter, and Rust already forbids two variants of one name.
    */
  lemma StableIff<T>(old': seq<Variant>, new': seq<Variant>, v: Value<T>)
    requires Accepted(old') && Accepted(new') && IsValue(Arms(old'), v)
    ensures Deserialize(Arms(new'), Arms(new'), false, Serialize(Arms(old'), false, v)) == Ok(v)
       <==> Shared(new', ArmFor(Arms(old'), v))
  {
    var arm := ArmFor(Arms(old'), v);
    var arms := Arms(new');
    var i := FindByTag(arms, arm.tag);
    if Shared(new', arm) {
      var k :| 0 <= k < |arms| && arms[k] == arm;
      FindArm(arms, k);
      assert v.fields[..arm.arity] == v.fields;
    }
    if Deserialize(arms, arms, false, Serialize(Arms(old'), false, v)) == Ok(v) {
      assert arms[i].name == v.variant && |v.fields[..arms[i].arity]| == arms[i].arity;
      assert arms[i] == arm;
    }
  }

  /** By name, a value reads back the same if and only if the variant has kept its number of fields. */
  lemma StableByNameIff<T>(old': seq<Variant>, new': seq<Variant>, v: Value<T>)
    requires Accepted(old') && Accepted(new') && DistinctNames(new') && IsValue(Arms(old'), v)
    ensures Deserialize(Arms(new'), Arms(new'), true, Serialize(Arms(old'), true, v)) == Ok(v)
       <==> exists k :: 0 <= k < |new'| && new'[k].name == v.variant && Arity(new'[k].fields) == |v.fields|
  {
    var arms := Arms(new');
    var i := FindByName(arms, v.variant);
    if k :| 0 <= k < |new'| && new'[k].name == v.variant && Arity(new'[k].fields) == |v.fields| {
      assert arms[k].name == v.variant;
      assert i < |arms| && new'[i].name == v.variant;
      assert i == k;
    }
    if Deserialize(arms, arms, true, Serialize(Arms(old'), true, v)) == Ok(v) {
      assert arms[i] == ArmOf(new'[i]);
    }
  }

  /** For every definition the macros accept, reading undoes writing, in both kinds of format. */
  lemma RoundTrip<T>(def: seq<Variant>, human: bool, v: Value<T>)
    requires Accepted(def) && DistinctNames(def) && IsValue(Arms(def), v)
    ensures Deserialize(Arms(def), Arms(def), human, Serialize(Arms(def), human, v)) == Ok(v)
  {
    if human {
      var i := FindByName(Arms(def), v.variant);
      assert Arms(def)[i] == ArmOf(def[i]);
      StableByNameIff(def, def, v);
    } else {
      StableIff(def, def, v);
    }
  }

  /** The same variant as far as storage goes, whatever its other attributes say. */
  predicate SameVariant(v: Variant, w: Variant) {
    v.name == w.name && ExtractTag(v.attrs) == ExtractTag(w.attrs) && v.fields == w.fields
  }

  /** Reordering variants and adding fresh ones never changes how a shared variant is read. */
  lemma EvolutionKeepsReading<T>(old': seq<Variant>, new': seq<Variant>, human: bool, v: Value<T>)
    requires Accepted(old') && Accepted(new') && DistinctNames(old') && DistinctNames(new')
    requires IsValue(Arms(old'), v)
    requires forall i :: 0 <= i < |old'| && old'[i].name == v.variant ==>
               exists w :: w in new' && SameVariant(old'[i], w)
    ensures Deserialize(Arms(new'), Arms(new'), human, Serialize(Arms(old'), human, v)) == Ok(v)
  {
    var i := FindByName(Arms(old'), v.variant);
    assert Arms(old')[i] == ArmOf(old'[i]);
    var w :| w in new' && SameVariant(old'[i], w);
    var k :| 0 <= k < |new'| && new'[k] == w;
    assert Arms(new')[k] == ArmOf(w) == ArmOf(old'[i]);
    if human {
      StableByNameIff(old', new', v);
    } else {
      StableIff(old', new', v);
    }
  }

  /** Tags moved between variants are read as the wrong variant, not refused. */
  lemma SwappedTagsMisread<T>(x: T)
    ensures var old' := [Variant("A", [NameValue("storage_tag", IntLit(0))], Unnamed(1)),
                         Variant("B", [NameValue("storage_tag", IntLit(1))], Unnamed(1))];
            var new' := [Variant("A", [NameValue("storage_tag", IntLit(1))], Unnamed(1)),
                         Variant("B", [NameValue("storage_tag", IntLit(0))], Unnamed(1))];
            && Accepted(old') && Accepted(new') && IsValue(Arms(old'), Value("A", [x]))
            && Deserialize(Arms(new'), Arms(new'), false, Serialize(Arms(old'), false, Value("A", [x]))) ==
               Ok(Value("B", [x]))
  {
    var old' := [Variant("A", [NameValue("storage_tag", IntLit(0))], Unnamed(1)),
                 Variant("B", [NameValue("storage_tag", IntLit(1))], Unnamed(1))];
    var new' := [Variant("A", [NameValue("storage_tag", IntLit(1))], Unnamed(1)),
                 Variant("B", [NameValue("storage_tag", IntLit(0))], Unnamed(1))];
    assert Arms(old') == [Arm("A", 0, 1), Arm("B", 1, 1)];
    assert Arms(new') == [Arm("A", 1, 1), Arm("B", 0, 1)];
    FindArm(Arms(new'), 1);
    assert [x][..1] == [x];
  }
}
