/** The version manifest: a closed-shape document, its canonical bytes and their hash. */
module Manifest {
  import opened Options
  import opened Text
  import opened Json
  import Identity

  // ---------------------------------------------------------------- values

  /** A decoded metadata value. */
  datatype Value =
    | NullValue
    | BoolValue(b: bool)
    | NumberValue(text: string)
    | Text(s: string)
    | List(items: seq<Value>)
    | Block(entries: map<string, Value>)

  type Metadata = map<string, Value>

  /** The decoder's reading of a value: of repeated keys the last one stands. */
  function FromJson(j: Json): Value
    decreases j, 0
  {
    match j
    case Null => NullValue
    case Bool(b) => BoolValue(b)
    case Number(text) => NumberValue(text)
    case Str(s) => Text(s)
    case Array(items) => List(FromItems(items))
    case Object(members) => Block(FromMembers(members))
  }

  function FromItems(items: seq<Json>): (r: seq<Value>)
    ensures |r| == |items|
    decreases items, 1
  {
    if items == [] then [] else [FromJson(items[0])] + FromItems(items[1..])
  }

  function FromMembers(members: seq<Member>): Metadata
    decreases members, 1
  {
    if members == [] then map[]
    else FromMembers(members[..|members| - 1])[members[|members| - 1].key := FromJson(members[|members| - 1].value)]
  }

  // ---------------------------------------------------------------- sorted keys

  predicate IsLeast(k: string, keys: set<string>) {
    k in keys && forall x :: x in keys ==> !StringLess(x, k)
  }

  lemma {:induction false} LeastExists(keys: set<string>)
    requires keys != {}
    ensures exists k :: IsLeast(k, keys)
  {
    var any :| any in keys;
    var rest := keys - {any};
    if rest == {} {
      StringLessAsymmetric(any, any);
      assert forall x :: x in keys ==> x == any by {
        forall x | x in keys ensures x == any { assert x !in rest; }
      }
      assert IsLeast(any, keys);
    } else {
      LeastExists(rest);
      var least :| IsLeast(least, rest);
      var k := if StringLess(any, least) then any else least;
      forall x | x in keys ensures !StringLess(x, k) {
        StringLessAsymmetric(any, least);
        StringLessAsymmetric(x, x);
        if x != any && k == any && StringLess(x, any) {
          StringLessBetween(x, any, least);
        }
      }
      assert IsLeast(k, keys);
    }
  }

  lemma LeastUnique(keys: set<string>)
    ensures forall a, b :: IsLeast(a, keys) && IsLeast(b, keys) ==> a == b
  {
    forall a, b | IsLeast(a, keys) && IsLeast(b, keys) ensures a == b {
      StringLessTotal(a, b);
    }
  }

  /** The smallest key. */
  function Least(keys: set<string>): (k: string)
    requires keys != {}
    ensures IsLeast(k, keys)
  {
    LeastExists(keys);
    LeastUnique(keys);
    var k :| IsLeast(k, keys);
    k
  }

  /** The keys in ascending order. */
  function SortedKeys(keys: set<string>): (r: seq<string>)
    ensures forall k :: k in r <==> k in keys
    ensures forall i, j :: 0 <= i < j < |r| ==> StringLess(r[i], r[j])
  {
    if keys == {} then []
    else
      var k := Least(keys);
      var rest := SortedKeys(keys - {k});
      assert forall j :: 0 <= j < |rest| ==> rest[j] in keys - {k};
      assert forall x :: x in keys && x != k ==> StringLess(k, x) by {
        forall x | x in keys && x != k ensures StringLess(k, x) { StringLessTotal(k, x); }
      }
      [k] + rest
  }

  // ---------------------------------------------------------------- writing values

  function ToJson(v: Value): Json
    decreases v, 2
  {
    match v
    case NullValue => Null
    case BoolValue(b) => Bool(b)
    case NumberValue(text) => Number(text)
    case Text(s) => Str(s)
    case List(items) => Array(ToItems(items))
    case Block(entries) => Object(ToMembers(v, SortedKeys(entries.Keys)))
  }

  function ToItems(items: seq<Value>): (r: seq<Json>)
    ensures |r| == |items| && forall i :: 0 <= i < |items| ==> r[i] == ToJson(items[i])
    decreases items, 1
  {
    if items == [] then [] else [ToJson(items[0])] + ToItems(items[1..])
  }

  /** The entries under the given keys, in that order. */
  function ToMembers(v: Value, keys: seq<string>): (r: seq<Member>)
    requires v.Block? && forall i :: 0 <= i < |keys| ==> keys[i] in v.entries
    ensures |r| == |keys|
    ensures forall i :: 0 <= i < |keys| ==> r[i] == Member(keys[i], ToJson(v.entries[keys[i]]))
    decreases v, 1, |keys|
  {
    if keys == [] then []
    else
      var last := keys[|keys| - 1];
      ToMembers(v, keys[..|keys| - 1]) + [Member(last, ToJson(v.entries[last]))]
  }

  lemma {:induction false} ItemsSurvive(items: seq<Value>)
    ensures FromItems(ToItems(items)) == items
    decreases items, 1
  {
    if items != [] {
      ValueSurvives(items[0]);
      ItemsSurvive(items[1..]);
      assert ToItems(items)[1..] == ToItems(items[1..]);
    }
  }

  lemma {:induction false} MembersSurvive(v: Value, keys: seq<string>)
    requires v.Block? && forall i :: 0 <= i < |keys| ==> keys[i] in v.entries
    ensures FromMembers(ToMembers(v, keys)) == map k | k in v.entries && k in keys :: v.entries[k]
    decreases v, 1, |keys|
  {
    if keys != [] {
      var before, last := keys[..|keys| - 1], keys[|keys| - 1];
      assert keys == before + [last];
      MembersSurvive(v, before);
      ValueSurvives(v.entries[last]);
      assert ToMembers(v, keys)[..|before|] == ToMembers(v, before);
    }
  }

  lemma AllKeys(entries: Metadata, keys: seq<string>)
    requires keys == SortedKeys(entries.Keys)
    ensures (map k | k in entries && k in keys :: entries[k]) == entries
  {
    hide SortedKeys;
  }

  /** Decoding what was encoded gives every value back. */
  lemma {:induction false} ValueSurvives(v: Value)
    ensures FromJson(ToJson(v)) == v
    decreases v, 2
  {
    hide SortedKeys, ToMembers, FromMembers, ToItems, FromItems;
    match v
    case List(items) => ItemsSurvive(items);
    case Block(entries) =>
      MembersSurvive(v, SortedKeys(entries.Keys));
      AllKeys(entries, SortedKeys(entries.Keys));
    case _ =>
  }

  // ---------------------------------------------------------------- the document

  /** The manifest value; an absent collection is not an empty one until it is normalised. */
  datatype Manifest = Manifest(version: int, assetType: string, metadata: Option<Metadata>, dependencyPins: Option<seq<string>>) {
    function Block(): Metadata {
      if metadata.Some? then metadata.value else map[]
    }

    function Pins(): seq<string> {
      if dependencyPins.Some? then dependencyPins.value else []
    }

    /** The value with the absent collections made the empty ones they mean. */
    function Normalized(): Manifest {
      Manifest(version, assetType, Some(Block()), Some(Pins()))
    }
  }

  const FORMAT_VERSION := 1
  const ZERO := Manifest(0, "", None, None)

  function IntText(n: int): string {
    if n >= 0 then Decimal(n) else "-" + Decimal(-n)
  }

  function PinItems(pins: seq<string>): (r: seq<Json>)
    ensures |r| == |pins| && forall i :: 0 <= i < |pins| ==> r[i] == Str(pins[i])
  {
    seq(|pins|, i requires 0 <= i < |pins| => Str(pins[i]))
  }

  function ToDocument(m: Manifest): Json {
    Object([ Member("version", Number(IntText(m.version))),
             Member("asset_type", Str(m.assetType)),
             Member("metadata", ToJson(Block(m.Block()))),
             Member("dependency_pins", Array(PinItems(m.Pins()))) ])
  }

  /** The canonical bytes: fields in declaration order, metadata keys ascending. */
  function CanonicalJson(m: Manifest): string {
    Print(ToDocument(m))
  }

  // ---------------------------------------------------------------- decoding

  datatype Field = VersionField | AssetTypeField | MetadataField | PinsField

  /** Simple case folding, as far as it can reach an ASCII letter. */
  function FoldChar(c: char): char {
    if 'A' <= c <= 'Z' then (c as int + 32) as char
    else if c == '\U{017F}' then 's'
    else if c == '\U{212A}' then 'k'
    else c
  }

  function Fold(s: string): string {
    seq(|s|, i requires 0 <= i < |s| => FoldChar(s[i]))
  }

  /** The field a member name selects; names are matched without regard to case. */
  function FieldOf(name: string): Option<Field> {
    var f := Fold(name);
    if f == "version" then Some(VersionField)
    else if f == "asset_type" then Some(AssetTypeField)
    else if f == "metadata" then Some(MetadataField)
    else if f == "dependency_pins" then Some(PinsField)
    else None
  }

  /** The 64-bit integer a literal denotes, if it is one. */
  function ParseInt(text: string): Option<int> {
    var negative := text != "" && text[0] == '-';
    var digits := if negative then text[1..] else text;
    if digits == "" || !AllDigits(digits) then None
    else
      var n := if negative then 0 - DecimalValue(digits) else DecimalValue(digits) as int;
      if -0x8000_0000_0000_0000 <= n < 0x8000_0000_0000_0000 then Some(n) else None
  }

  function DecodePins(items: seq<Json>): Option<seq<string>> {
    if items == [] then Some([])
    else
      var before, last := DecodePins(items[..|items| - 1]), items[|items| - 1];
      if before.None? then None
      else if last.Str? then Some(before.value + [last.s])
      else if last.Null? then Some(before.value + [""])
      else None
  }

  /** One member, decoded into the value read so far; an unknown member is refused. */
  function DecodeMember(m: Manifest, member: Member): Option<Manifest> {
    var v := member.value;
    match FieldOf(member.key)
    case None => None
    case Some(VersionField) =>
      if v.Null? then Some(m)
      else if v.Number? && ParseInt(v.text).Some? then Some(m.(version := ParseInt(v.text).value))
      else None
    case Some(AssetTypeField) =>
      if v.Null? then Some(m) else if v.Str? then Some(m.(assetType := v.s)) else None
    case Some(MetadataField) =>
      if v.Null? then Some(m.(metadata := None))
      else if v.Object? then Some(m.(metadata := Some(m.Block() + FromMembers(v.members))))
      else None
    case Some(PinsField) =>
      if v.Null? then Some(m.(dependencyPins := None))
      else if v.Array? && DecodePins(v.items).Some? then Some(m.(dependencyPins := DecodePins(v.items)))
      else None
  }

  function DecodeMembers(members: seq<Member>): Option<Manifest> {
    if members == [] then Some(ZERO)
    else
      var before := DecodeMembers(members[..|members| - 1]);
      if before.None? then None else DecodeMember(before.value, members[|members| - 1])
  }

  function Decode(j: Json): Option<Manifest> {
    match j
    case Null => Some(ZERO)
    case Object(members) => DecodeMembers(members)
    case _ => None
  }

  lemma {:induction false} PinsSurvive(pins: seq<string>)
    ensures DecodePins(PinItems(pins)) == Some(pins)
  {
    if pins != [] {
      var before := pins[..|pins| - 1];
      PinsSurvive(before);
      assert PinItems(pins)[..|before|] == PinItems(before);
      assert pins == before + [pins[|pins| - 1]];
    }
  }

  lemma FieldNames()
    ensures FieldOf("version") == Some(VersionField) && FieldOf("asset_type") == Some(AssetTypeField)
    ensures FieldOf("metadata") == Some(MetadataField) && FieldOf("dependency_pins") == Some(PinsField)
  {
    assert Fold("version") == "version" && Fold("asset_type") == "asset_type";
    assert Fold("metadata") == "metadata" && Fold("dependency_pins") == "dependency_pins";
  }

  lemma IntSurvives(n: nat)
    requires n < 0x8000_0000_0000_0000
    ensures ParseInt(IntText(n)) == Some(n) && PlainNumber(IntText(n))
  {
    DecimalRoundTrip(n);
  }

  /** Decoding the canonical document gives the normalised manifest back. */
  lemma DocumentSurvives(m: Manifest)
    requires 0 <= m.version < 0x8000_0000_0000_0000
    ensures Decode(ToDocument(m)) == Some(m.Normalized())
  {
    hide ToJson, FromMembers, PinItems, DecodePins, IntText, ParseInt, FieldOf;
    FieldNames();
    IntSurvives(m.version);
    PinsSurvive(m.Pins());
    var block := ToJson(Block(m.Block()));
    BlockIsObject(m.Block());
    var ms := ToDocument(m).members;
    var m1 := ZERO.(version := m.version);
    var m2 := m1.(assetType := m.assetType);
    var m3 := m2.(metadata := Some(m.Block()));
    assert ms[..1] == [ms[0]] && ms[..0] == [] && ms[..1][..0] == [];
    assert DecodeMembers(ms[..1]) == Some(m1);
    assert ms[..2][..1] == ms[..1];
    assert DecodeMembers(ms[..2]) == Some(m2);
    assert ms[..3][..2] == ms[..2];
    assert map[] + m.Block() == m.Block();
    assert DecodeMembers(ms[..3]) == Some(m3);
  }

  lemma BlockIsObject(entries: Metadata)
    ensures ToJson(Block(entries)).Object? && FromMembers(ToJson(Block(entries)).members) == entries
  {
    ValueSurvives(Block(entries));
  }

  // ---------------------------------------------------------------- shapes

  datatype Shape = TextShape | ListShape | ObjectShape

  predicate NonBlankText(v: Value) {
    v.Text? && Identity.Trim(v.s) != ""
  }

  /** The shape of a metadata value, if it is one of the three a manifest may hold. */
  function Classify(v: Value): Option<Shape> {
    match v
    case Text(s) => if NonBlankText(v) then Some(TextShape) else None
    case List(items) =>
      if items != [] && forall i :: 0 <= i < |items| ==> NonBlankText(items[i]) then Some(ListShape) else None
    case Block(entries) =>
      if entries != map[] && forall k :: k in entries ==> Classify(entries[k]).Some? && !entries[k].Block?
      then Some(ObjectShape) else None
    case _ => None
  }

  datatype Requirement = NeedsShape(shape: Shape) | NeedsOneOf(values: seq<string>)

  datatype RequiredField = RequiredField(key: string, needs: Requirement)

  predicate KnownType(t: string) {
    t == "dataset" || t == "protocol" || t == "material_collection" || t == "benchmark"
  }

  /** The metadata an asset type requires, in declaration order. */
  function RequiredMetadata(assetType: string): seq<RequiredField> {
    var text, list := NeedsShape(TextShape), NeedsShape(ListShape);
    if assetType == "dataset" then
      [ RequiredField("purpose", text), RequiredField("data_type", text), RequiredField("blob_ids", list),
        RequiredField("access_level", NeedsOneOf(["open", "restricted"])), RequiredField("quality_notes", text) ]
    else if assetType == "protocol" then
      [ RequiredField("purpose", text), RequiredField("domain", text), RequiredField("steps", list),
        RequiredField("parameters", NeedsShape(ObjectShape)), RequiredField("requirements", list) ]
    else if assetType == "material_collection" then
      [ RequiredField("purpose", text), RequiredField("member_refs", list),
        RequiredField("selection_criteria", text), RequiredField("custodian", text) ]
    else if assetType == "benchmark" then
      [ RequiredField("purpose", text), RequiredField("task", text), RequiredField("metrics", list), RequiredField("dataset_refs", list) ]
    else []
  }

  /** A value satisfies a requirement. */
  predicate Satisfies(v: Value, needs: Requirement) {
    && Classify(v).Some?
    && match needs
       case NeedsShape(shape) => Classify(v).value == shape
       case NeedsOneOf(values) => v.Text? && v.s in values
  }

  /** The table, as the key order and the shape of each type's required metadata. */
  lemma RequiredTable()
    ensures var text, list := NeedsShape(TextShape), NeedsShape(ListShape);
            && RequiredMetadata("material_collection")
               == [RequiredField("purpose", text), RequiredField("member_refs", list), RequiredField("selection_criteria", text), RequiredField("custodian", text)]
            && RequiredMetadata("benchmark")
               == [RequiredField("purpose", text), RequiredField("task", text), RequiredField("metrics", list), RequiredField("dataset_refs", list)]
  {
  }

  lemma RequiredTableToo()
    ensures var text, list := NeedsShape(TextShape), NeedsShape(ListShape);
            && RequiredMetadata("dataset")
               == [RequiredField("purpose", text), RequiredField("data_type", text), RequiredField("blob_ids", list),
                   RequiredField("access_level", NeedsOneOf(["open", "restricted"])), RequiredField("quality_notes", text)]
            && RequiredMetadata("protocol")
               == [RequiredField("purpose", text), RequiredField("domain", text), RequiredField("steps", list),
                   RequiredField("parameters", NeedsShape(ObjectShape)), RequiredField("requirements", list)]
  {
  }

  /** A text that is not blank, and a list of such texts that is not empty. */
  ghost predicate IsText(v: Value) {
    v.Text? && Identity.Trim(v.s) != ""
  }

  ghost predicate IsTextList(v: Value) {
    v.List? && v.items != [] && forall i :: 0 <= i < |v.items| ==> IsText(v.items[i])
  }

  /** The three shapes a manifest may hold: a text, a list of texts, or an object of these. */
  lemma ClassifyExactly(v: Value)
    ensures Classify(v) == Some(TextShape) <==> IsText(v)
    ensures Classify(v) == Some(ListShape) <==> IsTextList(v)
    ensures Classify(v) == Some(ObjectShape)
       <==> v.Block? && v.entries != map[] && forall k :: k in v.entries ==> IsText(v.entries[k]) || IsTextList(v.entries[k])
  {
    hide Identity.Trim;
    if v.Block? {
      forall k | k in v.entries
        ensures Classify(v.entries[k]).Some? && !v.entries[k].Block? <==> IsText(v.entries[k]) || IsTextList(v.entries[k])
      {
        if !v.entries[k].Block? {
          FlatShape(v.entries[k]);
        }
      }
    } else {
      FlatShape(v);
    }
  }

  lemma FlatShape(v: Value)
    requires !v.Block?
    ensures Classify(v) == Some(TextShape) <==> IsText(v)
    ensures Classify(v) == Some(ListShape) <==> IsTextList(v)
    ensures Classify(v) != Some(ObjectShape)
  {
    hide Identity.Trim;
    if v.List? {
      assert forall i :: 0 <= i < |v.items| ==> (NonBlankText(v.items[i]) <==> IsText(v.items[i]));
    }
  }

  /** What each requirement asks of a value. */
  lemma SatisfiesExactly(v: Value, needs: Requirement)
    ensures needs == NeedsShape(TextShape) ==> (Satisfies(v, needs) <==> IsText(v))
    ensures needs == NeedsShape(ListShape) ==> (Satisfies(v, needs) <==> IsTextList(v))
    ensures needs.NeedsOneOf? ==> (Satisfies(v, needs) <==> IsText(v) && v.s in needs.values)
  {
    hide Classify, Identity.Trim;
    ClassifyExactly(v);
    assert v.Text? && Classify(v).Some? ==> Classify(v).value.TextShape?;
  }

  // ---------------------------------------------------------------- refusals

  datatype Code =
    | InvalidPid | InvalidVersionLabel | MissingProvenance | InvalidProvenanceRef | UnpinnedSource
    | MissingRights | InvalidRights | InvalidVisibility | InvalidIntegrityHash | IntegrityHashMismatch
    | NoContributors | DuplicateCreatorId | MalformedManifest | UnsupportedManifestVersion | UnknownAssetType
    | ManifestTypeMismatch | MissingMetadata | InvalidMetadataValue | InvalidDependencyPin
    | DuplicateDependencyPin | SelfDependencyPin

  /** One broken rule: its stable code and the field it is about. */
  datatype Refusal = Refusal(code: Code, field: string)

  function RequiredRefusal(metadata: Metadata, f: RequiredField): seq<Refusal> {
    if f.key !in metadata || metadata[f.key].NullValue? then [Refusal(MissingMetadata, "metadata." + f.key)]
    else if !Satisfies(metadata[f.key], f.needs) then [Refusal(InvalidMetadataValue, "metadata." + f.key)]
    else []
  }

  function RequiredRefusals(metadata: Metadata, fields: seq<RequiredField>): seq<Refusal> {
    if fields == [] then []
    else RequiredRefusals(metadata, fields[..|fields| - 1]) + RequiredRefusal(metadata, fields[|fields| - 1])
  }

  predicate IsRequired(key: string, fields: seq<RequiredField>) {
    exists i :: 0 <= i < |fields| && fields[i].key == key
  }

  function ExtraRefusals(metadata: Metadata, fields: seq<RequiredField>, keys: seq<string>): seq<Refusal>
    requires forall i :: 0 <= i < |keys| ==> keys[i] in metadata
  {
    if keys == [] then []
    else
      var key := keys[|keys| - 1];
      ExtraRefusals(metadata, fields, keys[..|keys| - 1]) +
      if IsRequired(key, fields) || Classify(metadata[key]).Some? then [] else [Refusal(InvalidMetadataValue, "metadata." + key)]
  }

  function MetadataRefusals(m: Manifest): seq<Refusal> {
    var fields := RequiredMetadata(m.assetType);
    RequiredRefusals(m.Block(), fields) + ExtraRefusals(m.Block(), fields, SortedKeys(m.Block().Keys))
  }

  function PinRefusals(errors: seq<Identity.PinError>): (r: seq<Refusal>)
    ensures |r| == |errors|
  {
    seq(|errors|, i requires 0 <= i < |errors| =>
      Refusal(match errors[i]
              case InvalidPin(_) => InvalidDependencyPin
              case DuplicatePin(_, _) => DuplicateDependencyPin
              case SelfPin(_) => SelfDependencyPin,
              "dependency_pins[" + Decimal(errors[i].index) + "]"))
  }

  /** Every broken document rule of a manifest. */
  function Refusals(m: Manifest): seq<Refusal> {
    if m.version != FORMAT_VERSION then [Refusal(UnsupportedManifestVersion, "version")]
    else if !KnownType(m.assetType) then [Refusal(UnknownAssetType, "asset_type")]
    else MetadataRefusals(m) + PinRefusals(Identity.PinErrors(m.Pins()))
  }

  /** A manifest that may be stored and published. */
  ghost predicate Valid(m: Manifest) {
    && m.version == FORMAT_VERSION
    && KnownType(m.assetType)
    && (forall f :: f in RequiredMetadata(m.assetType) ==> f.key in m.Block() && Satisfies(m.Block()[f.key], f.needs))
    && (forall k :: k in m.Block() ==> Classify(m.Block()[k]).Some?)
    && Identity.PinsSound(m.Pins())
  }

  lemma {:induction false} RequiredRefusalsExact(metadata: Metadata, fields: seq<RequiredField>)
    ensures RequiredRefusals(metadata, fields) == []
       <==> forall f :: f in fields ==> f.key in metadata && Satisfies(metadata[f.key], f.needs)
  {
    hide Classify;
    if fields != [] {
      var before, last := fields[..|fields| - 1], fields[|fields| - 1];
      RequiredRefusalsExact(metadata, before);
      assert fields == before + [last];
      assert RequiredRefusal(metadata, last) == [] <==> last.key in metadata && Satisfies(metadata[last.key], last.needs) by {
        NullHasNoShape();
      }
    }
  }

  lemma NullHasNoShape()
    ensures Classify(NullValue).None?
  {
  }

  lemma {:induction false} ExtraRefusalsExact(metadata: Metadata, fields: seq<RequiredField>, keys: seq<string>)
    requires forall i :: 0 <= i < |keys| ==> keys[i] in metadata
    ensures ExtraRefusals(metadata, fields, keys) == []
       <==> forall i :: 0 <= i < |keys| ==> IsRequired(keys[i], fields) || Classify(metadata[keys[i]]).Some?
  {
    hide Classify, IsRequired;
    if keys != [] {
      var before := keys[..|keys| - 1];
      ExtraRefusalsExact(metadata, fields, before);
      assert forall i :: 0 <= i < |before| ==> before[i] == keys[i];
    }
  }

  /** Validation refuses nothing exactly when the document is a valid manifest. */
  lemma RefusalsExact(m: Manifest)
    ensures Refusals(m) == [] <==> Valid(m)
  {
    hide Classify, RequiredMetadata, SortedKeys, Identity.PinErrors, Identity.PinsSound, RequiredRefusals, ExtraRefusals;
    var fields, keys := RequiredMetadata(m.assetType), SortedKeys(m.Block().Keys);
    RequiredRefusalsExact(m.Block(), fields);
    ExtraRefusalsExact(m.Block(), fields, keys);
    Identity.PinErrorsExact(m.Pins());
    assert Refusals(m) == [] ==> Valid(m) by {
      if Refusals(m) == [] {
        forall k | k in m.Block() ensures Classify(m.Block()[k]).Some? {
          assert k in keys;
          var i :| 0 <= i < |keys| && keys[i] == k;
          if IsRequired(k, fields) {
            var j :| 0 <= j < |fields| && fields[j].key == k;
            assert fields[j] in fields;
          }
        }
      }
    }
  }

  /** The metadata check: the required keys in declaration order, then the extra ones in
      ascending order. */
  method ValidateMetadata(m: Manifest) returns (errors: seq<Refusal>)
    ensures errors == MetadataRefusals(m)
  {
    hide Classify, Satisfies, RequiredRefusal, IsRequired, SortedKeys, RequiredMetadata;
    var metadata, fields := m.Block(), RequiredMetadata(m.assetType);
    errors := [];
    var required: set<string> := {};
    var i := 0;
    while i < |fields|
      invariant 0 <= i <= |fields|
      invariant errors == RequiredRefusals(metadata, fields[..i])
      invariant required == set j | 0 <= j < i :: fields[j].key
    {
      assert fields[..i + 1][..i] == fields[..i];
      errors := errors + RequiredRefusal(metadata, fields[i]);
      required := required + {fields[i].key};
      i := i + 1;
    }
    assert fields[..i] == fields;
    ghost var first := errors;
    var keys := SortedKeys(metadata.Keys);
    i := 0;
    while i < |keys|
      invariant 0 <= i <= |keys|
      invariant forall j :: 0 <= j < |keys| ==> keys[j] in metadata
      invariant errors == first + ExtraRefusals(metadata, fields, keys[..i])
    {
      assert keys[..i + 1][..i] == keys[..i];
      RequiredSet(required, fields, keys[i]);
      if keys[i] !in required {
        if Classify(metadata[keys[i]]).None? {
          errors := errors + [Refusal(InvalidMetadataValue, "metadata." + keys[i])];
        }
      }
      i := i + 1;
    }
    assert keys[..i] == keys;
  }

  lemma RequiredSet(required: set<string>, fields: seq<RequiredField>, key: string)
    requires required == set j | 0 <= j < |fields| :: fields[j].key
    ensures key in required <==> IsRequired(key, fields)
  {
  }

  // ---------------------------------------------------------------- parsing

  datatype Result = Ok(manifest: Manifest) | Refused(refusals: seq<Refusal>)

  /** Reads a stored document: one JSON value of the manifest's fields that is valid. */
  function ParseManifest(raw: string): Result {
    var j := ParseDocument(raw);
    if j.None? then Refused([Refusal(MalformedManifest, "")])
    else
      var m := Decode(j.value);
      if m.None? then Refused([Refusal(MalformedManifest, "")])
      else if Refusals(m.value) != [] then Refused(Refusals(m.value))
      else Ok(m.value)
  }

  lemma {:induction false} ShapePrints(v: Value)
    requires Classify(v).Some?
    ensures Printable(ToJson(v))
  {
    hide SortedKeys, Identity.Trim;
    match v
    case Text(s) =>
    case List(items) =>
      forall i | 0 <= i < |items| ensures Printable(ToJson(items[i])) {
        assert NonBlankText(items[i]);
      }
    case Block(entries) =>
      forall k | k in entries ensures Printable(ToJson(entries[k])) {
        ShapePrints(entries[k]);
      }
      hide Classify;
      ObjectPrints(entries);
  }

  lemma ObjectPrints(entries: Metadata)
    requires forall k :: k in entries ==> Printable(ToJson(entries[k]))
    ensures Printable(ToJson(Block(entries)))
  {
    hide SortedKeys;
    var keys := SortedKeys(entries.Keys);
    forall i | 0 <= i < |keys| ensures Printable(ToJson(entries[keys[i]])) {
      assert keys[i] in keys;
    }
  }

  lemma MetadataPrints(entries: Metadata)
    requires forall k :: k in entries ==> Classify(entries[k]).Some?
    ensures Printable(ToJson(Block(entries)))
  {
    hide ToJson, Classify;
    forall k | k in entries ensures Printable(ToJson(entries[k])) {
      ShapePrints(entries[k]);
    }
    ObjectPrints(entries);
  }

  lemma DocumentPrints(m: Manifest)
    requires Valid(m)
    ensures Printable(ToDocument(m))
  {
    hide ToJson, Classify, RequiredMetadata, IntText, Identity.PinsSound;
    MetadataPrints(m.Block());
    IntSurvives(m.version);
    var pins := PinItems(m.Pins());
    assert forall i :: 0 <= i < |pins| ==> Printable(pins[i]);
    var members := ToDocument(m).members;
    assert Printable(members[0].value) && Printable(members[1].value) && Printable(members[2].value) && Printable(members[3].value);
  }

  lemma NormalizedValid(m: Manifest)
    requires Valid(m)
    ensures Valid(m.Normalized()) && CanonicalJson(m.Normalized()) == CanonicalJson(m)
  {
    hide Classify, RequiredMetadata, Identity.PinsSound, Print, ToJson;
  }

  /** The shape is closed: a member under any other name, letter case aside, is refused. */
  lemma {:induction false} UnknownMemberRefused(members: seq<Member>, i: nat)
    requires i < |members|
    requires var f := Fold(members[i].key); f != "version" && f != "asset_type" && f != "metadata" && f != "dependency_pins"
    ensures Decode(Object(members)) == None
  {
    hide Fold, FromMembers, ParseInt, DecodePins;
    if i < |members| - 1 {
      UnknownMemberRefused(members[..|members| - 1], i);
    }
  }

  /** Nothing may follow the document but blanks. */
  lemma TrailingTextRefused(j: Json, blanks: string, rest: string)
    requires Printable(j) && blanks != "" && (forall i :: 0 <= i < |blanks| ==> IsBlank(blanks[i])) && rest != "" && !IsBlank(rest[0])
    ensures ParseDocument(Print(j) + (blanks + rest)) == None
  {
    hide Print, ParseValue, Printable, ParseManifest;
    assert (blanks + rest)[0] == blanks[0];
    ValueRoundTrip(j, blanks + rest);
    PrintStart(j);
    NoBlanks(Print(j), blanks + rest);
    SkipBlanksIs(blanks, rest);
  }

  lemma {:induction false} SkipBlanksIs(blanks: string, rest: string)
    requires (forall i :: 0 <= i < |blanks| ==> IsBlank(blanks[i])) && (rest == "" || !IsBlank(rest[0]))
    ensures SkipBlanks(blanks + rest) == rest
  {
    if blanks == "" {
      assert blanks + rest == rest;
    } else {
      assert (blanks + rest)[1..] == blanks[1..] + rest;
      SkipBlanksIs(blanks[1..], rest);
    }
  }

  /** What is read is a valid manifest. */
  lemma ParsedIsValid(raw: string)
    ensures ParseManifest(raw).Ok? ==> Valid(ParseManifest(raw).manifest)
  {
    hide ParseDocument, Decode, Valid, Refusals;
    var j := ParseDocument(raw);
    if j.Some? && Decode(j.value).Some? {
      RefusalsExact(Decode(j.value).value);
    }
  }

  /** The canonical round trip: a valid manifest reads back from its canonical bytes,
      absent collections as the empty ones. */
  lemma CanonicalRoundTrip(m: Manifest)
    requires Valid(m)
    ensures ParseManifest(CanonicalJson(m)) == Ok(m.Normalized())
  {
    hide Print, ParseDocument, Valid, Refusals, Decode, ToDocument;
    DocumentPrints(m);
    DocumentRoundTrip(ToDocument(m));
    VersionOne(m);
    DocumentSurvives(m);
    NormalizedValid(m);
    RefusalsExact(m.Normalized());
  }

  lemma VersionOne(m: Manifest)
    requires Valid(m)
    ensures m.version == 1
  {
  }

  /** Equal canonical bytes are equal manifests, up to absent and empty. */
  lemma CanonicalInjective(m: Manifest, n: Manifest)
    requires Valid(m) && Valid(n) && CanonicalJson(m) == CanonicalJson(n)
    ensures m.Normalized() == n.Normalized()
  {
    hide *;
    CanonicalRoundTrip(m);
    CanonicalRoundTrip(n);
  }

  predicate PlainName(s: string) {
    forall i :: 0 <= i < |s| ==> 'a' <= s[i] <= 'z' || s[i] == '_'
  }

  /** A field's name and its colon. */
  function FieldLabel(name: string): string {
    "\"" + (name + ("\"" + ":"))
  }

  lemma FourFields(a: string, b: string, c: string, d: string, w: Json, x: Json, y: Json, z: Json)
    requires PlainName(a) && PlainName(b) && PlainName(c) && PlainName(d)
    ensures Print(Object([Member(a, w), Member(b, x), Member(c, y), Member(d, z)]))
         == "{" + (FieldLabel(a) + (Print(w) + ("," + (FieldLabel(b) + (Print(x) + ("," + (FieldLabel(c) + (Print(y) + ("," + (FieldLabel(d) + (Print(z) + "}")))))))))))
  {
    var m1, m2, m3, m4 := Member(a, w), Member(b, x), Member(c, y), Member(d, z);
    assert [m1, m2, m3, m4][1..] == [m2, m3, m4] && [m2, m3, m4][1..] == [m3, m4] && [m3, m4][1..] == [m4];
    OneMember(m4);
    MoreMembers(m3, [m4]);
    MoreMembers(m2, [m3, m4]);
    MoreMembers(m1, [m2, m3, m4]);
    assert [m3] + [m4] == [m3, m4] && [m2] + [m3, m4] == [m2, m3, m4] && [m1] + [m2, m3, m4] == [m1, m2, m3, m4];
  }

  lemma OneMember(m: Member)
    requires PlainName(m.key)
    ensures PrintMembers([m]) == FieldLabel(m.key) + (Print(m.value) + "}")
  {
    hide Print;
    PlainEscape(m.key);
    var v := Print(m.value) + "}";
    assert ("\"" + (m.key + "\"")) + (":" + v) == FieldLabel(m.key) + v;
  }

  lemma MoreMembers(m: Member, rest: seq<Member>)
    requires PlainName(m.key) && rest != []
    ensures PrintMembers([m] + rest) == FieldLabel(m.key) + (Print(m.value) + ("," + PrintMembers(rest)))
  {
    hide Print;
    PlainEscape(m.key);
    assert ([m] + rest)[1..] == rest;
    var v := Print(m.value) + ("," + PrintMembers(rest));
    assert ("\"" + (m.key + "\"")) + (":" + v) == FieldLabel(m.key) + v;
  }

  lemma FieldsArePlain()
    ensures PlainName("version") && PlainName("asset_type") && PlainName("metadata") && PlainName("dependency_pins")
  {
  }

  /** The canonical bytes, field by field: version, asset type, metadata, pins, with no blanks. */
  lemma CanonicalForm(m: Manifest)
    ensures CanonicalJson(m)
         == "{" + (FieldLabel("version") + (IntText(m.version) + ("," + (FieldLabel("asset_type") + (PrintString(m.assetType)
            + ("," + (FieldLabel("metadata") + (Print(ToJson(Block(m.Block())))
            + ("," + (FieldLabel("dependency_pins") + (Print(Array(PinItems(m.Pins()))) + "}")))))))))))
  {
    hide ToJson, PinItems, IntText, FieldLabel, PrintMembers, PrintItems, PrintString, PlainName;
    FieldsArePlain();
    FourFields("version", "asset_type", "metadata", "dependency_pins",
               Number(IntText(m.version)), Str(m.assetType), ToJson(Block(m.Block())), Array(PinItems(m.Pins())));
  }

  lemma {:induction false} PlainEscape(s: string)
    requires PlainName(s)
    ensures Escape(s) == s
  {
    if s != "" {
      PlainEscape(s[1..]);
      assert s == [s[0]] + s[1..];
    }
  }

  // ---------------------------------------------------------------- hashing

  /** The digest function; its bits are not interpreted. */
  type Digest = string -> string

  function Hash(m: Manifest, digest: Digest): string {
    digest(CanonicalJson(m))
  }

  /** The hash of stored bytes: parse, validate, render canonically, digest. */
  function ManifestHash(raw: string, digest: Digest): Option<string> {
    match ParseManifest(raw)
    case Ok(m) => Some(Hash(m, digest))
    case Refused(_) => None
  }

  /** What a publisher hashed, a verifier of the stored bytes hashes. */
  lemma StoredHashVerifies(m: Manifest, digest: Digest)
    requires Valid(m)
    ensures ManifestHash(CanonicalJson(m), digest) == Some(Hash(m, digest))
  {
    hide ParseManifest, CanonicalJson;
    CanonicalRoundTrip(m);
    NormalizedValid(m);
  }

  /** Storing what was parsed changes neither the document nor its hash, however the
      bytes that were parsed spelled it. */
  lemma ReparseStable(raw: string, digest: Digest)
    requires ParseManifest(raw).Ok?
    ensures var m := ParseManifest(raw).manifest;
            && Valid(m)
            && ParseManifest(CanonicalJson(m)) == Ok(m.Normalized())
            && ManifestHash(CanonicalJson(m), digest) == ManifestHash(raw, digest)
  {
    hide Valid, Refusals, CanonicalJson, Decode, ParseDocument;
    var m := ParseManifest(raw).manifest;
    RefusalsExact(m);
    CanonicalRoundTrip(m);
    StoredHashVerifies(m, digest);
  }
}
