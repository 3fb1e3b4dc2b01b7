/** Decoded JSON as the evidence codecs of the repository see it: objects are finite maps from field
    names, and the compact text of a value has a definite length. */
module JsonTrees {
  import Decimal

  /** The field names the codecs know, and any other. The fields of a document that was read are `Read`; what is
      proved of documents holds for other fields as well. */
  datatype Field =
    | Callbacks | CancellationObserved | CleanupComplete | DirectionField | Frames | ProbeId | ReasonField | StateField | Xruns
    | CandidateIdField | CandidateVersion | CodecFeatures | DependencySourceField | DeviceAccess | LinkageField | Probes | RuntimeBackendField
    | Kind | SchemaId | SchemaVersion | Architecture | Candidates | ContractProbes | Platform | SourceSha
    | Unknown(name: string)

  function Name(f: Field): string {
    match f
    case Callbacks => "callbacks" case CancellationObserved => "cancellation_observed"
    case CleanupComplete => "cleanup_complete" case DirectionField => "direction" case Frames => "frames"
    case ProbeId => "probe_id" case ReasonField => "reason" case StateField => "state" case Xruns => "xruns"
    case CandidateIdField => "candidate_id" case CandidateVersion => "candidate_version"
    case CodecFeatures => "codec_features" case DependencySourceField => "dependency_source"
    case DeviceAccess => "device_access" case LinkageField => "linkage" case Probes => "probes"
    case RuntimeBackendField => "runtime_backend" case Kind => "kind" case SchemaId => "schema_id"
    case SchemaVersion => "schema_version" case Architecture => "architecture" case Candidates => "candidates"
    case ContractProbes => "contract_probes" case Platform => "platform" case SourceSha => "source_sha"
    case Unknown(name) => name
  }

  function FieldOf(name: string): (f: Field)
    ensures Name(f) == name
  {
    if name == "callbacks" then Callbacks
    else if name == "cancellation_observed" then CancellationObserved
    else if name == "cleanup_complete" then CleanupComplete
    else if name == "direction" then DirectionField
    else if name == "frames" then Frames
    else if name == "probe_id" then ProbeId
    else if name == "reason" then ReasonField
    else if name == "state" then StateField
    else if name == "xruns" then Xruns
    else if name == "candidate_id" then CandidateIdField
    else if name == "candidate_version" then CandidateVersion
    else if name == "codec_features" then CodecFeatures
    else if name == "dependency_source" then DependencySourceField
    else if name == "device_access" then DeviceAccess
    else if name == "linkage" then LinkageField
    else if name == "probes" then Probes
    else if name == "runtime_backend" then RuntimeBackendField
    else if name == "kind" then Kind
    else if name == "schema_id" then SchemaId
    else if name == "schema_version" then SchemaVersion
    else if name == "architecture" then Architecture
    else if name == "candidates" then Candidates
    else if name == "contract_probes" then ContractProbes
    else if name == "platform" then Platform
    else if name == "source_sha" then SourceSha
    else Unknown(name)
  }

  /** Some name is read as this field. */
  ghost predicate Read(f: Field) { exists name :: f == FieldOf(name) }

  /** Fields that were read are the same if their names are; and every field the codecs know can be read. */
  lemma ReadByName(f: Field, g: Field)
    ensures Read(f) && Read(g) && Name(f) == Name(g) ==> f == g
    ensures !f.Unknown? ==> Read(f)
  {
    if !f.Unknown? { assert f == FieldOf(Name(f)); }
  }

  /** `Other` is null, a negative number or a fraction. */
  datatype Json = Bool(b: bool) | Number(n: nat) | Text(s: string) | Array(items: seq<Json>)
                | Object(fields: map<Field, Json>) | Other(length: nat)

  /** How many bytes a character takes inside a string. */
  function Escaped(c: char): nat {
    if c == '\"' || c == '\\' || c in {'\n', '\r', '\t'} then 2 else if c < ' ' then 6 else 1
  }

  function TextLength(s: string): nat { if s == "" then 0 else Escaped(s[0]) + TextLength(s[1..]) }

  /** The length of the compact text. */
  ghost function Length(j: Json): nat
    decreases j, if j.Object? then |j.fields| + 1 else 0
  {
    match j
    case Bool(b) => if b then 4 else 5
    case Number(n) => |Decimal.Print(n)|
    case Text(s) => TextLength(s) + 2
    case Array(items) => if items == [] then 2 else 1 + ItemsLength(items)
    case Object(fields) => if fields == map[] then 2 else 1 + FieldsLength(j, fields.Keys)
    case Other(length) => length
  }

  ghost function ItemsLength(items: seq<Json>): nat { if items == [] then 0 else Length(items[0]) + 1 + ItemsLength(items[1..]) }

  /** A field takes its name, quotes, a colon, its value, and a comma or the closing brace. */
  ghost function FieldLength(j: Json, f: Field): nat
    requires j.Object? && f in j.fields
    decreases j, 0
  {
    TextLength(Name(f)) + 4 + Length(j.fields[f])
  }

  ghost function FieldsLength(j: Json, keys: set<Field>): nat
    requires j.Object? && keys <= j.fields.Keys
    decreases j, |keys|
  {
    if keys == {} then 0 else
      FieldLength(j, Pick(keys)) + FieldsLength(j, keys - {Pick(keys)})
  }

  ghost function Pick(keys: set<Field>): (f: Field)
    requires keys != {}
    ensures f in keys
  {
    var f :| f in keys; f
  }

  /** The fields may be added up in any order. */
  lemma {:induction false} FieldsOrder(j: Json, keys: set<Field>, f: Field)
    requires j.Object? && keys <= j.fields.Keys && f in keys
    ensures FieldsLength(j, keys) == FieldLength(j, f) + FieldsLength(j, keys - {f})
    decreases |keys|
  {
    var g := Pick(keys);
    if g != f {
      FieldsOrder(j, keys - {g}, f);
      FieldsOrder(j, keys - {f}, g);
      assert keys - {g} - {f} == keys - {f} - {g};
    }
  }

  /** The fields of an object, added up along a list of all of them. */
  ghost function ListLength(j: Json, list: seq<Field>): nat
    requires j.Object? && forall i | 0 <= i < |list| :: list[i] in j.fields
  {
    if list == [] then 0 else FieldLength(j, list[0]) + ListLength(j, list[1..])
  }

  lemma {:induction false} FieldsAlong(j: Json, keys: set<Field>, list: seq<Field>)
    requires j.Object? && keys <= j.fields.Keys
    requires forall i | 0 <= i < |list| :: list[i] in keys
    requires forall i, k | 0 <= i < k < |list| :: list[i] != list[k]
    requires forall f | f in keys :: f in list
    ensures FieldsLength(j, keys) == ListLength(j, list)
    decreases |list|
  {
    if list == [] {
      assert keys == {};
    } else {
      FieldsOrder(j, keys, list[0]);
      assert forall i | 0 <= i < |list[1..]| :: list[1..][i] == list[i + 1];
      forall f | f in keys - {list[0]} ensures f in list[1..] {
        var i :| 0 <= i < |list| && list[i] == f;
        assert list[1..][i - 1] == f;
      }
      FieldsAlong(j, keys - {list[0]}, list[1..]);
    }
  }

  /** Values whose text is at most `most` long make an array of bounded length. */
  lemma {:induction false} ItemsBound(items: seq<Json>, most: nat)
    requires forall i | 0 <= i < |items| :: Length(items[i]) <= most
    ensures ItemsLength(items) <= |items| * (most + 1)
  {
    if items != [] {
      ItemsBound(items[1..], most);
      assert |items| * (most + 1) == (|items| - 1) * (most + 1) + (most + 1);
    }
  }

  lemma ArrayBound(items: seq<Json>, most: nat)
    requires forall i | 0 <= i < |items| :: Length(items[i]) <= most
    ensures Length(Array(items)) <= 2 + |items| * (most + 1)
  {
    ItemsBound(items, most);
  }

  /** Text without characters that need an escape. */
  predicate Plain(s: string) { forall i | 0 <= i < |s| :: Escaped(s[i]) == 1 }

  lemma {:induction false} PlainLength(s: string)
    requires Plain(s)
    ensures TextLength(s) == |s|
  {
    if s != "" { PlainLength(s[1..]); }
  }

  lemma {:induction false} DigitsBound(n: nat, digits: nat, limit: nat)
    requires 0 < digits && limit == Ten(digits) && n < limit
    ensures |Decimal.Print(n)| <= digits
  {
    if n >= 10 { DigitsBound(n / 10, digits - 1, Ten(digits - 1)); }
  }

  function Ten(digits: nat): nat { if digits == 0 then 1 else 10 * Ten(digits - 1) }
}
