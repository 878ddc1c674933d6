/**
 How long a manifest is as compact JSON (`json.dumps` with `ensure_ascii=False` and the separators
 "," and ":"), in bytes of UTF-8; the text of a number that is not an integer comes from the caller.
 */
module WorkshopSize {
  import opened Common
  import opened WorkshopPermissions

  function CharSize(c: char): nat {
    var n := c as int;
    if c == '"' || c == '\\' || n in {8, 9, 10, 12, 13} then 2
    else if n < 0x20 then 6
    else if n < 0x80 then 1
    else if n < 0x800 then 2
    else if n < 0x1_0000 then 3
    else 4
  }

  function CharsSize(s: string): nat {
    if s == "" then 0 else CharSize(s[0]) + CharsSize(s[1..])
  }

  function StringSize(s: string): nat {
    2 + CharsSize(s)
  }

  function Digits(n: nat): nat {
    if n < 10 then 1 else 1 + Digits(n / 10)
  }

  function IntegerSize(i: int): nat {
    if i < 0 then 1 + Digits(-i) else Digits(i)
  }

  /** The names of the outer fields of a manifest; empty for other keys. */
  function OuterKeyText(k: Key): string {
    match k
    case ApiVersion => "apiVersion"
    case KindKey => "kind"
    case Metadata => "metadata"
    case Spec => "spec"
    case Id => "id"
    case Name => "name"
    case Version => "version"
    case Description => "description"
    case Vendor => "vendor"
    case Runtime => "runtime"
    case Permissions => "permissions"
    case Resources => "resources"
    case Lifecycle => "lifecycle"
    case Ui => "ui"
    case Entrypoint => "entrypoint"
    case Protocol => "protocol"
    case Command => "command"
    case Arguments => "arguments"
    case CapabilityKey => "capability"
    case Reason => "reason"
    case Constraints => "constraints"
    case _ => ""
  }

  /** The names of constraints, lifecycle, resources and ui. */
  function InnerKeyText(k: Key): string {
    match k
    case Domains => "domains"
    case Methods => "methods"
    case PrivacyIndicator => "privacyIndicator"
    case PanDegrees => "panDegrees"
    case TiltDegrees => "tiltDegrees"
    case MaxDegreesPerSecond => "maxDegreesPerSecond"
    case EmergencyStop => "emergencyStop"
    case MaxRequestsPerMinute => "maxRequestsPerMinute"
    case MaxConcurrent => "maxConcurrent"
    case MaxVolumePercent => "maxVolumePercent"
    case Autostart => "autostart"
    case StartTimeoutSeconds => "startTimeoutSeconds"
    case StopTimeoutSeconds => "stopTimeoutSeconds"
    case CpuPercent => "cpuPercent"
    case MemoryMB => "memoryMB"
    case StorageMB => "storageMB"
    case MaxProcesses => "maxProcesses"
    case MenuLabel => "menuLabel"
    case Glyph => "glyph"
    case _ => ""
  }

  /** The names of the fields of requests. */
  function RequestKeyText(k: Key): string {
    match k
    case TypeKey => "type"
    case MethodKey => "method"
    case Params => "params"
    case AppId => "app_id"
    case Identity => "identity"
    case Url => "url"
    case HttpMethod => "httpMethod"
    case Pan => "pan"
    case Tilt => "tilt"
    case DegreesPerSecond => "degreesPerSecond"
    case LeaseSeconds => "leaseSeconds"
    case SampleRate => "sampleRate"
    case FrameMilliseconds => "frameMilliseconds"
    case LeaseId => "leaseId"
    case PathKey => "path"
    case VolumePercent => "volumePercent"
    case _ => ""
  }

  function KeyText(k: Key): string {
    if k.Other? then k.text
    else if OuterKeyText(k) != "" then OuterKeyText(k)
    else if InnerKeyText(k) != "" then InnerKeyText(k)
    else RequestKeyText(k)
  }

  /** The key and its colon. */
  function KeySize(k: Key): nat {
    StringSize(KeyText(k)) + 1
  }

  /** Between `count` entries. */
  function Commas(count: nat): nat {
    if count == 0 then 0 else count - 1
  }

  ghost function JsonSize(v: Json, float: real -> nat): nat
    decreases v, 1, 0
  {
    match v
    case Null => 4
    case Bool(b) => if b then 4 else 5
    case Int(i) => IntegerSize(i)
    case Float(r) => float(r)
    case Str(s) => StringSize(s)
    case Arr(items) => 2 + Commas(|items|) + ItemsSize(v, 0, float)
    case Obj(fields) => 2 + Commas(|fields|) + FieldsSize(v, fields.Keys, float)
  }

  ghost function ItemsSize(v: Json, from: nat, float: real -> nat): nat
    requires v.Arr? && from <= |v.items|
    decreases v, 0, |v.items| - from
  {
    if from == |v.items| then 0 else JsonSize(v.items[from], float) + ItemsSize(v, from + 1, float)
  }

  /** The entries with the given keys, whatever their order. */
  ghost function FieldsSize(v: Json, keys: set<Key>, float: real -> nat): nat
    requires v.Obj? && keys <= v.fields.Keys
    decreases v, 0, |keys|
  {
    if keys == {} then 0
    else
      var k :| k in keys;
      KeySize(k) + JsonSize(v.fields[k], float) + FieldsSize(v, keys - {k}, float)
  }

  // ----- objects: the sum over the entries

  lemma FieldsUnfold(v: Json, keys: set<Key>, float: real -> nat) returns (first: Key)
    requires v.Obj? && keys <= v.fields.Keys && keys != {}
    ensures first in keys
    ensures FieldsSize(v, keys, float) == KeySize(first) + JsonSize(v.fields[first], float) + FieldsSize(v, keys - {first}, float)
  {
    hide JsonSize, KeySize;
    first :| first in keys && FieldsSize(v, keys, float)
      == KeySize(first) + JsonSize(v.fields[first], float) + FieldsSize(v, keys - {first}, float);
  }

  /** Any entry may be counted first. */
  lemma {:induction false} FieldsPick(v: Json, keys: set<Key>, float: real -> nat, k: Key)
    requires v.Obj? && keys <= v.fields.Keys && k in keys
    ensures FieldsSize(v, keys, float) == KeySize(k) + JsonSize(v.fields[k], float) + FieldsSize(v, keys - {k}, float)
    decreases |keys|
  {
    hide JsonSize, KeySize, FieldsSize;
    var first := FieldsUnfold(v, keys, float);
    if first != k {
      var a, b := keys - {first}, keys - {k};
      assert |a| < |keys| && |b| < |keys|;
      FieldsPick(v, a, float, k);
      FieldsPick(v, b, float, first);
      assert a - {k} == b - {first};
    }
  }

  lemma {:induction false} FieldsAgree(v: Json, w: Json, keys: set<Key>, float: real -> nat)
    requires v.Obj? && w.Obj? && keys <= v.fields.Keys && keys <= w.fields.Keys
    requires forall k | k in keys :: v.fields[k] == w.fields[k]
    ensures FieldsSize(v, keys, float) == FieldsSize(w, keys, float)
    decreases |keys|
  {
    hide JsonSize, KeySize, FieldsSize;
    if keys != {} {
      var k := FieldsUnfold(v, keys, float);
      FieldsPick(w, keys, float, k);
      FieldsAgree(v, w, keys - {k}, float);
    } else {
      NoFields(v, float);
      NoFields(w, float);
    }
  }

  lemma NoFields(v: Json, float: real -> nat)
    requires v.Obj?
    ensures FieldsSize(v, {}, float) == 0
  {}

  lemma ObjectUnfold(fields: Object, float: real -> nat)
    ensures JsonSize(Obj(fields), float) == 2 + Commas(|fields|) + FieldsSize(Obj(fields), fields.Keys, float)
  {
    hide FieldsSize;
  }

  /** Replacing the value of an entry. */
  lemma SizeOfPut(fields: Object, k: Key, value: Json, float: real -> nat)
    requires k in fields
    ensures JsonSize(Obj(fields[k := value]), float) + JsonSize(fields[k], float)
         == JsonSize(Obj(fields), float) + JsonSize(value, float)
  {
    hide JsonSize, KeySize, FieldsSize;
    var next := fields[k := value];
    assert next.Keys == fields.Keys;
    assert |next| == |next.Keys| == |fields.Keys| == |fields|;
    ObjectUnfold(fields, float);
    ObjectUnfold(next, float);
    FieldsPick(Obj(fields), fields.Keys, float, k);
    FieldsPick(Obj(next), fields.Keys, float, k);
    FieldsAgree(Obj(fields), Obj(next), fields.Keys - {k}, float);
  }

  /** One more entry. */
  lemma SizeOfAdd(fields: Object, k: Key, value: Json, float: real -> nat)
    requires k !in fields
    ensures JsonSize(Obj(fields[k := value]), float)
         == JsonSize(Obj(fields), float) + KeySize(k) + JsonSize(value, float) + if fields == map[] then 0 else 1
  {
    hide JsonSize, KeySize, FieldsSize;
    var next := fields[k := value];
    assert next.Keys == fields.Keys + {k};
    assert |next| == |next.Keys| == |fields.Keys| + 1 == |fields| + 1;
    ObjectUnfold(fields, float);
    ObjectUnfold(next, float);
    FieldsPick(Obj(next), next.Keys, float, k);
    assert next.Keys - {k} == fields.Keys;
    FieldsAgree(Obj(fields), Obj(next), fields.Keys, float);
  }

  // ----- arrays and texts

  /** One item more at the end of an array that is not empty. */
  lemma SizeOfAppend(items: seq<Json>, value: Json, float: real -> nat)
    requires items != []
    ensures JsonSize(Arr(items + [value]), float) == JsonSize(Arr(items), float) + 1 + JsonSize(value, float)
  {
    ItemsAppend(items, value, 0, float);
    hide ItemsSize;
  }

  lemma {:induction false} ItemsAppend(items: seq<Json>, value: Json, from: nat, float: real -> nat)
    requires from <= |items|
    ensures ItemsSize(Arr(items + [value]), from, float) == ItemsSize(Arr(items), from, float) + JsonSize(value, float)
    decreases |items| - from
  {
    hide JsonSize;
    if from < |items| {
      ItemsAppend(items, value, from + 1, float);
    } else {
      assert (items + [value])[from] == value;
      assert ItemsSize(Arr(items + [value]), from + 1, float) == 0;
    }
  }

  lemma SizeOfOne(value: Json, float: real -> nat)
    ensures JsonSize(Arr([value]), float) == 2 + JsonSize(value, float)
  {
    assert ItemsSize(Arr([value]), 1, float) == 0;
  }

  /** ASCII text without control characters, quotes and backslashes. */
  predicate Simple(s: string) {
    forall i | 0 <= i < |s| :: ' ' <= s[i] <= '~' && s[i] != '"' && s[i] != '\\'
  }

  lemma {:induction false} SizeOfSimple(s: string)
    requires Simple(s)
    ensures StringSize(s) == 2 + |s|
    decreases |s|
  {
    if s != "" {
      SizeOfSimple(s[1..]);
    }
  }
}
