/**
 The Workshop contract (apps/workshop/workshop_contract.py), part one: JSON values, capabilities
 and the permissions a manifest declares. Objects are maps; numbers are exact.
 */
module WorkshopPermissions {
  import opened Common
  import opened Text
  import opened WorkshopText

  /** The field names of the contract; any other text is `Other`. */
  datatype Key =
    | ApiVersion | KindKey | Metadata | Spec
    | Id | Name | Version | Description | Vendor
    | Runtime | Permissions | Resources | Lifecycle | Ui
    | Entrypoint | Protocol | Command | Arguments
    | CapabilityKey | Reason | Constraints
    | Domains | Methods | PrivacyIndicator | PanDegrees | TiltDegrees | MaxDegreesPerSecond | EmergencyStop
    | MaxRequestsPerMinute | MaxConcurrent | MaxVolumePercent
    | Autostart | StartTimeoutSeconds | StopTimeoutSeconds
    | CpuPercent | MemoryMB | StorageMB | MaxProcesses
    | MenuLabel | Glyph
    | TypeKey | MethodKey | Params | AppId | Identity
    | Url | HttpMethod | Pan | Tilt | DegreesPerSecond
    | LeaseSeconds | SampleRate | FrameMilliseconds | LeaseId | PathKey | VolumePercent
    | Other(text: string)

  type Object = map<Key, Json>

  datatype Json =
    | Null | Bool(b: bool) | Int(i: int) | Float(r: real) | Str(s: string)
    | Arr(items: seq<Json>) | Obj(fields: map<Key, Json>)

  /** The codes of `ContractError`; `Uncaught` is a Python exception of another kind. */
  datatype Error =
    | InvalidType | InvalidLength | OutOfRange | UnknownField | MissingDomains | InvalidDomain
    | InvalidRange | InvalidNumber | InvalidNetworkMethods | PrivacyIndicatorRequired | InvalidMotorSpeed
    | EmergencyStopRequired | ManifestTooLarge | UnsupportedManifestVersion | InvalidKind | InvalidAppId
    | InvalidVersion | UnsupportedRuntime | DirectProcessForbidden | InvalidPathError | UnsafePathError
    | InvalidEntrypoint | MissingEntrypoint | UnsupportedHostProtocol | ForbiddenCapability
    | UnknownCapability | DuplicateCapability | AutostartPermissionRequired
    | UnsupportedProtocol | InvalidMessageType | ForbiddenMethod | UnknownMethod | IdentitySpoofing
    | IdentityMismatch | NotDeclared | NotGranted | ForegroundRequired | UserPresenceRequired
    | NetworkTargetDenied | NetworkDomainDenied | NetworkMethodDenied | InvalidMotorTarget
    | MotorLimitExceeded | MotorSpeedExceeded | InvalidMicrophoneLease | InvalidSampleRate
    | InvalidLeaseId | VolumeLimitExceeded | Uncaught

  datatype Outcome<+T> = Good(value: T) | Bad(error: Error) {
    predicate IsFailure() { Bad? }
    function PropagateFailure<U>(): Outcome<U>
      requires Bad?
    {
      Bad(error)
    }
    function Extract(): T
      requires Good?
    {
      value
    }
  }

  function Need(condition: bool, error: Error): Outcome<()> {
    if condition then Good(()) else Bad(error)
  }

  // ----- reading fields

  function Get(o: Object, k: Key, default: Json): Json {
    if k in o then o[k] else default
  }

  function AsObject(v: Json): Outcome<Object> {
    if v.Obj? then Good(v.fields) else Bad(InvalidType)
  }

  function Only(o: Object, allowed: set<Key>): Outcome<()> {
    Need(o.Keys <= allowed, UnknownField)
  }

  /** `_require_text` */
  function TextOf(v: Json, low: nat, high: nat): Outcome<string> {
    if !v.Str? then Bad(InvalidType)
    else if low <= |Strip(v.s)| <= high then Good(Strip(v.s))
    else Bad(InvalidLength)
  }

  lemma TextOfNormal(v: Json, low: nat, high: nat)
    requires TextOf(v, low, high).Good?
    ensures var t := TextOf(v, low, high).value; TextOf(Str(t), low, high) == Good(t) && Trim(t) && low <= |t| <= high
  {
    hide Strip, Trim;
    StripTrims(v.s);
    StripTrims(Strip(v.s));
  }

  /** `_bounded_integer`; a boolean is not an integer here. */
  function IntegerOf(v: Json, low: int, high: int): Outcome<int> {
    if !v.Int? then Bad(InvalidType) else if low <= v.i <= high then Good(v.i) else Bad(OutOfRange)
  }

  function NumberOf(v: Json, error: Error): Outcome<real> {
    if v.Int? then Good(v.i as real) else if v.Float? then Good(v.r) else Bad(error)
  }

  /** Python's truth value. */
  predicate Truthy(v: Json) {
    match v
    case Null => false
    case Bool(b) => b
    case Int(i) => i != 0
    case Float(r) => r != 0.0
    case Str(s) => s != ""
    case Arr(items) => items != []
    case Obj(fields) => fields != map[]
  }

  // ----- capabilities

  datatype Capability =
    | UiSurface | StorageApp | EventsSubscribe | NotificationsLocal | CameraSnapshot | CameraStream
    | MicrophoneStream | SpeakerPlayback | VisionInference | MotorPanTilt | AssistantQuery | TasksSubmit
    | ReportsRead | NetworkOutbound | LifecycleAutostart

  /** The names of `CAPABILITY_CATALOG`, in its order. */
  function CapabilityNamed(name: string): Option<Capability> {
    if EarlyCapability(name).Some? then EarlyCapability(name) else LateCapability(name)
  }

  function EarlyCapability(name: string): Option<Capability> {
    if name == "ui.surface" then Some(UiSurface)
    else if name == "storage.app" then Some(StorageApp)
    else if name == "events.subscribe" then Some(EventsSubscribe)
    else if name == "notifications.local" then Some(NotificationsLocal)
    else if name == "camera.snapshot" then Some(CameraSnapshot)
    else if name == "camera.stream" then Some(CameraStream)
    else if name == "microphone.stream" then Some(MicrophoneStream)
    else if name == "speaker.playback" then Some(SpeakerPlayback)
    else None
  }

  function LateCapability(name: string): Option<Capability> {
    if name == "vision.inference" then Some(VisionInference)
    else if name == "motor.pan_tilt" then Some(MotorPanTilt)
    else if name == "assistant.query" then Some(AssistantQuery)
    else if name == "tasks.submit" then Some(TasksSubmit)
    else if name == "reports.read" then Some(ReportsRead)
    else if name == "network.outbound" then Some(NetworkOutbound)
    else if name == "lifecycle.autostart" then Some(LifecycleAutostart)
    else None
  }

  predicate Forbidden(name: string) {
    name in {"credentials.read", "credentials.write", "filesystem.host", "kernel.configure", "network.raw",
             "packages.manage", "process.spawn", "service.manage", "shell.execute", "system.power"}
  }

  // ----- constraints

  /** One domain: trimmed, lower case, without trailing dots. */
  function DomainOf(v: Json): Outcome<string> {
    var t :- TextOf(v, 1, 253);
    var d := StripDots(Lower(t));
    if IsDomain(d) then Good(d) else Bad(InvalidDomain)
  }

  /** The loop of `_validate_domains`: keeps the first occurrence of every domain. */
  function DomainsOf(items: seq<Json>, kept: seq<string>): Outcome<seq<string>>
    decreases |items|
  {
    if items == [] then Good(kept)
    else
      var d :- DomainOf(items[0]);
      DomainsOf(items[1..], if d in kept then kept else kept + [d])
  }

  function Strings(texts: seq<string>): seq<Json> {
    seq(|texts|, i requires 0 <= i < |texts| => Str(texts[i]))
  }

  function CheckDomains(v: Json): Outcome<Json> {
    if !v.Arr? || v.items == [] then Bad(MissingDomains)
    else
      var ds :- DomainsOf(v.items, []);
      Good(Arr(Strings(ds)))
  }

  predicate NetworkMethod(v: Json) {
    v == Str("GET") || v == Str("HEAD") || v == Str("POST")
  }

  /** The list comprehension over `methods`: an unhashable element raises TypeError. */
  function MethodsOf(items: seq<Json>): Outcome<seq<Json>> {
    if items == [] then Good([])
    else if items[0].Arr? || items[0].Obj? then Bad(Uncaught)
    else
      var rest :- MethodsOf(items[1..]);
      Good((if NetworkMethod(items[0]) then [items[0]] else []) + rest)
  }

  function CheckMethods(v: Json): Outcome<Json> {
    if v.Str? then Bad(InvalidNetworkMethods)
    else if !v.Arr? then Bad(Uncaught)
    else
      var ms :- MethodsOf(v.items);
      if ms == [] then Bad(InvalidNetworkMethods) else Good(Arr(ms))
  }

  function CheckRange(v: Json): Outcome<Json> {
    if !v.Arr? || |v.items| != 2 then Bad(InvalidRange)
    else
      var a :- NumberOf(v.items[0], InvalidNumber);
      var b :- NumberOf(v.items[1], InvalidNumber);
      if a >= b || a < -180.0 || b > 180.0 then Bad(InvalidRange) else Good(Arr([Float(a), Float(b)]))
  }

  function AllowedConstraints(c: Capability): set<Key> {
    match c
    case NetworkOutbound => {Domains, Methods}
    case CameraStream => {PrivacyIndicator}
    case MicrophoneStream => {PrivacyIndicator}
    case MotorPanTilt => {PanDegrees, TiltDegrees, MaxDegreesPerSecond, EmergencyStop}
    case AssistantQuery => {MaxRequestsPerMinute}
    case TasksSubmit => {MaxConcurrent}
    case SpeakerPlayback => {MaxVolumePercent}
    case _ => {}
  }

  function CheckNetwork(o: Object): Outcome<Object> {
    var domains :- CheckDomains(Get(o, Domains, Null));
    var methods :- CheckMethods(Get(o, Methods, Arr([Str("GET")])));
    Good(o[Domains := domains][Methods := methods])
  }

  function CheckMotor(o: Object): Outcome<Object> {
    var pan :- CheckRange(Get(o, PanDegrees, Null));
    var tilt :- CheckRange(Get(o, TiltDegrees, Null));
    var speed :- NumberOf(Get(o, MaxDegreesPerSecond, Null), InvalidMotorSpeed);
    if speed < 1.0 || speed > 120.0 then Bad(InvalidMotorSpeed)
    else if Get(o, EmergencyStop, Null) != Bool(true) then Bad(EmergencyStopRequired)
    else Good(o[PanDegrees := pan][TiltDegrees := tilt][MaxDegreesPerSecond := Float(speed)])
  }

  function CheckInteger(o: Object, k: Key, default: int, low: int, high: int): Outcome<Object> {
    var n :- IntegerOf(Get(o, k, Int(default)), low, high);
    Good(o[k := Int(n)])
  }

  /** `_validate_permission_constraints` */
  function CheckConstraints(c: Capability, raw: Json): Outcome<Json> {
    var o :- AsObject(if Truthy(raw) then raw else Obj(map[]));
    var _ :- Only(o, AllowedConstraints(c));
    var checked :-
      match c
      case NetworkOutbound => CheckNetwork(o)
      case CameraStream => if Get(o, PrivacyIndicator, Null) == Bool(true) then Good(o) else Bad(PrivacyIndicatorRequired)
      case MicrophoneStream => if Get(o, PrivacyIndicator, Null) == Bool(true) then Good(o) else Bad(PrivacyIndicatorRequired)
      case MotorPanTilt => CheckMotor(o)
      case AssistantQuery => CheckInteger(o, MaxRequestsPerMinute, 6, 1, 30)
      case TasksSubmit => CheckInteger(o, MaxConcurrent, 1, 1, 4)
      case SpeakerPlayback => CheckInteger(o, MaxVolumePercent, 80, 0, 100)
      case _ => Good(o);
    Good(Obj(checked))
  }

  // ----- permissions

  datatype Permission = Permission(name: string, reason: string, constraints: Json)

  function PermissionOf(raw: Json, seen: set<string>): Outcome<Permission> {
    var item :- AsObject(raw);
    var _ :- Only(item, {CapabilityKey, Reason, Constraints});
    var name :- TextOf(Get(item, CapabilityKey, Null), 1, 80);
    var _ :- Need(!Forbidden(name), ForbiddenCapability);
    var c := CapabilityNamed(name);
    var _ :- Need(c.Some?, UnknownCapability);
    var _ :- Need(name !in seen, DuplicateCapability);
    var reason :- TextOf(Get(item, Reason, Null), 1, 160);
    var constraints :- CheckConstraints(c.value, Get(item, Constraints, Obj(map[])));
    Good(Permission(name, reason, constraints))
  }

  function PermissionJson(p: Permission): Json {
    Obj(map[CapabilityKey := Str(p.name), Reason := Str(p.reason), Constraints := p.constraints])
  }

  function PermissionsOf(items: seq<Json>, seen: set<string>): Outcome<seq<Permission>>
    decreases |items|
  {
    if items == [] then Good([])
    else
      var p :- PermissionOf(items[0], seen);
      var rest :- PermissionsOf(items[1..], seen + {p.name});
      Good([p] + rest)
  }

  function PermissionJsons(ps: seq<Permission>): seq<Json> {
    seq(|ps|, i requires 0 <= i < |ps| => PermissionJson(ps[i]))
  }

  // ----- each check accepts its own result and leaves it alone

  lemma DomainOfNormal(v: Json)
    requires DomainOf(v).Good?
    ensures DomainOf(Str(DomainOf(v).value)) == DomainOf(v)
  {
    hide IsDomain, StripDots, Strip, Trim, Lower;
    var d := DomainOf(v).value;
    DomainNormal(d);
    StripTrims(d);
  }

  ghost predicate NormalDomains(ds: seq<string>) {
    forall i | 0 <= i < |ds| :: DomainOf(Str(ds[i])) == Good(ds[i])
  }

  ghost predicate Distinct(ds: seq<string>) {
    forall i, j | 0 <= i < j < |ds| :: ds[i] != ds[j]
  }

  lemma {:induction false} DomainsOfNormal(items: seq<Json>, kept: seq<string>)
    requires DomainsOf(items, kept).Good? && NormalDomains(kept) && Distinct(kept)
    ensures var ds := DomainsOf(items, kept).value;
            kept <= ds && (items != [] ==> ds != []) && NormalDomains(ds) && Distinct(ds)
    decreases |items|
  {
    hide DomainOf;
    if items != [] {
      DomainOfNormal(items[0]);
      var d := DomainOf(items[0]).value;
      DomainsOfNormal(items[1..], if d in kept then kept else kept + [d]);
    }
  }

  lemma {:induction false} DomainsOfDistinct(ds: seq<string>, kept: seq<string>)
    requires NormalDomains(ds) && Distinct(kept + ds)
    ensures DomainsOf(Strings(ds), kept) == Good(kept + ds)
    decreases |ds|
  {
    hide DomainOf;
    if ds == [] {
      assert kept + ds == kept;
    } else {
      assert ds[0] !in kept by {
        assert (kept + ds)[|kept|] == ds[0];
        assert forall i | 0 <= i < |kept| :: (kept + ds)[i] == kept[i];
      }
      assert Strings(ds)[1..] == Strings(ds[1..]);
      assert kept + [ds[0]] + ds[1..] == kept + ds;
      DomainsOfDistinct(ds[1..], kept + [ds[0]]);
    }
  }

  lemma CheckDomainsNormal(v: Json)
    requires CheckDomains(v).Good?
    ensures CheckDomains(CheckDomains(v).value) == CheckDomains(v)
  {
    hide DomainsOf, DomainOf;
    var ds := DomainsOf(v.items, []).value;
    DomainsOfNormal(v.items, []);
    assert [] + ds == ds;
    DomainsOfDistinct(ds, []);
  }

  lemma {:induction false} MethodsOfNormal(items: seq<Json>)
    requires MethodsOf(items).Good?
    ensures MethodsOf(MethodsOf(items).value) == MethodsOf(items)
    decreases |items|
  {
    if items != [] {
      MethodsOfNormal(items[1..]);
      var rest := MethodsOf(items[1..]).value;
      if NetworkMethod(items[0]) {
        assert ([items[0]] + rest)[1..] == rest;
      } else {
        assert [] + rest == rest;
      }
    }
  }

  lemma CheckMethodsNormal(v: Json)
    requires CheckMethods(v).Good?
    ensures CheckMethods(CheckMethods(v).value) == CheckMethods(v)
  {
    hide MethodsOf;
    MethodsOfNormal(v.items);
  }

  lemma CheckRangeNormal(v: Json)
    requires CheckRange(v).Good?
    ensures CheckRange(CheckRange(v).value) == CheckRange(v)
  {}

  lemma CheckNetworkNormal(o: Object)
    requires CheckNetwork(o).Good?
    ensures CheckNetwork(CheckNetwork(o).value) == CheckNetwork(o)
    ensures CheckNetwork(o).value.Keys == o.Keys + {Domains, Methods}
  {
    hide CheckDomains, CheckMethods;
    CheckDomainsNormal(Get(o, Domains, Null));
    CheckMethodsNormal(Get(o, Methods, Arr([Str("GET")])));
    var n := CheckNetwork(o).value;
    assert n[Domains := n[Domains]][Methods := n[Methods]] == n;
  }

  lemma CheckMotorNormal(o: Object)
    requires CheckMotor(o).Good?
    ensures CheckMotor(CheckMotor(o).value) == CheckMotor(o)
    ensures CheckMotor(o).value.Keys == o.Keys + {PanDegrees, TiltDegrees, MaxDegreesPerSecond}
  {
    hide CheckRange;
    CheckRangeNormal(Get(o, PanDegrees, Null));
    CheckRangeNormal(Get(o, TiltDegrees, Null));
    var n := CheckMotor(o).value;
    assert n[PanDegrees := n[PanDegrees]][TiltDegrees := n[TiltDegrees]][MaxDegreesPerSecond := n[MaxDegreesPerSecond]] == n;
  }

  lemma CheckIntegerNormal(o: Object, k: Key, default: int, low: int, high: int)
    requires CheckInteger(o, k, default, low, high).Good?
    ensures var n := CheckInteger(o, k, default, low, high).value;
            CheckInteger(n, k, default, low, high) == Good(n) && n.Keys == o.Keys + {k}
  {
    var n := CheckInteger(o, k, default, low, high).value;
    assert n[k := n[k]] == n;
  }

  lemma CheckConstraintsNormal(c: Capability, raw: Json)
    requires CheckConstraints(c, raw).Good?
    ensures CheckConstraints(c, CheckConstraints(c, raw).value) == CheckConstraints(c, raw)
  {
    var o := if Truthy(raw) then raw.fields else map[];
    match c
    case NetworkOutbound => CheckNetworkNormal(o);
    case MotorPanTilt => CheckMotorNormal(o);
    case AssistantQuery => CheckIntegerNormal(o, MaxRequestsPerMinute, 6, 1, 30);
    case TasksSubmit => CheckIntegerNormal(o, MaxConcurrent, 1, 1, 4);
    case SpeakerPlayback => CheckIntegerNormal(o, MaxVolumePercent, 80, 0, 100);
    case _ =>
  }

  lemma PermissionNormal(raw: Json, seen: set<string>)
    requires PermissionOf(raw, seen).Good?
    ensures var p := PermissionOf(raw, seen).value;
            PermissionOf(PermissionJson(p), seen) == Good(p) && p.name !in seen && CapabilityNamed(p.name).Some?
  {
    hide TextOf, CheckConstraints, CapabilityNamed, Forbidden;
    var p := PermissionOf(raw, seen).value;
    TextOfNormal(Get(raw.fields, CapabilityKey, Null), 1, 80);
    TextOfNormal(Get(raw.fields, Reason, Null), 1, 160);
    CheckConstraintsNormal(CapabilityNamed(p.name).value, Get(raw.fields, Constraints, Obj(map[])));
  }

  /** Validating the normalised permissions again changes nothing. */
  lemma {:induction false} PermissionsNormal(items: seq<Json>, seen: set<string>)
    requires PermissionsOf(items, seen).Good?
    ensures var ps := PermissionsOf(items, seen).value; PermissionsOf(PermissionJsons(ps), seen) == Good(ps)
    decreases |items|
  {
    hide PermissionOf, PermissionJson;
    if items != [] {
      var p := PermissionOf(items[0], seen).value;
      var rest := PermissionsOf(items[1..], seen + {p.name}).value;
      PermissionNormal(items[0], seen);
      PermissionsNormal(items[1..], seen + {p.name});
      assert PermissionJsons([p] + rest)[1..] == PermissionJsons(rest);
    }
  }

  /** No capability is declared twice, and each one is in the catalogue with valid constraints. */
  lemma {:induction false} PermissionsSound(items: seq<Json>, seen: set<string>)
    requires PermissionsOf(items, seen).Good?
    ensures var ps := PermissionsOf(items, seen).value;
            && (forall i | 0 <= i < |ps| :: ps[i].name !in seen && Sound(ps[i]))
            && (forall i, j | 0 <= i < j < |ps| :: ps[i].name != ps[j].name)
    decreases |items|
  {
    hide PermissionOf, Sound;
    if items != [] {
      var p := PermissionOf(items[0], seen).value;
      PermissionSound(items[0], seen);
      PermissionsSound(items[1..], seen + {p.name});
    }
  }

  ghost predicate Sound(p: Permission) {
    && CapabilityNamed(p.name).Some? && !Forbidden(p.name)
    && CheckConstraints(CapabilityNamed(p.name).value, p.constraints) == Good(p.constraints)
  }

  lemma PermissionSound(raw: Json, seen: set<string>)
    requires PermissionOf(raw, seen).Good?
    ensures var p := PermissionOf(raw, seen).value; p.name !in seen && Sound(p)
  {
    hide TextOf, CheckConstraints, CapabilityNamed, Forbidden;
    var p := PermissionOf(raw, seen).value;
    CheckConstraintsNormal(CapabilityNamed(p.name).value, Get(raw.fields, Constraints, Obj(map[])));
  }

  // ----- the loops

  method ValidateDomains(v: Json) returns (result: Outcome<Json>)
    ensures result == CheckDomains(v)
  {
    hide DomainOf;
    if !v.Arr? || v.items == [] {
      return Bad(MissingDomains);
    }
    var domains: seq<string> := [];
    for i := 0 to |v.items|
      invariant DomainsOf(v.items[i..], domains) == DomainsOf(v.items, [])
    {
      var d := DomainOf(v.items[i]);
      assert v.items[i..][1..] == v.items[i + 1..];
      if d.Bad? {
        return Bad(d.error);
      }
      if d.value !in domains {
        domains := domains + [d.value];
      }
    }
    return Good(Arr(Strings(domains)));
  }

  /** What remains of a permission list, put behind the permissions already read. */
  function Behind(done: seq<Permission>, rest: Outcome<seq<Permission>>): Outcome<seq<Permission>> {
    if rest.Bad? then rest else Good(done + rest.value)
  }

  method ValidatePermissions(items: seq<Json>) returns (result: Outcome<seq<Permission>>, seen: set<string>)
    ensures result == PermissionsOf(items, {})
    ensures result.Good? ==> seen == set p | p in result.value :: p.name
  {
    hide PermissionOf;
    var permissions: seq<Permission> := [];
    seen := {};
    ghost var all := PermissionsOf(items, {});
    assert items[0..] == items;
    assert all.Good? ==> [] + all.value == all.value;
    for i := 0 to |items|
      invariant Behind(permissions, PermissionsOf(items[i..], seen)) == PermissionsOf(items, {})
      invariant seen == set p | p in permissions :: p.name
    {
      var p := PermissionOf(items[i], seen);
      assert items[i..][1..] == items[i + 1..];
      if p.Bad? {
        return Bad(p.error), seen;
      }
      ghost var rest := PermissionsOf(items[i + 1..], seen + {p.value.name});
      if rest.Good? {
        assert permissions + ([p.value] + rest.value) == (permissions + [p.value]) + rest.value;
      }
      permissions := permissions + [p.value];
      seen := seen + {p.value.name};
    }
    assert permissions + [] == permissions;
    result := Good(permissions);
  }
}
