/**
 The Workshop contract, part three: `validate_host_request` and `authorize_request`. An allowed
 request yields its sanitised parameters; URL splitting and `str(value).upper()` come from the caller.
 */
module WorkshopRequests {
  import opened Common
  import opened Text
  import opened WorkshopText
  import opened WorkshopPermissions
  import opened WorkshopManifest

  datatype SplitUrl = SplitUrl(scheme: string, hostname: string, username: string, password: string)

  /** `None` stands for a URL that `urlsplit` refuses by raising. */
  datatype Web = Web(split: string -> Option<SplitUrl>, upper: Json -> string)

  /** Upper case leaves the three method names alone. */
  ghost predicate Standard(web: Web) {
    forall v | NetworkMethod(v) :: v == Str(web.upper(v))
  }

  datatype Method =
    | UiPresent | UiDismiss | StorageGet | StoragePut | StorageList | StorageDelete
    | EventsSubscribeCall | EventsUnsubscribe | NotificationsShow | CameraSnapshotCall
    | CameraOpen | CameraClose | MicrophoneOpen | MicrophoneRead | MicrophoneClose
    | SpeakerPlay | SpeakerStop | VisionDetect | MotorMove | MotorStop | AssistantQueryCall
    | TasksCreate | TasksStatus | ReportsList | ReportsReadCall | NetworkFetch

  /** The methods of `CAPABILITY_CATALOG`, in its order. */
  function MethodNamed(name: string): Option<Method> {
    if AppMethod(name).Some? then AppMethod(name)
    else if SensorMethod(name).Some? then SensorMethod(name)
    else if DriverMethod(name).Some? then DriverMethod(name)
    else ServiceMethod(name)
  }

  function AppMethod(name: string): Option<Method> {
    if name == "ui.present" then Some(UiPresent)
    else if name == "ui.dismiss" then Some(UiDismiss)
    else if name == "storage.get" then Some(StorageGet)
    else if name == "storage.put" then Some(StoragePut)
    else if name == "storage.list" then Some(StorageList)
    else if name == "storage.delete" then Some(StorageDelete)
    else if name == "events.subscribe" then Some(EventsSubscribeCall)
    else if name == "events.unsubscribe" then Some(EventsUnsubscribe)
    else if name == "notifications.show" then Some(NotificationsShow)
    else None
  }

  function SensorMethod(name: string): Option<Method> {
    if name == "camera.snapshot" then Some(CameraSnapshotCall)
    else if name == "camera.stream.open" then Some(CameraOpen)
    else if name == "camera.stream.close" then Some(CameraClose)
    else if name == "microphone.stream.open" then Some(MicrophoneOpen)
    else if name == "microphone.stream.read" then Some(MicrophoneRead)
    else if name == "microphone.stream.close" then Some(MicrophoneClose)
    else None
  }

  function DriverMethod(name: string): Option<Method> {
    if name == "speaker.play" then Some(SpeakerPlay)
    else if name == "speaker.stop" then Some(SpeakerStop)
    else if name == "vision.detect" then Some(VisionDetect)
    else if name == "motor.move" then Some(MotorMove)
    else if name == "motor.stop" then Some(MotorStop)
    else None
  }

  function ServiceMethod(name: string): Option<Method> {
    if name == "assistant.query" then Some(AssistantQueryCall)
    else if name == "tasks.create" then Some(TasksCreate)
    else if name == "tasks.status" then Some(TasksStatus)
    else if name == "reports.list" then Some(ReportsList)
    else if name == "reports.read" then Some(ReportsReadCall)
    else if name == "network.fetch" then Some(NetworkFetch)
    else None
  }

  function CapabilityOf(m: Method): Capability {
    match m
    case UiPresent => UiSurface
    case UiDismiss => UiSurface
    case StorageGet => StorageApp
    case StoragePut => StorageApp
    case StorageList => StorageApp
    case StorageDelete => StorageApp
    case EventsSubscribeCall => EventsSubscribe
    case EventsUnsubscribe => EventsSubscribe
    case NotificationsShow => NotificationsLocal
    case CameraSnapshotCall => CameraSnapshot
    case CameraOpen => CameraStream
    case CameraClose => CameraStream
    case MicrophoneOpen => MicrophoneStream
    case MicrophoneRead => MicrophoneStream
    case MicrophoneClose => MicrophoneStream
    case SpeakerPlay => SpeakerPlayback
    case SpeakerStop => SpeakerPlayback
    case VisionDetect => VisionInference
    case MotorMove => MotorPanTilt
    case MotorStop => MotorPanTilt
    case AssistantQueryCall => AssistantQuery
    case TasksCreate => TasksSubmit
    case TasksStatus => TasksSubmit
    case ReportsList => ReportsRead
    case ReportsReadCall => ReportsRead
    case NetworkFetch => NetworkOutbound
  }

  predicate SessionScope(c: Capability) {
    c in {CameraSnapshot, CameraStream, MicrophoneStream, VisionInference, MotorPanTilt, AssistantQuery}
  }

  predicate NeedsUser(c: Capability) {
    c in {CameraSnapshot, CameraStream, MicrophoneStream, MotorPanTilt, AssistantQuery}
  }

  predicate ForbiddenMethodName(name: string) {
    || StartsWith(name, "credentials.") || StartsWith(name, "filesystem.host.") || StartsWith(name, "kernel.")
    || StartsWith(name, "packages.") || StartsWith(name, "process.") || StartsWith(name, "service.")
    || StartsWith(name, "shell.") || StartsWith(name, "system.")
  }

  datatype Message = Message(id: string, call: Method, params: Object)

  /** `validate_host_request` */
  function ValidateRequest(v: Json): Outcome<Message> {
    var o :- AsObject(v);
    var _ :- Need(Get(o, Protocol, Null) == Str(HostProtocol()), UnsupportedProtocol);
    var _ :- Need(Get(o, TypeKey, Null) == Str("request"), InvalidMessageType);
    var id :- TextOf(Get(o, Id, Null), 1, 128);
    var name :- TextOf(Get(o, MethodKey, Null), 1, 96);
    var _ :- Need(!ForbiddenMethodName(name), ForbiddenMethod);
    var m := MethodNamed(name);
    var _ :- Need(m.Some?, UnknownMethod);
    var params :- AsObject(Get(o, Params, Obj(map[])));
    var _ :- Need(AppId !in params && Identity !in params, IdentitySpoofing);
    Good(Message(id, m.value, params))
  }

  // ----- parameters

  /** One of the allowed domains is the host name or ends it after a dot. */
  predicate Under(hostname: string, domains: seq<Json>) {
    exists i | 0 <= i < |domains| :: domains[i].Str? && UnderDomain(hostname, StripDots(Lower(domains[i].s)))
  }

  predicate UnderDomain(hostname: string, domain: string) {
    hostname == domain || EndsWith(hostname, "." + domain)
  }

  function ItemsOf(v: Json): seq<Json> {
    if v.Arr? then v.items else []
  }

  function CheckTarget(url: string, domains: seq<Json>, web: Web): Outcome<()> {
    match web.split(url)
    case None => Bad(Uncaught)
    case Some(u) =>
      var _ :- Need(u.scheme == "https" && u.hostname != "" && u.username == "" && u.password == "", NetworkTargetDenied);
      Need(Under(StripDots(Lower(u.hostname)), domains), NetworkDomainDenied)
  }

  function AuthorizeNetwork(params: Object, k: Object, web: Web): Outcome<Object> {
    var url :- TextOf(Get(params, Url, Null), 1, 2048);
    var _ :- CheckTarget(url, ItemsOf(Get(k, Domains, Null)), web);
    var name := Str(web.upper(Get(params, HttpMethod, Str("GET"))));
    var _ :- Need(name in ItemsOf(Get(k, Methods, Arr([Str("GET")]))), NetworkMethodDenied);
    Good(params[Url := Str(url)][HttpMethod := name])
  }

  function AxisWithin(target: Json, range: Json): Outcome<real> {
    var value :- NumberOf(target, InvalidMotorTarget);
    if !range.Arr? || |range.items| != 2 then Bad(Uncaught)
    else
      var low :- NumberOf(range.items[0], Uncaught);
      var high :- NumberOf(range.items[1], Uncaught);
      if value < low || value > high then Bad(MotorLimitExceeded) else Good(value)
  }

  function AuthorizeMotor(params: Object, k: Object): Outcome<Object> {
    var pan :- AxisWithin(Get(params, Pan, Null), Get(k, PanDegrees, Null));
    var tilt :- AxisWithin(Get(params, Tilt, Null), Get(k, TiltDegrees, Null));
    var top :- NumberOf(Get(k, MaxDegreesPerSecond, Null), Uncaught);
    var speed :- NumberOf(Get(params, DegreesPerSecond, Float(top)), InvalidMotorSpeed);
    if speed <= 0.0 || speed > top then Bad(MotorSpeedExceeded)
    else Good(params[Pan := Float(pan)][Tilt := Float(tilt)][DegreesPerSecond := Float(speed)])
  }

  /** Python's `round(x, 3)` on exact numbers: ties go to the even digit. */
  function Round3(x: real): real {
    var n := (x * 1000.0).Floor;
    var rest := x * 1000.0 - n as real;
    (if rest < 0.5 || (rest == 0.5 && n % 2 == 0) then n else n + 1) as real / 1000.0
  }

  function LeaseOf(v: Json): Outcome<real> {
    var lease :- NumberOf(v, InvalidMicrophoneLease);
    if lease < 1.0 || lease > 300.0 then Bad(InvalidMicrophoneLease) else Good(Round3(lease))
  }

  /** An integral float is in the set too; a list or an object cannot be looked up. */
  function RateOf(v: Json): Outcome<int> {
    if v.Arr? || v.Obj? then Bad(Uncaught)
    else if v == Int(16000) || v == Float(16000.0) then Good(16000)
    else if v == Int(48000) || v == Float(48000.0) then Good(48000)
    else Bad(InvalidSampleRate)
  }

  function LeaseIdOf(v: Json): Outcome<string> {
    var t :- TextOf(v, 1, 64);
    if |t| == 32 && forall i | 0 <= i < |t| :: 'a' <= t[i] <= 'f' || '0' <= t[i] <= '9' then Good(t)
    else Bad(InvalidLeaseId)
  }

  function OpenMicrophone(params: Object): Outcome<Object> {
    var _ :- Only(params, {LeaseSeconds, SampleRate, FrameMilliseconds, PrivacyIndicator});
    var lease :- LeaseOf(Get(params, LeaseSeconds, Int(30)));
    var rate :- RateOf(Get(params, SampleRate, Int(16000)));
    var frame :- IntegerOf(Get(params, FrameMilliseconds, Int(100)), 20, 500);
    var _ :- Need(Get(params, PrivacyIndicator, Bool(true)) == Bool(true), PrivacyIndicatorRequired);
    Good(map[LeaseSeconds := Float(lease), SampleRate := Int(rate), FrameMilliseconds := Int(frame), PrivacyIndicator := Bool(true)])
  }

  function ReadMicrophone(params: Object): Outcome<Object> {
    var _ :- Only(params, {LeaseId, FrameMilliseconds});
    var id :- LeaseIdOf(Get(params, LeaseId, Null));
    var frame :- IntegerOf(Get(params, FrameMilliseconds, Int(100)), 20, 500);
    Good(map[LeaseId := Str(id), FrameMilliseconds := Int(frame)])
  }

  function CloseMicrophone(params: Object): Outcome<Object> {
    var _ :- Only(params, {LeaseId});
    var id :- LeaseIdOf(Get(params, LeaseId, Null));
    Good(map[LeaseId := Str(id)])
  }

  function AuthorizeStorage(params: Object): Outcome<Object> {
    var p :- PackagePath(Get(params, PathKey, Null), 240);
    Good(params[PathKey := Str(p)])
  }

  function AuthorizeSpeaker(params: Object, k: Object): Outcome<Object> {
    if VolumePercent !in params then Good(params)
    else
      var volume :- IntegerOf(params[VolumePercent], 0, 100);
      var top := Get(k, MaxVolumePercent, Int(80));
      var _ :- Need(top.Int?, Uncaught);
      var _ :- Need(volume <= top.i, VolumeLimitExceeded);
      Good(params[VolumePercent := Int(volume)])
  }

  function Sanitize(m: Method, params: Object, k: Object, web: Web): Outcome<Object> {
    if m == NetworkFetch then AuthorizeNetwork(params, k, web)
    else if m == MicrophoneOpen then OpenMicrophone(params)
    else if m == MicrophoneRead then ReadMicrophone(params)
    else if m == MicrophoneClose then CloseMicrophone(params)
    else if CapabilityOf(m) == StorageApp then AuthorizeStorage(params)
    else if m == MotorMove then AuthorizeMotor(params, k)
    else if CapabilityOf(m) == SpeakerPlayback then AuthorizeSpeaker(params, k)
    else Good(params)
  }

  // ----- the decision

  datatype Session = Session(appId: Json, foreground: Json, userPresent: Json)

  function PermissionFor(ps: seq<Permission>, c: Capability): Option<Permission> {
    if ps == [] then None
    else if CapabilityNamed(ps[|ps| - 1].name) == Some(c) then Some(ps[|ps| - 1])
    else PermissionFor(ps[..|ps| - 1], c)
  }

  predicate GrantEnabled(grants: map<string, Json>, name: string) {
    name in grants &&
    (grants[name] == Bool(true) || (grants[name].Obj? && Get(grants[name].fields, Other("granted"), Null) == Bool(true)))
  }

  function FieldsOf(v: Json): Object {
    if v.Obj? then v.fields else map[]
  }

  /** The checks of the request against the normal form of a manifest. */
  function Decide(manifest: Manifest, grants: map<string, Json>, request: Json, session: Session, web: Web): Outcome<Object> {
    var message :- ValidateRequest(request);
    var c := CapabilityOf(message.call);
    var _ :- Need(session.appId == Get(manifest.metadata, Id, Null), IdentityMismatch);
    var p := PermissionFor(manifest.parts.permissions, c);
    var _ :- Need(p.Some?, NotDeclared);
    var _ :- Need(GrantEnabled(grants, p.value.name), NotGranted);
    var _ :- Need(SessionScope(c) ==> Truthy(session.foreground), ForegroundRequired);
    var _ :- Need(NeedsUser(c) ==> Truthy(session.userPresent), UserPresenceRequired);
    Sanitize(message.call, message.params, FieldsOf(p.value.constraints), web)
  }

  /** `authorize_request`: the sanitised parameters of an allowed request, or the code of the refusal. */
  function Authorize(manifest: Json, grants: map<string, Json>, request: Json, session: Session, lib: Library, web: Web): Outcome<Object> {
    var m :- ValidateManifest(manifest, None, lib);
    Decide(m, grants, request, session, web)
  }

  // ----- a manifest and its normal form authorise the same

  lemma DecideNeverTooLarge(m: Manifest, grants: map<string, Json>, request: Json, session: Session, web: Web)
    ensures Decide(m, grants, request, session, web) != Bad(ManifestTooLarge)
  {
    hide MethodNamed, ForbiddenMethodName, PermissionFor, GrantEnabled, CapabilityOf, Sanitize, Strip, SessionScope, NeedsUser;
    if ValidateRequest(request).Good? {
      var message := ValidateRequest(request).value;
      var p := PermissionFor(m.parts.permissions, CapabilityOf(message.call));
      if p.Some? {
        SanitizeNeverTooLarge(message.call, message.params, FieldsOf(p.value.constraints), web);
      }
    }
  }

  lemma SanitizeNeverTooLarge(m: Method, params: Object, k: Object, web: Web)
    ensures Sanitize(m, params, k, web) != Bad(ManifestTooLarge)
  {
    hide Under, SafePath, Strip, Round3, CapabilityOf;
  }

  /** Authorising by the normal form decides as the manifest does exactly when the normal form is not too long. */
  lemma NormalFormAuthorises(manifest: Json, grants: map<string, Json>, request: Json, session: Session, lib: Library, web: Web)
    requires ValidateManifest(manifest, None, lib).Good?
    ensures var normal := ManifestJson(ValidateManifest(manifest, None, lib).value);
            Authorize(normal, grants, request, session, lib, web) == Authorize(manifest, grants, request, session, lib, web)
            <==> lib.size(normal) <= MAX_BYTES
  {
    hide ValidateManifest, Decide, ManifestJson;
    ValidateTwice(manifest, None, lib);
    DecideNeverTooLarge(ValidateManifest(manifest, None, lib).value, grants, request, session, web);
  }

  // ----- sanitised parameters, submitted again

  lemma NetworkAgain(params: Object, k: Object, web: Web)
    requires Standard(web) && AuthorizeNetwork(params, k, web).Good?
    requires forall v | v in ItemsOf(Get(k, Methods, Arr([Str("GET")]))) :: NetworkMethod(v)
    ensures AuthorizeNetwork(AuthorizeNetwork(params, k, web).value, k, web) == AuthorizeNetwork(params, k, web)
  {
    hide TextOf, CheckTarget;
    TextOfNormal(Get(params, Url, Null), 1, 2048);
    var out := AuthorizeNetwork(params, k, web).value;
    var name := out[HttpMethod];
    assert NetworkMethod(name);
    assert out[Url := out[Url]][HttpMethod := name] == out;
  }

  lemma MotorAgain(params: Object, k: Object)
    requires AuthorizeMotor(params, k).Good?
    ensures AuthorizeMotor(AuthorizeMotor(params, k).value, k) == AuthorizeMotor(params, k)
  {
    AxisAgain(Get(params, Pan, Null), Get(k, PanDegrees, Null));
    AxisAgain(Get(params, Tilt, Null), Get(k, TiltDegrees, Null));
    hide AxisWithin;
    var out := AuthorizeMotor(params, k).value;
    assert out[Pan := out[Pan]][Tilt := out[Tilt]][DegreesPerSecond := out[DegreesPerSecond]] == out;
  }

  lemma AxisAgain(target: Json, range: Json)
    requires AxisWithin(target, range).Good?
    ensures AxisWithin(Float(AxisWithin(target, range).value), range) == AxisWithin(target, range)
  {}

  lemma Round3Again(x: real)
    requires 1.0 <= x <= 300.0
    ensures Round3(Round3(x)) == Round3(x) && 1.0 <= Round3(x) <= 300.0
  {
    var n := (x * 1000.0).Floor;
    assert 1000 <= n <= 300000;
    var k := (Round3(x) * 1000.0).Floor;
    assert n < 300000 || x * 1000.0 - n as real == 0.0;
    assert k == n || k == n + 1;
  }

  lemma LeaseIdAgain(v: Json)
    requires LeaseIdOf(v).Good?
    ensures LeaseIdOf(Str(LeaseIdOf(v).value)) == LeaseIdOf(v)
  {
    hide TextOf;
    TextOfNormal(v, 1, 64);
  }

  lemma OpenAgain(params: Object)
    requires OpenMicrophone(params).Good?
    ensures OpenMicrophone(OpenMicrophone(params).value) == OpenMicrophone(params)
  {
    hide Round3;
    Round3Again(NumberOf(Get(params, LeaseSeconds, Int(30)), InvalidMicrophoneLease).value);
  }

  lemma ReadAgain(params: Object)
    requires ReadMicrophone(params).Good?
    ensures ReadMicrophone(ReadMicrophone(params).value) == ReadMicrophone(params)
  {
    hide LeaseIdOf;
    LeaseIdAgain(Get(params, LeaseId, Null));
  }

  lemma CloseAgain(params: Object)
    requires CloseMicrophone(params).Good?
    ensures CloseMicrophone(CloseMicrophone(params).value) == CloseMicrophone(params)
  {
    hide LeaseIdOf;
    LeaseIdAgain(Get(params, LeaseId, Null));
  }

  lemma SpeakerAgain(params: Object, k: Object)
    requires AuthorizeSpeaker(params, k).Good?
    ensures AuthorizeSpeaker(AuthorizeSpeaker(params, k).value, k) == AuthorizeSpeaker(params, k)
  {
    var out := AuthorizeSpeaker(params, k).value;
    if VolumePercent in params {
      assert out[VolumePercent := out[VolumePercent]] == out;
    }
  }

  /** The sanitised path has no white space at either end. */
  predicate PathTrim(out: Object) {
    PathKey in out && out[PathKey].Str? && Trim(out[PathKey].s)
  }

  lemma StorageAgain(params: Object)
    requires AuthorizeStorage(params).Good?
    ensures var out := AuthorizeStorage(params).value; AuthorizeStorage(out) == Good(out) <==> PathTrim(out)
  {
    hide PackagePath, Trim;
    PackagePathNormal(Get(params, PathKey, Null), 240);
    var out := AuthorizeStorage(params).value;
    assert out[PathKey := out[PathKey]] == out;
  }

  lemma FirstPath()
    ensures PackagePath(Str("./ a"), 240) == Good(" a")
  {
    hide Strip;
    assert Split("./ a", '/') == [".", " a"] by {
      SplitFirst(".", " a", '/');
      SplitNone(" a", '/');
    }
    assert Components([".", " a"][1..]) == [" a"];
    StripTrims("./ a");
  }

  lemma StripOne()
    ensures Strip(" a") == "a"
  {
    assert LStrip(" a") == "a" by { assert " a"[1..] == "a"; }
    assert RStrip("a") == "a";
  }

  lemma SecondPath()
    ensures PackagePath(Str(" a"), 240) == Good("a")
  {
    hide Strip;
    StripOne();
    assert SafePath("a") == GoodPath("a") by {
      SplitNone("a", '/');
      ComponentsSame(["a"]);
    }
  }

  /** "./ a" becomes " a", which becomes "a" when it is submitted again. */
  lemma StorageDrifts()
    ensures AuthorizeStorage(map[PathKey := Str("./ a")]) == Good(map[PathKey := Str(" a")])
    ensures AuthorizeStorage(map[PathKey := Str(" a")]) == Good(map[PathKey := Str("a")])
  {
    hide PackagePath;
    FirstPath();
    SecondPath();
    assert map[PathKey := Str("./ a")][PathKey := Str(" a")] == map[PathKey := Str(" a")];
    assert map[PathKey := Str(" a")][PathKey := Str("a")] == map[PathKey := Str("a")];
  }

  ghost predicate NetworkMethodsOnly(k: Object) {
    forall v | v in ItemsOf(Get(k, Methods, Arr([Str("GET")]))) :: NetworkMethod(v)
  }

  lemma SanitizeAgain(m: Method, params: Object, k: Object, web: Web)
    requires Standard(web) && Sanitize(m, params, k, web).Good?
    requires m == NetworkFetch ==> NetworkMethodsOnly(k)
    ensures var out := Sanitize(m, params, k, web).value;
            Sanitize(m, out, k, web) == Good(out) <==> (CapabilityOf(m) == StorageApp ==> PathTrim(out))
  {
    hide AuthorizeNetwork, OpenMicrophone, ReadMicrophone, CloseMicrophone, AuthorizeStorage, AuthorizeMotor, AuthorizeSpeaker, PathTrim;
    if m == NetworkFetch { NetworkAgain(params, k, web); }
    else if m == MicrophoneOpen { OpenAgain(params); }
    else if m == MicrophoneRead { ReadAgain(params); }
    else if m == MicrophoneClose { CloseAgain(params); }
    else if CapabilityOf(m) == StorageApp { StorageAgain(params); }
    else if m == MotorMove { MotorAgain(params, k); }
    else if CapabilityOf(m) == SpeakerPlayback { SpeakerAgain(params, k); }
  }

  lemma SanitizeKeepsIdentity(m: Method, params: Object, k: Object, web: Web)
    requires Sanitize(m, params, k, web).Good? && AppId !in params && Identity !in params
    ensures var out := Sanitize(m, params, k, web).value; AppId !in out && Identity !in out
  {
    hide TextOf, CheckTarget, AxisWithin, LeaseOf, RateOf, LeaseIdOf, PackagePath, IntegerOf, NumberOf, CapabilityOf;
  }

  // ----- what a validated manifest says about a permission

  lemma {:induction false} FoundPermission(ps: seq<Permission>, c: Capability)
    requires PermissionFor(ps, c).Some?
    ensures exists i :: 0 <= i < |ps| && ps[i] == PermissionFor(ps, c).value && CapabilityNamed(ps[i].name) == Some(c)
    decreases |ps|
  {
    hide CapabilityNamed;
    var n := |ps| - 1;
    if CapabilityNamed(ps[n].name) != Some(c) {
      FoundPermission(ps[..n], c);
      var i :| 0 <= i < n && ps[..n][i] == PermissionFor(ps[..n], c).value && CapabilityNamed(ps[..n][i].name) == Some(c);
      assert ps[i] == ps[..n][i];
    }
  }

  /** The constraints a request is held to have passed validation for its capability. */
  lemma DeclaredConstraints(manifest: Json, lib: Library, c: Capability)
    requires ValidateManifest(manifest, None, lib).Good?
    requires PermissionFor(ValidateManifest(manifest, None, lib).value.parts.permissions, c).Some?
    ensures var p := PermissionFor(ValidateManifest(manifest, None, lib).value.parts.permissions, c).value;
            CheckConstraints(c, p.constraints) == Good(p.constraints) && CapabilityNamed(p.name) == Some(c) && !Forbidden(p.name)
  {
    hide CheckConstraints, CapabilityNamed, Forbidden, MetadataOf, RuntimeOf, LifecycleOf, ResourcesOf, UiOf, PermissionsOf;
    var spec := Get(manifest.fields, Spec, Null);
    var items := Get(spec.fields, Permissions, Null).items;
    var ps := PermissionsOf(items, {}).value;
    PermissionsSound(items, {});
    FoundPermission(ps, c);
    var i :| 0 <= i < |ps| && ps[i] == PermissionFor(ps, c).value && CapabilityNamed(ps[i].name) == Some(c);
    assert Sound(ps[i]);
  }

  lemma NetworkDeclared(raw: Json)
    requires CheckConstraints(NetworkOutbound, raw) == Good(raw)
    ensures NetworkMethodsOnly(FieldsOf(raw)) && DomainsOnly(ItemsOf(Get(FieldsOf(raw), Domains, Null)))
  {
    hide CheckDomains, CheckMethods;
    var o := if Truthy(raw) then raw.fields else map[];
    DomainsDeclared(Get(o, Domains, Null));
    MethodsDeclared(Get(o, Methods, Arr([Str("GET")])));
  }

  ghost predicate DomainsOnly(items: seq<Json>) {
    forall i | 0 <= i < |items| :: items[i].Str? && DomainOf(items[i]) == Good(items[i].s)
  }

  lemma DomainsDeclared(v: Json)
    requires CheckDomains(v).Good?
    ensures CheckDomains(v).value.Arr? && DomainsOnly(CheckDomains(v).value.items)
  {
    hide DomainsOf, DomainOf;
    DomainsOfNormal(v.items, []);
  }

  lemma MethodsDeclared(v: Json)
    requires CheckMethods(v).Good?
    ensures CheckMethods(v).value.Arr? && forall m | m in CheckMethods(v).value.items :: NetworkMethod(m)
  {
    hide MethodsOf;
    MethodsOnly(v.items);
  }

  lemma {:induction false} MethodsOnly(items: seq<Json>)
    requires MethodsOf(items).Good?
    ensures forall m | m in MethodsOf(items).value :: NetworkMethod(m)
    decreases |items|
  {
    hide NetworkMethod;
    if items != [] {
      MethodsOnly(items[1..]);
    }
  }

  // ----- the main results

  /** What `Authorize` has found when it allows a request. */
  ghost predicate Allowed(manifest: Json, request: Json, lib: Library, call: Method, params: Object, p: Permission) {
    && ValidateManifest(manifest, None, lib).Good?
    && ValidateRequest(request).Good? && ValidateRequest(request).value.call == call && ValidateRequest(request).value.params == params
    && PermissionFor(ValidateManifest(manifest, None, lib).value.parts.permissions, CapabilityOf(call)) == Some(p)
    && CheckConstraints(CapabilityOf(call), p.constraints) == Good(p.constraints)
    && CapabilityNamed(p.name) == Some(CapabilityOf(call)) && !Forbidden(p.name)
    && AppId !in params && Identity !in params
  }

  lemma AllowedBy(manifest: Json, grants: map<string, Json>, request: Json, session: Session, lib: Library, web: Web)
    returns (call: Method, params: Object, p: Permission)
    requires Authorize(manifest, grants, request, session, lib, web).Good?
    ensures Allowed(manifest, request, lib, call, params, p)
    ensures GrantEnabled(grants, p.name)
    ensures Sanitize(call, params, FieldsOf(p.constraints), web) == Authorize(manifest, grants, request, session, lib, web)
  {
    hide ValidateManifest, PermissionFor, CheckConstraints, CapabilityNamed, Forbidden, MethodNamed, ForbiddenMethodName, TextOf, CapabilityOf, Sanitize;
    call := ValidateRequest(request).value.call;
    params := ValidateRequest(request).value.params;
    DeclaredConstraints(manifest, lib, CapabilityOf(call));
    p := PermissionFor(ValidateManifest(manifest, None, lib).value.parts.permissions, CapabilityOf(call)).value;
  }

  /** The request with its parameters replaced. */
  function WithParams(request: Json, params: Object): Json {
    Obj(FieldsOf(request)[Params := Obj(params)])
  }

  lemma RequestAgain(request: Json, out: Object)
    requires ValidateRequest(request).Good? && AppId !in out && Identity !in out
    ensures ValidateRequest(WithParams(request, out)) == Good(ValidateRequest(request).value.(params := out))
  {
    hide TextOf, MethodNamed, ForbiddenMethodName;
  }

  /**
   Sending an allowed request again with its sanitised parameters is allowed and leaves them as
   they are, for every method; for the storage methods exactly when the sanitised path has no
   white space at its ends.
   */
  lemma ResubmitIff(manifest: Json, grants: map<string, Json>, request: Json, session: Session, lib: Library, web: Web)
    requires Standard(web) && Authorize(manifest, grants, request, session, lib, web).Good?
    ensures var out := Authorize(manifest, grants, request, session, lib, web).value;
            Authorize(manifest, grants, WithParams(request, out), session, lib, web) == Good(out)
            <==> (CapabilityOf(ValidateRequest(request).value.call) == StorageApp ==> PathTrim(out))
  {
    hide ValidateManifest, ValidateRequest, PermissionFor, CheckConstraints, CapabilityNamed, Forbidden, CapabilityOf, Sanitize, PathTrim,
         Standard, WithParams, GrantEnabled;
    var call, params, p := AllowedBy(manifest, grants, request, session, lib, web);
    var k := FieldsOf(p.constraints);
    var out := Sanitize(call, params, k, web).value;
    if call == NetworkFetch {
      assert CapabilityOf(NetworkFetch) == NetworkOutbound by { NetworkCall(); }
      NetworkDeclared(p.constraints);
    }
    SanitizeAgain(call, params, k, web);
    SanitizeKeepsIdentity(call, params, k, web);
    RequestAgain(request, out);
  }

  lemma NetworkCall()
    ensures CapabilityOf(NetworkFetch) == NetworkOutbound && CapabilityOf(MotorMove) == MotorPanTilt
  {}

  /** The permission of the validated manifest that declares the capability. */
  ghost predicate Declares(manifest: Json, lib: Library, c: Capability, p: Permission) {
    && ValidateManifest(manifest, None, lib).Good?
    && PermissionFor(ValidateManifest(manifest, None, lib).value.parts.permissions, c) == Some(p)
    && p in ValidateManifest(manifest, None, lib).value.parts.permissions && CapabilityNamed(p.name) == Some(c)
  }

  lemma AllowedDeclares(manifest: Json, request: Json, lib: Library, call: Method, params: Object, p: Permission)
    requires Allowed(manifest, request, lib, call, params, p)
    ensures Declares(manifest, lib, CapabilityOf(call), p)
  {
    hide ValidateManifest, ValidateRequest, CheckConstraints, CapabilityNamed, Forbidden, CapabilityOf, PermissionFor;
    FoundPermission(ValidateManifest(manifest, None, lib).value.parts.permissions, CapabilityOf(call));
  }

  /** A credential-free HTTPS URL whose host is one of the domains or lies under one of them. */
  predicate Reaches(u: Option<SplitUrl>, domains: seq<Json>) {
    && u.Some? && u.value.scheme == "https" && u.value.username == "" && u.value.password == ""
    && Under(StripDots(Lower(u.value.hostname)), domains)
  }

  /** The fetch keeps to the domains and methods of these constraints. */
  predicate FetchWithin(out: Object, k: Object, web: Web) {
    && Url in out && out[Url].Str? && HttpMethod in out
    && Reaches(web.split(out[Url].s), ItemsOf(Get(k, Domains, Null)))
    && out[HttpMethod] in ItemsOf(Get(k, Methods, Arr([Str("GET")])))
  }

  /**
   An allowed fetch goes by HTTPS, without credentials, to a host that is a domain declared by the
   granted permission of the manifest or lies under one, with a method declared there; what is
   declared there are valid domain names and some of the three methods.
   */
  lemma FetchConfined(manifest: Json, grants: map<string, Json>, request: Json, session: Session, lib: Library, web: Web)
    returns (p: Permission)
    requires Authorize(manifest, grants, request, session, lib, web).Good?
    requires ValidateRequest(request).value.call == NetworkFetch
    ensures Declares(manifest, lib, NetworkOutbound, p) && GrantEnabled(grants, p.name)
    ensures FetchWithin(Authorize(manifest, grants, request, session, lib, web).value, FieldsOf(p.constraints), web)
    ensures DomainNames(ItemsOf(Get(FieldsOf(p.constraints), Domains, Null))) && NetworkMethodsOnly(FieldsOf(p.constraints))
  {
    hide ValidateManifest, ValidateRequest, PermissionFor, CheckConstraints, CapabilityNamed, Forbidden, Sanitize, GrantEnabled, Authorize,
         AuthorizeNetwork, CapabilityOf, FetchWithin, FieldsOf, DomainNames, DomainsOnly, NetworkMethodsOnly, Declares;
    var call, params, q := AllowedBy(manifest, grants, request, session, lib, web);
    p := q;
    NetworkCall();
    AllowedDeclares(manifest, request, lib, call, params, p);
    NetworkDeclared(p.constraints);
    NamesOnly(ItemsOf(Get(FieldsOf(p.constraints), Domains, Null)));
    SanitizeFetch(params, FieldsOf(p.constraints), web);
    FetchSanitized(params, FieldsOf(p.constraints), web);
  }

  lemma SanitizeFetch(params: Object, k: Object, web: Web)
    ensures Sanitize(NetworkFetch, params, k, web) == AuthorizeNetwork(params, k, web)
    ensures Sanitize(MotorMove, params, k, web) == AuthorizeMotor(params, k)
  {
    hide AuthorizeNetwork, OpenMicrophone, ReadMicrophone, CloseMicrophone, AuthorizeStorage, AuthorizeMotor, AuthorizeSpeaker;
  }

  ghost predicate DomainNames(domains: seq<Json>) {
    forall i | 0 <= i < |domains| :: domains[i].Str? && IsDomain(domains[i].s) && StripDots(Lower(domains[i].s)) == domains[i].s
  }

  lemma NamesOnly(domains: seq<Json>)
    requires DomainsOnly(domains)
    ensures DomainNames(domains)
  {
    hide DomainOf, IsDomain, StripDots, Lower;
    forall i | 0 <= i < |domains|
      ensures domains[i].Str? && IsDomain(domains[i].s) && StripDots(Lower(domains[i].s)) == domains[i].s
    {
      DomainOfDomain(domains[i].s);
    }
  }

  lemma DomainOfDomain(d: string)
    requires DomainOf(Str(d)) == Good(d)
    ensures IsDomain(d) && StripDots(Lower(d)) == d
  {
    hide StripDots, Lower, TextOf;
    DomainNormal(d) by { hide *; DomainOfIs(d); }
  }

  lemma DomainOfIs(d: string)
    requires DomainOf(Str(d)) == Good(d)
    ensures IsDomain(d)
  {
    hide StripDots, Lower, TextOf, IsDomain;
  }

  lemma FetchSanitized(params: Object, k: Object, web: Web)
    requires AuthorizeNetwork(params, k, web).Good?
    ensures FetchWithin(AuthorizeNetwork(params, k, web).value, k, web)
  {
    hide TextOf, Under, StripDots, Lower;
  }

  ghost predicate Between(v: Json, low: real, high: real) {
    v.Float? && low <= v.r <= high
  }

  /** Two numbers, in order, no more than a half turn either way. */
  predicate ValidRange(range: Json) {
    && range.Arr? && |range.items| == 2 && range.items[0].Float? && range.items[1].Float?
    && -180.0 <= range.items[0].r < range.items[1].r <= 180.0
  }

  /** The axis lies in the declared range, which is itself valid. */
  ghost predicate AxisInside(v: Json, range: Json) {
    ValidRange(range) && Between(v, range.items[0].r, range.items[1].r)
  }

  /** The movement keeps to the ranges and the speed of these constraints. */
  ghost predicate MoveWithin(out: Object, k: Object) {
    && {Pan, Tilt, DegreesPerSecond} <= out.Keys
    && AxisInside(out[Pan], Get(k, PanDegrees, Null)) && AxisInside(out[Tilt], Get(k, TiltDegrees, Null))
    && Between(Get(k, MaxDegreesPerSecond, Null), 1.0, 120.0)
    && Between(out[DegreesPerSecond], 0.0, Get(k, MaxDegreesPerSecond, Null).r) && out[DegreesPerSecond].r > 0.0
  }

  lemma AxisConfined(target: Json, range: Json)
    requires AxisWithin(target, range).Good? && CheckRange(range) == Good(range)
    ensures AxisInside(Float(AxisWithin(target, range).value), range)
  {}

  /**
   An allowed movement keeps to the ranges and the speed that the granted permission of the
   manifest declares, which are within a half turn and 120 degrees a second.
   */
  lemma MoveConfined(manifest: Json, grants: map<string, Json>, request: Json, session: Session, lib: Library, web: Web)
    returns (p: Permission)
    requires Authorize(manifest, grants, request, session, lib, web).Good?
    requires ValidateRequest(request).value.call == MotorMove
    ensures Declares(manifest, lib, MotorPanTilt, p) && GrantEnabled(grants, p.name)
    ensures MoveWithin(Authorize(manifest, grants, request, session, lib, web).value, FieldsOf(p.constraints))
  {
    hide ValidateManifest, ValidateRequest, PermissionFor, CheckConstraints, CapabilityNamed, Forbidden, Sanitize, GrantEnabled, Authorize,
         AuthorizeMotor, CapabilityOf, MoveWithin, FieldsOf, Declares;
    var call, params, q := AllowedBy(manifest, grants, request, session, lib, web);
    p := q;
    NetworkCall();
    AllowedDeclares(manifest, request, lib, call, params, p);
    SanitizeFetch(params, FieldsOf(p.constraints), web);
    MoveSanitized(params, p.constraints);
  }

  lemma MoveSanitized(params: Object, raw: Json)
    requires CheckConstraints(MotorPanTilt, raw) == Good(raw) && AuthorizeMotor(params, FieldsOf(raw)).Good?
    ensures MoveWithin(AuthorizeMotor(params, FieldsOf(raw)).value, FieldsOf(raw))
  {
    hide AxisWithin, CheckRange, AxisInside;
    var k := FieldsOf(raw);
    MotorDeclared(raw);
    AxisConfined(Get(params, Pan, Null), Get(k, PanDegrees, Null));
    AxisConfined(Get(params, Tilt, Null), Get(k, TiltDegrees, Null));
  }

  lemma MotorDeclared(raw: Json)
    requires CheckConstraints(MotorPanTilt, raw) == Good(raw)
    ensures var k := FieldsOf(raw);
            && CheckRange(Get(k, PanDegrees, Null)) == Good(Get(k, PanDegrees, Null))
            && CheckRange(Get(k, TiltDegrees, Null)) == Good(Get(k, TiltDegrees, Null))
            && Between(Get(k, MaxDegreesPerSecond, Null), 1.0, 120.0)
  {
    hide CheckRange;
    var o := if Truthy(raw) then raw.fields else map[];
    CheckRangeNormal(Get(o, PanDegrees, Null));
    CheckRangeNormal(Get(o, TiltDegrees, Null));
  }
}
