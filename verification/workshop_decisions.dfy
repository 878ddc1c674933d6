/**
 What the Workshop contract decides, by method and capability names: which requests are well
 formed, which of them are allowed, and the parameters they are allowed with.
 */
module WorkshopDecisions {
  import opened Common
  import opened Text
  import opened WorkshopText
  import opened WorkshopPermissions
  import opened WorkshopManifest
  import opened WorkshopRequests
  import opened WorkshopNames

  // ----- values

  /** A text that is `t` with white space around it, of a length between the two bounds. */
  ghost predicate Reads(v: Json, low: nat, high: nat, t: string) {
    v.Str? && Stripped(v.s, t) && low <= |t| <= high
  }

  lemma ReadsIff(v: Json, low: nat, high: nat, t: string)
    ensures TextOf(v, low, high) == Good(t) <==> Reads(v, low, high, t)
  {
    hide Strip, Stripped;
    if v.Str? {
      StripIff(v.s, t);
    }
  }

  /** An integer or a float of this value. */
  predicate Equals(v: Json, x: real) {
    v == Float(x) || (v.Int? && v.i as real == x)
  }

  lemma NumberIff(v: Json, error: Error, x: real)
    ensures NumberOf(v, error) == Good(x) <==> Equals(v, x)
  {}

  /** Python's false values. */
  predicate Falsy(v: Json) {
    v in {Null, Bool(false), Int(0), Float(0.0), Str(""), Arr([]), Obj(map[])}
  }

  lemma TruthyIff(v: Json)
    ensures Truthy(v) <==> !Falsy(v)
  {}

  // ----- requests

  /** A request for the method of that name with these parameters. */
  ghost predicate Requests(v: Json, id: string, name: string, params: Object) {
    && v.Obj? && {Protocol, TypeKey, Id, MethodKey} <= v.fields.Keys
    && v.fields[Protocol] == Str("riverbank.app-host/v1") && v.fields[TypeKey] == Str("request")
    && Reads(v.fields[Id], 1, 128, id) && Reads(v.fields[MethodKey], 1, 96, name)
    && (if Params in v.fields then v.fields[Params] == Obj(params) else params == map[])
    && AppId !in params && Identity !in params
  }

  lemma {:induction false} RequestIff(v: Json, id: string, m: Method, params: Object)
    ensures ValidateRequest(v) == Good(Message(id, m, params)) <==> Requests(v, id, NameOf(m), params)
  {
    hide MethodNamed, NameOf, TextOf, Reads, ForbiddenMethodName;
    if v.Obj? {
      ReadsIff(Get(v.fields, Id, Null), 1, 128, id);
      ReadsIff(Get(v.fields, MethodKey, Null), 1, 96, NameOf(m));
      NullUnread(1, 128, id);
      NullUnread(1, 96, NameOf(m));
      var name := TextOf(Get(v.fields, MethodKey, Null), 1, 96);
      if name.Good? {
        NamedIff(name.value, m);
      }
      NotForbidden(m);
    }
  }

  lemma NullUnread(low: nat, high: nat, t: string)
    ensures !Reads(Null, low, high, t)
  {}

  lemma NotForbidden(m: Method)
    ensures !ForbiddenMethodName(NameOf(m))
  {
    hide StartsWith;
    var s := NameOf(m);
    ForbiddenBegins(s);
  }

  /** The first two letters of the forbidden names. */
  lemma ForbiddenBegins(s: string)
    ensures ForbiddenMethodName(s) ==> |s| >= 2 && [s[0], s[1]] in {"cr", "fi", "ke", "pa", "pr", "se", "sh", "sy"}
  {
    hide StartsWith;
    Begins(s, "credentials.");
    Begins(s, "filesystem.host.");
    Begins(s, "kernel.");
    Begins(s, "packages.");
    Begins(s, "process.");
    Begins(s, "service.");
    Begins(s, "shell.");
    Begins(s, "system.");
  }

  lemma Begins(s: string, p: string)
    requires |p| >= 2
    ensures StartsWith(s, p) ==> |s| >= 2 && s[0] == p[0] && s[1] == p[1]
  {
    if StartsWith(s, p) {
      assert s[..|p|][0] == s[0] && s[..|p|][1] == s[1];
    }
  }

  // ----- host names and paths

  /** `s` is `t` with dots behind it, and `t` does not end with one. */
  ghost predicate Dotless(s: string, t: string) {
    t <= s && (forall i | |t| <= i < |s| :: s[i] == '.') && (t == "" || t[|t| - 1] != '.')
  }

  lemma {:induction false} DotsIff(s: string, t: string)
    ensures StripDots(s) == t <==> Dotless(s, t)
    decreases |s|
  {
    if s != "" && s[|s| - 1] == '.' {
      DotsIff(s[..|s| - 1], t);
      if Dotless(s, t) {
        assert |t| < |s|;
        assert t <= s[..|s| - 1];
      }
    } else if Dotless(s, t) {
      assert |t| == |s|;
      assert s == t;
    }
  }

  /** The host name is one of the domains or a name under it, apart from case and dots at the end. */
  ghost predicate Hosted(hostname: string, domains: seq<Json>) {
    exists i, h, d ::
      && 0 <= i < |domains| && domains[i].Str?
      && Dotless(Lower(hostname), h) && Dotless(Lower(domains[i].s), d)
      && (h == d || exists sub :: h == sub + "." + d)
  }

  lemma UnderIff(hostname: string, domains: seq<Json>)
    ensures Under(StripDots(Lower(hostname)), domains) <==> Hosted(hostname, domains)
  {
    hide StripDots, Lower, UnderDomain, Dotless;
    var h := StripDots(Lower(hostname));
    DotsIff(Lower(hostname), h);
    if Under(h, domains) {
      var i :| 0 <= i < |domains| && domains[i].Str? && UnderDomain(h, StripDots(Lower(domains[i].s)));
      DotsIff(Lower(domains[i].s), StripDots(Lower(domains[i].s)));
      UnderDomainIff(h, StripDots(Lower(domains[i].s)));
    }
    if Hosted(hostname, domains) {
      var i, g, d :|
        && 0 <= i < |domains| && domains[i].Str?
        && Dotless(Lower(hostname), g) && Dotless(Lower(domains[i].s), d)
        && (g == d || exists sub :: g == sub + "." + d);
      DotsIff(Lower(hostname), g);
      DotsIff(Lower(domains[i].s), d);
      UnderDomainIff(g, d);
    }
  }

  lemma UnderDomainIff(h: string, d: string)
    ensures UnderDomain(h, d) <==> h == d || exists sub :: h == sub + "." + d
  {
    var tail := "." + d;
    if EndsWith(h, tail) {
      assert h == h[..|h| - |tail|] + "." + d;
    }
    if exists sub :: h == sub + "." + d {
      var sub :| h == sub + "." + d;
      assert h == sub + tail;
      assert h[|sub|..] == tail;
    }
  }

  /** A package path and its normal form: empty and "." parts go, and ".." or an absolute path is refused. */
  ghost predicate Normalises(value: string, p: string) {
    && value != "" && '\0' !in value && value[0] != '/'
    && exists parts :: parts != [] && Unsplit(parts, '/') && Join(parts, '/') == value && ".." !in parts
         && p == if Components(parts) == [] then "." else Join(Components(parts), '/')
  }

  lemma SafePathIff(value: string, p: string)
    ensures SafePath(value) == GoodPath(p) <==> Normalises(value, p)
  {
    hide Split, Join, Components;
    SplitParts(value, '/');
    DotsStay(Split(value, '/'));
    if Normalises(value, p) {
      var parts :| parts != [] && Unsplit(parts, '/') && Join(parts, '/') == value && ".." !in parts
         && p == if Components(parts) == [] then "." else Join(Components(parts), '/');
      SplitJoin(parts, '/');
    }
  }

  lemma {:induction false} DotsStay(parts: seq<string>)
    ensures ".." in Components(parts) <==> ".." in parts
    decreases |parts|
  {
    if parts != [] {
      DotsStay(parts[1..]);
      assert parts == [parts[0]] + parts[1..];
      assert |".."| == 2;
    }
  }

  /** The parts that are kept, part by part. */
  lemma {:induction false} ComponentsMore(parts: seq<string>, part: string)
    ensures Components(parts + [part]) == Components(parts) + if part == "" || part == "." then [] else [part]
    decreases |parts|
  {
    if parts == [] {
      assert parts + [part] == [part];
      assert Components([part]) == (if part == "" || part == "." then [] else [part]) + Components([part][1..]);
    } else {
      assert (parts + [part])[1..] == parts[1..] + [part];
      ComponentsMore(parts[1..], part);
    }
  }

  lemma PackagePathIff(v: Json, high: nat, p: string)
    ensures PackagePath(v, high) == Good(p) <==> exists t :: Reads(v, 1, high, t) && Normalises(t, p)
  {
    hide TextOf, SafePath, Reads, Normalises;
    var text := TextOf(v, 1, high);
    if text.Good? {
      ReadsIff(v, 1, high, text.value);
      SafePathIff(text.value, p);
    }
    forall t | Reads(v, 1, high, t) && Normalises(t, p) ensures PackagePath(v, high) == Good(p) {
      ReadsIff(v, 1, high, t);
      SafePathIff(t, p);
    }
  }

  // ----- parameters

  /** A credential-free HTTPS URL on a host that is allowed. */
  ghost predicate Reachable(u: Option<SplitUrl>, domains: seq<Json>) {
    && u.Some? && u.value.scheme == "https" && u.value.hostname != "" && u.value.username == "" && u.value.password == ""
    && Hosted(u.value.hostname, domains)
  }

  function DeclaredMethods(k: Object): seq<Json> {
    if Methods !in k then [Str("GET")] else if k[Methods].Arr? then k[Methods].items else []
  }

  ghost predicate FetchAllowed(params: Object, k: Object, web: Web, out: Object) {
    exists url :: Reads(Get(params, Url, Null), 1, 2048, url)
      && Reachable(web.split(url), ItemsOf(Get(k, Domains, Null)))
      && Str(web.upper(Get(params, HttpMethod, Str("GET")))) in DeclaredMethods(k)
      && out == params[Url := Str(url)][HttpMethod := Str(web.upper(Get(params, HttpMethod, Str("GET"))))]
  }

  lemma TargetIff(url: string, domains: seq<Json>, web: Web)
    ensures CheckTarget(url, domains, web).Good? <==> Reachable(web.split(url), domains)
  {
    hide Under, StripDots, Lower, Hosted;
    if web.split(url).Some? {
      UnderIff(web.split(url).value.hostname, domains);
    }
  }

  lemma FetchIff(params: Object, k: Object, web: Web, out: Object)
    ensures AuthorizeNetwork(params, k, web) == Good(out) <==> FetchAllowed(params, k, web, out)
  {
    hide TextOf, CheckTarget, Reachable, Reads;
    var v := Get(params, Url, Null);
    var domains := ItemsOf(Get(k, Domains, Null));
    assert ItemsOf(Get(k, Methods, Arr([Str("GET")]))) == DeclaredMethods(k);
    var text := TextOf(v, 1, 2048);
    if text.Good? {
      ReadsIff(v, 1, 2048, text.value);
      TargetIff(text.value, domains, web);
    }
    forall url | Reads(v, 1, 2048, url) ensures text == Good(url) {
      ReadsIff(v, 1, 2048, url);
    }
  }

  /** Between two numbers. */
  ghost predicate InRange(range: Json, x: real) {
    && range.Arr? && |range.items| == 2
    && exists low, high :: Equals(range.items[0], low) && Equals(range.items[1], high) && low <= x <= high
  }

  lemma AxisIff(target: Json, range: Json, x: real)
    ensures AxisWithin(target, range) == Good(x) <==> Equals(target, x) && InRange(range, x)
  {
    if AxisWithin(target, range).Good? {
      var low, high := NumberOf(range.items[0], Uncaught).value, NumberOf(range.items[1], Uncaught).value;
      assert Equals(range.items[0], low) && Equals(range.items[1], high);
    }
  }

  ghost predicate MoveParts(params: Object, k: Object, pan: real, tilt: real, speed: real) {
    && Equals(Get(params, Pan, Null), pan) && InRange(Get(k, PanDegrees, Null), pan)
    && Equals(Get(params, Tilt, Null), tilt) && InRange(Get(k, TiltDegrees, Null), tilt)
    && (exists top :: Equals(Get(k, MaxDegreesPerSecond, Null), top) && 0.0 < speed <= top
          && if DegreesPerSecond in params then Equals(params[DegreesPerSecond], speed) else speed == top)
  }

  ghost predicate MoveAllowed(params: Object, k: Object, out: Object) {
    exists pan, tilt, speed :: MoveParts(params, k, pan, tilt, speed)
      && out == params[Pan := Float(pan)][Tilt := Float(tilt)][DegreesPerSecond := Float(speed)]
  }

  lemma MoveIff(params: Object, k: Object, out: Object)
    ensures AuthorizeMotor(params, k) == Good(out) <==> MoveAllowed(params, k, out)
  {
    hide AxisWithin, InRange;
    var pan := AxisWithin(Get(params, Pan, Null), Get(k, PanDegrees, Null));
    var tilt := AxisWithin(Get(params, Tilt, Null), Get(k, TiltDegrees, Null));
    if AuthorizeMotor(params, k).Good? {
      AxisIff(Get(params, Pan, Null), Get(k, PanDegrees, Null), pan.value);
      AxisIff(Get(params, Tilt, Null), Get(k, TiltDegrees, Null), tilt.value);
      var top := NumberOf(Get(k, MaxDegreesPerSecond, Null), Uncaught).value;
      var speed := NumberOf(Get(params, DegreesPerSecond, Float(top)), InvalidMotorSpeed).value;
      assert Equals(Get(k, MaxDegreesPerSecond, Null), top);
      assert MoveParts(params, k, pan.value, tilt.value, speed);
    }
    forall x, y, speed | MoveParts(params, k, x, y, speed)
      ensures AuthorizeMotor(params, k) == Good(params[Pan := Float(x)][Tilt := Float(y)][DegreesPerSecond := Float(speed)])
    {
      AxisIff(Get(params, Pan, Null), Get(k, PanDegrees, Null), x);
      AxisIff(Get(params, Tilt, Null), Get(k, TiltDegrees, Null), y);
    }
  }

  /** `n` thousandths are nearest to `x`, an even number of them if two are. */
  predicate Nearest(x: real, n: int) {
    var rest := x * 1000.0 - n as real;
    -0.5 <= rest <= 0.5 && (rest == -0.5 || rest == 0.5 ==> n % 2 == 0)
  }

  /** `y` is `x` rounded to thousandths, ties to even. */
  ghost predicate RoundsTo(x: real, y: real) {
    exists n: int :: Nearest(x, n) && y == n as real / 1000.0
  }

  lemma RoundIff(x: real, y: real)
    ensures Round3(x) == y <==> RoundsTo(x, y)
  {
    var n := (x * 1000.0).Floor;
    var up := if Nearest(x, n) then n else n + 1;
    assert Nearest(x, up) && Round3(x) == up as real / 1000.0;
    forall m: int | Nearest(x, m) ensures m == up {
      assert m == n || m == n + 1;
    }
  }

  ghost predicate OpenParts(params: Object, lease: real, rate: int, frame: int) {
    && params.Keys <= {LeaseSeconds, SampleRate, FrameMilliseconds, PrivacyIndicator}
    && Equals(Get(params, LeaseSeconds, Int(30)), lease) && 1.0 <= lease <= 300.0
    && rate in {16000, 48000} && Equals(Get(params, SampleRate, Int(16000)), rate as real)
    && Get(params, FrameMilliseconds, Int(100)) == Int(frame) && 20 <= frame <= 500
    && (PrivacyIndicator in params ==> params[PrivacyIndicator] == Bool(true))
  }

  ghost predicate OpenAllowed(params: Object, out: Object) {
    exists lease, rate, frame, kept :: OpenParts(params, lease, rate, frame) && RoundsTo(lease, kept)
      && out == map[LeaseSeconds := Float(kept), SampleRate := Int(rate), FrameMilliseconds := Int(frame), PrivacyIndicator := Bool(true)]
  }

  lemma OpenIff(params: Object, out: Object)
    ensures OpenMicrophone(params) == Good(out) <==> OpenAllowed(params, out)
  {
    hide Round3, RoundsTo;
    if OpenMicrophone(params).Good? {
      var lease := NumberOf(Get(params, LeaseSeconds, Int(30)), InvalidMicrophoneLease).value;
      var rate := RateOf(Get(params, SampleRate, Int(16000))).value;
      var frame := Get(params, FrameMilliseconds, Int(100)).i;
      assert OpenParts(params, lease, rate, frame);
      RoundIff(lease, Round3(lease));
    }
    forall lease, rate, frame, kept | OpenParts(params, lease, rate, frame) && RoundsTo(lease, kept)
      ensures OpenMicrophone(params) ==
        Good(map[LeaseSeconds := Float(kept), SampleRate := Int(rate), FrameMilliseconds := Int(frame), PrivacyIndicator := Bool(true)])
    {
      RoundIff(lease, kept);
    }
  }

  /** 32 characters, each a hexadecimal digit in lower case. */
  ghost predicate LeaseName(v: Json, id: string) {
    Reads(v, 32, 32, id) && forall i | 0 <= i < |id| :: 'a' <= id[i] <= 'f' || '0' <= id[i] <= '9'
  }

  lemma LeaseNameIff(v: Json, id: string)
    ensures LeaseIdOf(v) == Good(id) <==> LeaseName(v, id)
  {
    hide TextOf, Stripped;
    ReadsIff(v, 1, 64, id);
  }

  ghost predicate ReadAllowed(params: Object, out: Object) {
    exists id, frame :: params.Keys <= {LeaseId, FrameMilliseconds} && LeaseName(Get(params, LeaseId, Null), id)
      && Get(params, FrameMilliseconds, Int(100)) == Int(frame) && 20 <= frame <= 500
      && out == map[LeaseId := Str(id), FrameMilliseconds := Int(frame)]
  }

  lemma ReadIff(params: Object, out: Object)
    ensures ReadMicrophone(params) == Good(out) <==> ReadAllowed(params, out)
  {
    hide LeaseIdOf, LeaseName;
    var v := Get(params, LeaseId, Null);
    if LeaseIdOf(v).Good? {
      LeaseNameIff(v, LeaseIdOf(v).value);
    }
    forall id | LeaseName(v, id) ensures LeaseIdOf(v) == Good(id) {
      LeaseNameIff(v, id);
    }
  }

  ghost predicate CloseAllowed(params: Object, out: Object) {
    exists id :: params.Keys <= {LeaseId} && LeaseName(Get(params, LeaseId, Null), id) && out == map[LeaseId := Str(id)]
  }

  lemma CloseIff(params: Object, out: Object)
    ensures CloseMicrophone(params) == Good(out) <==> CloseAllowed(params, out)
  {
    hide LeaseIdOf, LeaseName;
    var v := Get(params, LeaseId, Null);
    if LeaseIdOf(v).Good? {
      LeaseNameIff(v, LeaseIdOf(v).value);
    }
    forall id | LeaseName(v, id) ensures LeaseIdOf(v) == Good(id) {
      LeaseNameIff(v, id);
    }
  }

  ghost predicate StorageAllowed(params: Object, out: Object) {
    exists t, p :: Reads(Get(params, PathKey, Null), 1, 240, t) && Normalises(t, p) && out == params[PathKey := Str(p)]
  }

  lemma StorageIff(params: Object, out: Object)
    ensures AuthorizeStorage(params) == Good(out) <==> StorageAllowed(params, out)
  {
    hide PackagePath, Reads, Normalises;
    var v := Get(params, PathKey, Null);
    if PackagePath(v, 240).Good? {
      PackagePathIff(v, 240, PackagePath(v, 240).value);
    }
    forall t, p | Reads(v, 1, 240, t) && Normalises(t, p) ensures PackagePath(v, 240) == Good(p) {
      PackagePathIff(v, 240, p);
    }
  }

  /** A volume, if there is one, is at most the declared one, which is 80 by default. */
  predicate VolumeAllowed(params: Object, k: Object) {
    VolumePercent in params ==>
      && params[VolumePercent].Int? && Get(k, MaxVolumePercent, Int(80)).Int?
      && 0 <= params[VolumePercent].i <= Min(100, Get(k, MaxVolumePercent, Int(80)).i)
  }

  lemma VolumeIff(params: Object, k: Object, out: Object)
    ensures AuthorizeSpeaker(params, k) == Good(out) <==> VolumeAllowed(params, k) && out == params
  {
    if VolumePercent in params && params[VolumePercent].Int? {
      assert params[VolumePercent := Int(params[VolumePercent].i)] == params;
    }
  }

  /** The parameters `out` that a call of the method may be made with, given the declared constraints. */
  ghost predicate ParamsAllowed(name: string, params: Object, k: Object, web: Web, out: Object) {
    if name == NameOf(NetworkFetch) then FetchAllowed(params, k, web, out)
    else if name == NameOf(MotorMove) then MoveAllowed(params, k, out)
    else if name == NameOf(MicrophoneOpen) then OpenAllowed(params, out)
    else if name == NameOf(MicrophoneRead) then ReadAllowed(params, out)
    else if name == NameOf(MicrophoneClose) then CloseAllowed(params, out)
    else if Serves(name, TitleOf(StorageApp)) then StorageAllowed(params, out)
    else if Serves(name, TitleOf(SpeakerPlayback)) then VolumeAllowed(params, k) && out == params
    else out == params
  }

  lemma ParamsIff(m: Method, params: Object, k: Object, web: Web, out: Object)
    ensures Sanitize(m, params, k, web) == Good(out) <==> ParamsAllowed(NameOf(m), params, k, web, out)
  {
    hide NameOf, TitleOf, Serves, CapabilityOf, AuthorizeNetwork, AuthorizeMotor, OpenMicrophone, ReadMicrophone, CloseMicrophone,
         AuthorizeStorage, AuthorizeSpeaker, FetchAllowed, MoveAllowed, OpenAllowed, ReadAllowed, CloseAllowed, StorageAllowed, VolumeAllowed;
    NetworkCall();
    SpecialNames(m);
    ServesIff(m, TitleOf(StorageApp));
    ServesIff(m, TitleOf(SpeakerPlayback));
    TitlesDiffer(CapabilityOf(m), StorageApp);
    TitlesDiffer(CapabilityOf(m), SpeakerPlayback);
    FetchIff(params, k, web, out);
    MoveIff(params, k, out);
    OpenIff(params, out);
    ReadIff(params, out);
    CloseIff(params, out);
    StorageIff(params, out);
    VolumeIff(params, k, out);
  }

  lemma SpecialNames(m: Method)
    ensures forall n :: NameOf(m) == NameOf(n) <==> m == n
  {
    forall n ensures NameOf(m) == NameOf(n) <==> m == n {
      NamesDiffer(m, n);
    }
  }

  // ----- the decision

  /** The user or the device policy has granted the capability. */
  ghost predicate Granted(grants: map<string, Json>, capability: string) {
    || (capability, Bool(true)) in grants.Items
    || exists fields :: (capability, Obj(fields)) in grants.Items && (Other("granted"), Bool(true)) in fields.Items
  }

  lemma GrantedIff(grants: map<string, Json>, capability: string)
    ensures GrantEnabled(grants, capability) <==> Granted(grants, capability)
  {
    if GrantEnabled(grants, capability) && grants[capability] != Bool(true) {
      var fields := grants[capability].fields;
      assert (capability, Obj(fields)) in grants.Items && (Other("granted"), Bool(true)) in fields.Items;
    }
  }

  /** The app with this normal form may call the method in this session, by the permission `p`. */
  ghost predicate MayCall(m: Manifest, grants: map<string, Json>, session: Session, name: string, p: Permission) {
    && Id in m.metadata && session.appId == m.metadata[Id]
    && p in m.parts.permissions && Serves(name, p.name) && Granted(grants, p.name)
    && (InForeground(name) ==> !Falsy(session.foreground))
    && (WithUser(name) ==> !Falsy(session.userPresent))
  }

  /** A valid manifest, a request for a method, and a permission to call it with these parameters. */
  ghost predicate Permits(manifest: Json, grants: map<string, Json>, request: Json, session: Session, lib: Library, web: Web, out: Object) {
    exists m, id, name, params, p ::
      && ValidateManifest(manifest, None, lib) == Good(m)
      && Requests(request, id, name, params)
      && MayCall(m, grants, session, name, p)
      && ParamsAllowed(name, params, FieldsOf(p.constraints), web, out)
  }

  /** Permissions of distinct names, all known. */
  ghost predicate Catalogued(ps: seq<Permission>) {
    && (forall i | 0 <= i < |ps| :: CapabilityNamed(ps[i].name).Some?)
    && (forall i, j | 0 <= i < j < |ps| :: ps[i].name != ps[j].name)
  }

  lemma {:induction false} PermissionForIff(ps: seq<Permission>, c: Capability, p: Permission)
    requires Catalogued(ps)
    ensures PermissionFor(ps, c) == Some(p) <==> p in ps && p.name == TitleOf(c)
    decreases |ps|
  {
    hide CapabilityNamed, TitleOf;
    if ps != [] {
      var n := |ps| - 1;
      assert ps == ps[..n] + [ps[n]];
      PermissionForIff(ps[..n], c, p);
      TitledIff(ps[n].name, c);
    }
  }

  lemma ManifestCatalogued(manifest: Json, lib: Library)
    requires ValidateManifest(manifest, None, lib).Good?
    ensures var m := ValidateManifest(manifest, None, lib).value;
            Catalogued(m.parts.permissions) && Id in m.metadata && m.metadata[Id].Str?
  {
    hide CheckConstraints, CapabilityNamed, Forbidden, RuntimeOf, LifecycleOf, ResourcesOf, UiOf, PermissionsOf, TextOf, Only;
    var spec := Get(manifest.fields, Spec, Null);
    var items := Get(spec.fields, Permissions, Null).items;
    PermissionsSound(items, {});
  }

  lemma DecideIff(m: Manifest, grants: map<string, Json>, request: Json, session: Session, web: Web, out: Object)
    requires Catalogued(m.parts.permissions) && Id in m.metadata
    ensures Decide(m, grants, request, session, web) == Good(out) <==>
              exists id, name, params, p :: Requests(request, id, name, params) && MayCall(m, grants, session, name, p)
                && ParamsAllowed(name, params, FieldsOf(p.constraints), web, out)
  {
    hide ValidateRequest, Requests, MayCall, ParamsAllowed, Decide, Catalogued;
    if Decide(m, grants, request, session, web) == Good(out) {
      DecideAllows(m, grants, request, session, web, out);
    }
    forall id, name, params, p | Requests(request, id, name, params) && MayCall(m, grants, session, name, p)
                && ParamsAllowed(name, params, FieldsOf(p.constraints), web, out)
      ensures Decide(m, grants, request, session, web) == Good(out)
    {
      AllowsDecide(m, grants, request, session, web, out, id, name, params, p);
    }
  }

  lemma DecideAllows(m: Manifest, grants: map<string, Json>, request: Json, session: Session, web: Web, out: Object)
    requires Catalogued(m.parts.permissions) && Id in m.metadata
    requires Decide(m, grants, request, session, web) == Good(out)
    ensures exists id, name, params, p :: Requests(request, id, name, params) && MayCall(m, grants, session, name, p)
              && ParamsAllowed(name, params, FieldsOf(p.constraints), web, out)
  {
    hide ValidateRequest, Requests, ParamsAllowed, Sanitize, PermissionFor, GrantEnabled, Granted, Serves, SessionScope, NeedsUser, InForeground,
         WithUser, NameOf, TitleOf, CapabilityOf, Truthy, Falsy, Catalogued, FieldsOf;
    var message := ValidateRequest(request).value;
    var c := CapabilityOf(message.call);
    var p := PermissionFor(m.parts.permissions, c).value;
    RequestIff(request, message.id, message.call, message.params);
    PermissionForIff(m.parts.permissions, c, p);
    ServesIff(message.call, p.name);
    SessionNames(message.call);
    GrantedIff(grants, p.name);
    TruthyIff(session.foreground);
    TruthyIff(session.userPresent);
    ParamsIff(message.call, message.params, FieldsOf(p.constraints), web, out);
    assert MayCall(m, grants, session, NameOf(message.call), p);
  }

  lemma AllowsDecide(m: Manifest, grants: map<string, Json>, request: Json, session: Session, web: Web, out: Object, id: string, name: string,
                     params: Object, p: Permission)
    requires Catalogued(m.parts.permissions)
    requires Requests(request, id, name, params) && MayCall(m, grants, session, name, p)
    requires ParamsAllowed(name, params, FieldsOf(p.constraints), web, out)
    ensures Decide(m, grants, request, session, web) == Good(out)
  {
    hide ValidateRequest, Requests, ParamsAllowed, Sanitize, PermissionFor, GrantEnabled, Granted, Serves, SessionScope, NeedsUser, InForeground,
         WithUser, NameOf, TitleOf, CapabilityOf, Truthy, Falsy, Catalogued, FieldsOf, Guess;
    Provided(name, p.name);
    var call := Guess(name);
    RequestIff(request, id, call, params);
    PermissionForIff(m.parts.permissions, CapabilityOf(call), p);
    SessionNames(call);
    GrantedIff(grants, p.name);
    TruthyIff(session.foreground);
    TruthyIff(session.userPresent);
    ParamsIff(call, params, FieldsOf(p.constraints), web, out);
  }

  /**
   A request is allowed with these parameters exactly if the manifest is valid, the session is that of
   its app, the manifest declares the capability of the method, the capability is granted, the app is in
   the foreground and the user is present where the method asks for it, and the parameters keep to what
   is declared.
   */
  lemma AuthorizeIff(manifest: Json, grants: map<string, Json>, request: Json, session: Session, lib: Library, web: Web, out: Object)
    ensures Authorize(manifest, grants, request, session, lib, web) == Good(out) <==>
              Permits(manifest, grants, request, session, lib, web, out)
  {
    hide ValidateManifest, Decide, Requests, MayCall, ParamsAllowed, Catalogued;
    if ValidateManifest(manifest, None, lib).Good? {
      var m := ValidateManifest(manifest, None, lib).value;
      ManifestCatalogued(manifest, lib);
      DecideIff(m, grants, request, session, web, out);
    }
  }

  // ----- the answer to a request that is not allowed

  predicate ParameterError(e: Error) {
    !e.IdentityMismatch? && !e.NotDeclared? && !e.NotGranted? && !e.ForegroundRequired? && !e.UserPresenceRequired?
  }

  lemma SanitizeErrors(m: Method, params: Object, k: Object, web: Web)
    ensures Sanitize(m, params, k, web).Bad? ==> ParameterError(Sanitize(m, params, k, web).error)
  {
    hide Under, SafePath, Strip, Round3, CapabilityOf;
  }

  /** The app declares a permission for the method. */
  ghost predicate Declared(m: Manifest, name: string) {
    exists p :: p in m.parts.permissions && Serves(name, p.name)
  }

  /** The app declares a permission for the method, and it is granted. */
  ghost predicate Holds(m: Manifest, grants: map<string, Json>, name: string) {
    exists p :: p in m.parts.permissions && Serves(name, p.name) && Granted(grants, p.name)
  }

  lemma HoldsIff(m: Manifest, grants: map<string, Json>, call: Method)
    requires Catalogued(m.parts.permissions)
    ensures var p := PermissionFor(m.parts.permissions, CapabilityOf(call));
            && (Declared(m, NameOf(call)) <==> p.Some?)
            && (Holds(m, grants, NameOf(call)) <==> p.Some? && GrantEnabled(grants, p.value.name))
  {
    hide Catalogued, PermissionFor, Serves, NameOf, TitleOf, CapabilityOf, GrantEnabled, Granted;
    var ps, c := m.parts.permissions, CapabilityOf(call);
    forall p | p in ps && Serves(NameOf(call), p.name)
      ensures PermissionFor(ps, c) == Some(p) && (GrantEnabled(grants, p.name) <==> Granted(grants, p.name))
    {
      ServesIff(call, p.name);
      PermissionForIff(ps, c, p);
      GrantedIff(grants, p.name);
    }
    if PermissionFor(ps, c).Some? {
      var p := PermissionFor(ps, c).value;
      PermissionForIff(ps, c, p);
      ServesIff(call, p.name);
      GrantedIff(grants, p.name);
    }
  }

  /** The refusals name the first of these that is missing: identity, declaration, grant, foreground, user. */
  ghost predicate Refused(m: Manifest, grants: map<string, Json>, session: Session, name: string, r: Outcome<Object>) {
    var own := Get(m.metadata, Id, Null) == session.appId;
    && (r == Bad(IdentityMismatch) <==> !own)
    && (r == Bad(NotDeclared) <==> own && !Declared(m, name))
    && (r == Bad(NotGranted) <==> own && Declared(m, name) && !Holds(m, grants, name))
    && (r == Bad(ForegroundRequired) <==> own && Holds(m, grants, name) && InForeground(name) && Falsy(session.foreground))
    && (r == Bad(UserPresenceRequired) <==>
          own && Holds(m, grants, name) && WithUser(name) && !Falsy(session.foreground) && Falsy(session.userPresent))
  }

  lemma Refusals(manifest: Json, grants: map<string, Json>, request: Json, session: Session, lib: Library, web: Web,
                 id: string, name: string, capability: string, params: Object)
    requires ValidateManifest(manifest, None, lib).Good? && Requests(request, id, name, params) && Serves(name, capability)
    ensures Refused(ValidateManifest(manifest, None, lib).value, grants, session, name, Authorize(manifest, grants, request, session, lib, web))
  {
    hide ValidateManifest, ValidateRequest, Requests, Serves, Decide, NameOf, TitleOf, CapabilityOf, Catalogued, Guess, Refused;
    var m := ValidateManifest(manifest, None, lib).value;
    ManifestCatalogued(manifest, lib);
    Provided(name, capability);
    RequestIff(request, id, Guess(name), params);
    DecideRefused(m, grants, request, session, web);
  }

  lemma DecideRefused(m: Manifest, grants: map<string, Json>, request: Json, session: Session, web: Web)
    requires Catalogued(m.parts.permissions) && ValidateRequest(request).Good?
    ensures Refused(m, grants, session, NameOf(ValidateRequest(request).value.call), Decide(m, grants, request, session, web))
  {
    hide ValidateRequest, Serves, NameOf, TitleOf, CapabilityOf, Catalogued, Guess, PermissionFor, GrantEnabled, Declared, Holds, Sanitize,
         SessionScope, NeedsUser, WithUser, Truthy, Falsy;
    var message := ValidateRequest(request).value;
    HoldsIff(m, grants, message.call);
    SessionNames(message.call);
    TruthyIff(session.foreground);
    TruthyIff(session.userPresent);
    var p := PermissionFor(m.parts.permissions, CapabilityOf(message.call));
    if p.Some? {
      SanitizeErrors(message.call, message.params, FieldsOf(p.value.constraints), web);
    }
  }
}
