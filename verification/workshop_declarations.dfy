/** Which manifests are valid, and the normal form of each: bounds, defaults, and what is dropped or refused. */
module WorkshopDeclarations {
  import opened Common
  import opened Text
  import opened WorkshopText
  import opened WorkshopPermissions
  import opened WorkshopManifest
  import opened WorkshopNames
  import opened WorkshopDecisions

  // ----- fields

  /** The field of `out` is the text read from that of `o`, or from the default. */
  ghost predicate TextField(o: Object, k: Key, default: Json, low: nat, high: nat, out: Object) {
    k in out && out[k].Str? && Reads(Get(o, k, default), low, high, out[k].s)
  }

  lemma TextFieldIff(o: Object, k: Key, default: Json, low: nat, high: nat, out: Object)
    ensures TextField(o, k, default, low, high, out) <==>
              k in out && TextOf(Get(o, k, default), low, high).Good? && out[k] == Str(TextOf(Get(o, k, default), low, high).value)
  {
    hide TextOf, Reads;
    var v := Get(o, k, default);
    if TextOf(v, low, high).Good? {
      ReadsIff(v, low, high, TextOf(v, low, high).value);
    }
    if k in out && out[k].Str? {
      ReadsIff(v, low, high, out[k].s);
    }
  }

  /** The field of `out` is that of `o`, or the default, an integer between the bounds. */
  predicate IntField(o: Object, k: Key, default: int, low: int, high: int, out: Object) {
    k in out && out[k] == Get(o, k, Int(default)) && out[k].Int? && low <= out[k].i <= high
  }

  // ----- metadata, runtime, lifecycle, resources and menu entry

  ghost predicate MetadataRead(v: Json, lib: Library, out: Object) {
    && v.Obj? && v.fields.Keys <= {Id, Name, Version, Description, Vendor} && out.Keys == {Id, Name, Version, Description, Vendor}
    && out[Id].Str? && IsAppId(out[Id].s) && (exists id :: Reads(Get(v.fields, Id, Null), 1, 80, id) && Lower(id) == out[Id].s)
    && TextField(v.fields, Version, Null, 1, 64, out) && lib.semver(out[Version].s)
    && TextField(v.fields, Name, Null, 1, 40, out)
    && TextField(v.fields, Description, Null, 0, 240, out)
    && TextField(v.fields, Vendor, Str("local"), 1, 80, out)
  }

  lemma MetadataIff(v: Json, lib: Library, out: Object)
    ensures MetadataOf(v, lib) == Good(out) <==> MetadataRead(v, lib, out)
  {
    hide TextOf, Reads, IsAppId, Lower, TextField;
    if v.Obj? {
      var o := v.fields;
      TextFieldIff(o, Version, Null, 1, 64, out);
      TextFieldIff(o, Name, Null, 1, 40, out);
      TextFieldIff(o, Description, Null, 0, 240, out);
      TextFieldIff(o, Vendor, Str("local"), 1, 80, out);
      forall id ensures TextOf(Get(o, Id, Null), 1, 80) == Good(id) <==> Reads(Get(o, Id, Null), 1, 80, id) {
        ReadsIff(Get(o, Id, Null), 1, 80, id);
      }
    }
    if MetadataRead(v, lib, out) {
      assert out == MetadataObject(out[Id].s, out[Version].s, out[Name].s, out[Description].s, out[Vendor].s);
    }
  }

  ghost predicate RuntimeRead(v: Json, files: Option<set<string>>, out: Object) {
    && v.Obj? && v.fields.Keys <= {KindKey, Entrypoint, Protocol} && out.Keys == {KindKey, Entrypoint, Protocol}
    && TextField(v.fields, KindKey, Null, 1, 40, out) && out[KindKey] in {Str("declarative-v1"), Str("python-sandbox-v1")}
    && TextField(v.fields, Protocol, Str("riverbank.app-host/v1"), 1, 64, out) && out[Protocol] == Str("riverbank.app-host/v1")
    && out[Entrypoint].Str? && EntrypointRead(Get(v.fields, Entrypoint, Null), out[KindKey].s, files, out[Entrypoint].s)
  }

  /** A path under app/ with the ending of its kind, in the package. */
  ghost predicate EntrypointRead(v: Json, kind: string, files: Option<set<string>>, p: string) {
    && (exists t :: Reads(v, 1, 180, t) && Normalises(t, p))
    && (exists rest :: p == "app/" + rest)
    && (if kind == "declarative-v1" then exists rest :: p == rest + ".json" else exists rest :: p == rest + ".py")
    && (files.Some? ==> p in files.value)
  }

  lemma EntrypointIff(v: Json, kind: string, files: Option<set<string>>, p: string)
    ensures EntrypointOf(v, kind, files) == Good(p) <==> EntrypointRead(v, kind, files, p)
  {
    hide PackagePath, Reads, Normalises, StartsWith, EndsWith;
    PackagePathIff(v, 180, p);
    StartsIff(p, "app/");
    EndsIff(p, if kind == "declarative-v1" then ".json" else ".py");
  }

  lemma StartsIff(s: string, p: string)
    ensures StartsWith(s, p) <==> exists rest :: s == p + rest
  {
    if StartsWith(s, p) {
      assert s == p + s[|p|..];
    }
  }

  lemma EndsIff(s: string, p: string)
    ensures EndsWith(s, p) <==> exists rest :: s == rest + p
  {
    if EndsWith(s, p) {
      assert s == s[..|s| - |p|] + p;
    }
    forall rest | s == rest + p ensures EndsWith(s, p) {
      assert s[|rest|..] == p;
    }
  }

  lemma RuntimeIff(v: Json, files: Option<set<string>>, out: Object)
    ensures RuntimeOf(v, files) == Good(out) <==> RuntimeRead(v, files, out)
  {
    hide TextOf, EntrypointOf, TextField, EntrypointRead;
    if v.Obj? {
      var o := v.fields;
      TextFieldIff(o, KindKey, Null, 1, 40, out);
      TextFieldIff(o, Protocol, Str(HostProtocol()), 1, 64, out);
      forall kind, p ensures EntrypointOf(Get(o, Entrypoint, Null), kind, files) == Good(p) <==> EntrypointRead(Get(o, Entrypoint, Null), kind, files, p) {
        EntrypointIff(Get(o, Entrypoint, Null), kind, files, p);
      }
    }
    if RuntimeRead(v, files, out) {
      assert out == RuntimeObject(out[KindKey].s, out[Entrypoint].s);
    }
  }

  /** Starting with the host needs the permission to. */
  ghost predicate LifecycleRead(v: Json, ps: seq<Permission>, out: Object) {
    && v.Obj? && v.fields.Keys <= {Autostart, StartTimeoutSeconds, StopTimeoutSeconds}
    && out.Keys == {Autostart, StartTimeoutSeconds, StopTimeoutSeconds}
    && out[Autostart] == Bool(Autostart in v.fields && !Falsy(v.fields[Autostart]))
    && (out[Autostart] == Bool(true) ==> exists p :: p in ps && p.name == "lifecycle.autostart")
    && IntField(v.fields, StartTimeoutSeconds, 10, 1, 30, out) && IntField(v.fields, StopTimeoutSeconds, 5, 1, 15, out)
  }

  lemma LifecycleIff(v: Json, ps: seq<Permission>, out: Object)
    ensures LifecycleOf(v, Autostarts(ps)) == Good(out) <==> LifecycleRead(v, ps, out)
  {
    hide Truthy, Falsy;
    if v.Obj? {
      TruthyIff(Get(v.fields, Autostart, Bool(false)));
      TruthyIff(Bool(false));
    }
    assert Falsy(Bool(false)) by { hide *; AbsentFalsy(); }
    assert Autostarts(ps) <==> exists p :: p in ps && p.name == "lifecycle.autostart";
    if LifecycleRead(v, ps, out) {
      assert out == map[Autostart := out[Autostart], StartTimeoutSeconds := out[StartTimeoutSeconds], StopTimeoutSeconds := out[StopTimeoutSeconds]];
    }
  }

  lemma AbsentFalsy()
    ensures Falsy(Bool(false))
  {}

  ghost predicate ResourcesRead(v: Json, out: Object) {
    && v.Obj? && v.fields.Keys <= {CpuPercent, MemoryMB, StorageMB, MaxProcesses} && out.Keys == {CpuPercent, MemoryMB, StorageMB, MaxProcesses}
    && IntField(v.fields, CpuPercent, 10, 1, 50, out) && IntField(v.fields, MemoryMB, 128, 16, 512, out)
    && IntField(v.fields, StorageMB, 128, 1, 2048, out) && IntField(v.fields, MaxProcesses, 2, 1, 8, out)
  }

  lemma ResourcesIff(v: Json, out: Object)
    ensures ResourcesOf(v) == Good(out) <==> ResourcesRead(v, out)
  {
    if ResourcesRead(v, out) {
      assert out == map[CpuPercent := out[CpuPercent], MemoryMB := out[MemoryMB], StorageMB := out[StorageMB], MaxProcesses := out[MaxProcesses]];
    }
  }

  ghost predicate UiRead(v: Json, name: Json, out: Object) {
    && v.Obj? && v.fields.Keys <= {MenuLabel, Glyph} && out.Keys == {MenuLabel, Glyph}
    && TextField(v.fields, MenuLabel, name, 1, 6, out) && TextField(v.fields, Glyph, Str("\U{5E94}"), 1, 2, out)
  }

  lemma UiIff(v: Json, name: Json, out: Object)
    ensures UiOf(v, name) == Good(out) <==> UiRead(v, name, out)
  {
    hide TextOf, TextField;
    if v.Obj? {
      TextFieldIff(v.fields, MenuLabel, name, 1, 6, out);
      TextFieldIff(v.fields, Glyph, Str("\U{5E94}"), 1, 2, out);
    }
    if UiRead(v, name, out) {
      assert out == map[MenuLabel := out[MenuLabel], Glyph := out[Glyph]];
    }
  }

  // ----- constraints

  ghost predicate DomainRead(v: Json, d: string) {
    IsDomain(d) && exists t :: Reads(v, 1, 253, t) && Dotless(Lower(t), d)
  }

  lemma DomainIff(v: Json, d: string)
    ensures DomainOf(v) == Good(d) <==> DomainRead(v, d)
  {
    hide TextOf, Reads, IsDomain, StripDots, Lower, Dotless;
    var text := TextOf(v, 1, 253);
    if text.Good? {
      ReadsIff(v, 1, 253, text.value);
      DotsIff(Lower(text.value), d);
    }
    forall t | Reads(v, 1, 253, t) ensures text == Good(t) {
      ReadsIff(v, 1, 253, t);
    }
  }

  /** Every text once, in the order of first appearance. */
  function Firsts(texts: seq<string>): seq<string> {
    if texts == [] then []
    else
      var n := |texts| - 1;
      Firsts(texts[..n]) + if texts[n] in texts[..n] then [] else [texts[n]]
  }

  lemma {:induction false} FirstsHas(texts: seq<string>)
    ensures forall t :: t in Firsts(texts) <==> t in texts
    decreases |texts|
  {
    if texts != [] {
      var n := |texts| - 1;
      FirstsHas(texts[..n]);
      assert texts == texts[..n] + [texts[n]];
    }
  }

  ghost predicate NamesRead(items: seq<Json>, names: seq<string>) {
    |names| == |items| && forall i | 0 <= i < |items| :: DomainRead(items[i], names[i])
  }

  lemma {:induction false} DomainsOfMore(items: seq<Json>, before: seq<string>, names: seq<string>)
    requires NamesRead(items, names)
    ensures DomainsOf(items, Firsts(before)) == Good(Firsts(before + names))
    decreases |items|
  {
    hide DomainOf, DomainRead;
    if items == [] {
      assert before + names == before;
    } else {
      var more := before + [names[0]];
      assert more[..|more| - 1] == before;
      FirstsHas(before);
      DomainIff(items[0], names[0]);
      assert more + names[1..] == before + names;
      DomainsOfMore(items[1..], more, names[1..]);
      assert Firsts(before) + [] == Firsts(before);
    }
  }

  lemma {:induction false} DomainsOfRead(items: seq<Json>, kept: seq<string>)
    requires DomainsOf(items, kept).Good?
    ensures exists names :: NamesRead(items, names)
    decreases |items|
  {
    hide DomainOf, DomainRead;
    if items == [] {
      assert NamesRead(items, []);
    } else {
      var d := DomainOf(items[0]).value;
      DomainIff(items[0], d);
      DomainsOfRead(items[1..], if d in kept then kept else kept + [d]);
      var names :| NamesRead(items[1..], names);
      assert NamesRead(items, [d] + names);
    }
  }

  /** The domains of a list, every one once. */
  ghost predicate DomainsRead(v: Json, out: Json) {
    v.Arr? && v.items != [] && exists names :: NamesRead(v.items, names) && out == Arr(Strings(Firsts(names)))
  }

  lemma DomainsIff(v: Json, out: Json)
    ensures CheckDomains(v) == Good(out) <==> DomainsRead(v, out)
  {
    hide DomainOf, DomainRead;
    if v.Arr? && v.items != [] {
      if DomainsOf(v.items, []).Good? {
        DomainsOfRead(v.items, []);
      }
      forall names | NamesRead(v.items, names) ensures DomainsOf(v.items, []) == Good(Firsts(names)) {
        assert Firsts([]) == [];
        DomainsOfMore(v.items, [], names);
        assert [] + names == names;
      }
    }
  }

  /** Those items that are GET, HEAD or POST. */
  function Chosen(items: seq<Json>): seq<Json> {
    if items == [] then []
    else
      var n := |items| - 1;
      Chosen(items[..n]) + ChosenOne(items[n])
  }

  function ChosenOne(v: Json): seq<Json> {
    if v in {Str("GET"), Str("HEAD"), Str("POST")} then [v] else []
  }

  ghost predicate Hashable(items: seq<Json>) {
    forall i | 0 <= i < |items| :: !items[i].Arr? && !items[i].Obj?
  }

  lemma {:induction false} MethodsOfMore(items: seq<Json>, last: Json)
    ensures MethodsOf(items + [last]) ==
              if MethodsOf(items).Bad? || last.Arr? || last.Obj? then Bad(Uncaught) else Good(MethodsOf(items).value + ChosenOne(last))
    decreases |items|
  {
    hide NetworkMethod;
    var whole := items + [last];
    if items == [] {
      assert whole == [last];
      NetworkMethodIs(last);
      OneMethod(last);
      assert MethodsOf([]) == Good([]) && [] + ChosenOne(last) == ChosenOne(last);
    } else {
      assert whole[1..] == items[1..] + [last];
      MethodsOfMore(items[1..], last);
      if MethodsOf(whole).Good? {
        var head := if NetworkMethod(items[0]) then [items[0]] else [];
        assert head + (MethodsOf(items[1..]).value + ChosenOne(last)) == (head + MethodsOf(items[1..]).value) + ChosenOne(last);
      }
    }
  }

  lemma OneMethod(v: Json)
    ensures MethodsOf([v]) == if v.Arr? || v.Obj? then Bad(Uncaught) else Good(if NetworkMethod(v) then [v] else [])
  {
    hide NetworkMethod;
    var s := [v];
    var none: seq<Json> := [];
    assert s[0] == v && s[1..] == none;
    assert MethodsOf(none) == Good(none);
    var one := if NetworkMethod(v) then [v] else none;
    assert one + none == one;
  }

  lemma NetworkMethodIs(v: Json)
    ensures ChosenOne(v) == if NetworkMethod(v) then [v] else []
  {}

  lemma {:induction false} MethodsOfIs(items: seq<Json>)
    ensures MethodsOf(items) == if Hashable(items) then Good(Chosen(items)) else Bad(Uncaught)
    decreases |items|
  {
    hide ChosenOne;
    if items != [] {
      var n := |items| - 1;
      assert items == items[..n] + [items[n]];
      MethodsOfMore(items[..n], items[n]);
      MethodsOfIs(items[..n]);
    }
  }

  ghost predicate MethodsRead(v: Json, out: Json) {
    v.Arr? && Hashable(v.items) && Chosen(v.items) != [] && out == Arr(Chosen(v.items))
  }

  lemma MethodsIff(v: Json, out: Json)
    ensures CheckMethods(v) == Good(out) <==> MethodsRead(v, out)
  {
    if v.Arr? {
      MethodsOfIs(v.items);
    }
  }

  ghost predicate RangeRead(v: Json, out: Json) {
    exists a, b :: v.Arr? && |v.items| == 2 && Equals(v.items[0], a) && Equals(v.items[1], b)
      && -180.0 <= a < b <= 180.0 && out == Arr([Float(a), Float(b)])
  }

  lemma RangeIff(v: Json, out: Json)
    ensures CheckRange(v) == Good(out) <==> RangeRead(v, out)
  {
    if CheckRange(v).Good? {
      var a, b := NumberOf(v.items[0], InvalidNumber).value, NumberOf(v.items[1], InvalidNumber).value;
      assert Equals(v.items[0], a) && Equals(v.items[1], b);
    }
  }

  ghost predicate MotorRead(o: Object, out: Object) {
    exists pan, tilt, speed ::
      && RangeRead(Get(o, PanDegrees, Null), pan) && RangeRead(Get(o, TiltDegrees, Null), tilt)
      && Equals(Get(o, MaxDegreesPerSecond, Null), speed) && 1.0 <= speed <= 120.0
      && EmergencyStop in o && o[EmergencyStop] == Bool(true)
      && out == o[PanDegrees := pan][TiltDegrees := tilt][MaxDegreesPerSecond := Float(speed)]
  }

  lemma MotorIff(o: Object, out: Object)
    ensures CheckMotor(o) == Good(out) <==> MotorRead(o, out)
  {
    hide CheckRange, RangeRead;
    var pan, tilt := Get(o, PanDegrees, Null), Get(o, TiltDegrees, Null);
    if CheckMotor(o).Good? {
      RangeIff(pan, CheckRange(pan).value);
      RangeIff(tilt, CheckRange(tilt).value);
      var speed := NumberOf(Get(o, MaxDegreesPerSecond, Null), InvalidMotorSpeed).value;
      assert Equals(Get(o, MaxDegreesPerSecond, Null), speed);
    }
    forall x, y | RangeRead(pan, x) && RangeRead(tilt, y) ensures CheckRange(pan) == Good(x) && CheckRange(tilt) == Good(y) {
      RangeIff(pan, x);
      RangeIff(tilt, y);
    }
  }

  ghost predicate NetworkRead(o: Object, out: Object) {
    exists domains, methods ::
      && DomainsRead(Get(o, Domains, Null), domains) && MethodsRead(Get(o, Methods, Arr([Str("GET")])), methods)
      && out == o[Domains := domains][Methods := methods]
  }

  lemma NetworkIff(o: Object, out: Object)
    ensures CheckNetwork(o) == Good(out) <==> NetworkRead(o, out)
  {
    hide CheckDomains, CheckMethods, DomainsRead, MethodsRead;
    var ds, ms := Get(o, Domains, Null), Get(o, Methods, Arr([Str("GET")]));
    if CheckNetwork(o).Good? {
      DomainsIff(ds, CheckDomains(ds).value);
      MethodsIff(ms, CheckMethods(ms).value);
    }
    forall x, y | DomainsRead(ds, x) && MethodsRead(ms, y) ensures CheckDomains(ds) == Good(x) && CheckMethods(ms) == Good(y) {
      DomainsIff(ds, x);
      MethodsIff(ms, y);
    }
  }

  /** Nothing but the one integer, between the bounds, with its default filled in. */
  ghost predicate OneInt(o: Object, k: Key, default: int, low: int, high: int, out: Object) {
    o.Keys <= {k} && out.Keys == {k} && IntField(o, k, default, low, high, out)
  }

  lemma OneIntIff(o: Object, k: Key, default: int, low: int, high: int, out: Object)
    ensures o.Keys <= {k} && CheckInteger(o, k, default, low, high) == Good(out) <==> OneInt(o, k, default, low, high, out)
  {
    if OneInt(o, k, default, low, high, out) {
      assert out == o[k := out[k]];
    }
  }

  /** The constraints of a permission for each capability: what they may hold, and their normal form. */
  ghost predicate ConstraintsRead(c: Capability, raw: Json, out: Json) {
    && (Falsy(raw) || raw.Obj?) && out.Obj?
    && var o: Object := if Falsy(raw) then map[] else raw.fields;
    if c == NetworkOutbound then o.Keys <= {Domains, Methods} && NetworkRead(o, out.fields)
    else if c == CameraStream || c == MicrophoneStream then o == map[PrivacyIndicator := Bool(true)] && out == Obj(o)
    else if c == MotorPanTilt then o.Keys <= {PanDegrees, TiltDegrees, MaxDegreesPerSecond, EmergencyStop} && MotorRead(o, out.fields)
    else if c == AssistantQuery then OneInt(o, MaxRequestsPerMinute, 6, 1, 30, out.fields)
    else if c == TasksSubmit then OneInt(o, MaxConcurrent, 1, 1, 4, out.fields)
    else if c == SpeakerPlayback then OneInt(o, MaxVolumePercent, 80, 0, 100, out.fields)
    else o == map[] && out == Obj(map[])
  }

  lemma ConstraintsIff(c: Capability, raw: Json, out: Json)
    ensures CheckConstraints(c, raw) == Good(out) <==> ConstraintsRead(c, raw, out)
  {
    hide CheckConstraints, ConstraintsRead;
    if c == NetworkOutbound || c == MotorPanTilt { CompoundIff(c, raw, out); }
    else if c == AssistantQuery || c == TasksSubmit || c == SpeakerPlayback { NumberedIff(c, raw, out); }
    else { PlainIff(c, raw, out); }
  }

  lemma CompoundIff(c: Capability, raw: Json, out: Json)
    requires c == NetworkOutbound || c == MotorPanTilt
    ensures CheckConstraints(c, raw) == Good(out) <==> ConstraintsRead(c, raw, out)
  {
    hide Truthy, Falsy, CheckNetwork, CheckMotor, CheckInteger, NetworkRead, MotorRead, OneInt;
    TruthyIff(raw);
    if out.Obj? && (raw.Obj? || Falsy(raw)) {
      var o: Object := if Falsy(raw) then map[] else raw.fields;
      NetworkIff(o, out.fields);
      MotorIff(o, out.fields);
    }
  }

  lemma NumberedIff(c: Capability, raw: Json, out: Json)
    requires c == AssistantQuery || c == TasksSubmit || c == SpeakerPlayback
    ensures CheckConstraints(c, raw) == Good(out) <==> ConstraintsRead(c, raw, out)
  {
    hide Truthy, Falsy, CheckNetwork, CheckMotor, CheckInteger, NetworkRead, MotorRead, OneInt;
    TruthyIff(raw);
    if out.Obj? && (raw.Obj? || Falsy(raw)) {
      var o: Object := if Falsy(raw) then map[] else raw.fields;
      OneIntIff(o, MaxRequestsPerMinute, 6, 1, 30, out.fields);
      OneIntIff(o, MaxConcurrent, 1, 1, 4, out.fields);
      OneIntIff(o, MaxVolumePercent, 80, 0, 100, out.fields);
    }
  }

  lemma PlainIff(c: Capability, raw: Json, out: Json)
    requires c !in {NetworkOutbound, MotorPanTilt, AssistantQuery, TasksSubmit, SpeakerPlayback}
    ensures CheckConstraints(c, raw) == Good(out) <==> ConstraintsRead(c, raw, out)
  {
    hide Truthy, Falsy, CheckNetwork, CheckMotor, CheckInteger, NetworkRead, MotorRead, OneInt;
    TruthyIff(raw);
    if raw.Obj? || Falsy(raw) {
      Empty(if Falsy(raw) then map[] else raw.fields);
    }
  }

  lemma Empty(o: Object)
    ensures o.Keys <= {} <==> o == map[]
    ensures o.Keys <= {PrivacyIndicator} && Get(o, PrivacyIndicator, Null) == Bool(true) <==> o == map[PrivacyIndicator := Bool(true)]
  {
    if o.Keys <= {} {
      assert o == map[];
    }
  }

  // ----- permissions

  ghost predicate PermissionRead(raw: Json, p: Permission) {
    && raw.Obj? && raw.fields.Keys <= {CapabilityKey, Reason, Constraints}
    && Reads(Get(raw.fields, CapabilityKey, Null), 1, 80, p.name) && Reads(Get(raw.fields, Reason, Null), 1, 160, p.reason)
    && exists c :: p.name == TitleOf(c) && ConstraintsRead(c, Get(raw.fields, Constraints, Obj(map[])), p.constraints)
  }

  lemma PermissionIff(raw: Json, seen: set<string>, p: Permission)
    ensures PermissionOf(raw, seen) == Good(p) <==> PermissionRead(raw, p) && p.name !in seen
  {
    hide TextOf, Reads, CapabilityNamed, TitleOf, Forbidden, CheckConstraints, ConstraintsRead;
    if raw.Obj? {
      var o := raw.fields;
      ReadsIff(Get(o, CapabilityKey, Null), 1, 80, p.name);
      ReadsIff(Get(o, Reason, Null), 1, 160, p.reason);
      NotForbiddenTitle(p.name);
      forall c ensures CapabilityNamed(p.name) == Some(c) <==> p.name == TitleOf(c) {
        TitledIff(p.name, c);
      }
      forall c {:trigger TitleOf(c)}
        ensures CheckConstraints(c, Get(o, Constraints, Obj(map[]))) == Good(p.constraints) <==>
                  ConstraintsRead(c, Get(o, Constraints, Obj(map[])), p.constraints)
      {
        ConstraintsIff(c, Get(o, Constraints, Obj(map[])), p.constraints);
      }
    }
  }

  lemma NotForbiddenTitle(name: string)
    ensures CapabilityNamed(name).Some? ==> !Forbidden(name)
  {
    hide TitleOf, CapabilityNamed;
    if CapabilityNamed(name).Some? {
      var c := CapabilityNamed(name).value;
      TitledIff(name, c);
      AllowedTitle(c);
    }
  }

  lemma AllowedTitle(c: Capability)
    ensures !Forbidden(TitleOf(c))
  {
    var s := TitleOf(c);
    assert Mark(s) == Mark(s);
  }

  /** One permission for every item, no two of the same name. */
  ghost predicate PermissionsRead(items: seq<Json>, seen: set<string>, ps: seq<Permission>) {
    && |ps| == |items| && (forall i | 0 <= i < |items| :: PermissionRead(items[i], ps[i]) && ps[i].name !in seen)
    && forall i, j | 0 <= i < j < |ps| :: ps[i].name != ps[j].name
  }

  lemma {:induction false} PermissionsIff(items: seq<Json>, seen: set<string>, ps: seq<Permission>)
    ensures PermissionsOf(items, seen) == Good(ps) <==> PermissionsRead(items, seen, ps)
    decreases |items|
  {
    hide PermissionOf, PermissionRead;
    if items != [] {
      if PermissionOf(items[0], seen).Good? {
        PermissionIff(items[0], seen, PermissionOf(items[0], seen).value);
      }
      if ps != [] {
        PermissionIff(items[0], seen, ps[0]);
        PermissionsIff(items[1..], seen + {ps[0].name}, ps[1..]);
        assert ps == [ps[0]] + ps[1..];
      }
    }
  }

  // ----- the manifest

  ghost predicate SpecRead(v: Json, name: Json, files: Option<set<string>>, parts: Parts) {
    && v.Obj? && v.fields.Keys <= {Runtime, Permissions, Resources, Lifecycle, Ui}
    && RuntimeRead(Get(v.fields, Runtime, Null), files, parts.runtime)
    && Permissions in v.fields && v.fields[Permissions].Arr? && PermissionsRead(v.fields[Permissions].items, {}, parts.permissions)
    && LifecycleRead(Get(v.fields, Lifecycle, Obj(map[])), parts.permissions, parts.lifecycle)
    && ResourcesRead(Get(v.fields, Resources, Obj(map[])), parts.resources)
    && UiRead(Get(v.fields, Ui, Obj(map[])), name, parts.ui)
  }

  lemma SpecIff(v: Json, name: Json, files: Option<set<string>>, parts: Parts)
    ensures SpecOf(v, name, files) == Good(parts) <==> SpecRead(v, name, files, parts)
  {
    hide RuntimeOf, PermissionsOf, LifecycleOf, ResourcesOf, UiOf, Autostarts, RuntimeRead, PermissionsRead, LifecycleRead, ResourcesRead, UiRead;
    if v.Obj? {
      var o := v.fields;
      RuntimeIff(Get(o, Runtime, Null), files, parts.runtime);
      if Get(o, Permissions, Null).Arr? {
        PermissionsIff(o[Permissions].items, {}, parts.permissions);
      }
      LifecycleIff(Get(o, Lifecycle, Obj(map[])), parts.permissions, parts.lifecycle);
      ResourcesIff(Get(o, Resources, Obj(map[])), parts.resources);
      UiIff(Get(o, Ui, Obj(map[])), name, parts.ui);
    }
  }

  ghost predicate ManifestRead(v: Json, files: Option<set<string>>, lib: Library, m: Manifest) {
    && v.Obj? && v.fields.Keys <= {ApiVersion, KindKey, Metadata, Spec} && lib.size(v) <= 65536
    && (ApiVersion, Str("riverbank.workshop/v1")) in v.fields.Items && (KindKey, Str("RiverBankApp")) in v.fields.Items
    && MetadataRead(Get(v.fields, Metadata, Null), lib, m.metadata)
    && SpecRead(Get(v.fields, Spec, Null), Get(m.metadata, Name, Null), files, m.parts)
  }

  /**
   A manifest is valid with this normal form exactly if it has the listed fields and no others, texts and
   numbers within their bounds, every capability once, and the normal form holds them with white space,
   case, repetitions and defaults settled.
   */
  lemma ManifestIff(v: Json, files: Option<set<string>>, lib: Library, m: Manifest)
    ensures ValidateManifest(v, files, lib) == Good(m) <==> ManifestRead(v, files, lib, m)
  {
    hide MetadataOf, SpecOf, MetadataRead, SpecRead;
    if v.Obj? {
      MetadataIff(Get(v.fields, Metadata, Null), lib, m.metadata);
      SpecIff(Get(v.fields, Spec, Null), Get(m.metadata, Name, Null), files, m.parts);
    }
  }
}
