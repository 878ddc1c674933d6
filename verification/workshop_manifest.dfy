/**
 The Workshop contract, part two: `validate_manifest`, which checks a manifest and returns its
 normal form. The length of a manifest as JSON and the version syntax come from the caller.
 */
module WorkshopManifest {
  import opened Common
  import opened Text
  import opened WorkshopText
  import opened WorkshopPermissions

  /** What validation takes from the Python library. */
  datatype Library = Library(size: Json -> nat, semver: string -> bool)

  const MAX_BYTES: nat := 65536

  function HostProtocol(): string { "riverbank.app-host/v1" }

  function MetadataOf(v: Json, lib: Library): Outcome<Object> {
    var o :- AsObject(v);
    var _ :- Only(o, {Id, Name, Version, Description, Vendor});
    var id :- TextOf(Get(o, Id, Null), 1, 80);
    var _ :- Need(IsAppId(Lower(id)), InvalidAppId);
    var version :- TextOf(Get(o, Version, Null), 1, 64);
    var _ :- Need(lib.semver(version), InvalidVersion);
    var name :- TextOf(Get(o, Name, Null), 1, 40);
    var description :- TextOf(Get(o, Description, Null), 0, 240);
    var vendor :- TextOf(Get(o, Vendor, Str("local")), 1, 80);
    Good(MetadataObject(Lower(id), version, name, description, vendor))
  }

  function MetadataObject(id: string, version: string, name: string, description: string, vendor: string): Object {
    map[Id := Str(id), Version := Str(version), Name := Str(name), Description := Str(description), Vendor := Str(vendor)]
  }

  predicate StartsWith(s: string, p: string) {
    |p| <= |s| && s[..|p|] == p
  }

  predicate EndsWith(s: string, p: string) {
    |p| <= |s| && s[|s| - |p|..] == p
  }

  function PackagePath(v: Json, high: nat): Outcome<string> {
    var t :- TextOf(v, 1, high);
    match SafePath(t)
    case GoodPath(p) => Good(p)
    case InvalidPath => Bad(InvalidPathError)
    case UnsafePath => Bad(UnsafePathError)
  }

  function EntrypointOf(v: Json, kind: string, files: Option<set<string>>): Outcome<string> {
    var p :- PackagePath(v, 180);
    var _ :- Need(StartsWith(p, "app/"), InvalidEntrypoint);
    var _ :- Need(EndsWith(p, if kind == "declarative-v1" then ".json" else ".py"), InvalidEntrypoint);
    var _ :- Need(files.Some? ==> p in files.value, MissingEntrypoint);
    Good(p)
  }

  function RuntimeObject(kind: string, entrypoint: string): Object {
    map[KindKey := Str(kind), Entrypoint := Str(entrypoint), Protocol := Str(HostProtocol())]
  }

  function RuntimeOf(v: Json, files: Option<set<string>>): Outcome<Object> {
    var o :- AsObject(v);
    var kind :- TextOf(Get(o, KindKey, Null), 1, 40);
    var _ :- Need(kind == "declarative-v1" || kind == "python-sandbox-v1", UnsupportedRuntime);
    var _ :- Need(Command !in o && Arguments !in o, DirectProcessForbidden);
    var _ :- Only(o, {KindKey, Entrypoint, Protocol});
    var entrypoint :- EntrypointOf(Get(o, Entrypoint, Null), kind, files);
    var protocol :- TextOf(Get(o, Protocol, Str(HostProtocol())), 1, 64);
    var _ :- Need(protocol == HostProtocol(), UnsupportedHostProtocol);
    Good(RuntimeObject(kind, entrypoint))
  }

  function LifecycleOf(v: Json, autostartAllowed: bool): Outcome<Object> {
    var o :- AsObject(v);
    var _ :- Only(o, {Autostart, StartTimeoutSeconds, StopTimeoutSeconds});
    var autostart := Truthy(Get(o, Autostart, Bool(false)));
    var _ :- Need(autostart ==> autostartAllowed, AutostartPermissionRequired);
    var start :- IntegerOf(Get(o, StartTimeoutSeconds, Int(10)), 1, 30);
    var stop :- IntegerOf(Get(o, StopTimeoutSeconds, Int(5)), 1, 15);
    Good(map[Autostart := Bool(autostart), StartTimeoutSeconds := Int(start), StopTimeoutSeconds := Int(stop)])
  }

  function ResourcesOf(v: Json): Outcome<Object> {
    var o :- AsObject(v);
    var _ :- Only(o, {CpuPercent, MemoryMB, StorageMB, MaxProcesses});
    var cpu :- IntegerOf(Get(o, CpuPercent, Int(10)), 1, 50);
    var memory :- IntegerOf(Get(o, MemoryMB, Int(128)), 16, 512);
    var storage :- IntegerOf(Get(o, StorageMB, Int(128)), 1, 2048);
    var processes :- IntegerOf(Get(o, MaxProcesses, Int(2)), 1, 8);
    Good(map[CpuPercent := Int(cpu), MemoryMB := Int(memory), StorageMB := Int(storage), MaxProcesses := Int(processes)])
  }

  /** The menu label defaults to the whole name, so a name of more than six characters needs a label. */
  function UiOf(v: Json, name: Json): Outcome<Object> {
    var o :- AsObject(v);
    var _ :- Only(o, {MenuLabel, Glyph});
    var text :- TextOf(Get(o, MenuLabel, name), 1, 6);
    var glyph :- TextOf(Get(o, Glyph, Str("\U{5E94}")), 1, 2);
    Good(map[MenuLabel := Str(text), Glyph := Str(glyph)])
  }

  /** The parts of a valid manifest in normal form. */
  datatype Parts = Parts(runtime: Object, permissions: seq<Permission>, lifecycle: Object, resources: Object, ui: Object)

  function SpecOf(v: Json, name: Json, files: Option<set<string>>): Outcome<Parts> {
    var spec :- AsObject(v);
    var _ :- Only(spec, {Runtime, Permissions, Resources, Lifecycle, Ui});
    var runtime :- RuntimeOf(Get(spec, Runtime, Null), files);
    var raw := Get(spec, Permissions, Null);
    var _ :- Need(raw.Arr?, InvalidType);
    var permissions :- PermissionsOf(raw.items, {});
    var lifecycle :- LifecycleOf(Get(spec, Lifecycle, Obj(map[])), Autostarts(permissions));
    var resources :- ResourcesOf(Get(spec, Resources, Obj(map[])));
    var ui :- UiOf(Get(spec, Ui, Obj(map[])), name);
    Good(Parts(runtime, permissions, lifecycle, resources, ui))
  }

  predicate Autostarts(ps: seq<Permission>) {
    exists i | 0 <= i < |ps| :: ps[i].name == "lifecycle.autostart"
  }

  function PartsJson(parts: Parts): Json {
    Obj(map[Runtime := Obj(parts.runtime), Permissions := Arr(PermissionJsons(parts.permissions)),
            Lifecycle := Obj(parts.lifecycle), Resources := Obj(parts.resources), Ui := Obj(parts.ui)])
  }

  datatype Manifest = Manifest(metadata: Object, parts: Parts)

  function ManifestJson(m: Manifest): Json {
    Obj(map[ApiVersion := Str("riverbank.workshop/v1"), KindKey := Str("RiverBankApp"),
            Metadata := Obj(m.metadata), Spec := PartsJson(m.parts)])
  }

  /** `validate_manifest`; the returned dictionary is `ManifestJson` of the result. */
  function ValidateManifest(v: Json, files: Option<set<string>>, lib: Library): Outcome<Manifest> {
    var root :- AsObject(v);
    var _ :- Only(root, {ApiVersion, KindKey, Metadata, Spec});
    var _ :- Need(lib.size(v) <= MAX_BYTES, ManifestTooLarge);
    var _ :- Need(Get(root, ApiVersion, Null) == Str("riverbank.workshop/v1"), UnsupportedManifestVersion);
    var _ :- Need(Get(root, KindKey, Null) == Str("RiverBankApp"), InvalidKind);
    var metadata :- MetadataOf(Get(root, Metadata, Null), lib);
    var parts :- SpecOf(Get(root, Spec, Null), Get(metadata, Name, Null), files);
    Good(Manifest(metadata, parts))
  }

  // ----- every part accepts its own result and leaves it alone

  lemma MetadataNormal(v: Json, lib: Library)
    requires MetadataOf(v, lib).Good?
    ensures MetadataOf(Obj(MetadataOf(v, lib).value), lib) == MetadataOf(v, lib)
  {
    hide TextOf, IsAppId, Lower;
    var o := v.fields;
    var id := TextOf(Get(o, Id, Null), 1, 80).value;
    TextOfNormal(Get(o, Id, Null), 1, 80);
    IdNormal(id);
    TextOfNormal(Get(o, Version, Null), 1, 64);
    TextOfNormal(Get(o, Name, Null), 1, 40);
    TextOfNormal(Get(o, Description, Null), 0, 240);
    TextOfNormal(Get(o, Vendor, Str("local")), 1, 80);
  }

  lemma IdNormal(id: string)
    requires 1 <= |id| <= 80 && IsAppId(Lower(id))
    ensures TextOf(Str(Lower(id)), 1, 80) == Good(Lower(id)) && Lower(Lower(id)) == Lower(id)
  {
    hide IsAppId, Strip, Trim;
    AppIdNormal(Lower(id));
    StripTrims(Lower(id));
  }

  lemma StripShorter(s: string)
    ensures |Strip(s)| <= |s| && (!Trim(s) ==> |Strip(s)| < |s|)
  {
    StripTrims(s);
  }

  /** Normalising a path twice changes nothing exactly when the normal form has no white space at its ends. */
  lemma PackagePathNormal(v: Json, high: nat)
    requires PackagePath(v, high).Good?
    ensures var p := PackagePath(v, high).value; p != "" && |p| <= high
    ensures var p := PackagePath(v, high).value; PackagePath(Str(p), high) == Good(p) <==> Trim(p)
  {
    hide SafePath, Strip, Trim;
    var t := TextOf(v, 1, high).value;
    TextOfNormal(v, 1, high);
    SafePathNormal(t);
    var p := SafePath(t).path;
    StripTrims(p);
    StripShorter(p);
    if SafePath(Strip(p)).GoodPath? {
      SafePathNormal(Strip(p));
    }
  }

  lemma EntrypointNormal(v: Json, kind: string, files: Option<set<string>>)
    requires EntrypointOf(v, kind, files).Good?
    ensures var p := EntrypointOf(v, kind, files).value; EntrypointOf(Str(p), kind, files) == Good(p)
  {
    hide PackagePath, Strip;
    var p := PackagePath(v, 180).value;
    PackagePathNormal(v, 180);
    assert p[0] == 'a' by { assert p[..4][0] == p[0]; }
    assert p[|p| - 1] in {'n', 'y'} by {
      var suffix := if kind == "declarative-v1" then ".json" else ".py";
      assert p[|p| - |suffix|..][|suffix| - 1] == p[|p| - 1];
    }
    assert Trim(p);
  }

  lemma RuntimeNormal(v: Json, files: Option<set<string>>)
    requires RuntimeOf(v, files).Good?
    ensures RuntimeOf(Obj(RuntimeOf(v, files).value), files) == RuntimeOf(v, files)
  {
    hide TextOf, EntrypointOf;
    var kind := TextOf(Get(v.fields, KindKey, Null), 1, 40).value;
    TextOfNormal(Get(v.fields, KindKey, Null), 1, 40);
    TextOfNormal(Get(v.fields, Protocol, Str(HostProtocol())), 1, 64);
    EntrypointNormal(Get(v.fields, Entrypoint, Null), kind, files);
  }

  lemma LifecycleNormal(v: Json, allowed: bool)
    requires LifecycleOf(v, allowed).Good?
    ensures LifecycleOf(Obj(LifecycleOf(v, allowed).value), allowed) == LifecycleOf(v, allowed)
  {}

  lemma ResourcesNormal(v: Json)
    requires ResourcesOf(v).Good?
    ensures ResourcesOf(Obj(ResourcesOf(v).value)) == ResourcesOf(v)
  {}

  lemma UiNormal(v: Json, name: Json)
    requires UiOf(v, name).Good?
    ensures UiOf(Obj(UiOf(v, name).value), name) == UiOf(v, name)
  {
    hide TextOf;
    TextOfNormal(Get(v.fields, MenuLabel, name), 1, 6);
    TextOfNormal(Get(v.fields, Glyph, Str("\U{5E94}")), 1, 2);
  }

  lemma SpecNormal(v: Json, name: Json, files: Option<set<string>>)
    requires SpecOf(v, name, files).Good?
    ensures SpecOf(PartsJson(SpecOf(v, name, files).value), name, files) == SpecOf(v, name, files)
  {
    hide RuntimeOf, PermissionsOf, LifecycleOf, ResourcesOf, UiOf, Autostarts, PermissionJsons;
    var o := v.fields;
    var parts := SpecOf(v, name, files).value;
    RuntimeNormal(Get(o, Runtime, Null), files);
    PermissionsNormal(Get(o, Permissions, Null).items, {});
    LifecycleNormal(Get(o, Lifecycle, Obj(map[])), Autostarts(parts.permissions));
    ResourcesNormal(Get(o, Resources, Obj(map[])));
    UiNormal(Get(o, Ui, Obj(map[])), name);
  }

  /**
   Validation is a normaliser: a valid manifest's normal form is valid and is its own normal form,
   unless filling in the defaults has made it longer than a manifest may be.
   */
  lemma ValidateTwice(v: Json, files: Option<set<string>>, lib: Library)
    requires ValidateManifest(v, files, lib).Good?
    ensures var m := ValidateManifest(v, files, lib).value;
            ValidateManifest(ManifestJson(m), files, lib) ==
              if lib.size(ManifestJson(m)) <= MAX_BYTES then Good(m) else Bad(ManifestTooLarge)
  {
    hide MetadataOf, SpecOf, PartsJson;
    var m := ValidateManifest(v, files, lib).value;
    MetadataNormal(Get(v.fields, Metadata, Null), lib);
    SpecNormal(Get(v.fields, Spec, Null), Get(m.metadata, Name, Null), files);
  }
}
