/** A manifest with one permission, and a storage request whose sanitised path changes when it is submitted again. */
module WorkshopExample {
  import opened Common
  import opened Text
  import opened WorkshopText
  import opened WorkshopPermissions
  import opened WorkshopManifest
  import opened WorkshopRequests

  function ExampleMetadata(): Json {
    Obj(map[Id := Str("a.b"), Version := Str("1.0.0"), Name := Str("notes"), Description := Str("")])
  }

  function ExampleRuntime(): Json {
    Obj(map[KindKey := Str("declarative-v1"), Entrypoint := Str("app/m.json")])
  }

  function ExamplePermission(): Json {
    Obj(map[CapabilityKey := Str("storage.app"), Reason := Str("notes")])
  }

  function ExampleSpec(): Json {
    Obj(map[Runtime := ExampleRuntime(), Permissions := Arr([ExamplePermission()])])
  }

  function ExampleManifest(): Json {
    Obj(map[ApiVersion := Str("riverbank.workshop/v1"), KindKey := Str("RiverBankApp"),
            Metadata := ExampleMetadata(), Spec := ExampleSpec()])
  }

  const STORAGE := Permission("storage.app", "notes", Obj(map[]))

  lemma PlainText(t: string, low: nat, high: nat)
    requires Trim(t) && low <= |t| <= high
    ensures TextOf(Str(t), low, high) == Good(t)
  {
    hide Trim, Strip;
    StripTrims(t);
  }

  lemma IdValid()
    ensures IsAppId("a.b")
  {
    assert !LowerAlnum("a.b"[1]);
  }

  lemma MetadataValid(lib: Library)
    requires lib.semver("1.0.0")
    ensures MetadataOf(ExampleMetadata(), lib)
         == Good(MetadataObject("a.b", "1.0.0", "notes", "", "local"))
  {
    hide TextOf, IsAppId, Lower, Strip;
    PlainText("a.b", 1, 80);
    PlainText("1.0.0", 1, 64);
    PlainText("notes", 1, 40);
    PlainText("", 0, 240);
    PlainText("local", 1, 80);
    IdValid();
    AppIdNormal("a.b");
  }

  lemma PathValid()
    ensures PackagePath(Str("app/m.json"), 180) == Good("app/m.json")
  {
    hide TextOf, Split, Components;
    PlainText("app/m.json", 1, 180);
    assert "app" + ['/'] + "m.json" == "app/m.json";
    SplitFirst("app", "m.json", '/');
    SplitNone("m.json", '/');
    ComponentsSame(["app", "m.json"]);
    assert ["app"] + ["m.json"] == ["app", "m.json"];
    assert Join(["app", "m.json"], '/') == "app/m.json" by {
      assert ["app", "m.json"][1..] == ["m.json"];
    }
  }

  lemma EntrypointValid()
    ensures EntrypointOf(Str("app/m.json"), "declarative-v1", None) == Good("app/m.json")
  {
    hide PackagePath;
    PathValid();
  }

  lemma RuntimeValid()
    ensures RuntimeOf(ExampleRuntime(), None) == Good(RuntimeObject("declarative-v1", "app/m.json"))
  {
    hide TextOf, EntrypointOf;
    PlainText("declarative-v1", 1, 40);
    EntrypointValid();
    PlainText(HostProtocol(), 1, 64);
  }

  lemma StorageNamed()
    ensures CapabilityNamed("storage.app") == Some(StorageApp) && !Forbidden("storage.app")
  {}

  lemma PermissionValid()
    ensures PermissionOf(ExamplePermission(), {}) == Good(STORAGE)
  {
    hide TextOf, CapabilityNamed, Forbidden;
    PlainText("storage.app", 1, 80);
    PlainText("notes", 1, 160);
    StorageNamed();
  }

  lemma PermissionsValid()
    ensures PermissionsOf([ExamplePermission()], {}) == Good([STORAGE])
  {
    hide PermissionOf, ExamplePermission;
    PermissionValid();
    assert [ExamplePermission()][1..] == [];
    assert PermissionsOf([], {} + {STORAGE.name}) == Good([]);
    assert [STORAGE] + [] == [STORAGE];
  }

  lemma RestValid(allowed: bool)
    ensures LifecycleOf(Obj(map[]), allowed).Good? && ResourcesOf(Obj(map[])).Good? && UiOf(Obj(map[]), Str("notes")).Good?
  {
    hide TextOf;
    PlainText("notes", 1, 6);
    PlainText("\U{5E94}", 1, 2);
  }

  lemma SpecValid()
    ensures SpecOf(ExampleSpec(), Str("notes"), None).Good?
    ensures SpecOf(ExampleSpec(), Str("notes"), None).value.permissions == [STORAGE]
  {
    hide RuntimeOf, PermissionsOf, LifecycleOf, ResourcesOf, UiOf, Autostarts, ExampleRuntime, ExamplePermission;
    RuntimeValid();
    PermissionsValid();
    RestValid(Autostarts([STORAGE]));
  }

  lemma ManifestValid(lib: Library)
    requires lib.semver("1.0.0") && lib.size(ExampleManifest()) <= MAX_BYTES
    ensures ValidateManifest(ExampleManifest(), None, lib).Good?
    ensures var m := ValidateManifest(ExampleManifest(), None, lib).value;
            Get(m.metadata, Id, Null) == Str("a.b") && m.parts.permissions == [STORAGE]
  {
    hide MetadataOf, SpecOf, ExampleMetadata, ExampleSpec;
    MetadataValid(lib);
    SpecValid();
  }

  function Params1(): Object { map[PathKey := Str("./ a")] }
  function Params2(): Object { map[PathKey := Str(" a")] }
  function Params3(): Object { map[PathKey := Str("a")] }

  function StorageRequest(params: Object): Json {
    Obj(map[Protocol := Str(HostProtocol()), TypeKey := Str("request"), Id := Str("1"),
            MethodKey := Str("storage.get"), Params := Obj(params)])
  }

  lemma Differs(s: string, p: string, i: nat)
    requires i < |s| && i < |p| && s[i] != p[i]
    ensures !StartsWith(s, p)
  {
    if |p| <= |s| {
      assert s[..|p|][i] == s[i];
    }
  }

  lemma StorageGetNamed()
    ensures MethodNamed("storage.get") == Some(StorageGet) && !ForbiddenMethodName("storage.get")
  {
    hide StartsWith;
    Differs("storage.get", "credentials.", 0);
    Differs("storage.get", "filesystem.host.", 0);
    Differs("storage.get", "kernel.", 0);
    Differs("storage.get", "packages.", 0);
    Differs("storage.get", "process.", 0);
    Differs("storage.get", "service.", 1);
    Differs("storage.get", "shell.", 1);
    Differs("storage.get", "system.", 1);
  }

  lemma RequestValid(params: Object)
    requires AppId !in params && Identity !in params
    ensures ValidateRequest(StorageRequest(params)) == Good(Message("1", StorageGet, params))
  {
    hide TextOf, MethodNamed, ForbiddenMethodName;
    PlainText("1", 1, 128);
    PlainText("storage.get", 1, 96);
    StorageGetNamed();
  }

  const GRANTS := map["storage.app" := Bool(true)]
  const SESSION := Session(Str("a.b"), Bool(false), Bool(false))

  lemma StorageFound()
    ensures PermissionFor([STORAGE], StorageApp) == Some(STORAGE) && GrantEnabled(GRANTS, STORAGE.name)
  {
    hide CapabilityNamed;
    StorageNamed();
  }

  lemma StorageAuthorized(lib: Library, web: Web, params: Object)
    requires lib.semver("1.0.0") && lib.size(ExampleManifest()) <= MAX_BYTES
    requires AppId !in params && Identity !in params
    ensures Authorize(ExampleManifest(), GRANTS, StorageRequest(params), SESSION, lib, web) == AuthorizeStorage(params)
  {
    hide ValidateManifest, ValidateRequest, AuthorizeStorage, ExampleManifest, StorageRequest, PermissionFor, GrantEnabled;
    ManifestValid(lib);
    RequestValid(params);
    StorageFound();
  }

  /** The exception of `ResubmitIff` is met: this request is allowed, and so is its sanitised form, with another path. */
  lemma ResubmissionDrifts(lib: Library, web: Web)
    requires lib.semver("1.0.0") && lib.size(ExampleManifest()) <= MAX_BYTES
    ensures Authorize(ExampleManifest(), GRANTS, StorageRequest(Params1()), SESSION, lib, web) == Good(Params2())
    ensures Authorize(ExampleManifest(), GRANTS, StorageRequest(Params2()), SESSION, lib, web) == Good(Params3())
    ensures Params2() != Params3() && StorageRequest(Params2()) == WithParams(StorageRequest(Params1()), Params2())
  {
    hide Authorize, AuthorizeStorage, ExampleManifest;
    StorageAuthorized(lib, web, Params1());
    StorageAuthorized(lib, web, Params2());
    StorageDrifts();
    assert Params2()[PathKey] != Params3()[PathKey] by { assert |" a"| != |"a"|; }
    assert FieldsOf(StorageRequest(Params1()))[Params := Obj(Params2())] == FieldsOf(StorageRequest(Params2()));
  }
}
