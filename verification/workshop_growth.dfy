/**
 A manifest of at most 64 KiB whose normal form is longer: it lists its methods over and over, which
 validation keeps, and leaves out its `ui`, which validation fills in.
 */
module WorkshopGrowth {
  import opened Common
  import opened Text
  import opened WorkshopText
  import opened WorkshopPermissions
  import opened WorkshopManifest
  import opened WorkshopRequests
  import opened WorkshopExample
  import opened WorkshopSize

  function Gets(n: nat): seq<Json> {
    seq(n, _ => Str("GET"))
  }

  function Fetching(n: nat): Object {
    map[Domains := Arr([Str("a.b")]), Methods := Arr(Gets(n))]
  }

  function FetchPermission(n: nat): Permission {
    Permission("network.outbound", "notes", Obj(Fetching(n)))
  }

  function FullMetadata(): Object {
    MetadataObject("a.b", "1.0.0", "notes", "", "local")
  }

  function FullRuntime(): Object {
    RuntimeObject("declarative-v1", "app/m.json")
  }

  function FullLifecycle(): Object {
    map[Autostart := Bool(false), StartTimeoutSeconds := Int(10), StopTimeoutSeconds := Int(5)]
  }

  function FullResources(): Object {
    map[CpuPercent := Int(10), MemoryMB := Int(128), StorageMB := Int(128), MaxProcesses := Int(2)]
  }

  function DefaultUi(): Object {
    map[MenuLabel := Str("notes"), Glyph := Str("\U{5E94}")]
  }

  function ShortSpec(n: nat): Object {
    map[Runtime := Obj(FullRuntime()), Permissions := Arr(PermissionJsons([FetchPermission(n)])),
        Lifecycle := Obj(FullLifecycle()), Resources := Obj(FullResources())]
  }

  function Root(spec: Object): Object {
    map[ApiVersion := Str("riverbank.workshop/v1"), KindKey := Str("RiverBankApp"),
        Metadata := Obj(FullMetadata()), Spec := Obj(spec)]
  }

  function Long(n: nat): Json {
    Obj(Root(ShortSpec(n)))
  }

  function Normal(n: nat): Manifest {
    Manifest(FullMetadata(), Parts(FullRuntime(), [FetchPermission(n)], FullLifecycle(), FullResources(), DefaultUi()))
  }

  // ----- it is valid

  lemma {:induction false} GetsKept(n: nat)
    ensures MethodsOf(Gets(n)) == Good(Gets(n))
    decreases n
  {
    if n > 0 {
      assert Gets(n)[1..] == Gets(n - 1);
      GetsKept(n - 1);
      assert [Str("GET")] + Gets(n - 1) == Gets(n);
    }
  }

  lemma ShortDomain()
    ensures IsDomain("a.b")
  {
    assert "a" + ['.'] + "b" == "a.b";
    SplitFirst("a", "b", '.');
    SplitNone("b", '.');
    assert ["a"] + ["b"] == ["a", "b"];
    hide Split;
  }

  lemma DomainKept()
    ensures DomainOf(Str("a.b")) == Good("a.b")
  {
    hide IsDomain, TextOf, StripDots, Lower;
    ShortDomain();
    DomainNormal("a.b");
    PlainText("a.b", 1, 253);
  }

  lemma DomainsKept()
    ensures CheckDomains(Arr([Str("a.b")])) == Good(Arr([Str("a.b")]))
  {
    hide DomainOf;
    DomainKept();
    assert Strings(["a.b"]) == [Str("a.b")];
    assert [Str("a.b")][1..] == [];
    assert DomainsOf([], ["a.b"]) == Good(["a.b"]);
    assert [] + ["a.b"] == ["a.b"];
  }

  lemma ConstraintsKept(n: nat)
    requires n > 0
    ensures CheckConstraints(NetworkOutbound, Obj(Fetching(n))) == Good(Obj(Fetching(n)))
  {
    hide CheckDomains, MethodsOf;
    DomainsKept();
    GetsKept(n);
    var o := Fetching(n);
    assert o[Domains := o[Domains]][Methods := o[Methods]] == o;
    assert Domains in o && o != map[];
  }

  lemma FetchNamed()
    ensures CapabilityNamed("network.outbound") == Some(NetworkOutbound) && !Forbidden("network.outbound")
  {}

  lemma PermissionKept(n: nat)
    requires n > 0
    ensures PermissionOf(PermissionJson(FetchPermission(n)), {}) == Good(FetchPermission(n))
  {
    hide TextOf, CheckConstraints, CapabilityNamed, Forbidden, Fetching;
    PlainText("network.outbound", 1, 80);
    PlainText("notes", 1, 160);
    FetchNamed();
    ConstraintsKept(n);
  }

  lemma PermissionsKept(n: nat)
    requires n > 0
    ensures PermissionsOf(PermissionJsons([FetchPermission(n)]), {}) == Good([FetchPermission(n)])
  {
    hide PermissionOf, PermissionJson, FetchPermission;
    PermissionKept(n);
    var p := FetchPermission(n);
    var items := PermissionJsons([p]);
    assert items == [PermissionJson(p)] && items[1..] == [];
    assert PermissionsOf([], {} + {p.name}) == Good([]);
    assert [p] + [] == [p];
  }

  lemma OthersKept(lib: Library, allowed: bool)
    requires lib.semver("1.0.0")
    ensures MetadataOf(Obj(FullMetadata()), lib) == Good(FullMetadata())
    ensures RuntimeOf(Obj(FullRuntime()), None) == Good(FullRuntime())
    ensures LifecycleOf(Obj(FullLifecycle()), allowed) == Good(FullLifecycle())
    ensures ResourcesOf(Obj(FullResources())) == Good(FullResources())
    ensures UiOf(Obj(map[]), Str("notes")) == Good(DefaultUi())
  {
    hide TextOf, MetadataOf, RuntimeOf;
    MetadataValid(lib);
    MetadataNormal(ExampleMetadata(), lib);
    RuntimeValid();
    RuntimeNormal(ExampleRuntime(), None);
    PlainText("notes", 1, 6);
    PlainText("\U{5E94}", 1, 2);
  }

  lemma LongSpecValid(n: nat, lib: Library)
    requires n > 0 && lib.semver("1.0.0")
    ensures SpecOf(Obj(ShortSpec(n)), Str("notes"), None) == Good(Normal(n).parts)
  {
    hide RuntimeOf, PermissionsOf, PermissionJsons, LifecycleOf, ResourcesOf, UiOf, Autostarts, MetadataOf,
         FetchPermission, FullMetadata, FullRuntime, FullLifecycle, FullResources, DefaultUi;
    PermissionsKept(n);
    OthersKept(lib, Autostarts([FetchPermission(n)]));
  }

  /** The branches of `validate_manifest`, taken one after another. */
  lemma ValidByParts(root: Object, lib: Library, metadata: Object, parts: Parts)
    requires root.Keys == {ApiVersion, KindKey, Metadata, Spec} && lib.size(Obj(root)) <= MAX_BYTES
    requires Get(root, ApiVersion, Null) == Str("riverbank.workshop/v1") && Get(root, KindKey, Null) == Str("RiverBankApp")
    requires MetadataOf(Get(root, Metadata, Null), lib) == Good(metadata)
    requires SpecOf(Get(root, Spec, Null), Get(metadata, Name, Null), None) == Good(parts)
    ensures ValidateManifest(Obj(root), None, lib) == Good(Manifest(metadata, parts))
  {
    hide SpecOf, MetadataOf, Get;
  }

  lemma LongValid(n: nat, lib: Library)
    requires n > 0 && lib.semver("1.0.0") && lib.size(Long(n)) <= MAX_BYTES
    ensures ValidateManifest(Long(n), None, lib) == Good(Normal(n))
  {
    hide SpecOf, MetadataOf, ShortSpec, FullMetadata, Root, Get, ValidateManifest;
    RootFields(ShortSpec(n));
    OthersKept(lib, false);
    NamedNotes();
    LongSpecValid(n, lib);
    ValidByParts(Root(ShortSpec(n)), lib, FullMetadata(), Normal(n).parts);
  }

  lemma RootFields(spec: Object)
    ensures var root := Root(spec);
            && root.Keys == {ApiVersion, KindKey, Metadata, Spec}
            && Get(root, ApiVersion, Null) == Str("riverbank.workshop/v1") && Get(root, KindKey, Null) == Str("RiverBankApp")
            && Get(root, Metadata, Null) == Obj(FullMetadata()) && Get(root, Spec, Null) == Obj(spec)
  {
    hide FullMetadata;
  }

  lemma NamedNotes()
    ensures Get(FullMetadata(), Name, Null) == Str("notes")
  {}

  // ----- how long it is

  lemma LongerByOne(n: nat, float: real -> nat)
    requires n > 0
    ensures JsonSize(Long(n + 1), float) == JsonSize(Long(n), float) + 6
  {
    hide JsonSize;
    var get := Str("GET");
    assert Gets(n + 1) == Gets(n) + [get];
    SizeOfAppend(Gets(n), get, float);
    GetSize(float);
    assert Fetching(n + 1) == Fetching(n)[Methods := Arr(Gets(n + 1))];
    SizeOfPut(Fetching(n), Methods, Arr(Gets(n + 1)), float);
    hide Fetching, Gets;
    PermissionLonger(n, float);
    SpecLonger(n, float);
  }

  lemma GetSize(float: real -> nat)
    ensures JsonSize(Str("GET"), float) == 5
  {
    SizeOfSimple("GET");
  }

  lemma PermissionLonger(n: nat, float: real -> nat)
    ensures JsonSize(Arr(PermissionJsons([FetchPermission(n + 1)])), float) + JsonSize(Obj(Fetching(n)), float)
         == JsonSize(Arr(PermissionJsons([FetchPermission(n)])), float) + JsonSize(Obj(Fetching(n + 1)), float)
  {
    hide JsonSize, Fetching;
    var a, b := PermissionJson(FetchPermission(n)), PermissionJson(FetchPermission(n + 1));
    assert b.fields == a.fields[Constraints := Obj(Fetching(n + 1))];
    SizeOfPut(a.fields, Constraints, Obj(Fetching(n + 1)), float);
    assert PermissionJsons([FetchPermission(n)]) == [a] && PermissionJsons([FetchPermission(n + 1)]) == [b];
    SizeOfOne(a, float);
    SizeOfOne(b, float);
  }

  lemma SpecLonger(n: nat, float: real -> nat)
    ensures JsonSize(Long(n + 1), float) + JsonSize(Arr(PermissionJsons([FetchPermission(n)])), float)
         == JsonSize(Long(n), float) + JsonSize(Arr(PermissionJsons([FetchPermission(n + 1)])), float)
  {
    hide JsonSize, PermissionJsons, FetchPermission, FullMetadata;
    var permissions := Arr(PermissionJsons([FetchPermission(n + 1)]));
    assert ShortSpec(n + 1) == ShortSpec(n)[Permissions := permissions];
    SizeOfPut(ShortSpec(n), Permissions, permissions, float);
    hide ShortSpec;
    assert Root(ShortSpec(n + 1)) == Root(ShortSpec(n))[Spec := Obj(ShortSpec(n + 1))];
    SizeOfPut(Root(ShortSpec(n)), Spec, Obj(ShortSpec(n + 1)), float);
  }

  /** The normal form has one entry more. */
  lemma NormalLonger(n: nat, float: real -> nat)
    ensures JsonSize(ManifestJson(Normal(n)), float) >= JsonSize(Long(n), float) + 6
  {
    hide JsonSize, PermissionJsons, FetchPermission, FullMetadata, FullRuntime, FullLifecycle, FullResources, DefaultUi;
    var spec := ShortSpec(n);
    var full := spec[Ui := Obj(DefaultUi())];
    assert ManifestJson(Normal(n)) == Obj(Root(full));
    SizeOfAdd(spec, Ui, Obj(DefaultUi()), float);
    assert Runtime in spec && spec != map[];
    assert Root(full) == Root(spec)[Spec := Obj(full)];
    SizeOfPut(Root(spec), Spec, Obj(full), float);
    UiKeySize();
  }

  lemma UiKeySize()
    ensures KeySize(Ui) == 5
  {
    SizeOfSimple("ui");
  }

  lemma {:induction false} CharsBound(s: string)
    ensures CharsSize(s) <= 6 * |s|
    decreases |s|
  {
    if s != "" {
      CharsBound(s[1..]);
    }
  }

  lemma KeyTextShort(k: Key)
    requires !k.Other?
    ensures |KeyText(k)| <= 20
  {
    hide OuterKeyText, InnerKeyText, RequestKeyText;
    OuterShort(k);
    InnerShort(k);
    RequestShort(k);
  }

  lemma OuterShort(k: Key)
    ensures |OuterKeyText(k)| <= 20
  {}

  lemma InnerShort(k: Key)
    ensures |InnerKeyText(k)| <= 20
  {}

  lemma RequestShort(k: Key)
    ensures |RequestKeyText(k)| <= 20
  {}

  lemma KeyBound(k: Key)
    requires !k.Other?
    ensures KeySize(k) <= 123
  {
    hide CharsSize, KeyText;
    KeyTextShort(k);
    CharsBound(KeyText(k));
  }

  lemma LeafBound(s: string, float: real -> nat)
    ensures JsonSize(Str(s), float) <= 2 + 6 * |s|
  {
    hide CharsSize;
    CharsBound(s);
  }

  lemma IntegersShort(i: int, float: real -> nat)
    requires 0 <= i < 1000
    ensures JsonSize(Int(i), float) <= 3
  {
    assert i / 10 / 10 < 10;
    assert Digits(i / 10 / 10) == 1;
    assert Digits(i / 10) <= 2;
  }

  lemma EmptyObject(float: real -> nat)
    ensures JsonSize(Obj(map[]), float) == 2
  {
    hide FieldsSize;
    ObjectUnfold(map[], float);
    NoFields(Obj(map[]), float);
  }

  /** One more entry with a known name. */
  lemma Grows(fields: Object, k: Key, value: Json, float: real -> nat)
    requires !k.Other?
    ensures JsonSize(Obj(fields[k := value]), float) <= JsonSize(Obj(fields), float) + JsonSize(value, float) + 124
  {
    hide JsonSize, KeySize;
    KeyBound(k);
    if k in fields {
      SizeOfPut(fields, k, value, float);
    } else {
      SizeOfAdd(fields, k, value, float);
    }
  }

  lemma GrowsByText(fields: Object, k: Key, text: string, float: real -> nat)
    requires !k.Other? && |text| <= 30
    ensures JsonSize(Obj(fields[k := Str(text)]), float) <= JsonSize(Obj(fields), float) + 306
  {
    hide JsonSize;
    Grows(fields, k, Str(text), float);
    LeafBound(text, float);
  }

  lemma GrowsByNumber(fields: Object, k: Key, i: int, float: real -> nat)
    requires !k.Other? && 0 <= i < 1000
    ensures JsonSize(Obj(fields[k := Int(i)]), float) <= JsonSize(Obj(fields), float) + 127
  {
    hide JsonSize;
    Grows(fields, k, Int(i), float);
    IntegersShort(i, float);
  }

  lemma FetchingShort(float: real -> nat)
    ensures JsonSize(Obj(Fetching(1)), float) <= 1000
  {
    hide JsonSize;
    EmptyObject(float);
    LeafBound("a.b", float);
    LeafBound("GET", float);
    SizeOfOne(Str("a.b"), float);
    SizeOfOne(Str("GET"), float);
    assert Gets(1) == [Str("GET")];
    Grows(map[], Domains, Arr([Str("a.b")]), float);
    Grows(map[Domains := Arr([Str("a.b")])], Methods, Arr(Gets(1)), float);
  }

  lemma PermissionShort(float: real -> nat)
    ensures JsonSize(Arr(PermissionJsons([FetchPermission(1)])), float) <= 3000
  {
    hide JsonSize, Fetching;
    EmptyObject(float);
    FetchingShort(float);
    var a, b := map[CapabilityKey := Str("network.outbound")], map[CapabilityKey := Str("network.outbound"), Reason := Str("notes")];
    GrowsByText(map[], CapabilityKey, "network.outbound", float);
    GrowsByText(a, Reason, "notes", float);
    Grows(b, Constraints, Obj(Fetching(1)), float);
    var p := PermissionJson(FetchPermission(1));
    assert PermissionJsons([FetchPermission(1)]) == [p];
    SizeOfOne(p, float);
  }

  lemma MetadataShort(float: real -> nat)
    ensures JsonSize(Obj(FullMetadata()), float) <= 2000
  {
    hide JsonSize;
    EmptyObject(float);
    GrowsByText(map[], Id, "a.b", float);
    var m := map[Id := Str("a.b")];
    GrowsByText(m, Version, "1.0.0", float);
    m := m[Version := Str("1.0.0")];
    GrowsByText(m, Name, "notes", float);
    m := m[Name := Str("notes")];
    GrowsByText(m, Description, "", float);
    m := m[Description := Str("")];
    GrowsByText(m, Vendor, "local", float);
  }

  lemma RuntimeShort(float: real -> nat)
    ensures JsonSize(Obj(FullRuntime()), float) <= 2000
  {
    hide JsonSize;
    EmptyObject(float);
    GrowsByText(map[], KindKey, "declarative-v1", float);
    var m := map[KindKey := Str("declarative-v1")];
    GrowsByText(m, Entrypoint, "app/m.json", float);
    m := m[Entrypoint := Str("app/m.json")];
    GrowsByText(m, Protocol, HostProtocol(), float);
  }

  lemma LifecycleShort(float: real -> nat)
    ensures JsonSize(Obj(FullLifecycle()), float) <= 2000
  {
    assert JsonSize(Bool(false), float) == 5;
    hide JsonSize;
    EmptyObject(float);
    Grows(map[], Autostart, Bool(false), float);
    var m := map[Autostart := Bool(false)];
    GrowsByNumber(m, StartTimeoutSeconds, 10, float);
    m := m[StartTimeoutSeconds := Int(10)];
    GrowsByNumber(m, StopTimeoutSeconds, 5, float);
  }

  lemma ResourcesShort(float: real -> nat)
    ensures JsonSize(Obj(FullResources()), float) <= 2000
  {
    hide JsonSize;
    EmptyObject(float);
    GrowsByNumber(map[], CpuPercent, 10, float);
    var m := map[CpuPercent := Int(10)];
    GrowsByNumber(m, MemoryMB, 128, float);
    m := m[MemoryMB := Int(128)];
    GrowsByNumber(m, StorageMB, 128, float);
    m := m[StorageMB := Int(128)];
    GrowsByNumber(m, MaxProcesses, 2, float);
  }

  lemma SpecShort(float: real -> nat)
    ensures JsonSize(Obj(ShortSpec(1)), float) <= 12000
  {
    hide JsonSize, PermissionJsons, FetchPermission, FullRuntime, FullLifecycle, FullResources;
    EmptyObject(float);
    PermissionShort(float);
    RuntimeShort(float);
    LifecycleShort(float);
    ResourcesShort(float);
    var permissions := Arr(PermissionJsons([FetchPermission(1)]));
    Grows(map[], Runtime, Obj(FullRuntime()), float);
    var m := map[Runtime := Obj(FullRuntime())];
    Grows(m, Permissions, permissions, float);
    m := m[Permissions := permissions];
    Grows(m, Lifecycle, Obj(FullLifecycle()), float);
    m := m[Lifecycle := Obj(FullLifecycle())];
    Grows(m, Resources, Obj(FullResources()), float);
  }

  lemma LongShort(float: real -> nat)
    ensures JsonSize(Long(1), float) <= MAX_BYTES
  {
    hide JsonSize, ShortSpec, FullMetadata;
    EmptyObject(float);
    SpecShort(float);
    MetadataShort(float);
    GrowsByText(map[], ApiVersion, "riverbank.workshop/v1", float);
    var m := map[ApiVersion := Str("riverbank.workshop/v1")];
    GrowsByText(m, KindKey, "RiverBankApp", float);
    m := m[KindKey := Str("RiverBankApp")];
    Grows(m, Metadata, Obj(FullMetadata()), float);
    m := m[Metadata := Obj(FullMetadata())];
    Grows(m, Spec, Obj(ShortSpec(1)), float);
  }

  lemma {:induction false} LongSize(n: nat, float: real -> nat)
    requires n > 0
    ensures JsonSize(Long(n), float) == JsonSize(Long(1), float) + 6 * (n - 1)
    decreases n
  {
    hide JsonSize, Long;
    if n > 1 {
      LongSize(n - 1, float);
      LongerByOne(n - 1, float);
    }
  }

  /** The library with the real length. */
  ghost function Measuring(float: real -> nat, semver: string -> bool): Library {
    Library(v => JsonSize(v, float), semver)
  }

  /** A valid manifest whose normal form is refused as too large, and so decides no request as the manifest does. */
  lemma NormalFormCanBeTooLarge(float: real -> nat, semver: string -> bool) returns (manifest: Json)
    requires semver("1.0.0")
    ensures var lib := Measuring(float, semver);
            && ValidateManifest(manifest, None, lib).Good?
            && var normal := ManifestJson(ValidateManifest(manifest, None, lib).value);
            && lib.size(manifest) <= MAX_BYTES < lib.size(normal)
            && ValidateManifest(normal, None, lib) == Bad(ManifestTooLarge)
            && forall grants, request, session, web ::
                 Authorize(normal, grants, request, session, lib, web) != Authorize(manifest, grants, request, session, lib, web)
  {
    hide JsonSize, Long, Normal, ManifestJson, ValidateManifest, Authorize;
    var lib := Measuring(float, semver);
    var first := JsonSize(Long(1), float);
    LongShort(float);
    var n := 1 + (MAX_BYTES - first) / 6;
    LongSize(n, float);
    NormalLonger(n, float);
    manifest := Long(n);
    LongValid(n, lib);
    ValidateTwice(manifest, None, lib);
    forall grants, request, session, web
      ensures Authorize(ManifestJson(Normal(n)), grants, request, session, lib, web) != Authorize(manifest, grants, request, session, lib, web)
    {
      NormalFormAuthorises(manifest, grants, request, session, lib, web);
    }
  }
}
