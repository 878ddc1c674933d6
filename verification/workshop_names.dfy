/**
 The catalogue of the Workshop contract by name: which method belongs to which capability, and which
 methods are for the app in the foreground or need the user.
 */
module WorkshopNames {
  import opened Common
  import opened WorkshopPermissions
  import opened WorkshopRequests

  function NameOf(m: Method): string {
    match m
    case UiPresent => "ui.present"
    case UiDismiss => "ui.dismiss"
    case StorageGet => "storage.get"
    case StoragePut => "storage.put"
    case StorageList => "storage.list"
    case StorageDelete => "storage.delete"
    case EventsSubscribeCall => "events.subscribe"
    case EventsUnsubscribe => "events.unsubscribe"
    case NotificationsShow => "notifications.show"
    case CameraSnapshotCall => "camera.snapshot"
    case CameraOpen => "camera.stream.open"
    case CameraClose => "camera.stream.close"
    case MicrophoneOpen => "microphone.stream.open"
    case MicrophoneRead => "microphone.stream.read"
    case MicrophoneClose => "microphone.stream.close"
    case SpeakerPlay => "speaker.play"
    case SpeakerStop => "speaker.stop"
    case VisionDetect => "vision.detect"
    case MotorMove => "motor.move"
    case MotorStop => "motor.stop"
    case AssistantQueryCall => "assistant.query"
    case TasksCreate => "tasks.create"
    case TasksStatus => "tasks.status"
    case ReportsList => "reports.list"
    case ReportsReadCall => "reports.read"
    case NetworkFetch => "network.fetch"
  }

  function TitleOf(c: Capability): string {
    match c
    case UiSurface => "ui.surface"
    case StorageApp => "storage.app"
    case EventsSubscribe => "events.subscribe"
    case NotificationsLocal => "notifications.local"
    case CameraSnapshot => "camera.snapshot"
    case CameraStream => "camera.stream"
    case MicrophoneStream => "microphone.stream"
    case SpeakerPlayback => "speaker.playback"
    case VisionInference => "vision.inference"
    case MotorPanTilt => "motor.pan_tilt"
    case AssistantQuery => "assistant.query"
    case TasksSubmit => "tasks.submit"
    case ReportsRead => "reports.read"
    case NetworkOutbound => "network.outbound"
    case LifecycleAutostart => "lifecycle.autostart"
  }

  /** The methods of every capability, as the catalogue lists them. */
  function Catalogue(c: Capability): set<Method> {
    match c
    case UiSurface => {UiPresent, UiDismiss}
    case StorageApp => {StorageGet, StoragePut, StorageList, StorageDelete}
    case EventsSubscribe => {EventsSubscribeCall, EventsUnsubscribe}
    case NotificationsLocal => {NotificationsShow}
    case CameraSnapshot => {CameraSnapshotCall}
    case CameraStream => {CameraOpen, CameraClose}
    case MicrophoneStream => {MicrophoneOpen, MicrophoneRead, MicrophoneClose}
    case SpeakerPlayback => {SpeakerPlay, SpeakerStop}
    case VisionInference => {VisionDetect}
    case MotorPanTilt => {MotorMove, MotorStop}
    case AssistantQuery => {AssistantQueryCall}
    case TasksSubmit => {TasksCreate, TasksStatus}
    case ReportsRead => {ReportsList, ReportsReadCall}
    case NetworkOutbound => {NetworkFetch}
    case LifecycleAutostart => {}
  }

  ghost predicate Serves(name: string, capability: string) {
    exists c, m :: m in Catalogue(c) && name == NameOf(m) && capability == TitleOf(c)
  }

  /** The methods that need the user to be present. */
  function UserMethods(): set<Method> {
    {CameraSnapshotCall, CameraOpen, CameraClose, MicrophoneOpen, MicrophoneRead, MicrophoneClose, MotorMove, MotorStop, AssistantQueryCall}
  }

  ghost predicate WithUser(name: string) {
    exists m :: m in UserMethods() && name == NameOf(m)
  }

  /** The methods that only the app in the foreground may call. */
  ghost predicate InForeground(name: string) {
    WithUser(name) || name == NameOf(VisionDetect)
  }

  /** The only method that a name can belong to, by its length and a letter or two. */
  function Guess(s: string): Method {
    var n := |s|;
    if n < 10 then NetworkFetch
    else if n == 10 then (if s[8] == 'n' then UiPresent else if s[8] == 's' then UiDismiss else if s[8] == 'v' then MotorMove else MotorStop)
    else if n == 11 then (if s[8] == 'g' then StorageGet else StoragePut)
    else if n == 12 then
      if s[0] == 's' then (if s[8] == 'l' then StorageList else if s[8] == 'p' then SpeakerPlay else SpeakerStop)
      else if s[0] == 't' then (if s[8] == 'e' then TasksCreate else TasksStatus)
      else if s[8] == 'l' then ReportsList
      else ReportsReadCall
    else if n == 13 then (if s[0] == 'v' then VisionDetect else NetworkFetch)
    else if n == 14 then StorageDelete
    else if n == 15 then (if s[0] == 'c' then CameraSnapshotCall else AssistantQueryCall)
    else if n == 16 then EventsSubscribeCall
    else if n == 18 then (if s[0] == 'e' then EventsUnsubscribe else if s[0] == 'n' then NotificationsShow else CameraOpen)
    else if n == 19 then CameraClose
    else if n == 22 then (if s[18] == 'o' then MicrophoneOpen else MicrophoneRead)
    else MicrophoneClose
  }

  lemma GuessRight(m: Method)
    ensures Guess(NameOf(m)) == m
  {}

  lemma AppNames(name: string)
    ensures AppMethod(name).Some? ==> name == NameOf(AppMethod(name).value)
  {}

  lemma AppNamed(m: Method)
    ensures m in {UiPresent, UiDismiss, StorageGet, StoragePut, StorageList, StorageDelete, EventsSubscribeCall, EventsUnsubscribe, NotificationsShow} ==> AppMethod(NameOf(m)).Some?
  {}

  lemma SensorNames(name: string)
    ensures SensorMethod(name).Some? ==> name == NameOf(SensorMethod(name).value)
  {}

  lemma SensorNamed(m: Method)
    ensures m in {CameraSnapshotCall, CameraOpen, CameraClose, MicrophoneOpen, MicrophoneRead, MicrophoneClose} ==> SensorMethod(NameOf(m)).Some?
  {}

  lemma DriverNames(name: string)
    ensures DriverMethod(name).Some? ==> name == NameOf(DriverMethod(name).value)
  {}

  lemma DriverNamed(m: Method)
    ensures m in {SpeakerPlay, SpeakerStop, VisionDetect, MotorMove, MotorStop} ==> DriverMethod(NameOf(m)).Some?
  {}

  lemma ServiceNames(name: string)
    ensures ServiceMethod(name).Some? ==> name == NameOf(ServiceMethod(name).value)
  {}

  lemma ServiceNamed(m: Method)
    ensures m in {AssistantQueryCall, TasksCreate, TasksStatus, ReportsList, ReportsReadCall, NetworkFetch} ==> ServiceMethod(NameOf(m)).Some?
  {}

  lemma NamedHas(name: string)
    ensures MethodNamed(name).Some? ==> name == NameOf(MethodNamed(name).value)
  {
    hide NameOf, AppMethod, SensorMethod, DriverMethod, ServiceMethod;
    AppNames(name);
    SensorNames(name);
    DriverNames(name);
    ServiceNames(name);
  }

  lemma NamedAll(m: Method)
    ensures MethodNamed(NameOf(m)).Some?
  {
    hide NameOf, AppMethod, SensorMethod, DriverMethod, ServiceMethod;
    AppNamed(m);
    SensorNamed(m);
    DriverNamed(m);
    ServiceNamed(m);
  }

  /** A text names a method exactly if it is the name of that method. */
  lemma NamedIff(name: string, m: Method)
    ensures MethodNamed(name) == Some(m) <==> name == NameOf(m)
  {
    hide *;
    NamedHas(name);
    NamedAll(m);
    GuessRight(m);
    if name == NameOf(m) {
      GuessRight(MethodNamed(name).value);
    }
  }

  lemma NamesDiffer(m: Method, n: Method)
    ensures NameOf(m) == NameOf(n) <==> m == n
  {
    hide NameOf, Guess;
    GuessRight(m);
    GuessRight(n);
  }

  lemma EarlyTitles(name: string)
    ensures EarlyCapability(name).Some? ==> name == TitleOf(EarlyCapability(name).value)
  {}

  lemma LateTitles(name: string)
    ensures LateCapability(name).Some? ==> name == TitleOf(LateCapability(name).value)
  {}

  lemma TitledIff(name: string, c: Capability)
    ensures CapabilityNamed(name) == Some(c) <==> name == TitleOf(c)
  {
    hide TitleOf, EarlyCapability, LateCapability;
    EarlyTitles(name);
    LateTitles(name);
    TitlesNamed(c);
  }

  lemma TitlesNamed(c: Capability)
    ensures CapabilityNamed(TitleOf(c)) == Some(c)
  {
    var s := TitleOf(c);
    assert Mark(s) == Mark(s);
  }

  /** Enough of the name of a capability to tell it from the others. */
  function Mark(s: string): (nat, char) {
    (|s|, if |s| < 6 then ' ' else s[5])
  }

  lemma TitlesDiffer(c: Capability, d: Capability)
    ensures TitleOf(c) == TitleOf(d) <==> c == d
  {
    hide TitleOf, CapabilityNamed;
    TitlesNamed(c);
    TitlesNamed(d);
  }

  lemma CatalogueIff(c: Capability, m: Method)
    ensures m in Catalogue(c) <==> CapabilityOf(m) == c
  {}

  /** The capability of a method is the one whose entry of the catalogue lists it. */
  lemma ServesIff(m: Method, capability: string)
    ensures Serves(NameOf(m), capability) <==> capability == TitleOf(CapabilityOf(m))
  {
    hide NameOf, TitleOf, Catalogue, CapabilityOf;
    forall c, n | n in Catalogue(c) && NameOf(m) == NameOf(n) ensures c == CapabilityOf(m) {
      NamesDiffer(m, n);
      CatalogueIff(c, n);
    }
    CatalogueIff(CapabilityOf(m), m);
    assert m in Catalogue(CapabilityOf(m));
  }

  lemma Provided(name: string, capability: string)
    requires Serves(name, capability)
    ensures name == NameOf(Guess(name)) && capability == TitleOf(CapabilityOf(Guess(name)))
  {
    hide NameOf, TitleOf, Guess, Catalogue, CapabilityOf;
    var c, m :| m in Catalogue(c) && name == NameOf(m) && capability == TitleOf(c);
    GuessRight(m);
    CatalogueIff(c, m);
  }

  /** The foreground and the user are asked for by the methods named here. */
  lemma SessionNames(m: Method)
    ensures SessionScope(CapabilityOf(m)) <==> InForeground(NameOf(m))
    ensures NeedsUser(CapabilityOf(m)) <==> WithUser(NameOf(m))
  {
    hide NameOf;
    NamesDiffer(m, VisionDetect);
    forall n | NameOf(m) == NameOf(n) ensures m == n {
      NamesDiffer(m, n);
    }
  }
}
