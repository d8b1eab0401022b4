/** When a bundle refresh may keep a camera's decoder or a display's widgets, against how streams are chosen. */
module StreamReuse {
  import opened Common

  datatype Stream = Stream(role: string, uri: string, details: string)

  datatype Camera = Camera(
    id: string, name: string, enabled: bool, rtspUrl: Option<string>, streams: seq<Stream>,
    username: Option<string>, password: Option<string>, details: string)

  datatype Layout = Layout(id: string, preloads: seq<string>, cellCameras: seq<Option<string>>, details: string)

  datatype Display = Display(id: string, width: nat, height: nat, layouts: seq<Layout>)

  datatype Bundle = Bundle(displays: seq<Display>, cameras: seq<Camera>, console: string, tenant: string)

  /** What stream selection and pipeline construction read of a camera. */
  datatype Pipeline = Pipeline(
    enabled: bool, url: Option<string>, streams: seq<(string, string)>, username: Option<string>,
      password: Option<string>)

  function PipelineInputs(c: Camera): Pipeline {
    Pipeline(c.enabled, c.rtspUrl,
             seq(|c.streams|, i requires 0 <= i < |c.streams| => (c.streams[i].role, c.streams[i].uri)),
             c.username, c.password)
  }

  // ---------------------------------------------------------------- choosing a stream

  function First(streams: seq<Stream>, role: string): (r: Option<Stream>)
    ensures r.Some? <==> exists s :: s in streams && s.role == role
    ensures r.Some? ==> r.value in streams && r.value.role == role
  {
    if streams == [] then None else if streams[0].role == role then Some(streams[0]) else First(streams[1..], role)
  }

  function MainFallback(c: Camera): Option<string> {
    var sub, main := First(c.streams, "sub"), First(c.streams, "main");
    if sub.Some? && main.Some? && main.value.uri != "" && main.value.uri != sub.value.uri
        then Some(main.value.uri) else None
  }

  /** The first stream with the role, or else the first main one, or else the first. */
  function Chosen(streams: seq<Stream>, role: string): Option<Stream> {
    if First(streams, role).Some? then First(streams, role)
    else if First(streams, "main").Some? then First(streams, "main")
    else if streams != [] then Some(streams[0]) else None
  }

  predicate Multi(streams: seq<Stream>) {
    First(streams, "main").Some? && First(streams, "sub").Some?
  }

  /** The stream address and its badge, for a selector and the share of the grid the cell covers. */
  function PickStream(c: Camera, selector: Option<string>, area: real): Option<(string, char)> {
    var role := if selector == Some("main") then "main"
                else if selector == Some("sub") then "sub"
                else if area >= 0.2 then "main" else "sub";
    var stream := Chosen(c.streams, role);
    var uri := if stream.Some? then Some(stream.value.uri) else c.rtspUrl;
    var badge := if !Multi(c.streams) then ' '
                 else if stream.Some? && stream.value.role == "main" then 'M' else 'S';
    if uri.Some? then Some((uri.value, badge)) else None
  }

  predicate Has(streams: seq<Stream>, role: string) {
    exists s :: s in streams && s.role == role
  }

  /** Stream i is the first one with the role. */
  predicate IsFirst(streams: seq<Stream>, role: string, i: int) {
    0 <= i < |streams| && streams[i].role == role && forall j | 0 <= j < i :: streams[j].role != role
  }

  lemma {:induction false} FirstIs(streams: seq<Stream>, role: string, i: int)
    requires IsFirst(streams, role, i)
    ensures First(streams, role) == Some(streams[i])
  {
    if i > 0 { FirstIs(streams[1..], role, i - 1); }
  }

  lemma {:induction false} FirstAt(streams: seq<Stream>, role: string) returns (i: nat)
    requires First(streams, role).Some?
    ensures IsFirst(streams, role, i)
  {
    if streams[0].role == role {
      i := 0;
    } else {
      var k := FirstAt(streams[1..], role);
      i := k + 1;
      assert forall j | 1 <= j < i :: streams[j] == streams[1..][j-1];
    }
  }

  /**
    Asking for main or sub gives the first such stream; a missing sub gives the first main one, a missing main the
    very first, and a camera without streams its own address. A badge is shown only where there is a choice.
  */
  lemma StreamPicked(c: Camera, area: real, i: nat)
    ensures IsFirst(c.streams, "main", i) ==>
              PickStream(c, Some("main"), area) == Some((c.streams[i].uri, if Has(c.streams, "sub") then 'M' else ' '))
    ensures IsFirst(c.streams, "sub", i) ==>
              PickStream(c, Some("sub"), area) == Some((c.streams[i].uri, if Has(c.streams, "main") then 'S' else ' '))
    ensures IsFirst(c.streams, "main", i) && !Has(c.streams, "sub") ==>
              PickStream(c, Some("sub"), area) == Some((c.streams[i].uri, ' '))
    ensures c.streams != [] && !Has(c.streams, "main") ==>
              PickStream(c, Some("main"), area) == Some((c.streams[0].uri, ' '))
    ensures c.streams != [] && !Has(c.streams, "main") && !Has(c.streams, "sub") ==>
              PickStream(c, Some("sub"), area) == Some((c.streams[0].uri, ' '))
    ensures c.streams == [] ==>
              forall selector :: PickStream(c, selector, area)
                                 == if c.rtspUrl.Some? then Some((c.rtspUrl.value, ' ')) else None
  {
    if IsFirst(c.streams, "main", i) { FirstIs(c.streams, "main", i); }
    if IsFirst(c.streams, "sub", i) { FirstIs(c.streams, "sub", i); }
  }

  /** Any other selector means main from a fifth of the grid on, and sub below. */
  lemma AutomaticByArea(c: Camera, selector: Option<string>, area: real)
    requires selector != Some("main") && selector != Some("sub")
    ensures area >= 0.2 ==> PickStream(c, selector, area) == PickStream(c, Some("main"), area)
    ensures area < 0.2 ==> PickStream(c, selector, area) == PickStream(c, Some("sub"), area)
  {
  }

  /** The fallback is the first main stream's address, if it is there and not the first sub stream's. */
  lemma FallbackExactly(c: Camera, uri: string)
    ensures MainFallback(c) == Some(uri) <==>
              && uri != ""
              && (exists i :: IsFirst(c.streams, "main", i) && c.streams[i].uri == uri)
              && (exists j :: IsFirst(c.streams, "sub", j) && c.streams[j].uri != uri)
  {
    if MainFallback(c) == Some(uri) {
      var i := FirstAt(c.streams, "main");
      var j := FirstAt(c.streams, "sub");
      FirstIs(c.streams, "main", i);
      FirstIs(c.streams, "sub", j);
    }
    if (exists i :: IsFirst(c.streams, "main", i) && c.streams[i].uri == uri)
        && (exists j :: IsFirst(c.streams, "sub", j) && c.streams[j].uri != uri) {
      var i :| IsFirst(c.streams, "main", i) && c.streams[i].uri == uri;
      var j :| IsFirst(c.streams, "sub", j) && c.streams[j].uri != uri;
      FirstIs(c.streams, "main", i);
      FirstIs(c.streams, "sub", j);
    }
  }

  /** Nothing that plays differs: every stream choice, its fallback, and the credentials. */
  ghost predicate PlaysAlike(a: Camera, b: Camera) {
    && (forall selector, area :: PickStream(a, selector, area) == PickStream(b, selector, area))
    && MainFallback(a) == MainFallback(b)
    && a.enabled == b.enabled && a.username == b.username && a.password == b.password
  }

  ghost predicate SameStreams(a: seq<Stream>, b: seq<Stream>) {
    |a| == |b| && forall i | 0 <= i < |a| :: a[i].role == b[i].role && a[i].uri == b[i].uri
  }

  lemma {:induction false} FirstAlike(a: seq<Stream>, b: seq<Stream>, role: string)
    requires SameStreams(a, b)
    ensures First(a, role).Some? == First(b, role).Some?
    ensures First(a, role).Some? ==>
              First(a, role).value.role == First(b, role).value.role
                && First(a, role).value.uri == First(b, role).value.uri
  {
    if a != [] && a[0].role != role { FirstAlike(a[1..], b[1..], role); }
  }

  lemma InputsGiveStreams(a: Camera, b: Camera)
    requires PipelineInputs(a) == PipelineInputs(b)
    ensures SameStreams(a.streams, b.streams)
  {
    var p, q := PipelineInputs(a).streams, PipelineInputs(b).streams;
    assert |p| == |q|;
    assert forall i | 0 <= i < |p| ::
             p[i] == q[i] && p[i] == (a.streams[i].role, a.streams[i].uri)
               && q[i] == (b.streams[i].role, b.streams[i].uri);
  }

  lemma PickAlike(a: Camera, b: Camera, selector: Option<string>, area: real)
    requires SameStreams(a.streams, b.streams) && a.rtspUrl == b.rtspUrl
    ensures PickStream(a, selector, area) == PickStream(b, selector, area)
  {
    ChosenAlike(a.streams, b.streams, "main");
    ChosenAlike(a.streams, b.streams, "sub");
  }

  lemma ChosenAlike(a: seq<Stream>, b: seq<Stream>, role: string)
    requires SameStreams(a, b)
    ensures Chosen(a, role).Some? == Chosen(b, role).Some? && Multi(a) == Multi(b)
    ensures Chosen(a, role).Some? ==>
              Chosen(a, role).value.role == Chosen(b, role).value.role
                && Chosen(a, role).value.uri == Chosen(b, role).value.uri
  {
    FirstAlike(a, b, role);
    FirstAlike(a, b, "main");
    FirstAlike(a, b, "sub");
  }

  lemma FallbackAlike(a: Camera, b: Camera)
    requires SameStreams(a.streams, b.streams)
    ensures MainFallback(a) == MainFallback(b)
  {
    FirstAlike(a.streams, b.streams, "main");
    FirstAlike(a.streams, b.streams, "sub");
  }

  /** The compared inputs are enough: cameras that agree on them play alike. */
  lemma SameInputsPlayAlike(a: Camera, b: Camera)
    requires PipelineInputs(a) == PipelineInputs(b)
    ensures PlaysAlike(a, b)
  {
    InputsGiveStreams(a, b);
    assert forall selector, area :: PickStream(a, selector, area) == PickStream(b, selector, area) by {
      forall selector: Option<string>, area: real
        ensures PickStream(a, selector, area) == PickStream(b, selector, area)
      {
        PickAlike(a, b, selector, area);
      }
    }
    FallbackAlike(a, b);
  }

  // ---------------------------------------------------------------- reusing a camera's pipeline

  predicate DistinctIds(cameras: seq<Camera>) {
    forall i, j | 0 <= i < j < |cameras| :: cameras[i].id != cameras[j].id
  }

  /** The camera with this id that comes last. */
  function Lookup(cameras: seq<Camera>, id: string): (r: Option<Camera>)
    ensures r.Some? <==> exists c :: c in cameras && c.id == id
    ensures r.Some? ==> r.value in cameras && r.value.id == id
  {
    if cameras == [] then None
    else if cameras[|cameras|-1].id == id then Some(cameras[|cameras|-1])
    else Lookup(cameras[..|cameras|-1], id)
  }

  function UnchangedCameraIds(previous: Option<Bundle>, next: Bundle): set<string> {
    if previous.None? then {}
    else set c | c in next.cameras && Lookup(previous.value.cameras, c.id).Some?
                 && PipelineInputs(Lookup(previous.value.cameras, c.id).value) == PipelineInputs(c) :: c.id
  }

  lemma LookupIsTheOne(cameras: seq<Camera>, c: Camera)
    requires DistinctIds(cameras) && c in cameras
    ensures Lookup(cameras, c.id) == Some(c)
  {
    var found := Lookup(cameras, c.id).value;
    var i :| 0 <= i < |cameras| && cameras[i] == c;
    var j :| 0 <= j < |cameras| && cameras[j] == found;
  }

  /** A pipeline kept for an unchanged id plays what a new one would. */
  lemma ReuseIsSound(previous: Bundle, next: Bundle, a: Camera, b: Camera)
    requires DistinctIds(previous.cameras) && DistinctIds(next.cameras) && a in previous.cameras && b in next.cameras
    requires a.id == b.id && b.id in UnchangedCameraIds(Some(previous), next)
    ensures PlaysAlike(a, b)
  {
    LookupIsTheOne(previous.cameras, a);
    var c :| c in next.cameras && c.id == b.id && PipelineInputs(a) == PipelineInputs(c);
    LookupIsTheOne(next.cameras, b);
    LookupIsTheOne(next.cameras, c);
    SameInputsPlayAlike(a, b);
  }

  /** The two cameras are reached, and logged into, in the same way. */
  ghost predicate SamePipeline(a: Camera, b: Camera) {
    && a.enabled == b.enabled && a.rtspUrl == b.rtspUrl && a.username == b.username && a.password == b.password
    && SameStreams(a.streams, b.streams)
  }

  lemma PipelineCompared(a: Camera, b: Camera)
    ensures PipelineInputs(a) == PipelineInputs(b) <==> SamePipeline(a, b)
  {
    if PipelineInputs(a) == PipelineInputs(b) {
      InputsGiveStreams(a, b);
    }
  }

  /** A camera is reported unchanged exactly when its id was there before and was reached in the same way. */
  lemma UnchangedExactly(previous: Bundle, next: Bundle, b: Camera)
    requires DistinctIds(previous.cameras) && DistinctIds(next.cameras) && b in next.cameras
    ensures b.id in UnchangedCameraIds(Some(previous), next) <==>
              exists a :: a in previous.cameras && a.id == b.id && SamePipeline(a, b)
    ensures b.id !in UnchangedCameraIds(None, next)
  {
    if b.id in UnchangedCameraIds(Some(previous), next) {
      var c :| c in next.cameras && c.id == b.id && Lookup(previous.cameras, c.id).Some?
               && PipelineInputs(Lookup(previous.cameras, c.id).value) == PipelineInputs(c);
      LookupIsTheOne(next.cameras, b);
      LookupIsTheOne(next.cameras, c);
      PipelineCompared(Lookup(previous.cameras, b.id).value, b);
    }
    if exists a :: a in previous.cameras && a.id == b.id && SamePipeline(a, b) {
      var a :| a in previous.cameras && a.id == b.id && SamePipeline(a, b);
      LookupIsTheOne(previous.cameras, a);
      PipelineCompared(a, b);
    }
  }

  // ---------------------------------------------------------------- reusing a display's widgets

  function FindDisplay(displays: seq<Display>, id: string): Option<Display> {
    if displays == [] then None else if displays[0].id == id then Some(displays[0]) else FindDisplay(displays[1..], id)
  }

  function FindLayout(layouts: seq<Layout>, id: string): Option<Layout> {
    if layouts == [] then None else if layouts[0].id == id then Some(layouts[0]) else FindLayout(layouts[1..], id)
  }

  predicate Visible(layout: Layout, id: string) {
    Some(id) in layout.cellCameras
  }

  predicate Used(layout: Layout, id: string) {
    Visible(layout, id) || id in layout.preloads
  }

  /** A visible camera is compared with its name, a preloaded one without. */
  datatype CameraInputs = CameraInputs(name: Option<string>, pipeline: Pipeline)

  function InputsOf(layout: Layout, c: Camera): CameraInputs {
    CameraInputs(if Visible(layout, c.id) then Some(c.name) else None, PipelineInputs(c))
  }

  datatype DisplayInputs = DisplayInputs(
    width: nat, height: nat, layout: Layout, cameras: map<string, CameraInputs>, console: string, tenant: string)

  function UsedCameras(cameras: seq<Camera>, layout: Layout): map<string, CameraInputs> {
    map id | id in (set c | c in cameras :: c.id) && Used(layout, id) && Lookup(cameras, id).Some?
      :: InputsOf(layout, Lookup(cameras, id).value)
  }

  function ActiveLayout(b: Bundle, displayId: string, active: Option<string>): Option<Layout> {
    var display := FindDisplay(b.displays, displayId);
    if display.None? || active.None? then None else FindLayout(display.value.layouts, active.value)
  }

  function Inputs(b: Bundle, displayId: string, active: Option<string>): Option<DisplayInputs> {
    var layout := ActiveLayout(b, displayId, active);
    if layout.None? then None
    else
      var display := FindDisplay(b.displays, displayId).value;
      Some(DisplayInputs(display.width, display.height, layout.value, UsedCameras(b.cameras, layout.value), b.console,
        b.tenant))
  }

  predicate RenderUnchanged(previous: Bundle, next: Bundle, displayId: string, active: Option<string>) {
    Inputs(previous, displayId, active).Some? && Inputs(previous, displayId, active) == Inputs(next, displayId, active)
  }

  /** Both bundles have the camera and reach it in the same way, under the same name if it is shown, or neither has. */
  ghost predicate SameUse(layout: Layout, a: Option<Camera>, b: Option<Camera>) {
    && a.Some? == b.Some?
    && (a.Some? ==> && SamePipeline(a.value, b.value)
                    && (Some(a.value.id) in layout.cellCameras ==> a.value.name == b.value.name))
  }

  lemma UsesCompared(layout: Layout, previous: seq<Camera>, next: seq<Camera>)
    ensures UsedCameras(previous, layout) == UsedCameras(next, layout) <==>
              forall id | Used(layout, id) :: SameUse(layout, Lookup(previous, id), Lookup(next, id))
  {
    var was, now := UsedCameras(previous, layout), UsedCameras(next, layout);
    forall id | Used(layout, id)
      ensures id in was <==> Lookup(previous, id).Some?
      ensures id in now <==> Lookup(next, id).Some?
      ensures id in was && id in now
          ==> (was[id] == now[id] <==> SameUse(layout, Lookup(previous, id), Lookup(next, id)))
    {
      if id in was && id in now { PipelineCompared(Lookup(previous, id).value, Lookup(next, id).value); }
    }
  }

  /**
    A display is kept exactly when its size, its active layout, the console and the tenant are the same, and each
    camera the layout shows or preloads is used in the same way; nothing else in the bundles matters.
  */
  lemma KeptExactly(previous: Bundle, next: Bundle, displayId: string, active: Option<string>)
    ensures RenderUnchanged(previous, next, displayId, active) <==>
              && ActiveLayout(previous, displayId, active).Some?
              && ActiveLayout(previous, displayId, active) == ActiveLayout(next, displayId, active)
              && FindDisplay(previous.displays, displayId).value.width
                 == FindDisplay(next.displays, displayId).value.width
              && FindDisplay(previous.displays, displayId).value.height
                 == FindDisplay(next.displays, displayId).value.height
              && previous.console == next.console && previous.tenant == next.tenant
              && forall id | Some(id) in ActiveLayout(previous, displayId, active).value.cellCameras
                             || id in ActiveLayout(previous, displayId, active).value.preloads ::
                   SameUse(ActiveLayout(previous, displayId, active).value, Lookup(previous.cameras, id),
                           Lookup(next.cameras, id))
  {
    if ActiveLayout(previous, displayId, active).Some? {
      UsesCompared(ActiveLayout(previous, displayId, active).value, previous.cameras, next.cameras);
    }
  }

  /** The active layout is the first with its id on the first display with that one. */
  lemma ActiveLayoutExactly(b: Bundle, displayId: string, active: string, i: nat, j: nat)
    requires i < |b.displays| && b.displays[i].id == displayId && forall k | 0 <= k < i :: b.displays[k].id != displayId
    ensures FindDisplay(b.displays, displayId) == Some(b.displays[i])
    ensures j < |b.displays[i].layouts| && b.displays[i].layouts[j].id == active
            && (forall k | 0 <= k < j :: b.displays[i].layouts[k].id != active) ==>
              ActiveLayout(b, displayId, Some(active)) == Some(b.displays[i].layouts[j])
    ensures ActiveLayout(b, displayId, Some(active)).Some? <==>
              exists k :: 0 <= k < |b.displays[i].layouts| && b.displays[i].layouts[k].id == active
    ensures ActiveLayout(b, displayId, None).None?
  {
    FindDisplayIs(b.displays, displayId, i);
    var layouts := b.displays[i].layouts;
    if j < |layouts| && layouts[j].id == active && forall k | 0 <= k < j :: layouts[k].id != active {
      FindLayoutIs(layouts, active, j);
    }
    FindLayoutSome(layouts, active);
  }

  lemma {:induction false} FindDisplayIs(displays: seq<Display>, id: string, i: nat)
    requires i < |displays| && displays[i].id == id && forall k | 0 <= k < i :: displays[k].id != id
    ensures FindDisplay(displays, id) == Some(displays[i])
  {
    if i > 0 { FindDisplayIs(displays[1..], id, i - 1); }
  }

  lemma {:induction false} FindLayoutIs(layouts: seq<Layout>, id: string, j: nat)
    requires j < |layouts| && layouts[j].id == id && forall k | 0 <= k < j :: layouts[k].id != id
    ensures FindLayout(layouts, id) == Some(layouts[j])
  {
    if j > 0 { FindLayoutIs(layouts[1..], id, j - 1); }
  }

  lemma {:induction false} FindLayoutSome(layouts: seq<Layout>, id: string)
    ensures FindLayout(layouts, id).Some? <==> exists k :: 0 <= k < |layouts| && layouts[k].id == id
  {
    if layouts != [] && layouts[0].id != id {
      FindLayoutSome(layouts[1..], id);
      assert forall k | 1 <= k < |layouts| :: layouts[k] == layouts[1..][k-1];
    }
  }

  /** Keeping a display's widgets over several refreshes is the same as comparing the first with the last. */
  lemma UnchangedIsAnEquivalence(a: Bundle, b: Bundle, c: Bundle, displayId: string, active: Option<string>)
    ensures RenderUnchanged(a, b, displayId, active) <==> RenderUnchanged(b, a, displayId, active)
    ensures RenderUnchanged(a, b, displayId, active) && RenderUnchanged(b, c, displayId, active) ==>
              RenderUnchanged(a, c, displayId, active)
  {
  }

  /**
    If a display is kept, every camera it shows or preloads is still there and plays alike, and shows the same
    name.
  */
  lemma KeptDisplayPlaysAlike(previous: Bundle, next: Bundle, displayId: string, active: Option<string>, a: Camera)
    requires RenderUnchanged(previous, next, displayId, active) && DistinctIds(previous.cameras)
        && DistinctIds(next.cameras)
    requires a in previous.cameras && Used(ActiveLayout(previous, displayId, active).value, a.id)
    ensures exists b :: && b in next.cameras && b.id == a.id && PlaysAlike(a, b)
                        && (Visible(ActiveLayout(previous, displayId, active).value, a.id) ==> b.name == a.name)
  {
    var layout := ActiveLayout(previous, displayId, active).value;
    LookupIsTheOne(previous.cameras, a);
    var was, now := UsedCameras(previous.cameras, layout), UsedCameras(next.cameras, layout);
    assert a.id in was && was == now;
    var b := Lookup(next.cameras, a.id).value;
    assert InputsOf(layout, a) == InputsOf(layout, b);
    SameInputsPlayAlike(a, b);
  }
}
