/**
  The render plan of the Android viewer: which cells of a layout are shown, where, and which of them get one of
  the thirty-two camera streams.
*/
module AndroidPlan {
  import opened Common
  import opened AndroidLayout

  const MAX_CAMERAS: nat := 32
  const NO_LAYOUTS := "go into BetterFrame and assign layouts to this display"

  datatype Stream = Stream(role: string, uri: string, encoding: Option<string>)

  datatype Camera = Camera(
    id: string, name: string, enabled: bool, rtspUrl: Option<string>, streams: seq<Stream>,
    username: Option<string>, password: Option<string>)

  datatype Display = Display(
    id: string, defaultLayoutId: Option<string>, layouts: seq<Layout>)

  /** Older bundles carry one display and its layouts apart. */
  datatype Bundle = Bundle(displays: seq<Display>, legacyDisplay: Option<Display>, legacyLayouts: seq<Layout>,
      cameras: seq<Camera>)

  /** What the URL parser says of a string. */
  datatype Urls = Urls(rtsp: string -> bool, web: string -> bool, blank: string -> bool)

  datatype Action = Expand | Restore | SwitchLayout(layoutId: string) | Unsupported

  datatype Kind = PlaceholderTile | CameraTile | WebTile

  datatype Message =
    | CameraLimitReached | NoCompatibleStream | CameraUnavailable
    | ScriptedLoginUnsupported | NoWebUrl | NoHtmlContent
    | NothingAssigned | ContentUnsupported | ActionUnsupported

  datatype Caption = NoCaption | CameraName(name: string) | HtmlCaption | WebCaption

  datatype CameraSource = CameraSource(
    id: string, uri: string, fallback: Option<string>, username: Option<string>, password: Option<string>)

  datatype RenderCell = RenderCell(
    id: string, caption: Caption, rect: Rect, kind: Kind, camera: Option<CameraSource>, message: Option<Message>,
      action: Action)

  /** A cell under the id it is shown with. */
  datatype Entry = Entry(id: string, cell: Cell)

  datatype Plan = Plan(
    displayId: string, layoutId: string, expandedCellId: Option<string>, idleReturnLayoutId: string,
    rows: U32, cols: U32, cells: seq<RenderCell>)

  // ---------------------------------------------------------------- streams

  function CodecName(s: string): string {
    if s == "" then "" else (if s[0] == '.' || s[0] == '-' then "" else [Lower(s[0])]) + CodecName(s[1..])
  }

  predicate Compatible(urls: Urls, s: Stream) {
    && (s.encoding.Some? ==> CodecName(s.encoding.value) in {"h264", "avc", "avc1"})
    && urls.rtsp(s.uri)
  }

  function CompatibleStreams(urls: Urls, streams: seq<Stream>): (r: seq<Stream>)
    ensures r == [] <==> forall s | s in streams :: !Compatible(urls, s)
    ensures forall s | s in r :: s in streams && Compatible(urls, s)
  {
    if streams == [] then []
    else (if Compatible(urls, streams[0]) then [streams[0]] else []) + CompatibleStreams(urls, streams[1..])
  }

  /** The first stream with the role, or else the first one. */
  function Preferred(streams: seq<Stream>, role: string): (s: Stream)
    requires streams != []
    ensures s in streams
    ensures (exists t :: t in streams && t.role == role) ==> s.role == role
  {
    PreferredFrom(streams, role, 0)
  }

  function PreferredFrom(streams: seq<Stream>, role: string, i: nat): (s: Stream)
    requires i <= |streams| && streams != []
    requires forall j | 0 <= j < i :: streams[j].role != role
    ensures s in streams
    ensures (exists t :: t in streams && t.role == role) ==> s.role == role
    decreases |streams| - i
  {
    if i == |streams| then streams[0]
    else if streams[i].role == role then streams[i]
    else PreferredFrom(streams, role, i + 1)
  }

  function PickStream(urls: Urls, camera: Camera, expanded: bool, selector: Option<string>): Option<string> {
    var compatible := CompatibleStreams(urls, camera.streams);
    var role := if expanded || selector == Some("main") then "main" else "sub";
    if compatible != [] then Some(Preferred(compatible, role).uri)
    else if camera.streams == [] && camera.rtspUrl.Some? && urls.rtsp(camera.rtspUrl.value) then camera.rtspUrl
    else None
  }

  /** Some stream of the camera can be played. */
  ghost predicate Playable(urls: Urls, camera: Camera) {
    || (exists s :: s in camera.streams && Compatible(urls, s))
    || (camera.streams == [] && camera.rtspUrl.Some? && urls.rtsp(camera.rtspUrl.value))
  }

  /** A stream is found exactly when the camera has one, whatever is preferred, and it is one of the camera's. */
  lemma StreamFound(urls: Urls, camera: Camera, expanded: bool, selector: Option<string>)
    ensures var r := PickStream(urls, camera, expanded, selector);
            && (r.Some? <==> Playable(urls, camera))
            && (r.Some? ==> urls.rtsp(r.value))
            && (r.Some? ==> (exists s :: s in camera.streams && s.uri == r.value) || camera.rtspUrl == r)
  {
  }

  /**
    Whenever the camera can play a stream of the wanted role, that is what is picked: main when expanded or
    selected, else sub.
  */
  lemma WantedRolePicked(urls: Urls, camera: Camera, expanded: bool, selector: Option<string>, wanted: Stream)
    requires wanted in camera.streams && Compatible(urls, wanted)
    requires wanted.role == if expanded || selector == Some("main") then "main" else "sub"
    ensures exists s :: && s in camera.streams && Compatible(urls, s) && s.role == wanted.role
                        && PickStream(urls, camera, expanded, selector) == Some(s.uri)
  {
    var compatible := CompatibleStreams(urls, camera.streams);
    InCompatible(urls, camera.streams, wanted);
    assert Preferred(compatible, wanted.role) in compatible;
  }

  lemma {:induction false} InCompatible(urls: Urls, streams: seq<Stream>, s: Stream)
    requires s in streams && Compatible(urls, s)
    ensures s in CompatibleStreams(urls, streams)
  {
    if s != streams[0] { InCompatible(urls, streams[1..], s); }
  }

  // ---------------------------------------------------------------- one cell

  /** The enabled camera with this id that comes last in the bundle. */
  function Lookup(cameras: seq<Camera>, id: string): (r: Option<Camera>)
    ensures r.Some? <==> exists c :: c in cameras && c.enabled && c.id == id
    ensures r.Some? ==> r.value in cameras && r.value.enabled && r.value.id == id
  {
    if cameras == [] then None
    else
      var last := cameras[|cameras|-1];
      if last.enabled && last.id == id then Some(last) else Lookup(cameras[..|cameras|-1], id)
  }

  function CameraOf(cameras: seq<Camera>, cell: Cell): Option<Camera> {
    if cell.content.CameraContent? && cell.cameraId.Some? then Lookup(cameras, cell.cameraId.value) else None
  }

  /** The cell shows a camera that is enabled and has a stream this viewer can play. */
  predicate Usable(urls: Urls, cameras: seq<Camera>, cell: Cell) {
    CameraOf(cameras, cell).Some? && PickStream(urls, CameraOf(cameras, cell).value, false, None).Some?
  }

  function ActionOf(cell: Cell, layouts: seq<Layout>): (a: Action)
    ensures a == Expand <==> cell.click.None? || cell.click.value.action in {"expand", "view.expand"}
    ensures a == Restore <==> cell.click.Some? && cell.click.value.action in {"restore", "view.restore"}
    ensures a.SwitchLayout? <==> && cell.click.Some? && cell.click.value.action == "layout.switch"
                                 && exists l :: l in layouts && Some(l.id) == cell.click.value.layoutId
    ensures a.SwitchLayout? ==> cell.click.value.layoutId == Some(a.layoutId)
  {
    match cell.click
    case None => Expand
    case Some(Click(name, id)) =>
      if name in {"expand", "view.expand"} then Expand
      else if name in {"restore", "view.restore"} then Restore
      else if name == "layout.switch" && id.Some? && exists l :: l in layouts && l.id == id.value
          then SwitchLayout(id.value)
      else Unsupported
  }

  function WebError(urls: Urls, cell: Cell): Option<Message> {
    if cell.scriptedLogin then Some(ScriptedLoginUnsupported)
    else if cell.content.WebContent? && !(cell.webUrl.Some? && urls.web(cell.webUrl.value)) then
      Some(NoWebUrl)
    else if cell.content.HtmlContent? && (cell.html.None? || urls.blank(cell.html.value)) then
      Some(NoHtmlContent)
    else None
  }

  function Source(urls: Urls, camera: Camera, expanded: bool, selector: Option<string>): CameraSource
    requires PickStream(urls, camera, expanded, selector).Some?
  {
    var uri := PickStream(urls, camera, expanded, selector).value;
    var sub := PickStream(urls, camera, false, Some("sub"));
    CameraSource(camera.id, uri, if sub == Some(uri) then None else sub, camera.username, camera.password)
  }

  function ShownCamera(urls: Urls, camera: Camera, expanded: bool, selector: Option<string>, inBudget: bool)
    : (Kind, Option<CameraSource>, Option<Message>)
  {
    if !inBudget then (PlaceholderTile, None, Some(CameraLimitReached))
    else if PickStream(urls, camera, expanded, selector).Some? then
      (CameraTile, Some(Source(urls, camera, expanded, selector)), None)
    else (PlaceholderTile, None, Some(NoCompatibleStream))
  }

  /** What a cell shows; `inBudget`: fewer than thirty-two cells before it hold a camera. */
  function Shown(urls: Urls, cameras: seq<Camera>, cell: Cell, expanded: bool, inBudget: bool)
    : (Kind, Caption, Option<CameraSource>, Option<Message>)
  {
    match CameraOf(cameras, cell)
    case Some(camera) =>
      var (kind, source, message) := ShownCamera(urls, camera, expanded, cell.streamSelector, inBudget);
      (kind, CameraName(camera.name), source, message)
    case None =>
      if cell.content.CameraContent? then
        (PlaceholderTile, NoCaption, None, Some(CameraUnavailable))
      else if cell.content.WebContent? || cell.content.HtmlContent? then
        var caption := if cell.content.HtmlContent? then HtmlCaption else WebCaption;
        var error := WebError(urls, cell);
        (if error.Some? then PlaceholderTile else WebTile, caption, None, error)
      else if cell.content.NoContent? then
        (PlaceholderTile, NoCaption, None, Some(NothingAssigned))
      else (PlaceholderTile, NoCaption, None, Some(ContentUnsupported))
  }

  function Rendered(urls: Urls, cameras: seq<Camera>, layouts: seq<Layout>, e: Entry, expanded: bool,
      inBudget: bool): RenderCell {
    var (kind, caption, camera, message) := Shown(urls, cameras, e.cell, expanded, inBudget);
    var action := ActionOf(e.cell, layouts);
    RenderCell(e.id, caption, if expanded then Rect(0, 0, 1, 1) else e.cell.rect, kind, camera,
               if action == Unsupported && message.None? then Some(ActionUnsupported) else message,
               action)
  }

  // ---------------------------------------------------------------- the plan

  function Find(layouts: seq<Layout>, id: string): (r: Option<Layout>)
    ensures r.Some? <==> exists l :: l in layouts && l.id == id
    ensures r.Some? ==> r.value in layouts && r.value.id == id
  {
    if layouts == [] then None else if layouts[0].id == id then Some(layouts[0]) else Find(layouts[1..], id)
  }

  function FirstDefault(layouts: seq<Layout>): (r: Option<Layout>)
    ensures r.Some? <==> exists l :: l in layouts && l.isDefault
    ensures r.Some? ==> r.value in layouts && r.value.isDefault
  {
    if layouts == [] then None else if layouts[0].isDefault then Some(layouts[0]) else FirstDefault(layouts[1..])
  }

  /** The layout to start with is one of the display's own. */
  function InitialLayoutId(display: Display): (r: Option<string>)
    ensures display.layouts == [] <==> r.None?
    ensures r.Some? ==> exists l :: l in display.layouts && l.id == r.value
    ensures (exists l :: l in display.layouts && Some(l.id) == display.defaultLayoutId) ==> r == display.defaultLayoutId
    ensures (forall l | l in display.layouts :: Some(l.id) != display.defaultLayoutId)
            && (exists l :: l in display.layouts && l.isDefault) ==>
              exists l :: l in display.layouts && l.isDefault && r == Some(l.id)
  {
    if display.defaultLayoutId.Some? && Find(display.layouts, display.defaultLayoutId.value).Some?
        then display.defaultLayoutId
    else if FirstDefault(display.layouts).Some? then Some(FirstDefault(display.layouts).value.id)
    else if display.layouts != [] then
      assert display.layouts[0] in display.layouts;
      Some(display.layouts[0].id)
    else None
  }

  function NormalizedDisplays(bundle: Bundle): seq<Display> {
    if bundle.displays != [] then bundle.displays
    else if bundle.legacyDisplay.Some? then [bundle.legacyDisplay.value.(layouts := bundle.legacyLayouts)]
    else []
  }

  function IndexOf(layout: Layout, id: string, i: nat): (r: Option<nat>)
    requires i <= |layout.cells|
    ensures r.Some? ==> i <= r.value < |layout.cells| && CellId(layout, r.value) == id
    ensures r.None? <==> forall k | i <= k < |layout.cells| :: CellId(layout, k) != id
    decreases |layout.cells| - i
  {
    if i == |layout.cells| then None
    else if CellId(layout, i) == id then Some(i)
    else IndexOf(layout, id, i + 1)
  }

  /** The cell to expand: it is in the layout and, if it shows a camera, the camera is still assigned and enabled. */
  function Expansion(cameras: seq<Camera>, layout: Layout, id: Option<string>): (r: Option<nat>)
    ensures r.Some? ==> r.value < |layout.cells| && Some(CellId(layout, r.value)) == id
  {
    if id.None? || id.value == "" || IndexOf(layout, id.value, 0).None? then None
    else
      var i := IndexOf(layout, id.value, 0).value;
      if layout.cells[i].content != CameraContent || CameraOf(cameras, layout.cells[i]).Some? then Some(i) else None
  }

  /** How many of visible[..n] are usable cameras. */
  function UsableBefore(urls: Urls, cameras: seq<Camera>, visible: seq<Entry>, n: nat): (r: nat)
    requires n <= |visible|
  {
    if n == 0 then 0
    else UsableBefore(urls, cameras, visible, n - 1) + if Usable(urls, cameras, visible[n-1].cell) then 1 else 0
  }

  function Entries(layout: Layout): (r: seq<Entry>)
    ensures |r| == |layout.cells|
    ensures forall i | 0 <= i < |r| :: r[i] == Entry(CellId(layout, i), layout.cells[i])
  {
    seq(|layout.cells|, i requires 0 <= i < |layout.cells| => Entry(CellId(layout, i), layout.cells[i]))
  }

  /** The cells shown: every one in order, or only the expanded one. */
  function Visible(layout: Layout, expanded: Option<nat>): seq<Entry>
    requires expanded.Some? ==> expanded.value < |layout.cells|
  {
    if expanded.Some? then [Entries(layout)[expanded.value]] else Entries(layout)
  }

  function RenderedAt(urls: Urls, cameras: seq<Camera>, layouts: seq<Layout>, visible: seq<Entry>, expanded: bool,
      k: nat): RenderCell
    requires k < |visible|
  {
    Rendered(urls, cameras, layouts, visible[k], expanded, UsableBefore(urls, cameras, visible, k) < MAX_CAMERAS)
  }

  function RenderedCells(urls: Urls, cameras: seq<Camera>, layouts: seq<Layout>, visible: seq<Entry>, expanded: bool)
    : (r: seq<RenderCell>)
    ensures |r| == |visible|
    ensures forall k | 0 <= k < |r| :: r[k] == RenderedAt(urls, cameras, layouts, visible, expanded, k)
  {
    seq(|visible|, k requires 0 <= k < |visible| => RenderedAt(urls, cameras, layouts, visible, expanded, k))
  }

  /** The plan of an accepted layout. */
  function PlanOf(urls: Urls, cameras: seq<Camera>, display: Display, layout: Layout,
      expandedId: Option<string>): Plan {
    var expanded := Expansion(cameras, layout, expandedId);
    Plan(display.id, layout.id, if expanded.Some? then expandedId else None,
         if InitialLayoutId(display).Some? then InitialLayoutId(display).value else layout.id,
         if expanded.Some? then 1 else layout.rows, if expanded.Some? then 1 else layout.cols,
         RenderedCells(urls, cameras, display.layouts, Visible(layout, expanded), expanded.Some?))
  }

  function Selected(display: Display, layoutId: Option<string>): Option<Layout> {
    var id := if layoutId.Some? && layoutId.value != "" then layoutId else InitialLayoutId(display);
    if id.Some? then Find(display.layouts, id.value) else None
  }

  /** The enabled cameras by id; a later one replaces an earlier one. */
  method CamerasById(cameras: seq<Camera>) returns (byId: map<string, Camera>)
    ensures forall id :: id in byId <==> Lookup(cameras, id).Some?
    ensures forall id | id in byId :: Some(byId[id]) == Lookup(cameras, id)
  {
    byId := map[];
    var n := 0;
    while n < |cameras|
      invariant 0 <= n <= |cameras|
      invariant forall id :: id in byId <==> Lookup(cameras[..n], id).Some?
      invariant forall id | id in byId :: Some(byId[id]) == Lookup(cameras[..n], id)
    {
      assert cameras[..n+1][..n] == cameras[..n];
      if cameras[n].enabled {
        byId := byId[cameras[n].id := cameras[n]];
      }
      n := n + 1;
    }
    assert cameras[..n] == cameras;
  }

  method RenderCamera(urls: Urls, c: Camera, expanded: bool, selector: Option<string>, count: nat)
    returns (kind: Kind, camera: Option<CameraSource>, message: Option<Message>, count': nat)
    ensures (kind, camera, message) == ShownCamera(urls, c, expanded, selector, count < MAX_CAMERAS)
    ensures count' == if count < MAX_CAMERAS && PickStream(urls, c, false, None).Some? then count + 1 else count
  {
    kind, camera, message, count' := PlaceholderTile, None, None, count;
    StreamFound(urls, c, expanded, selector);
    StreamFound(urls, c, false, None);
    if count >= MAX_CAMERAS {
      message := Some(CameraLimitReached);
    } else if PickStream(urls, c, expanded, selector).Some? {
      kind, camera := CameraTile, Some(Source(urls, c, expanded, selector));
      count' := count + 1;
    } else {
      message := Some(NoCompatibleStream);
    }
  }

  /** Renders one cell; the count of camera streams goes up when the cell gets one. */
  method RenderOne(urls: Urls, cameras: seq<Camera>, byId: map<string, Camera>, layouts: seq<Layout>, e: Entry,
                   expanded: bool, count: nat) returns (output: RenderCell, count': nat)
    requires forall id :: id in byId <==> Lookup(cameras, id).Some?
    requires forall id | id in byId :: Some(byId[id]) == Lookup(cameras, id)
    ensures output == Rendered(urls, cameras, layouts, e, expanded, count < MAX_CAMERAS)
    ensures count' == if count < MAX_CAMERAS && Usable(urls, cameras, e.cell) then count + 1 else count
  {
    var cell := e.cell;
    count' := count;
    var kind, caption, camera, message := PlaceholderTile, NoCaption, None, None;
    if cell.content.CameraContent? {
      if cell.cameraId.Some? && cell.cameraId.value in byId {
        var c := byId[cell.cameraId.value];
        caption := CameraName(c.name);
        kind, camera, message, count' := RenderCamera(urls, c, expanded, cell.streamSelector, count);
      } else {
        message := Some(CameraUnavailable);
      }
    } else if cell.content.WebContent? || cell.content.HtmlContent? {
      caption := if cell.content.HtmlContent? then HtmlCaption else WebCaption;
      message := WebError(urls, cell);
      kind := if message.Some? then PlaceholderTile else WebTile;
    } else if cell.content.NoContent? {
      message := Some(NothingAssigned);
    } else {
      message := Some(ContentUnsupported);
    }
    var action := ActionOf(cell, layouts);
    if action == Unsupported && message.None? {
      message := Some(ActionUnsupported);
    }
    var rect := if expanded then Rect(0, 0, 1, 1) else cell.rect;
    output := RenderCell(e.id, caption, rect, kind, camera, message, action);
  }

  method Cells(urls: Urls, cameras: seq<Camera>, layouts: seq<Layout>, visible: seq<Entry>, expanded: bool)
    returns (cells: seq<RenderCell>)
    ensures cells == RenderedCells(urls, cameras, layouts, visible, expanded)
  {
    var byId := CamerasById(cameras);
    ghost var target := RenderedCells(urls, cameras, layouts, visible, expanded);
    cells := [];
    var cameraCount := 0;
    var k := 0;
    while k < |visible|
      invariant 0 <= k <= |visible| && |cells| == k
      invariant cameraCount == Capped(UsableBefore(urls, cameras, visible, k))
      invariant cells == target[..k]
    {
      var output, count := RenderOne(urls, cameras, byId, layouts, visible[k], expanded, cameraCount);
      assert output == target[k];
      cells, cameraCount, k := cells + [output], count, k + 1;
    }
  }

  function Capped(n: nat): nat {
    if n < MAX_CAMERAS then n else MAX_CAMERAS
  }

  /** Exactly one display, a layout assigned to it, and that layout valid: the plan; otherwise the first error. */
  method RenderPlan(urls: Urls, bundle: Bundle, layoutId: Option<string>, expandedId: Option<string>)
    returns (r: Result<Plan>)
    ensures var displays := NormalizedDisplays(bundle);
            && (r.Ok? <==> && |displays| == 1 && Selected(displays[0], layoutId).Some?
                           && Valid(Selected(displays[0], layoutId).value))
            && (r.Ok? ==>
                  var layout := Selected(displays[0], layoutId).value;
                  r.value == PlanOf(urls, bundle.cameras, displays[0], layout, expandedId))
            && (displays == [] || (|displays| == 1 && displays[0].layouts == []) ==> r == Err(NO_LAYOUTS))
  {
    var displays := NormalizedDisplays(bundle);
    if displays == [] {
      return Err(NO_LAYOUTS);
    }
    if |displays| != 1 {
      return Err("Android viewer requires exactly one assigned display");
    }
    var display := displays[0];
    if display.layouts == [] {
      return Err(NO_LAYOUTS);
    }
    var selected := Selected(display, layoutId);
    if selected.None? {
      return Err("Layout is not assigned to this display");
    }
    var layout := selected.value;
    var fault := ValidateLayout(layout);
    if fault.Some? {
      return Err(Text(fault.value));
    }
    var expanded := Expansion(bundle.cameras, layout, expandedId);
    var cells := Cells(urls, bundle.cameras, display.layouts, Visible(layout, expanded), expanded.Some?);
    var initial := InitialLayoutId(display);
    return Ok(Plan(display.id, layout.id, if expanded.Some? then expandedId else None,
                   if initial.Some? then initial.value else layout.id,
                   if expanded.Some? then 1 else layout.rows, if expanded.Some? then 1 else layout.cols, cells));
  }

  // ---------------------------------------------------------------- what every plan keeps

  function PlanRects(p: Plan): (r: seq<Rect>)
    ensures |r| == |p.cells| && forall i | 0 <= i < |r| :: r[i] == p.cells[i].rect
  {
    seq(|p.cells|, i requires 0 <= i < |p.cells| => p.cells[i].rect)
  }

  /** Output cells are the visible cells one to one and in order. */
  lemma PlanShowsVisibleCells(urls: Urls, cameras: seq<Camera>, display: Display, layout: Layout,
      expandedId: Option<string>)
    ensures
      var p, expanded := PlanOf(urls, cameras, display, layout, expandedId), Expansion(cameras, layout, expandedId);
      && (expanded.None? ==> |p.cells| == |layout.cells| && forall i | 0 <= i < |p.cells| ::
                               p.cells[i].id == CellId(layout, i) && p.cells[i].rect == layout.cells[i].rect)
      && (expanded.Some? ==> && |p.cells| == 1 && Some(p.cells[0].id) == expandedId == p.expandedCellId
                             && p.cells[0].rect == Rect(0, 0, 1, 1))
  {
    var expanded := Expansion(cameras, layout, expandedId);
    var visible := Visible(layout, expanded);
    forall k | 0 <= k < |visible|
      ensures var output := PlanOf(urls, cameras, display, layout, expandedId).cells[k];
              output.id == visible[k].id && output.rect == if expanded.Some? then Rect(0, 0, 1, 1)
                else visible[k].cell.rect
    {
      RenderedGeometry(urls, cameras, display.layouts, visible, expanded.Some?, k);
    }
  }

  /** The plan is of this display and layout, and expanded exactly when one of its cells is. */
  lemma PlanNamesItsLayout(urls: Urls, cameras: seq<Camera>, display: Display, layout: Layout,
      expandedId: Option<string>)
    ensures
      var p, expanded := PlanOf(urls, cameras, display, layout, expandedId), Expansion(cameras, layout, expandedId);
      && p.displayId == display.id && p.layoutId == layout.id
      && p.expandedCellId == (if expanded.Some? then Some(CellId(layout, expanded.value)) else None)
      && (if expanded.Some? then p.rows == 1 && p.cols == 1 else p.rows == layout.rows && p.cols == layout.cols)
      && (display.layouts != [] ==> Some(p.idleReturnLayoutId) == InitialLayoutId(display))
  {
  }

  ghost predicate FirstDefaultAt(layouts: seq<Layout>, i: nat) {
    i < |layouts| && layouts[i].isDefault && forall j | 0 <= j < i :: !layouts[j].isDefault
  }

  lemma {:induction false} FirstDefaultIs(layouts: seq<Layout>, i: nat)
    requires FirstDefaultAt(layouts, i)
    ensures FirstDefault(layouts) == Some(layouts[i])
  {
    if i > 0 { FirstDefaultIs(layouts[1..], i - 1); }
  }

  /** The named default if the display has it, or else the first layout marked default, or else the first. */
  lemma InitialLayoutExactly(display: Display, i: nat)
    ensures var id := InitialLayoutId(display);
            var named := exists l :: l in display.layouts && Some(l.id) == display.defaultLayoutId;
            && (named ==> id == display.defaultLayoutId)
            && (!named && FirstDefaultAt(display.layouts, i) ==> id == Some(display.layouts[i].id))
            && (!named && display.layouts != [] && (forall l | l in display.layouts :: !l.isDefault) ==>
                  id == Some(display.layouts[0].id))
            && (display.layouts == [] ==> id == None)
  {
    if FirstDefaultAt(display.layouts, i) { FirstDefaultIs(display.layouts, i); }
  }

  /** A requested layout is taken if the display has it and nothing in its place; without a request, the initial one. */
  lemma SelectedAsRequested(display: Display, id: string)
    requires id != ""
    ensures Selected(display, Some(id)).Some? <==> exists l :: l in display.layouts && l.id == id
    ensures Selected(display, Some(id)).Some? ==> Selected(display, Some(id)).value.id == id
    ensures Selected(display, None) == Selected(display, Some(""))
    ensures display.layouts != [] ==>
              Selected(display, None).Some? && Some(Selected(display, None).value.id) == InitialLayoutId(display)
  {
  }

  lemma {:induction false} CodecNameJoins(a: string, b: string)
    ensures CodecName(a + b) == CodecName(a) + CodecName(b)
  {
    if a == "" {
      assert a + b == b;
    } else {
      assert (a + b)[1..] == a[1..] + b;
      CodecNameJoins(a[1..], b);
    }
  }

  /** Dots, hyphens and the case of a letter make no difference to a codec name, wherever they are. */
  lemma CodecNameIgnores(a: string, c: char, d: char, b: string)
    ensures c == '.' || c == '-' ==> CodecName(a + [c] + b) == CodecName(a + b)
    ensures Lower(c) == Lower(d) ==> CodecName(a + [c] + b) == CodecName(a + [d] + b)
  {
    CodecNameJoins(a + [c], b);
    CodecNameJoins(a + [d], b);
    CodecNameJoins(a, [c]);
    CodecNameJoins(a, [d]);
    CodecNameJoins(a, b);
    assert CodecName(a) + "" == CodecName(a);
    assert CodecName([c]) == (if c == '.' || c == '-' then "" else [Lower(c)]) + "";
    assert CodecName([d]) == (if d == '.' || d == '-' then "" else [Lower(d)]) + "";
  }

  predicate Plain(s: string) {
    forall i | 0 <= i < |s| :: s[i] != '.' && s[i] != '-' && Lower(s[i]) == s[i]
  }

  lemma {:induction false} PlainNameStays(s: string)
    requires Plain(s)
    ensures CodecName(s) == s
  {
    if s != "" { PlainNameStays(s[1..]); }
  }

  /**
    A stream plays if its address does and it names no encoding or H.264 or AVC; dots, hyphens and the case of a
    letter do not matter.
  */
  lemma CodecsPlayed(urls: Urls, role: string, uri: string, name: string, a: string, c: char, d: char, b: string)
    ensures Compatible(urls, Stream(role, uri, None)) <==> urls.rtsp(uri)
    ensures Plain(name) ==>
              (Compatible(urls, Stream(role, uri, Some(name))) <==>
               name in {"h264", "avc", "avc1"} && urls.rtsp(uri))
    ensures c == '.' || c == '-' ==>
              (Compatible(urls, Stream(role, uri, Some(a + [c] + b))) <==>
               Compatible(urls, Stream(role, uri, Some(a + b))))
    ensures Lower(c) == Lower(d) ==>
              (Compatible(urls, Stream(role, uri, Some(a + [c] + b))) <==>
               Compatible(urls, Stream(role, uri, Some(a + [d] + b))))
  {
    CodecNameIgnores(a, c, d, b);
    if Plain(name) { PlainNameStays(name); }
  }

  /** The camera a cell names is there: an enabled one has its id. */
  ghost predicate Assigned(cameras: seq<Camera>, cell: Cell) {
    cell.content == CameraContent && exists c :: c in cameras && c.enabled && Some(c.id) == cell.cameraId
  }

  /** What a cell says instead of, or beside, what it shows. */
  lemma MessageSays(urls: Urls, cameras: seq<Camera>, layouts: seq<Layout>, e: Entry, expanded: bool, inBudget: bool)
    ensures
      var cell, output := e.cell, Rendered(urls, cameras, layouts, e, expanded, inBudget);
      var says := output.message;
      && (says == Some(CameraUnavailable) <==> cell.content == CameraContent && !Assigned(cameras, cell))
      && (says == Some(CameraLimitReached) <==> Assigned(cameras, cell) && !inBudget)
      && (says == Some(NoCompatibleStream) <==>
            Assigned(cameras, cell) && inBudget && !Playable(urls, CameraOf(cameras, cell).value))
      && (says == Some(NothingAssigned) <==> cell.content == NoContent)
      && (says == Some(ContentUnsupported) <==> cell.content.UnknownContent?)
      && (says == Some(ActionUnsupported) <==> output.kind != PlaceholderTile && output.action == Unsupported)
      && (says == None <==> output.kind != PlaceholderTile && output.action != Unsupported)
  {
    if CameraOf(cameras, e.cell).Some? {
      StreamFound(urls, CameraOf(cameras, e.cell).value, expanded, e.cell.streamSelector);
    }
  }

  /** A page that is not shown says why: a scripted login first, then a missing address or text. */
  lemma PageSays(urls: Urls, cameras: seq<Camera>, layouts: seq<Layout>, e: Entry, expanded: bool, inBudget: bool)
    requires e.cell.content == WebContent || e.cell.content == HtmlContent
    ensures
      var cell, says := e.cell, Rendered(urls, cameras, layouts, e, expanded, inBudget).message;
      && (says == Some(ScriptedLoginUnsupported) <==> cell.scriptedLogin)
      && (says == Some(NoWebUrl) <==>
            !cell.scriptedLogin && cell.content == WebContent && (cell.webUrl.Some? ==> !urls.web(cell.webUrl.value)))
      && (says == Some(NoHtmlContent) <==>
            !cell.scriptedLogin && cell.content == HtmlContent && (cell.html.Some? ==> urls.blank(cell.html.value)))
  {
  }

  lemma CaptionSays(urls: Urls, cameras: seq<Camera>, layouts: seq<Layout>, e: Entry, expanded: bool, inBudget: bool)
    ensures
      var caption := Rendered(urls, cameras, layouts, e, expanded, inBudget).caption;
      && (caption == HtmlCaption <==> e.cell.content == HtmlContent)
      && (caption == WebCaption <==> e.cell.content == WebContent)
      && (caption.CameraName? <==> Assigned(cameras, e.cell))
      && (caption.CameraName? ==> exists c :: c in cameras && c.enabled && Some(c.id) == e.cell.cameraId
                                              && c.name == caption.name)
  {
  }

  /** A camera that shows one stream falls back to a playable sub stream, unless that is what it shows. */
  lemma FallsBackToSub(urls: Urls, camera: Camera, expanded: bool, selector: Option<string>, sub: Stream)
    requires sub in camera.streams && Compatible(urls, sub) && sub.role == "sub"
    ensures PickStream(urls, camera, expanded, selector).Some?
    ensures
      var source := Source(urls, camera, expanded, selector);
      exists s :: && s in camera.streams && Compatible(urls, s) && s.role == "sub"
                  && source.fallback == if s.uri == source.uri then None else Some(s.uri)
  {
    StreamFound(urls, camera, expanded, selector);
    WantedRolePicked(urls, camera, false, Some("sub"), sub);
  }

  /** A bundle of the older form means the one display it describes, with its layouts. */
  lemma LegacyBundleIsOneDisplay(bundle: Bundle)
    ensures bundle.displays != [] ==> NormalizedDisplays(bundle) == bundle.displays
    ensures bundle.displays == [] ==>
              |NormalizedDisplays(bundle)| == if bundle.legacyDisplay.Some? then 1 else 0
    ensures bundle.displays == [] && bundle.legacyDisplay.Some? ==>
              && NormalizedDisplays(bundle)[0].layouts == bundle.legacyLayouts
              && NormalizedDisplays(bundle)[0].id == bundle.legacyDisplay.value.id
              && NormalizedDisplays(bundle)[0].defaultLayoutId == bundle.legacyDisplay.value.defaultLayoutId
  {
  }

  /** A page is shown for web and HTML content that needs no scripted login and has an address or a text. */
  lemma PageShownExactly(urls: Urls, cameras: seq<Camera>, cell: Cell, expanded: bool, inBudget: bool)
    ensures Shown(urls, cameras, cell, expanded, inBudget).0 == WebTile <==>
              && !cell.scriptedLogin
              && (|| (cell.content == WebContent && cell.webUrl.Some? && urls.web(cell.webUrl.value))
                  || (cell.content == HtmlContent && cell.html.Some? && !urls.blank(cell.html.value)))
  {
  }

  lemma RenderedGeometry(urls: Urls, cameras: seq<Camera>, layouts: seq<Layout>, visible: seq<Entry>, expanded: bool,
      k: nat)
    requires k < |visible|
    ensures var output := RenderedCells(urls, cameras, layouts, visible, expanded)[k];
            output.id == visible[k].id && output.rect == if expanded then Rect(0, 0, 1, 1) else visible[k].cell.rect
  {
  }

  /** Expanded or not, the output cells pack the output grid. */
  lemma PlanPacksItsGrid(urls: Urls, cameras: seq<Camera>, display: Display, layout: Layout, expandedId: Option<string>)
    requires Valid(layout)
    ensures var p := PlanOf(urls, cameras, display, layout, expandedId);
            Packing(PlanRects(p), p.rows, p.cols) && TotalArea(PlanRects(p)) <= p.rows * p.cols
  {
    var p := PlanOf(urls, cameras, display, layout, expandedId);
    assert PlanRects(p) == Rects(layout.cells) || (PlanRects(p) == [Rect(0, 0, 1, 1)] && p.rows == p.cols == 1) by {
      PlanShowsVisibleCells(urls, cameras, display, layout, expandedId);
    }
    AreasFit(PlanRects(p), p.rows, p.cols);
  }

  /** How many of the first n cells of the plan hold a camera. */
  function Streaming(cells: seq<RenderCell>, n: nat): nat
    requires n <= |cells|
  {
    if n == 0 then 0 else Streaming(cells, n - 1) + if cells[n-1].camera.Some? then 1 else 0
  }

  /** A cell holds a camera exactly when it is usable and among the first thirty-two usable ones. */
  lemma CameraExactlyInBudget(urls: Urls, cameras: seq<Camera>, layouts: seq<Layout>, visible: seq<Entry>,
      expanded: bool, k: nat)
    requires k < |visible|
    ensures
      var output, cell := RenderedCells(urls, cameras, layouts, visible, expanded)[k], visible[k].cell;
      && (output.camera.Some? <==> Usable(urls, cameras, cell) && UsableBefore(urls, cameras, visible, k) < MAX_CAMERAS)
      && (output.camera.Some? <==> output.kind == CameraTile)
      && (output.camera.Some? ==> cell.cameraId == Some(output.camera.value.id) && urls.rtsp(output.camera.value.uri))
      && (output.camera.Some? ==> output.camera.value.fallback != Some(output.camera.value.uri))
  {
    CameraShown(urls, cameras, visible[k].cell, expanded, UsableBefore(urls, cameras, visible, k) < MAX_CAMERAS);
  }

  lemma CameraShown(urls: Urls, cameras: seq<Camera>, cell: Cell, expanded: bool, inBudget: bool)
    ensures var (kind, _, camera, _) := Shown(urls, cameras, cell, expanded, inBudget);
            && (camera.Some? <==> Usable(urls, cameras, cell) && inBudget)
            && (camera.Some? <==> kind == CameraTile)
            && (camera.Some? ==> cell.cameraId == Some(camera.value.id) && urls.rtsp(camera.value.uri))
            && (camera.Some? ==> camera.value.fallback != Some(camera.value.uri))
            && (camera.Some? ==>
                  var c := CameraOf(cameras, cell).value;
                  camera.value.username == c.username && camera.value.password == c.password)
  {
    if CameraOf(cameras, cell).Some? {
      var c := CameraOf(cameras, cell).value;
      StreamFound(urls, c, expanded, cell.streamSelector);
      StreamFound(urls, c, false, None);
    }
  }

  lemma {:induction false} StreamingCount(urls: Urls, cameras: seq<Camera>, visible: seq<Entry>,
      cells: seq<RenderCell>, n: nat)
    requires n <= |visible| == |cells|
    requires forall k | 0 <= k < |visible| ::
               cells[k].camera.Some? <==>
                 Usable(urls, cameras, visible[k].cell) && UsableBefore(urls, cameras, visible, k) < MAX_CAMERAS
    ensures Streaming(cells, n) == Capped(UsableBefore(urls, cameras, visible, n))
  {
    if n > 0 {
      StreamingCount(urls, cameras, visible, cells, n - 1);
    }
  }

  /** At most thirty-two cells hold cameras, and fewer only when there are fewer usable ones. */
  lemma CameraBudgetHolds(urls: Urls, cameras: seq<Camera>, display: Display, layout: Layout,
      expandedId: Option<string>)
    ensures
      var p, visible := PlanOf(urls, cameras, display, layout, expandedId), Visible(layout, Expansion(cameras, layout,
        expandedId));
      Streaming(p.cells, |p.cells|) == Capped(UsableBefore(urls, cameras, visible, |visible|))
  {
    var p, expanded := PlanOf(urls, cameras, display, layout, expandedId), Expansion(cameras, layout, expandedId);
    var visible := Visible(layout, expanded);
    forall k | 0 <= k < |visible|
      ensures p.cells[k].camera.Some? <==>
                Usable(urls, cameras, visible[k].cell) && UsableBefore(urls, cameras, visible, k) < MAX_CAMERAS
    {
      CameraExactlyInBudget(urls, cameras, display.layouts, visible, expanded.Some?, k);
    }
    StreamingCount(urls, cameras, visible, p.cells, |visible|);
  }

  lemma ExpansionFindsCell(cameras: seq<Camera>, layout: Layout, i: nat)
    requires Valid(layout) && i < |layout.cells|
    ensures var e := Expansion(cameras, layout, Some(CellId(layout, i)));
            && (e == Some(i) <==> CellId(layout, i) != ""
                                  && (layout.cells[i].content == CameraContent
                                    ==> CameraOf(cameras, layout.cells[i]).Some?))
            && (e.None? <==> e != Some(i))
  {
    var found := IndexOf(layout, CellId(layout, i), 0);
    assert found == Some(i);
  }

  /** Expanding any usable cell gives a single live cell, also when it was over the budget before. */
  lemma ExpandingIsLive(urls: Urls, cameras: seq<Camera>, display: Display, layout: Layout, i: nat)
    requires Valid(layout) && i < |layout.cells| && Usable(urls, cameras, layout.cells[i]) && CellId(layout, i) != ""
    ensures
      var p := PlanOf(urls, cameras, display, layout, Some(CellId(layout, i)));
      && |p.cells| == 1 && p.cells[0].camera.Some? && p.cells[0].id == CellId(layout, i)
      && layout.cells[i].cameraId == Some(p.cells[0].camera.value.id) && p.rows == p.cols == 1
  {
    ExpansionFindsCell(cameras, layout, i);
    CameraExactlyInBudget(urls, cameras, display.layouts, [Entries(layout)[i]], true, 0);
  }

  /** An expansion that is empty, unknown or of a camera no longer assigned or enabled gives the plan without one. */
  lemma InvalidExpansionIsNone(urls: Urls, cameras: seq<Camera>, display: Display, layout: Layout,
      expandedId: Option<string>)
    requires Valid(layout)
    requires || expandedId == Some("")
             || forall i | 0 <= i < |layout.cells| && Some(CellId(layout, i)) == expandedId ::
                  layout.cells[i].content == CameraContent && CameraOf(cameras, layout.cells[i]).None?
    ensures PlanOf(urls, cameras, display, layout, expandedId) == PlanOf(urls, cameras, display, layout, None)
  {
    assert Expansion(cameras, layout, expandedId).None?;
  }
}
