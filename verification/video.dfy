/** The video state the game loop reads (src/Video.c): window size and the
    zoom level, which SetVideoZoomLevel keeps within [1, 4]. */
module Videos {
  import opened Common

  const VIDEO_MIN_ZOOMLEVEL: real := 1.0
  const VIDEO_MAX_ZOOMLEVEL: real := 4.0

  datatype Video = Video(windowHeight: I32, windowWidth: I32, zoomLevel: real, zoomLevelInitial: real)

  /** InitVideo. `setupOk` covers SDL_Init, window, cursor and renderer
      creation and `logicalSizeOk` the logical-size call; in fullscreen mode
      the window takes the desktop size the window manager reports. The
      zoom level is stored as given, without clamping. */
  function InitVideo(width: I32, height: I32, fullscreen: bool, zoomLevel: real,
                     desktopWidth: I32, desktopHeight: I32,
                     allocOk: bool, setupOk: bool, logicalSizeOk: bool): (r: Option<Video>)
    ensures r.Some? <==> allocOk && setupOk && logicalSizeOk
    ensures r.Some? ==>
      && r.value.zoomLevel == zoomLevel
      && r.value.zoomLevelInitial == zoomLevel
      && r.value.windowWidth == (if fullscreen then desktopWidth else width)
      && r.value.windowHeight == (if fullscreen then desktopHeight else height)
  {
    if !allocOk || !setupOk || !logicalSizeOk then None
    else if fullscreen then Some(Video(desktopHeight, desktopWidth, zoomLevel, zoomLevel))
    else Some(Video(height, width, zoomLevel, zoomLevel))
  }

  /** The two clamping steps of SetVideoZoomLevel. */
  function ClampZoom(z: real): (r: real)
    ensures VIDEO_MIN_ZOOMLEVEL <= r <= VIDEO_MAX_ZOOMLEVEL
    ensures VIDEO_MIN_ZOOMLEVEL < z < VIDEO_MAX_ZOOMLEVEL ==> r == z
    ensures z <= VIDEO_MIN_ZOOMLEVEL ==> r == VIDEO_MIN_ZOOMLEVEL
    ensures z >= VIDEO_MAX_ZOOMLEVEL ==> r == VIDEO_MAX_ZOOMLEVEL
  {
    var z1 := if z <= VIDEO_MIN_ZOOMLEVEL then VIDEO_MIN_ZOOMLEVEL else z;
    if z1 >= VIDEO_MAX_ZOOMLEVEL then VIDEO_MAX_ZOOMLEVEL else z1
  }

  lemma ClampIdempotent(z: real)
    ensures ClampZoom(ClampZoom(z)) == ClampZoom(z)
  {
  }

  /** The clamped level is the point of [1, 4] nearest the request. */
  lemma ClampIsNearest(z: real, y: real)
    requires VIDEO_MIN_ZOOMLEVEL <= y <= VIDEO_MAX_ZOOMLEVEL
    ensures var d1, d2 := ClampZoom(z) - z, y - z;
      (if d1 < 0.0 then -d1 else d1) <= (if d2 < 0.0 then -d2 else d2)
  {
  }

  /** Outcome of SetVideoZoomLevel: the video, the return value and the
      logical size requested from the renderer, whose int parameters receive
      the double quotients truncated toward zero. */
  datatype ZoomChange = ZoomChange(video: Video, status: int, logicalWidth: int, logicalHeight: int)

  /** The requested logical length is the window length divided by the
      level, truncated toward zero: the whole number of zoomed pixels that
      fit, taken on the window length's own side of zero. */
  predicate TruncatedQuotient(n: int, w: int, z: real)
  {
    && (w >= 0 ==> n >= 0 && n as real * z <= w as real < (n + 1) as real * z)
    && (w < 0 ==> n <= 0 && (-n) as real * z <= (-w) as real < (-n + 1) as real * z)
  }

  /** The truncated quotient of a window length by a positive level. */
  function LogicalLength(w: int, z: real): (n: int)
    requires z > 0.0
    ensures TruncatedQuotient(n, w, z)
  {
    var q := w as real / z;
    if w >= 0 then
      FloorLocates(w as real, z);
      Truncate(q)
    else
      FloorLocates((-w) as real, z);
      assert (-w) as real / z == -q;
      Truncate(q)
  }

  /** SetVideoZoomLevel: the renderer is asked for the window size divided by
      the clamped level; the level is stored only when that succeeds. */
  function SetVideoZoomLevel(v: Video, zoomLevel: real, logicalSizeOk: bool): (r: ZoomChange)
    ensures r.status == 0 <==> logicalSizeOk
    ensures r.status == 0 || r.status == -1
    ensures TruncatedQuotient(r.logicalWidth, v.windowWidth, ClampZoom(zoomLevel))
    ensures TruncatedQuotient(r.logicalHeight, v.windowHeight, ClampZoom(zoomLevel))
    ensures logicalSizeOk ==> r.video == v.(zoomLevel := ClampZoom(zoomLevel))
    ensures !logicalSizeOk ==> r.video == v
  {
    var z := ClampZoom(zoomLevel);
    var logicalWidth, logicalHeight := LogicalLength(v.windowWidth, z), LogicalLength(v.windowHeight, z);
    if logicalSizeOk then ZoomChange(v.(zoomLevel := z), 0, logicalWidth, logicalHeight)
    else ZoomChange(v, -1, logicalWidth, logicalHeight)
  }

  /** An 800-pixel window at level 3 asks for a logical width of 266. */
  lemma LogicalWidthTruncates()
    ensures LogicalLength(800, 3.0) == 266
  {
    var n := LogicalLength(800, 3.0);
    assert n as real * 3.0 <= 800.0 < (n + 1) as real * 3.0;
  }

  /** A stored zoom level only comes out of a successful call, so after one
      it lies in [1, 4], and repeating the call changes nothing. */
  lemma SetZoomSettles(v: Video, z: real)
    ensures var v1 := SetVideoZoomLevel(v, z, true).video;
      && VIDEO_MIN_ZOOMLEVEL <= v1.zoomLevel <= VIDEO_MAX_ZOOMLEVEL
      && SetVideoZoomLevel(v1, v1.zoomLevel, true).video == v1
  {
  }
}
