/** One pass of the game loop (the _MainLoop function of src/Main.c) as a
    pure step: game state, keyboard state, frame time and renderer outcomes
    in; next state, sound requests, chosen animation and screen copies out.
    The entity operations the source declares without defining are
    parameters. */
module MainLoop {
  import opened Common
  import opened Flags
  import opened TileMap
  import opened Entities
  import opened Backgrounds
  import opened Videos

  /** Bit of the loop's local flag word: the camera hit a horizontal edge. */
  const CAMERA_IS_LOCKED: Bit := 0

  const EXIT_SUCCESS: int := 0
  const EXIT_FAILURE: int := 1
  const EXIT_UNSET: int := 2

  const BACKGROUND_COUNT: nat := 5

  /** Sound effect slots: 1 death, 2 jump, 3 pause, 4 resume. */
  const SFX_DEAD: nat := 1
  const SFX_JUMP: nat := 2
  const SFX_PAUSE: nat := 3
  const SFX_UNPAUSE: nat := 4

  /** Keyboard state for the frame and whether a quit event is pending. */
  datatype Keys = Keys(
    quitEvent: bool,
    q: bool,
    p: bool,
    c: bool,
    zoomReset: bool,
    zoomOut: bool,
    zoomIn: bool,
    left: bool,
    right: bool,
    space: bool)

  /** Requests to the audio mixer. */
  datatype Sound = PauseMusic | ResumeMusic | PlaySfx(sfx: nat)

  /** Arguments of SetEntitySpriteAnimation: first and last frame, sprite
      row and frames per second. */
  datatype Animation = Animation(frameStart: U8, frameEnd: U8, frameOffsetY: U8, fps: real)

  const IDLE: Animation := Animation(0, 11, 0, 10.0)
  const WALKING: Animation := Animation(0, 7, 1, 20.0)
  const RISING: Animation := Animation(14, 14, 0, 20.0)
  const FALLING: Animation := Animation(14, 14, 1, 20.0)

  /** IsEntityJumping, ResurrectEntity and UpdateEntity: called by the main
      loop but given no definition (IsEntityJumping is not even declared; it
      is used only through the call at Main.c:405). */
  datatype EntityOps = EntityOps(
    isJumping: Entity -> bool,
    resurrect: Entity -> Entity,
    update: (Entity, real) -> Entity)

  /** The loop's bundle: the player, the five backgrounds, map, video, the
      camera, the pause switch and the process exit status. */
  datatype Game = Game(
    entity: Entity,
    backgrounds: seq<Background>,
    tileMap: Map,
    video: Video,
    cameraX: real,
    cameraY: real,
    cameraMaxX: real,
    cameraMaxY: real,
    paused: bool,
    exitStatus: int)

  ghost predicate WellFormed(g: Game)
  {
    && |g.backgrounds| == BACKGROUND_COUNT
    && (forall k :: 0 <= k < BACKGROUND_COUNT ==> g.backgrounds[k].layer.width >= 0)
    && Valid(g.tileMap)
  }

  // ---------------------------------------------------------------------
  // Input, pause and zoom

  datatype Polled = Polled(game: Game, sounds: seq<Sound>)

  /** Quit requests, clearing of the moving bit, and the pause switch: P
      pauses a running game, C resumes a paused one, P then C in one frame
      leaves it running. */
  function PollInput(g: Game, keys: Keys): (r: Polled)
    ensures r.game.paused <==> (g.paused || keys.p) && !keys.c
    ensures r.game.exitStatus ==
      (if keys.q then EXIT_SUCCESS else if keys.quitEvent then EXIT_FAILURE else g.exitStatus)
    ensures IsNotSet(r.game.entity.flags, IS_MOVING) && SameExcept(r.game.entity.flags, g.entity.flags, IS_MOVING)
    ensures r.game == g.(entity := r.game.entity, paused := r.game.paused, exitStatus := r.game.exitStatus)
    ensures r.game.entity == g.entity.(flags := r.game.entity.flags)
    ensures PauseMusic in r.sounds <==> keys.p && !g.paused
    ensures ResumeMusic in r.sounds <==> keys.c && (g.paused || keys.p)
    ensures forall s :: s in r.sounds ==> s in {PauseMusic, ResumeMusic, PlaySfx(SFX_PAUSE), PlaySfx(SFX_UNPAUSE)}
  {
    var status := if keys.quitEvent then EXIT_FAILURE else g.exitStatus;
    var status := if keys.q then EXIT_SUCCESS else status;
    var e := g.entity.(flags := ClearBit(g.entity.flags, IS_MOVING));
    var pausing := keys.p && !g.paused;
    var paused := g.paused || pausing;
    var s1: seq<Sound> := if pausing then [PauseMusic, PlaySfx(SFX_PAUSE)] else [];
    var resuming := keys.c && paused;
    var s2: seq<Sound> := if resuming then [PlaySfx(SFX_UNPAUSE), ResumeMusic] else [];
    Polled(g.(entity := e, paused := paused && !resuming, exitStatus := status), s1 + s2)
  }

  /** Keys 0, 1 and 2: reset, decrease by the frame time, increase by the
      frame time. Keys 1 and 2 write the changed level before the clamping
      call, so a failed call leaves the unclamped level behind. */
  function ZoomKeys(v: Video, keys: Keys, dt: real, logicalSizeOk: bool): (r: Video)
    ensures r.windowWidth == v.windowWidth && r.windowHeight == v.windowHeight
    ensures r.zoomLevelInitial == v.zoomLevelInitial
    ensures !keys.zoomReset && !keys.zoomOut && !keys.zoomIn ==> r == v
    ensures logicalSizeOk && (keys.zoomReset || keys.zoomOut || keys.zoomIn) ==>
      VIDEO_MIN_ZOOMLEVEL <= r.zoomLevel <= VIDEO_MAX_ZOOMLEVEL
    ensures logicalSizeOk && keys.zoomReset && !keys.zoomOut && !keys.zoomIn ==>
      r.zoomLevel == ClampZoom(v.zoomLevelInitial)
    ensures !logicalSizeOk ==>
      r.zoomLevel == v.zoomLevel - (if keys.zoomOut then dt else 0.0) + (if keys.zoomIn then dt else 0.0)
  {
    var v1 := if keys.zoomReset then SetVideoZoomLevel(v, v.zoomLevelInitial, logicalSizeOk).video else v;
    var v2 := if keys.zoomOut then
        var lowered := v1.(zoomLevel := v1.zoomLevel - dt);
        SetVideoZoomLevel(lowered, lowered.zoomLevel, logicalSizeOk).video
      else v1;
    if keys.zoomIn then
      var raised := v2.(zoomLevel := v2.zoomLevel + dt);
      SetVideoZoomLevel(raised, raised.zoomLevel, logicalSizeOk).video
    else v2
  }

  /** Two words agree on every bit except possibly `b1` and `b2`. */
  ghost predicate SameExceptTwo(n: Word, m: Word, b1: Bit, b2: Bit)
  {
    forall c: Bit {:trigger IsSet(n, c)} {:trigger IsSet(m, c)} :: c != b1 && c != b2 ==> (IsSet(n, c) <==> IsSet(m, c))
  }

  /** Setting or clearing `b2` after setting `b1` keeps every other bit. */
  lemma TwoStepsKeepOthers(n: Word, m: Word, r: Word, b1: Bit, b2: Bit)
    requires SameExcept(m, n, b1) && SameExcept(r, m, b2)
    ensures SameExceptTwo(r, n, b1, b2)
  {
  }

  /** The left arrow: moving, facing left. */
  function LeftKey(flags: Word): (r: Word)
    ensures IsSet(r, IS_MOVING) && IsSet(r, DIRECTION)
    ensures SameExceptTwo(r, flags, IS_MOVING, DIRECTION)
  {
    var m := SetBit(flags, IS_MOVING);
    var r := SetBit(m, DIRECTION);
    TwoStepsKeepOthers(flags, m, r, IS_MOVING, DIRECTION);
    r
  }

  /** The right arrow: moving, facing right. */
  function RightKey(flags: Word): (r: Word)
    ensures IsSet(r, IS_MOVING) && IsNotSet(r, DIRECTION)
    ensures SameExceptTwo(r, flags, IS_MOVING, DIRECTION)
  {
    var m := SetBit(flags, IS_MOVING);
    var r := ClearBit(m, DIRECTION);
    TwoStepsKeepOthers(flags, m, r, IS_MOVING, DIRECTION);
    r
  }

  /** The arrow keys. Either arrow sets the moving bit; left sets the
      direction bit and right clears it, so right wins when both are held. */
  function ArrowKeys(flags: Word, left: bool, right: bool): (r: Word)
    ensures IsSet(r, IS_MOVING) <==> IsSet(flags, IS_MOVING) || left || right
    ensures right ==> IsNotSet(r, DIRECTION)
    ensures left && !right ==> IsSet(r, DIRECTION)
    ensures !left && !right ==> r == flags
    ensures SameExceptTwo(r, flags, IS_MOVING, DIRECTION)
  {
    var f1 := if left then LeftKey(flags) else flags;
    if right then
      var r := RightKey(f1);
      assert forall c: Bit :: c != IS_MOVING && c != DIRECTION ==> (IsSet(r, c) <==> IsSet(f1, c));
      r
    else f1
  }

  /** Space starts a jump only from the ground and not mid-jump. */
  function JumpKey(flags: Word, space: bool): (r: (Word, seq<Sound>))
    ensures IsSet(r.0, IS_JUMPING) <==> IsSet(flags, IS_JUMPING) || (space && IsNotSet(flags, IS_IN_MID_AIR))
    ensures SameExcept(r.0, flags, IS_JUMPING)
    ensures r.1 == (if space && IsNotSet(flags, IS_JUMPING) && IsNotSet(flags, IS_IN_MID_AIR)
                    then [PlaySfx(SFX_JUMP)] else [])
  {
    if space && IsNotSet(flags, IS_JUMPING) && IsNotSet(flags, IS_IN_MID_AIR) then
      (SetBit(flags, IS_JUMPING), [PlaySfx(SFX_JUMP)])
    else (flags, [])
  }

  // ---------------------------------------------------------------------
  // Camera

  /** Camera coordinate that puts the entity's midpoint at the middle of the
      view: position minus half the zoomed window plus half the entity size,
      the latter an integer division. */
  function CentreOn(pos: real, window: int, zoom: real, size: U8): (r: real)
    requires zoom != 0.0
    ensures size % 2 == 0 ==> r + window as real / (zoom * 2.0) == pos + size as real / 2.0
    ensures size % 2 == 1 ==> r + window as real / (zoom * 2.0) == pos + size as real / 2.0 - 0.5
  {
    pos - window as real / (zoom * 2.0) + (size / 2) as real
  }

  datatype Camera = Camera(x: real, y: real, maxX: real, maxY: real, flags: Word)

  /** One axis of the clamp: below zero goes to zero, above the maximum goes
      to the maximum. */
  function ClampAxis(x: real, max: real): (r: real)
    ensures x < 0.0 ==> r == 0.0
    ensures 0.0 <= x <= max ==> r == x
    ensures x >= 0.0 && x > max ==> r == max
  {
    if x < 0.0 then 0.0 else if x > max then max else x
  }

  /** When the map is at least as large as the view, the clamped coordinate
      is the point of [0, max] nearest the wanted one. */
  lemma ClampAxisIsNearest(x: real, max: real, y: real)
    requires 0.0 <= y <= max
    ensures 0.0 <= ClampAxis(x, max) <= max
    ensures var d1, d2 := ClampAxis(x, max) - x, y - x;
      (if d1 < 0.0 then -d1 else d1) <= (if d2 < 0.0 then -d2 else d2)
  {
  }

  /** Camera follow and clamp. The lock bit records whether the x axis was
      clamped; the y axis never touches it. */
  function FollowCamera(e: Entity, v: Video, m: Map): (c: Camera)
    requires v.zoomLevel != 0.0
    ensures c.maxX == m.width as real - v.windowWidth as real / v.zoomLevel
    ensures c.maxY == m.height as real - v.windowHeight as real / v.zoomLevel
    ensures var wantX := CentreOn(e.worldPosX, v.windowWidth, v.zoomLevel, e.width);
      && c.x == ClampAxis(wantX, c.maxX)
      && (IsSet(c.flags, CAMERA_IS_LOCKED) <==> wantX < 0.0 || wantX > c.maxX)
    ensures c.y == ClampAxis(CentreOn(e.worldPosY, v.windowHeight, v.zoomLevel, e.height), c.maxY)
    ensures !IsSet(c.flags, CAMERA_IS_LOCKED) ==> c.x == CentreOn(e.worldPosX, v.windowWidth, v.zoomLevel, e.width)
  {
    var x := CentreOn(e.worldPosX, v.windowWidth, v.zoomLevel, e.width);
    var y := CentreOn(e.worldPosY, v.windowHeight, v.zoomLevel, e.height);
    var maxX := m.width as real - v.windowWidth as real / v.zoomLevel;
    var maxY := m.height as real - v.windowHeight as real / v.zoomLevel;
    var flags: Word := 0;
    var flags := if x < 0.0 || x > maxX then SetBit(flags, CAMERA_IS_LOCKED) else ClearBit(flags, CAMERA_IS_LOCKED);
    Camera(ClampAxis(x, maxX), ClampAxis(y, maxY), maxX, maxY, flags)
  }

  // ---------------------------------------------------------------------
  // Parallax

  /** Background scroll direction and velocities: the scroll bit is the
      negation of the direction bit, so backgrounds scroll towards +x
      exactly when the entity faces right; the nearest one moves at half the
      entity's speed unless the camera is locked, and background k at
      1/(5-k) of that. */
  function ParallaxVelocities(bgs: seq<Background>, e: Entity, locked: bool): (r: seq<Background>)
    requires |bgs| == BACKGROUND_COUNT
    ensures |r| == BACKGROUND_COUNT
    ensures forall k :: 0 <= k < BACKGROUND_COUNT ==>
      && r[k] == bgs[k].(flags := r[k].flags, velocity := r[k].velocity)
      && (IsSet(r[k].flags, SCROLL_DIRECTION) <==> !IsSet(e.flags, DIRECTION))
      && SameExcept(r[k].flags, bgs[k].flags, SCROLL_DIRECTION)
    ensures r[4].velocity * 2.0 == (if locked then 0.0 else e.velocityX)
    ensures forall k :: 0 <= k < 4 ==> r[k].velocity * (5 - k) as real == r[4].velocity
  {
    var facingRight := IsNotSet(e.flags, DIRECTION);
    var near := if !locked then e.velocityX / 2.0 else 0.0;
    seq(BACKGROUND_COUNT, k requires 0 <= k < BACKGROUND_COUNT =>
      var flags := if facingRight then SetBit(bgs[k].flags, SCROLL_DIRECTION)
                   else ClearBit(bgs[k].flags, SCROLL_DIRECTION);
      bgs[k].(flags := flags, velocity := if k == 4 then near else near / (5 - k) as real))
  }

  /** Farther backgrounds move more slowly: with the camera free and a
      positive horizontal velocity, velocities strictly increase from
      background 0 to 4. */
  lemma ParallaxDepthOrder(bgs: seq<Background>, e: Entity)
    requires |bgs| == BACKGROUND_COUNT && e.velocityX > 0.0
    ensures var r := ParallaxVelocities(bgs, e, false);
      forall k :: 0 <= k < 4 ==> 0.0 < r[k].velocity < r[k + 1].velocity
  {
    var r := ParallaxVelocities(bgs, e, false);
    forall k | 0 <= k < 4
      ensures 0.0 < r[k].velocity < r[k + 1].velocity
    {
      assert r[k + 1].velocity * (4 - k) as real == r[4].velocity;
      SmallerShare(r[k].velocity, r[k + 1].velocity, r[4].velocity, 5 - k);
    }
  }

  /** Splitting a positive amount into more equal shares makes each smaller. */
  lemma SmallerShare(a: real, b: real, v: real, n: int)
    requires n >= 2 && v > 0.0
    requires a * n as real == v && b * (n - 1) as real == v
    ensures 0.0 < a < b
  {
    assert b * (n - 1) as real == b * n as real - b;
  }

  // ---------------------------------------------------------------------
  // Animation and floor contact

  /** With the camera free and a positive horizontal velocity, the next
      draw moves every background towards +x exactly when the entity faces
      right. */
  lemma ParallaxScrollsWithFacing(bgs: seq<Background>, e: Entity, x: real)
    requires |bgs| == BACKGROUND_COUNT && e.velocityX > 0.0
    ensures var r := ParallaxVelocities(bgs, e, false);
      forall k :: 0 <= k < BACKGROUND_COUNT ==>
        (Advance(x, r[k].velocity, r[k].flags) > x <==> IsNotSet(e.flags, DIRECTION))
  {
    ParallaxDepthOrder(bgs, e);
    var r := ParallaxVelocities(bgs, e, false);
    assert r[4].velocity > 0.0;
  }

  datatype Animated = Animated(flags: Word, animation: Animation)

  /** The idling bit is set, then each applicable animation overrides the
      previous one: idle, then walking when moving, then rising or falling
      when in mid air. */
  function ChooseAnimation(flags: Word, jumping: bool): (r: Animated)
    ensures IsSet(r.flags, IS_IDLING) && SameExcept(r.flags, flags, IS_IDLING)
    ensures IsSet(flags, IS_IN_MID_AIR) ==> r.animation == (if jumping then RISING else FALLING)
    ensures !IsSet(flags, IS_IN_MID_AIR) && IsSet(flags, IS_MOVING) ==> r.animation == WALKING
    ensures r.animation == IDLE <==> !IsSet(flags, IS_IN_MID_AIR) && !IsSet(flags, IS_MOVING)
  {
    var f := SetBit(flags, IS_IDLING);
    var a0 := IDLE;
    var a1 := if IsSet(f, IS_MOVING) then WALKING else a0;
    var a2 := if IsSet(f, IS_IN_MID_AIR) then (if jumping then RISING else FALLING) else a1;
    Animated(f, a2)
  }

  /** Where the floor is probed: two thirds across the entity, at its feet. */
  function FloorProbeX(e: Entity): real
  {
    e.worldPosX + e.width as real / 1.5
  }

  function FloorProbeY(e: Entity): real
  {
    e.worldPosY + e.height as real
  }

  /** The mid-air bit is cleared iff the map reports "Floor" under the probe. */
  function FloorContact(e: Entity, m: Map): (r: Entity)
    requires Valid(m)
    ensures IsNotSet(r.flags, IS_IN_MID_AIR) <==> IsMapCoordOfType(m, "Floor", FloorProbeX(e), FloorProbeY(e))
    ensures SameExcept(r.flags, e.flags, IS_IN_MID_AIR)
    ensures r == e.(flags := r.flags)
  {
    if IsMapCoordOfType(m, "Floor", FloorProbeX(e), FloorProbeY(e)) then
      e.(flags := ClearBit(e.flags, IS_IN_MID_AIR))
    else
      e.(flags := SetBit(e.flags, IS_IN_MID_AIR))
  }

  // ---------------------------------------------------------------------
  // Rendering

  datatype Rendered = Rendered(game: Game, screen: seq<Blit>)

  /** DrawBackground on each background in order. */
  function DrawBackgrounds(bgs: seq<Background>, be: Backend): (r: (seq<Background>, seq<Blit>))
    requires forall k :: 0 <= k < |bgs| ==> bgs[k].layer.width >= 0
    ensures |r.0| == |bgs|
    ensures forall k :: 0 <= k < |bgs| ==> r.0[k] == DrawBackground(bgs[k], be).background
    ensures forall k :: 0 <= k < |bgs| ==> r.0[k].layer == bgs[k].layer
    ensures |r.1| == if be.queryTexture && be.copy then 2 * |bgs| else 0
    ensures be.queryTexture && be.copy ==>
      forall k :: 0 <= k < |bgs| ==> r.1[2 * k..2 * k + 2] == DrawBackground(bgs[k], be).screen
    decreases |bgs|
  {
    if |bgs| == 0 then ([], [])
    else
      var d := DrawBackground(bgs[0], be);
      var rest := DrawBackgrounds(bgs[1..], be);
      var screen := d.screen + rest.1;
      if be.queryTexture && be.copy then
        PairsAfterFirst(d.screen, rest.1, |bgs| - 1);
        ([d.background] + rest.0, screen)
      else ([d.background] + rest.0, screen)
  }

  /** The drawing half of a frame: backgrounds, the "Background" map layers
      into slot 0 with the background colour, the entity, then the
      "Foreground" layers into slot 2. */
  function Render(g: Game, be: Backend): (r: Rendered)
    requires WellFormed(g)
    ensures WellFormed(r.game)
    ensures r.game == g.(backgrounds := r.game.backgrounds, tileMap := r.game.tileMap)
    ensures r.game.tileMap.tmx == g.tileMap.tmx
    ensures forall i :: 0 <= i < MAP_MAX_LAYERS && g.tileMap.layerCache[i].Some? ==>
      r.game.tileMap.layerCache[i] == g.tileMap.layerCache[i]
    ensures forall i :: 0 <= i < MAP_MAX_LAYERS && i != 0 && i != 2 ==>
      r.game.tileMap.layerCache[i] == g.tileMap.layerCache[i]
    ensures be.queryTexture && be.copy ==> (|r.screen| >= 2 * BACKGROUND_COUNT &&
      forall k :: 0 <= k < BACKGROUND_COUNT ==> r.screen[2 * k..2 * k + 2] == DrawBackground(g.backgrounds[k], be).screen)
    ensures be.copy && g.tileMap.layerCache[2].Some? ==>
      (|r.screen| > 0 && r.screen[|r.screen| - 1] == CachedLayerBlit(g.tileMap, 2, g.cameraX, g.cameraY))
  {
    var (bgs, bgScreen) := DrawBackgrounds(g.backgrounds, be);
    var back := DrawMap(g.tileMap, "Background", true, 0, g.cameraX, g.cameraY, be);
    var (_, entityScreen) := DrawEntity(g.entity, g.cameraX, g.cameraY, be.copy);
    var front := DrawMap(back.tileMap, "Foreground", false, 2, g.cameraX, g.cameraY, be);
    var screen := bgScreen + back.screen + entityScreen + front.screen;
    assert be.queryTexture && be.copy ==>
      forall k :: 0 <= k < BACKGROUND_COUNT ==> screen[2 * k..2 * k + 2] == bgScreen[2 * k..2 * k + 2] by {
      if be.queryTexture && be.copy {
        PrefixSlices(bgScreen, back.screen + entityScreen + front.screen);
        assert screen == bgScreen + (back.screen + entityScreen + front.screen);
      }
    }
    assert be.copy && g.tileMap.layerCache[2].Some? ==>
      front.screen == [CachedLayerBlit(g.tileMap, 2, g.cameraX, g.cameraY)];
    Rendered(g.(backgrounds := bgs, tileMap := front.tileMap), screen)
  }

  /** Prefixing one pair shifts every later pair of a sequence by one. */
  lemma PairsAfterFirst<T>(first: seq<T>, rest: seq<T>, n: nat)
    requires |first| == 2 && |rest| == 2 * n
    ensures forall k :: 1 <= k <= n ==> (first + rest)[2 * k..2 * k + 2] == rest[2 * (k - 1)..2 * (k - 1) + 2]
  {
  }

  /** Slices inside the first part of a concatenation are slices of that part. */
  lemma PrefixSlices<T>(a: seq<T>, b: seq<T>)
    ensures forall i, j :: 0 <= i <= j <= |a| ==> (a + b)[i..j] == a[i..j]
  {
  }

  // ---------------------------------------------------------------------
  // The whole frame

  /** What one frame produced: the next state, sound requests, the animation
      chosen (None when paused), the entity handed to UpdateEntity (None when
      paused) and the screen copies. */
  datatype Frame = Frame(
    game: Game,
    sounds: seq<Sound>,
    animation: Option<Animation>,
    updateInput: Option<Entity>,
    screen: seq<Blit>)

  /** The zoom level the camera will divide by: the step needs it non-zero
      (a zero level would make the source divide by zero). */
  predicate ZoomUsable(g: Game, keys: Keys, dt: real, be: Backend)
  {
    ZoomKeys(g.video, keys, dt, be.logicalSize).zoomLevel != 0.0
  }

  /** _MainLoop: a paused game only polls; a running one handles the keys,
      moves the camera and the backgrounds, picks the animation, probes the
      floor, revives a dead entity, updates it and draws the frame. */
  function Step(g: Game, keys: Keys, dt: real, be: Backend, ops: EntityOps): (f: Frame)
    requires WellFormed(g)
    requires ZoomUsable(g, keys, dt, be)
    ensures WellFormed(f.game)
    ensures f.game.paused <==> (g.paused || keys.p) && !keys.c
    ensures f.game.exitStatus ==
      (if keys.q then EXIT_SUCCESS else if keys.quitEvent then EXIT_FAILURE else g.exitStatus)
    ensures f.game.tileMap.tmx == g.tileMap.tmx
    ensures f.game.paused ==>
      && f.animation.None? && f.updateInput.None? && f.screen == []
      && f.game == g.(entity := f.game.entity, paused := true, exitStatus := f.game.exitStatus)
      && f.game.entity == g.entity.(flags := ClearBit(g.entity.flags, IS_MOVING))
    ensures !f.game.paused ==>
      && f.animation.Some? && f.updateInput.Some?
      && f.game.entity == ops.update(f.updateInput.value, dt)
      && (f.game.cameraMaxX >= 0.0 ==> 0.0 <= f.game.cameraX <= f.game.cameraMaxX)
      && (f.game.cameraMaxY >= 0.0 ==> 0.0 <= f.game.cameraY <= f.game.cameraMaxY)
  {
    var polled := PollInput(g, keys);
    var g1 := polled.game;
    if g1.paused then Frame(g1, polled.sounds, None, None, [])
    else
      var f := Run(g1, keys, dt, be, ops);
      f.(sounds := polled.sounds + f.sounds)
  }

  /** The running branch of _MainLoop, once the poll has left the game
      unpaused: prepare, update the entity, draw. */
  function Run(g: Game, keys: Keys, dt: real, be: Backend, ops: EntityOps): (f: Frame)
    requires WellFormed(g) && !g.paused
    requires ZoomKeys(g.video, keys, dt, be.logicalSize).zoomLevel != 0.0
    ensures WellFormed(f.game)
    ensures !f.game.paused && f.game.exitStatus == g.exitStatus && f.game.tileMap.tmx == g.tileMap.tmx
    ensures f.animation.Some? && f.updateInput.Some?
    ensures f.game.entity == ops.update(f.updateInput.value, dt)
    ensures f.game.cameraMaxX >= 0.0 ==> 0.0 <= f.game.cameraX <= f.game.cameraMaxX
    ensures f.game.cameraMaxY >= 0.0 ==> 0.0 <= f.game.cameraY <= f.game.cameraMaxY
    ensures var probed := Probed(g, keys, dt, be, ops);
      f.updateInput == Some(if IsSet(g.entity.flags, IS_DEAD) then ops.resurrect(probed) else probed)
    ensures PlaySfx(SFX_DEAD) in f.sounds <==> IsSet(g.entity.flags, IS_DEAD)
  {
    var r := Prepare(g, keys, dt, be, ops);
    var e4 := ops.update(r.entity, dt);
    var rendered := Render(r.game.(entity := e4), be);
    Frame(rendered.game, r.sounds, Some(r.animation), Some(r.entity), rendered.screen)
  }

  /** The running part of a frame up to UpdateEntity. */
  datatype Prepared = Prepared(game: Game, entity: Entity, animation: Animation, sounds: seq<Sound>)

  function Prepare(g: Game, keys: Keys, dt: real, be: Backend, ops: EntityOps): (r: Prepared)
    requires WellFormed(g)
    requires ZoomKeys(g.video, keys, dt, be.logicalSize).zoomLevel != 0.0
    ensures WellFormed(r.game)
    ensures r.game == g.(entity := r.game.entity, backgrounds := r.game.backgrounds, video := r.game.video,
                         cameraX := r.game.cameraX, cameraY := r.game.cameraY,
                         cameraMaxX := r.game.cameraMaxX, cameraMaxY := r.game.cameraMaxY)
    ensures r.game.cameraMaxX >= 0.0 ==> 0.0 <= r.game.cameraX <= r.game.cameraMaxX
    ensures r.game.cameraMaxY >= 0.0 ==> 0.0 <= r.game.cameraY <= r.game.cameraMaxY
    ensures IsSet(g.entity.flags, IS_DEAD) ==> r.entity == ops.resurrect(Probed(g, keys, dt, be, ops))
    ensures !IsSet(g.entity.flags, IS_DEAD) ==> r.entity == Probed(g, keys, dt, be, ops)
    ensures PlaySfx(SFX_DEAD) in r.sounds <==> IsSet(g.entity.flags, IS_DEAD)
  {
    var video := ZoomKeys(g.video, keys, dt, be.logicalSize);
    var e1 := Steered(g, keys);
    var jump := JumpKey(ArrowKeys(g.entity.flags, keys.left, keys.right), keys.space);
    var cam := FollowCamera(e1, video, g.tileMap);
    var bgs := ParallaxVelocities(g.backgrounds, e1, IsSet(cam.flags, CAMERA_IS_LOCKED));
    var animated := ChooseAnimation(e1.flags, ops.isJumping(e1.(flags := SetBit(e1.flags, IS_IDLING))));
    var e2 := Probed(g, keys, dt, be, ops);
    DeadBitSurvives(g, keys, dt, be, ops);
    var dead := IsSet(e2.flags, IS_DEAD);
    var e3 := if dead then ops.resurrect(e2) else e2;
    var deathSound: seq<Sound> := if dead then [PlaySfx(SFX_DEAD)] else [];
    var g2 := g.(entity := e3, backgrounds := bgs, video := video,
                 cameraX := cam.x, cameraY := cam.y, cameraMaxX := cam.maxX, cameraMaxY := cam.maxY);
    Prepared(g2, e3, animated.animation, jump.1 + deathSound)
  }

  /** The entity after the arrow and space keys. */
  function Steered(g: Game, keys: Keys): (e: Entity)
    ensures e == g.entity.(flags := e.flags)
    ensures SameExceptThree(e.flags, g.entity.flags, IS_MOVING, DIRECTION, IS_JUMPING)
  {
    var f := ArrowKeys(g.entity.flags, keys.left, keys.right);
    var j := JumpKey(f, keys.space);
    g.entity.(flags := j.0)
  }

  /** Two words agree on every bit other than `b1`, `b2` and `b3`. */
  ghost predicate SameExceptThree(n: Word, m: Word, b1: Bit, b2: Bit, b3: Bit)
  {
    forall c: Bit {:trigger IsSet(n, c)} {:trigger IsSet(m, c)} :: c != b1 && c != b2 && c != b3 ==> (IsSet(n, c) <==> IsSet(m, c))
  }

  /** The entity after the animation choice and the floor probe, as handed
      to the revive check. */
  function Probed(g: Game, keys: Keys, dt: real, be: Backend, ops: EntityOps): (e: Entity)
    requires WellFormed(g)
    ensures e == g.entity.(flags := e.flags)
    ensures IsSet(e.flags, IS_IDLING)
  {
    var e1 := Steered(g, keys);
    var animated := ChooseAnimation(e1.flags, ops.isJumping(e1.(flags := SetBit(e1.flags, IS_IDLING))));
    FloorContact(e1.(flags := animated.flags), g.tileMap)
  }

  /** None of the steps before the revive check touches the dead bit. */
  lemma DeadBitSurvives(g: Game, keys: Keys, dt: real, be: Backend, ops: EntityOps)
    requires WellFormed(g)
    ensures IsSet(Probed(g, keys, dt, be, ops).flags, IS_DEAD) <==> IsSet(g.entity.flags, IS_DEAD)
  {
  }

  /** A running frame hands UpdateEntity the probed entity, resurrected
      first exactly when the entity entered the frame dead. */
  lemma StepUpdatesProbedEntity(g: Game, keys: Keys, dt: real, be: Backend, ops: EntityOps)
    requires WellFormed(g) && ZoomUsable(g, keys, dt, be)
    ensures var f := Step(g, keys, dt, be, ops);
      !f.game.paused ==>
        var probed := Probed(PollInput(g, keys).game, keys, dt, be, ops);
        f.updateInput == Some(if IsSet(g.entity.flags, IS_DEAD) then ops.resurrect(probed) else probed)
  {
    var polled := PollInput(g, keys);
    if !polled.game.paused {
      StepIsRun(g, keys, dt, be, ops);
      RunUpdatesProbedEntity(g, polled.game, keys, dt, be, ops);
    }
  }

  /** An unpaused poll is followed by the running branch. */
  lemma StepIsRun(g: Game, keys: Keys, dt: real, be: Backend, ops: EntityOps)
    requires WellFormed(g) && ZoomUsable(g, keys, dt, be)
    requires !PollInput(g, keys).game.paused
    ensures var polled := PollInput(g, keys);
      var f, run := Step(g, keys, dt, be, ops), Run(polled.game, keys, dt, be, ops);
      f.updateInput == run.updateInput && f.sounds == polled.sounds + run.sounds
  {
  }

  lemma RunUpdatesProbedEntity(g: Game, g1: Game, keys: Keys, dt: real, be: Backend, ops: EntityOps)
    requires WellFormed(g1) && !g1.paused
    requires ZoomKeys(g1.video, keys, dt, be.logicalSize).zoomLevel != 0.0
    requires IsSet(g1.entity.flags, IS_DEAD) <==> IsSet(g.entity.flags, IS_DEAD)
    ensures var probed := Probed(g1, keys, dt, be, ops);
      Run(g1, keys, dt, be, ops).updateInput == Some(if IsSet(g.entity.flags, IS_DEAD) then ops.resurrect(probed) else probed)
  {
  }

  /** With ResurrectEntity taken to be RespawnEntity, a running frame that
      starts with a dead entity plays the death sound and hands UpdateEntity
      a live entity standing on its spawn point; a live entity gets no death
      sound. */
  lemma StepRevivesDeadEntity(g: Game, keys: Keys, dt: real, be: Backend, ops: EntityOps)
    requires WellFormed(g) && ZoomUsable(g, keys, dt, be)
    requires !((g.paused || keys.p) && !keys.c)
    requires forall e :: ops.resurrect(e) == RespawnEntity(e)
    ensures var f := Step(g, keys, dt, be, ops);
      && (PlaySfx(SFX_DEAD) in f.sounds <==> IsSet(g.entity.flags, IS_DEAD))
      && (IsSet(g.entity.flags, IS_DEAD) ==>
            && IsNotSet(f.updateInput.value.flags, IS_DEAD)
            && f.updateInput.value.worldPosX == g.entity.initialWorldPosX
            && f.updateInput.value.worldPosY == g.entity.initialWorldPosY)
  {
    var polled := PollInput(g, keys);
    assert PlaySfx(SFX_DEAD) !in polled.sounds;
    StepIsRun(g, keys, dt, be, ops);
    RunUpdatesProbedEntity(g, polled.game, keys, dt, be, ops);
  }
}
