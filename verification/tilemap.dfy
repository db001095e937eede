/** Tile maps loaded from Tiled's TMX files (src/Map.c): derived pixel size,
    the point-to-tile type query used for floor contact, and the lazily
    filled cache of composited layer textures. */
module TileMap {
  import opened Common

  /** Number of cache slots for composited layers (MAP_MAX_LAYERS). */
  const MAP_MAX_LAYERS: nat := 5

  /** libtmx's TMX_FLIP_BITS_REMOVAL keeps the low 29 bits of a cell; the
      three high bits hold the flip transforms. */
  const GID_MODULUS: nat := 0x2000_0000

  /** A tile definition of the tileset: its optional type property, its
      upper-left corner in the tileset image and the tileset's tile size. */
  datatype Tile = Tile(tileType: Option<string>, ulX: int, ulY: int, tilesetTileWidth: int, tilesetTileHeight: int)

  /** A Tiled layer: cell global ids stored row by row. */
  datatype Layer = Layer(name: string, visible: bool, gids: seq<U32>)

  /** The parsed map: size in tiles, tile size in pixels, background colour,
      layers in list order, and the tile definitions by global id (a gid
      absent from `tiles` is a NULL entry). */
  datatype Tmx = Tmx(
    width: U32,
    height: U32,
    tileWidth: U32,
    tileHeight: U32,
    backgroundColor: U32,
    layers: seq<Layer>,
    tiles: map<nat, Tile>)

  /** A composited layer texture: its size, the tile copies drawn into it and
      whether its blend mode was set. */
  datatype Texture = Texture(width: int, height: int, blits: seq<Blit>, blended: bool)

  /** The Map record: parsed map, tileset file name, layer cache, pixel size
      and world position. */
  datatype Map = Map(
    tmx: Tmx,
    tilesetImageFilename: string,
    layerCache: seq<Option<Texture>>,
    height: U32,
    width: U32,
    worldPosX: real,
    worldPosY: real)

  /** What libtmx guarantees of a loaded map: positive tile size and one cell
      per grid position in every layer. */
  ghost predicate ValidTmx(t: Tmx)
  {
    && t.tileWidth > 0
    && t.tileHeight > 0
    && forall l :: l in t.layers ==> |l.gids| == t.width * t.height
  }

  ghost predicate Valid(m: Map)
  {
    ValidTmx(m.tmx) && |m.layerCache| == MAP_MAX_LAYERS
  }

  /** Map width in pixels, an unsigned 32-bit product. */
  function PixelWidth(t: Tmx): (r: U32)
    ensures t.width * t.tileWidth < 0x1_0000_0000 ==> r == t.width * t.tileWidth
    ensures (r - t.width * t.tileWidth) % 0x1_0000_0000 == 0
  {
    ToU32(t.width * t.tileWidth)
  }

  /** Map height in pixels, an unsigned 32-bit product. */
  function PixelHeight(t: Tmx): (r: U32)
    ensures t.height * t.tileHeight < 0x1_0000_0000 ==> r == t.height * t.tileHeight
    ensures (r - t.height * t.tileHeight) % 0x1_0000_0000 == 0
  {
    ToU32(t.height * t.tileHeight)
  }

  // ---------------------------------------------------------------------
  // InitMap

  /** The layer cache of a new map: every slot empty. */
  function EmptyCache(): (c: seq<Option<Texture>>)
    ensures |c| == MAP_MAX_LAYERS
    ensures forall i :: 0 <= i < |c| ==> c[i].None?
  {
    seq(MAP_MAX_LAYERS, _ => None)
  }

  /** InitMap: `loaded` is the result of tmx_load (None when it fails) and
      `allocOk` whether the two allocations succeed. */
  function InitMap(loaded: Option<Tmx>, tilesetImageFilename: string, allocOk: bool): (r: Option<Map>)
    ensures r.Some? <==> allocOk && loaded.Some?
    ensures r.Some? ==> var m := r.value;
      && m.tmx == loaded.value
      && m.tilesetImageFilename == tilesetImageFilename
      && (m.height - m.tmx.height * m.tmx.tileHeight) % 0x1_0000_0000 == 0
      && (m.width - m.tmx.width * m.tmx.tileWidth) % 0x1_0000_0000 == 0
      && (m.tmx.height * m.tmx.tileHeight < 0x1_0000_0000 ==> m.height == m.tmx.height * m.tmx.tileHeight)
      && (m.tmx.width * m.tmx.tileWidth < 0x1_0000_0000 ==> m.width == m.tmx.width * m.tmx.tileWidth)
      && m.worldPosX == 0.0 && m.worldPosY == 0.0
      && |m.layerCache| == MAP_MAX_LAYERS
      && forall i :: 0 <= i < |m.layerCache| ==> m.layerCache[i].None?
  {
    if !allocOk then None
    else match loaded
      case None => None
      case Some(t) =>
        Some(Map(t, tilesetImageFilename, EmptyCache(), PixelHeight(t), PixelWidth(t), 0.0, 0.0))
  }

  /** A map created from a well-formed TMX map satisfies the invariant
      every drawing and query operation relies on. */
  lemma InitMapIsValid(t: Tmx, tilesetImageFilename: string)
    requires ValidTmx(t)
    ensures InitMap(Some(t), tilesetImageFilename, true).Some?
    ensures Valid(InitMap(Some(t), tilesetImageFilename, true).value)
  {
  }

  // ---------------------------------------------------------------------
  // IsMapCoordOfType

  datatype Cell = Cell(col: nat, row: nat)

  /** Horizontal scaling divides by one more than the tile width. */
  function ScaledX(t: Tmx, x: real): real
  {
    x / (t.tileWidth + 1) as real
  }

  function ScaledY(t: Tmx, y: real): real
    requires t.tileHeight > 0
  {
    y / t.tileHeight as real
  }

  /** Index of a cell in a layer's row-major gid array. */
  function CellIndex(t: Tmx, c: Cell): nat
  {
    c.row * t.width + c.col
  }

  lemma DivLeqIff(a: real, d: real, bound: real)
    requires d > 0.0
    ensures a / d <= bound <==> a <= bound * d
    ensures a / d < bound <==> a < bound * d
  {
    assert a == (a / d) * d;
  }

  /** The scaled coordinates compared with the grid are the pixel
      coordinates compared with the grid's pixel extent. */
  lemma ScaledBounds(t: Tmx, x: real, y: real)
    requires t.tileHeight > 0
    ensures ScaledX(t, x) < 0.0 <==> x < 0.0
    ensures ScaledY(t, y) < 0.0 <==> y < 0.0
    ensures ScaledX(t, x) > t.width as real <==> x > (t.width * (t.tileWidth + 1)) as real
    ensures ScaledX(t, x) >= t.width as real <==> x >= (t.width * (t.tileWidth + 1)) as real
    ensures ScaledY(t, y) > t.height as real <==> y > (t.height * t.tileHeight) as real
    ensures ScaledY(t, y) >= t.height as real <==> y >= (t.height * t.tileHeight) as real
  {
    var dx, dy := (t.tileWidth + 1) as real, t.tileHeight as real;
    DivLeqIff(x, dx, 0.0);
    DivLeqIff(y, dy, 0.0);
    DivLeqIff(x, dx, t.width as real);
    DivLeqIff(y, dy, t.height as real);
    assert (t.width * (t.tileWidth + 1)) as real == t.width as real * dx;
    assert (t.height * t.tileHeight) as real == t.height as real * dy;
  }

  /** The point lies in the cell's pixel span: columns are tile width + 1
      pixels wide, rows tile height pixels high. */
  predicate InCellSpan(t: Tmx, c: Cell, x: real, y: real)
  {
    && c.col as real * (t.tileWidth + 1) as real <= x < (c.col + 1) as real * (t.tileWidth + 1) as real
    && c.row as real * t.tileHeight as real <= y < (c.row + 1) as real * t.tileHeight as real
  }

  /** The floors of the scaled coordinates name the cell whose pixel span
      holds the point. */
  lemma ScaledFloorsLocate(t: Tmx, x: real, y: real)
    requires t.tileHeight > 0 && x >= 0.0 && y >= 0.0
    ensures ScaledX(t, x).Floor >= 0 && ScaledY(t, y).Floor >= 0
    ensures InCellSpan(t, Cell(ScaledX(t, x).Floor, ScaledY(t, y).Floor), x, y)
  {
    FloorLocates(x, (t.tileWidth + 1) as real);
    FloorLocates(y, t.tileHeight as real);
  }

  /** The cell the source's guard admits: scaled values are rejected only
      when negative or strictly greater than the map's width or height. */
  function CellAsWritten(t: Tmx, x: real, y: real): (c: Option<Cell>)
    requires t.tileHeight > 0
    ensures c.None? <==>
      x < 0.0 || y < 0.0
      || x > (t.width * (t.tileWidth + 1)) as real
      || y > (t.height * t.tileHeight) as real
    ensures c.Some? ==> c.value.col <= t.width && c.value.row <= t.height
    ensures c.Some? ==> InCellSpan(t, c.value, x, y)
  {
    ScaledBounds(t, x, y);
    var sx, sy := ScaledX(t, x), ScaledY(t, y);
    if sx < 0.0 || sy < 0.0 || sx > t.width as real || sy > t.height as real then None
    else
      ScaledFloorsLocate(t, x, y);
      Some(Cell(sx.Floor, sy.Floor))
  }

  lemma CellIndexInRange(t: Tmx, c: Cell)
    requires c.col < t.width && c.row < t.height
    ensures CellIndex(t, c) < t.width * t.height
  {
    assert c.row * t.width <= (t.height - 1) * t.width;
  }

  /** The cell with the guard the bounds check evidently intends: only cells
      inside the grid are admitted. */
  function CellAt(t: Tmx, x: real, y: real): (c: Option<Cell>)
    requires t.tileHeight > 0
    ensures c.None? <==>
      x < 0.0 || y < 0.0
      || x >= (t.width * (t.tileWidth + 1)) as real
      || y >= (t.height * t.tileHeight) as real
    ensures c.Some? ==> c.value.col < t.width && c.value.row < t.height
    ensures c.Some? ==> CellIndex(t, c.value) < t.width * t.height
    ensures c.Some? ==> InCellSpan(t, c.value, x, y)
  {
    ScaledBounds(t, x, y);
    var sx, sy := ScaledX(t, x), ScaledY(t, y);
    if sx < 0.0 || sy < 0.0 || sx >= t.width as real || sy >= t.height as real then None
    else
      ScaledFloorsLocate(t, x, y);
      var c := Cell(sx.Floor, sy.Floor);
      CellIndexInRange(t, c);
      Some(c)
  }

  /** A grid cell whose pixel span holds the point is the cell the corrected
      query picks: with the previous contract, the point lands in exactly
      one cell. */
  lemma CellAtIsTheSpanningCell(t: Tmx, c: Cell, x: real, y: real)
    requires t.tileHeight > 0
    requires c.col < t.width && c.row < t.height && InCellSpan(t, c, x, y)
    ensures CellAt(t, x, y) == Some(c)
  {
    FloorUnique(x, (t.tileWidth + 1) as real, c.col);
    FloorUnique(y, t.tileHeight as real, c.row);
  }

  /** The corrected guard changes nothing for points whose cell lies inside
      the grid; it only rejects the points on the far edges. */
  lemma CellAtAgreesInsideGrid(t: Tmx, x: real, y: real)
    requires t.tileHeight > 0
    ensures CellAt(t, x, y).Some? ==> CellAsWritten(t, x, y) == CellAt(t, x, y)
    ensures CellAsWritten(t, x, y).Some? && CellAsWritten(t, x, y).value.col < t.width
            && CellAsWritten(t, x, y).value.row < t.height
            ==> CellAt(t, x, y) == CellAsWritten(t, x, y)
  {
  }

  /** A 2x2 map of 16-pixel tiles: the point (0, 32) lies on the bottom edge,
      passes the source's guard, and addresses cell index 4 of a layer that
      has only 4 cells. */
  lemma AsWrittenGuardReadsPastLayer()
    ensures var t := Tmx(2, 2, 16, 16, 0, [], map[]);
      && CellAsWritten(t, 0.0, 32.0) == Some(Cell(0, 2))
      && CellIndex(t, Cell(0, 2)) == t.width * t.height
      && CellAt(t, 0.0, 32.0) == None
  {
    var t := Tmx(2, 2, 16, 16, 0, [], map[]);
    assert ScaledY(t, 32.0) == 2.0;
    assert ScaledX(t, 0.0) == 0.0;
  }

  /** The same map: the point (34, 0) scales to column 2, equal to the
      width, passes the source's guard, and reads cell (0, 1) of the next
      row instead of being rejected. */
  lemma AsWrittenRightEdgeReadsNextRow()
    ensures var t := Tmx(2, 2, 16, 16, 0, [], map[]);
      && CellAsWritten(t, 34.0, 0.0) == Some(Cell(2, 0))
      && CellIndex(t, Cell(2, 0)) == CellIndex(t, Cell(0, 1))
      && CellAt(t, 34.0, 0.0) == None
  {
    var t := Tmx(2, 2, 16, 16, 0, [], map[]);
    assert ScaledX(t, 34.0) == 2.0;
    assert ScaledY(t, 0.0) == 0.0;
  }

  /** Any point on the bottom edge of the map addresses a cell past the end
      of every layer under the source's guard. */
  lemma AsWrittenBottomEdgeOutOfRange(t: Tmx, x: real)
    requires t.tileHeight > 0
    requires 0.0 <= x <= (t.width * (t.tileWidth + 1)) as real
    ensures CellAsWritten(t, x, (t.height * t.tileHeight) as real).Some?
    ensures CellIndex(t, CellAsWritten(t, x, (t.height * t.tileHeight) as real).value) >= t.width * t.height
  {
    var y := (t.height * t.tileHeight) as real;
    assert ScaledY(t, y) == t.height as real;
  }

  /** Flip bits masked, then narrowed to 16 bits as the query stores it. */
  function QueryGid(g: U32): (r: nat)
    ensures r < 0x1_0000
    ensures r == g % 0x1_0000
  {
    var q, m := g / GID_MODULUS, g % GID_MODULUS;
    assert g == (q * 0x2000) * 0x1_0000 + m;
    DivModOfSum(q * 0x2000 + m / 0x1_0000, m % 0x1_0000, 0x1_0000);
    m % 0x1_0000
  }

  /** The layer's cell `i` names a tile whose type property equals `tileType`. */
  predicate CellHasType(t: Tmx, l: Layer, i: nat, tileType: string)
    requires i < |l.gids|
  {
    var gid := QueryGid(l.gids[i]);
    gid in t.tiles && t.tiles[gid].tileType == Some(tileType)
  }

  /** The layer loop of IsMapCoordOfType: stops at the first layer in list
      order whose cell has the type. */
  function ScanLayers(t: Tmx, layers: seq<Layer>, i: nat, tileType: string): (r: bool)
    requires forall l :: l in layers ==> i < |l.gids|
    ensures r <==> exists k :: 0 <= k < |layers| && CellHasType(t, layers[k], i, tileType)
    decreases |layers|
  {
    if |layers| == 0 then false
    else if CellHasType(t, layers[0], i, tileType) then true
    else
      var rest := ScanLayers(t, layers[1..], i, tileType);
      assert forall k :: 1 <= k < |layers| ==> layers[k] == layers[1..][k - 1];
      rest
  }

  /** IsMapCoordOfType with the corrected bounds guard: true iff the point
      falls inside the grid and some layer's cell there is of the type. */
  function IsMapCoordOfType(m: Map, tileType: string, x: real, y: real): (r: bool)
    requires Valid(m)
    ensures r <==>
      && CellAt(m.tmx, x, y).Some?
      && exists k :: 0 <= k < |m.tmx.layers|
           && CellHasType(m.tmx, m.tmx.layers[k], CellIndex(m.tmx, CellAt(m.tmx, x, y).value), tileType)
    ensures x < 0.0 || y < 0.0 ==> !r
  {
    match CellAt(m.tmx, x, y)
    case None => false
    case Some(c) => ScanLayers(m.tmx, m.tmx.layers, CellIndex(m.tmx, c), tileType)
  }

  // ---------------------------------------------------------------------
  // DrawMap

  /** Substring occurrence at position `i`. */
  ghost predicate OccursAt(hay: string, needle: string, i: nat)
  {
    i + |needle| <= |hay| && hay[i..i + |needle|] == needle
  }

  /** strstr(hay, needle) != NULL. */
  function Contains(hay: string, needle: string): (r: bool)
    ensures r <==> exists i: nat :: OccursAt(hay, needle, i)
    decreases |hay|
  {
    if |needle| > |hay| then false
    else if hay[..|needle|] == needle then
      assert OccursAt(hay, needle, 0);
      true
    else
      var rest := Contains(hay[1..], needle);
      assert forall i: nat :: OccursAt(hay[1..], needle, i) <==> OccursAt(hay, needle, i + 1) by {
        forall i: nat ensures OccursAt(hay[1..], needle, i) <==> OccursAt(hay, needle, i + 1) {
          if i + 1 + |needle| <= |hay| {
            assert hay[1..][i..i + |needle|] == hay[i + 1..i + 1 + |needle|];
          }
        }
      }
      assert !OccursAt(hay, needle, 0);
      assert (exists i: nat :: OccursAt(hay, needle, i)) ==> exists i: nat :: OccursAt(hay[1..], needle, i) by {
        if exists i: nat :: OccursAt(hay, needle, i) {
          var i: nat :| OccursAt(hay, needle, i);
          assert i > 0;
          assert OccursAt(hay[1..], needle, i - 1);
        }
      }
      rest
  }

  /** Layers the composition pass draws: visible, and named with the pattern
      as a substring. */
  predicate Selected(l: Layer, pattern: string)
  {
    l.visible && Contains(l.name, pattern)
  }

  /** A cell's index determines its column and row. */
  lemma CellIndexInverts(t: Tmx)
    requires t.width > 0
    ensures forall c: Cell :: c.col < t.width ==>
      CellIndex(t, c) / t.width == c.row && CellIndex(t, c) % t.width == c.col
  {
    forall c: Cell | c.col < t.width
      ensures CellIndex(t, c) / t.width == c.row && CellIndex(t, c) % t.width == c.col
    {
      DivModOfSum(c.row, c.col, t.width);
    }
  }

  /** The tile copy of cell `k`, if the cell names a tile: the tile's source
      rectangle in the tileset goes to column * tile width, row * tile height. */
  function CellBlit(t: Tmx, l: Layer, k: nat): (r: Option<Blit>)
    requires t.width > 0 && k < |l.gids|
    ensures r.Some? <==> l.gids[k] % GID_MODULUS in t.tiles
    ensures r.Some? ==>
      && r.value.image == TilesetImage && !r.value.flipH
      && r.value.src.Some? && r.value.src.value.w == r.value.dst.w && r.value.src.value.h == r.value.dst.h
    ensures forall c: Cell :: c.col < t.width && CellIndex(t, c) == k && r.Some? ==>
      r.value.dst.x == (c.col * r.value.dst.w) as real && r.value.dst.y == (c.row * r.value.dst.h) as real
  {
    CellIndexInverts(t);
    var gid := l.gids[k] % GID_MODULUS;
    if gid in t.tiles then
      var tile := t.tiles[gid];
      var row, col := k / t.width, k % t.width;
      Some(Blit(
        TilesetImage,
        Some(Rect(tile.ulX as real, tile.ulY as real, tile.tilesetTileWidth, tile.tilesetTileHeight)),
        Rect((col * tile.tilesetTileWidth) as real, (row * tile.tilesetTileHeight) as real,
             tile.tilesetTileWidth, tile.tilesetTileHeight),
        false))
    else None
  }

  /** Copies for cells 0 .. n-1 of a layer, in row-major order. */
  function CellBlits(t: Tmx, l: Layer, n: nat): (r: seq<Blit>)
    requires t.width > 0 && n <= |l.gids|
    ensures |r| <= n
    ensures forall k :: 0 <= k < n && CellBlit(t, l, k).Some? ==> CellBlit(t, l, k).value in r
    ensures forall b :: b in r ==> exists k :: 0 <= k < n && CellBlit(t, l, k) == Some(b)
  {
    if n == 0 then []
    else
      var prev := CellBlits(t, l, n - 1);
      match CellBlit(t, l, n - 1)
      case None => prev
      case Some(b) => prev + [b]
  }

  function LayerBlits(t: Tmx, l: Layer): seq<Blit>
  {
    if t.width == 0 then [] else CellBlits(t, l, |l.gids|)
  }

  /** The copies the composition pass draws, layer after layer. */
  function CompositeBlits(t: Tmx, layers: seq<Layer>, pattern: string): (r: seq<Blit>)
    ensures forall j, b :: 0 <= j < |layers| && Selected(layers[j], pattern) && b in LayerBlits(t, layers[j]) ==> b in r
    ensures forall b :: b in r ==> exists j :: 0 <= j < |layers| && Selected(layers[j], pattern) && b in LayerBlits(t, layers[j])
    decreases |layers|
  {
    if |layers| == 0 then []
    else
      var rest := CompositeBlits(t, layers[1..], pattern);
      assert forall j :: 1 <= j < |layers| ==> layers[j] == layers[1..][j - 1];
      if Selected(layers[0], pattern) then LayerBlits(t, layers[0]) + rest else rest
  }

  /** An RGB colour. */
  datatype Rgb = Rgb(r: int, g: int, b: int)

  /** The channels of the map's background colour 0xRRGGBB. */
  function BackgroundRgb(c: U32): (rgb: Rgb)
    ensures 0 <= rgb.r < 0x100 && 0 <= rgb.g < 0x100 && 0 <= rgb.b < 0x100
    ensures rgb.r * 0x1_0000 + rgb.g * 0x100 + rgb.b == c % 0x100_0000
  {
    // byte by byte: (c >> 16) & 0xFF is the third byte from the bottom
    var b, c1 := c % 0x100, c / 0x100;
    var g, c2 := c1 % 0x100, c1 / 0x100;
    var r, q := c2 % 0x100, c2 / 0x100;
    assert c == q * 0x100_0000 + (r * 0x1_0000 + g * 0x100 + b);
    DivModOfSum(q, r * 0x1_0000 + g * 0x100 + b, 0x100_0000);
    Rgb(r, g, b)
  }

  /** Outcome of DrawMap: the map (its cache may have changed), the return
      value, what was copied to the screen and the draw colour it set. */
  datatype MapDraw = MapDraw(tileMap: Map, status: int, screen: seq<Blit>, drawColour: Option<Rgb>)

  /** The copy of a cached layer to the screen, offset by the camera. */
  function CachedLayerBlit(m: Map, index: nat, camX: real, camY: real): Blit
  {
    Blit(MapLayerImage(index), None,
         Rect(m.worldPosX - camX, m.worldPosY - camY, PixelWidth(m.tmx), PixelHeight(m.tmx)),
         false)
  }

  function WithSlot(m: Map, index: nat, tex: Texture): (r: Map)
    requires index < |m.layerCache|
    ensures r.tmx == m.tmx && |r.layerCache| == |m.layerCache|
    ensures r.layerCache[index] == Some(tex)
    ensures forall i :: 0 <= i < |m.layerCache| && i != index ==> r.layerCache[i] == m.layerCache[i]
  {
    m.(layerCache := m.layerCache[index := Some(tex)])
  }

  /** DrawMap. A filled slot is copied to the screen. An empty slot is filled
      on this call: the texture is stored as soon as it is created, the
      matching layers are composited into it, and nothing reaches the screen. */
  function DrawMap(m: Map, layerName: string, renderBgColour: bool, index: nat,
                   camX: real, camY: real, be: Backend): (d: MapDraw)
    requires Valid(m) && index < MAP_MAX_LAYERS
    ensures Valid(d.tileMap)
    ensures d.status == 0 || d.status == -1
    ensures d.tileMap.tmx == m.tmx && d.tileMap.worldPosX == m.worldPosX && d.tileMap.worldPosY == m.worldPosY
    ensures forall i :: 0 <= i < MAP_MAX_LAYERS && i != index ==> d.tileMap.layerCache[i] == m.layerCache[i]
    ensures m.layerCache[index].Some? ==>
      && d.tileMap == m
      && d.drawColour == None
      && (d.status == 0 <==> be.copy)
      && d.screen == (if be.copy then [CachedLayerBlit(m, index, camX, camY)] else [])
    ensures m.layerCache[index].None? ==>
      && d.screen == []
      && (d.tileMap.layerCache[index].Some? <==> be.createTexture)
      && (d.status == 0 <==> be.createTexture && be.loadImage && be.setTarget && be.resetTarget && be.blendMode)
    ensures m.layerCache[index].None? && be.createTexture && be.loadImage && be.setTarget ==>
      d.drawColour == (if renderBgColour then Some(BackgroundRgb(m.tmx.backgroundColor)) else None)
    ensures m.layerCache[index].None? && d.status == 0 ==>
      d.tileMap.layerCache[index] == Some(Texture(PixelWidth(m.tmx), PixelHeight(m.tmx),
        if be.copy then CompositeBlits(m.tmx, m.tmx.layers, layerName) else [], true))
  {
    match m.layerCache[index]
    case Some(_) =>
      if be.copy then MapDraw(m, 0, [CachedLayerBlit(m, index, camX, camY)], None)
      else MapDraw(m, -1, [], None)
    case None =>
      if !be.createTexture then MapDraw(m, -1, [], None)
      else
        var blank := Texture(PixelWidth(m.tmx), PixelHeight(m.tmx), [], false);
        if !be.loadImage || !be.setTarget then MapDraw(WithSlot(m, index, blank), -1, [], None)
        else
          var colour := if renderBgColour then Some(BackgroundRgb(m.tmx.backgroundColor)) else None;
          var drawn := blank.(blits := if be.copy then CompositeBlits(m.tmx, m.tmx.layers, layerName) else []);
          if !be.resetTarget || !be.blendMode then MapDraw(WithSlot(m, index, drawn), -1, [], colour)
          else MapDraw(WithSlot(m, index, drawn.(blended := true)), 0, [], colour)
  }

  /** The cache only ever fills: a filled slot keeps its texture across any
      DrawMap call, and the call that finds a slot empty fills it whenever
      the texture can be created, even if a later step of that call fails. */
  lemma CacheNeverInvalidated(m: Map, layerName: string, renderBgColour: bool, index: nat,
                              camX: real, camY: real, be: Backend)
    requires Valid(m) && index < MAP_MAX_LAYERS
    ensures var d := DrawMap(m, layerName, renderBgColour, index, camX, camY, be);
      forall i :: 0 <= i < MAP_MAX_LAYERS && m.layerCache[i].Some? ==> d.tileMap.layerCache[i] == m.layerCache[i]
  {
  }

  /** A second DrawMap on the same slot leaves the map as the first left it
      and only copies the cached texture to the screen. */
  lemma SecondDrawOnlyCopies(m: Map, layerName: string, renderBgColour: bool, index: nat,
                             camX: real, camY: real, be: Backend,
                             layerName2: string, camX2: real, camY2: real, be2: Backend)
    requires Valid(m) && index < MAP_MAX_LAYERS && be.createTexture
    ensures var d1 := DrawMap(m, layerName, renderBgColour, index, camX, camY, be);
      var d2 := DrawMap(d1.tileMap, layerName2, renderBgColour, index, camX2, camY2, be2);
      && d2.tileMap == d1.tileMap
      && d2.screen == (if be2.copy then [CachedLayerBlit(d1.tileMap, index, camX2, camY2)] else [])
  {
  }

  /** Every non-empty cell (row, col) is copied to (col * tile width,
      row * tile height) from its tile's corner in the tileset. */
  lemma CellBlitPlacement(t: Tmx, l: Layer, row: nat, col: nat)
    requires ValidTmx(t) && l in t.layers
    requires row < t.height && col < t.width
    ensures row * t.width + col < |l.gids|
    ensures var k := row * t.width + col;
      var gid := l.gids[k] % GID_MODULUS;
      && (CellBlit(t, l, k).Some? <==> gid in t.tiles)
      && (gid in t.tiles ==>
           var tile := t.tiles[gid];
           && CellBlit(t, l, k).value.src == Some(Rect(tile.ulX as real, tile.ulY as real, tile.tilesetTileWidth, tile.tilesetTileHeight))
           && CellBlit(t, l, k).value.dst.x == (col * tile.tilesetTileWidth) as real
           && CellBlit(t, l, k).value.dst.y == (row * tile.tilesetTileHeight) as real)
  {
    CellIndexInRange(t, Cell(col, row));
    DivModOfSum(row, col, t.width);
  }
}
