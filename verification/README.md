# boondock-sam core, modelled in Dafny

This is a model of the game logic in the SDL platformer *boondock-sam*. It covers:

- the bit-flag macros;
- the axis-aligned bounding-box test;
- the tile map: creation, the layer cache in `DrawMap`, and the tile-type query `IsMapCoordOfType`;
- the player entity: creation, respawn and drawing;
- the parallax backgrounds: the layer texture sized to the window, and wrap-around scrolling;
- the configuration defaults and the ini handler;
- the video zoom clamp;
- one pass of the main loop (`_MainLoop`).

Every operation is a pure function. Where the C code mutates a record in place, the function returns the new record.

SDL and the audio mixer are outside the model. The success or failure of each SDL call is an input: the `Backend` record in `common.dfy` holds one flag per kind of call. What reaches the screen is a list of `Blit` values, one per `SDL_RenderCopy`, each with its source and destination rectangles.

| file | module | source |
|---|---|---|
| `common.dfy` | `Common` | fixed-width integers, `Option`, rectangles, renderer outcomes |
| `flags.dfy` | `Flags` | `src/Macros.h` |
| `aabb.dfy` | `Aabb` | `src/AABB.c` |
| `tilemap.dfy` | `TileMap` | `src/Map.c`, `src/Map.h` |
| `entity.dfy` | `Entities` | `src/Entity.c`, `src/Entity.h` |
| `background.dfy` | `Backgrounds` | `src/Background.c` |
| `config.dfy` | `Configs` | `src/Config.c` |
| `video.dfy` | `Videos` | `src/Video.c`, `src/Video.h` |
| `mainloop.dfy` | `MainLoop` | `_MainLoop` in `src/Main.c` |

Points where the code's behaviour or its declarations are easy to misread:

- **Touching boxes.** `AreIntersecting` treats boxes that only touch along an edge as intersecting, because `src/AABB.c:21-27` compares the gaps with a strict `>`. It rejects a pair only when a gap is strictly positive.
- **`InitEntity` arguments.** `InitEntity` is modelled with the four parameters `Entity.c` defines: height, width, x, y. The call in `Main.c` passes six arguments.
- **`DrawBackground` arguments.** `DrawBackground` is modelled with the two parameters `Background.c` defines. The main loop also passes the camera's y position, and the model drops that argument.
- **Entity bounding box.** The box `InitEntity` builds takes the entity's height as its left edge. `Entities.InitEntityBoxIsNotItsRectangle` states exactly when that box equals the entity's rectangle.

`src/Entity.h:77-90` declares `ResurrectEntity`, `SetEntitySpriteAnimation` and `UpdateEntity`, and the code gives none of them a definition; `UpdateEntity` survives only as a commented-out block. `IsEntityJumping` is neither declared nor defined: it appears only in the call at `src/Main.c:405`. The loop step takes `IsEntityJumping`, `ResurrectEntity` and `UpdateEntity` as function parameters (`EntityOps`). `SetEntitySpriteAnimation` is not a parameter: `src/Main.c:392-413` calls it up to three times per frame, each applicable call overriding the previous one, and the loop step reports only the last call's arguments as its result. Those calls are taken to leave the entity unchanged before `UpdateEntity` and `DrawEntity` see it.

The flag enum in `src/Entity.h:15-23` declares bit 5 as `ENTITY_IS_MOVING`. `src/Entity.c:163` uses the undeclared name `ENTITY_IS_IN_MOTION`, and `src/Main.c:239`, `291`, `297` and `398` use the undeclared `ENTITY_IS_TRAVELING`. The model reads both names as bit 5, `IS_MOVING`; `RespawnEntity`, `PollInput`, `ArrowKeys` and `ChooseAnimation` rest on that reading.

## Model

| member | source | states |
|---|---|---|
| Flags.SetBit | src/Macros.h:13 | the chosen bit is set afterwards and every other bit is unchanged |
| Flags.ClearBit | src/Macros.h:10 | the chosen bit is clear afterwards and every other bit is unchanged |
| Flags.ToggleBit | src/Macros.h:14 | the chosen bit is inverted and every other bit is unchanged |
| Flags.IsSet | src/Macros.h:12 | the shift-and-test reports a bit set exactly when the word has a one under that bit's mask |
| Flags.IsNotSet | src/Macros.h:11 | the shift-and-test reports a bit clear exactly when the word has a zero under that bit's mask |
| Flags.ShiftTestIsMaskTest | src/Macros.h:11-12 | shifting right by the bit index and testing the low bit agrees with masking by `1 << bit`, for each of the 16 bits |
| Flags.ToggleKeepsOtherBit | src/Macros.h:14 | toggling one bit leaves any other bit as it was |
| Flags.NotSetIsNegation | src/Macros.h:11-12 | FLAG_IS_NOT_SET holds exactly when FLAG_IS_SET does not |
| Flags.ToggleTwiceRestores | src/Macros.h:14 | toggling the same bit twice restores the word |
| Flags.SetIdempotent | src/Macros.h:13 | setting a bit twice is setting it once |
| Flags.ClearIdempotent | src/Macros.h:10 | clearing a bit twice is clearing it once |
| Flags.SetAndClearAreNoOpsWhenSettled | src/Macros.h:10-13 | setting a set bit or clearing a clear bit leaves the word as it was |
| Aabb.AreIntersecting | src/AABB.c:19-30 | the result is true exactly when the closed intervals of the two boxes overlap on both axes |
| Aabb.IntersectingIffSharePoint | src/AABB.c:21-29 | two well-formed boxes intersect exactly when some point lies in both |
| Aabb.Symmetric | src/AABB.c:21-29 | the test does not depend on argument order |
| Aabb.WellFormedIntersectsItself | src/AABB.c:21-29 | a well-formed box intersects itself |
| Aabb.TouchingEdgeIntersects | src/AABB.c:26-27 | boxes that share only an edge count as intersecting, because the gaps are compared with a strict `>` |
| Aabb.GapAfterSeparates | src/AABB.c:21-26 | a positive gap between A's right edge and B's left edge means no intersection |
| Aabb.GapBeforeSeparates | src/AABB.c:23-27 | a positive gap between B's right edge and A's left edge means no intersection |
| TileMap.InitMap | src/Map.c:178-222 | fails exactly when allocation or loading fails; otherwise the pixel size is the tile count times the tile size (32-bit), the map is at the origin, and all five cache slots are empty |
| TileMap.PixelWidth | src/Map.c:212 | the pixel width is the tile count times the tile width, reduced modulo 2^32 as the `uint32_t` product is |
| TileMap.PixelHeight | src/Map.c:211 | the pixel height is the tile count times the tile height, reduced modulo 2^32 |
| TileMap.InitMapIsValid | src/Map.c:178-222 | a map created from a well-formed TMX map has five cache slots and layers that match its grid, which every later query relies on |
| TileMap.ScaledBounds | src/Map.c:239-246 | comparing the scaled coordinates with the grid size is the same as comparing the pixel coordinates with the grid's pixel extent, where a column is one pixel wider than a tile |
| TileMap.CellAsWritten | src/Map.c:239-249 | the query coordinate is refused exactly when the scaled point is negative or strictly beyond the width or height; the accepted cell's column and row can equal the width and height; the accepted cell is the one whose pixel span holds the point, with columns tile width + 1 pixels wide and rows tile height pixels high |
| TileMap.CellAt | src/Map.c:239-249 | the corrected guard: a point is accepted exactly when its scaled coordinates are inside the grid, the accepted cell's index is below width × height, and the accepted cell is the one whose pixel span holds the point |
| TileMap.ScaledFloorsLocate | src/Map.c:239-256 | the floors of x / (tile width + 1) and y / tile height name the column and row whose pixel span holds the point |
| TileMap.CellAtIsTheSpanningCell | src/Map.c:239-256 | conversely, any grid cell whose pixel span holds the point is the cell the corrected query returns, so each point lands in exactly one cell |
| TileMap.CellIndexInRange | src/Map.c:256 | a cell inside the grid indexes inside the layer's gid array |
| TileMap.CellAtAgreesInsideGrid | src/Map.c:243-249 | the as-written and corrected guards give the same cell wherever the corrected one accepts, and differ only on the far edges |
| TileMap.AsWrittenGuardReadsPastLayer | src/Map.c:243-257 | on a 2×2 map of 16-pixel tiles the point (0, 32) passes the guard and reads index 4 of a 4-entry layer |
| TileMap.AsWrittenRightEdgeReadsNextRow | src/Map.c:243-257 | on the same map the point (34, 0) scales to column 2, passes the guard, and reads the first cell of the next row, where the corrected guard refuses it |
| TileMap.AsWrittenBottomEdgeOutOfRange | src/Map.c:243-257 | on any map, a point on the bottom edge passes the guard and indexes at or past the end of the layer |
| TileMap.QueryGid | src/Map.c:254-257 | masking the flip bits and narrowing to `uint16_t` leaves the gid modulo 2^16: the mask removes only bits the narrowing drops anyway |
| TileMap.ScanLayers | src/Map.c:251-272 | the layer walk is true exactly when some layer's tile at the cell has the given type |
| TileMap.IsMapCoordOfType | src/Map.c:233-273 | true exactly when the point lies in a grid cell and some layer's tile there has the given type; negative coordinates are never of any type |
| TileMap.Contains | src/Map.c:117 | `strstr` finds the pattern exactly when it occurs at some offset of the layer name |
| TileMap.CellIndexInverts | src/Map.c:123-134 | a cell's row-major index gives back its row and column by division and remainder |
| TileMap.CellBlit | src/Map.c:123-135 | a cell yields a copy exactly when its flip-masked gid names a tile; the copy takes the tileset, unflipped and unscaled, and lands at the cell's column times the tile width and row times the tile height |
| TileMap.CellBlits | src/Map.c:119-137 | every cell with a known tile yields its copy, and every copy comes from such a cell |
| TileMap.CompositeBlits | src/Map.c:110-141 | the layer texture holds exactly the copies of the visible layers whose names contain the pattern |
| TileMap.BackgroundRgb | src/Map.c:100-108 | the three channels are bytes that together spell the low 24 bits of the background colour |
| TileMap.WithSlot | src/Map.c:72 | storing a texture in one cache slot leaves the other slots and the map data unchanged |
| TileMap.DrawMap | src/Map.c:32-157 | a filled slot is drawn by one copy of the cached texture, offset by the camera; an empty slot is built in the order create, load tileset, set target, set the draw colour, copy the matching layers' tiles, reset target, blend; each failing call returns -1; the background colour is set only when asked for; other slots are untouched |
| TileMap.CacheNeverInvalidated | src/Map.c:45-70 | a filled cache slot stays filled with the same texture |
| TileMap.SecondDrawOnlyCopies | src/Map.c:45-70 | after a slot is filled, drawing it again only copies the cached texture |
| TileMap.CellBlitPlacement | src/Map.c:123-134 | the copy for row r and column c reads gid r·width + c and lands at (c·tile width, r·tile height) |
| Entities.InitEntity | src/Entity.c:90-125 | fails only when allocation fails; otherwise the entity sits at its spawn point at rest with no flags and the fixed physics constants |
| Entities.InitEntityBoxIsNotItsRectangle | src/Entity.c:104-122 | the initial bounding box equals the entity's rectangle only when it is at the origin with zero height |
| Entities.LoadEntitySprite | src/Entity.c:135-153 | returns 0 exactly when loading succeeds; the sprite is replaced and nothing else changes |
| Entities.RespawnEntity | src/Entity.c:160-166 | the entity is back at its spawn point with the dead and moving bits clear; every other bit and field is kept |
| Entities.RespawnIdempotent | src/Entity.c:160-166 | respawning twice equals respawning once |
| Entities.EntityBlit | src/Entity.c:45-63 | the copy takes the current frame's square from the sprite sheet's top row, lands at the camera-relative position with the entity's size, and is flipped exactly when the direction bit is set |
| Entities.DrawEntity | src/Entity.c:27-79 | without a sprite it returns -1 and draws nothing; otherwise one copy of the current frame at the camera-relative position, flipped exactly when the direction bit is set |
| Backgrounds.CeilingDivision | src/Background.c:50 | rounding a quotient up gives a multiple of the divisor at or above the dividend and less than one divisor above it |
| Backgrounds.WidthFactor | src/Background.c:50 | the width factor is the least number of image widths that covers the window |
| Backgrounds.LayerWidthBounds | src/Background.c:50-52 | the layer is a whole number of images, at least as wide as the window and less than one image wider |
| Backgrounds.ImageCopies | src/Background.c:75-84 | every copy is the whole image, unscaled and unflipped, on the top edge; the first starts at x = 0 and each next one starts one image width further |
| Backgrounds.RenderLayer | src/Background.c:23-103 | the layer exists exactly when every SDL call succeeds; it has the image's height, covers the window, and holds the image copies side by side |
| Backgrounds.InitBackground | src/Background.c:183-226 | fails when allocation or the layer fails; otherwise no flags, at the origin, at rest, sized as its layer |
| Backgrounds.WrapPosition | src/Background.c:126-134 | the position ends in [-w, w]; a position past one side jumps to the other side, and an in-range position is kept |
| Backgrounds.WrapIdempotent | src/Background.c:126-134 | wrapping a wrapped position changes nothing |
| Backgrounds.TwinPosition | src/Background.c:136-144 | the second copy sits one width below a positive position and one width above any other, so it lies on the other side and, for a wrapped position, stays within [-w, w] |
| Backgrounds.TwinCopiesCoverOneWidth | src/Background.c:136-144 | the second copy sits one width from the first, and together they cover the span from 0 to w |
| Backgrounds.Advance | src/Background.c:146-156 | a positive velocity moves the position by exactly that amount, in the direction the scroll bit gives; otherwise the position stays |
| Backgrounds.DrawBackground | src/Background.c:112-173 | a failed query returns -1 and changes nothing; otherwise the position is wrapped then advanced, and two copies are drawn at the wrapped position and its twin |
| Backgrounds.DrawKeepsPositionNearRange | src/Background.c:126-156 | after a draw the stored position lies within one velocity step of [-w, w] |
| Configs.Handler | src/Config.c:16-38 | returns 1 exactly for section "Video" with one of the five names, and sets only that field, narrowed to its width; anything else is ignored with 0 |
| Configs.LastEntryWins | src/Config.c:27-31 | after the whole file, each field holds its last matching entry's value, or its starting value if no entry matched |
| Configs.ApplyEntries | src/Config.c:25-56 | running the handler over a file whose entries all lie outside `[Video]` changes nothing |
| Configs.ApplyEntriesSnoc | src/Config.c:56 | handling one more trailing entry is one more handler call |
| Configs.Normalise | src/Config.c:61-63 | a negative fps, height or width becomes its absolute value when that fits; other values are kept |
| Configs.NormalisedFpsNonNegativeIff | src/Config.c:61 | fps ends non-negative exactly when it was not -128, which stays -128 |
| Configs.NormaliseIdempotent | src/Config.c:61-63 | normalising twice is normalising once |
| Configs.InitConfig | src/Config.c:46-66 | an empty file gives the defaults 800×600, windowed, fps 60, limit on; height, width and fps are non-negative unless they hit the narrowing corner case; fullscreen and the frame limit are not normalised |
| Videos.InitVideo | src/Video.c:26-118 | fails exactly when a setup call fails; otherwise stores the unclamped zoom as both current and initial level, and the desktop size in fullscreen mode |
| Videos.ClampZoom | src/Video.c:129-130 | the level is within [1, 4]; in-range levels are kept and out-of-range ones go to the nearer bound |
| Videos.ClampIdempotent | src/Video.c:129-130 | clamping twice is clamping once |
| Videos.ClampIsNearest | src/Video.c:129-130 | the clamped level is the point of [1, 4] nearest the request |
| Videos.SetVideoZoomLevel | src/Video.c:127-144 | the logical size asked for is the window divided by the clamped level, truncated toward zero into the call's `int` parameters; the level is stored only when that call succeeds, and the result is 0 exactly then |
| Videos.LogicalLength | src/Video.c:132-135 | the requested length is the whole number of zoomed pixels that fit in the window length, taken on that length's side of zero |
| Videos.LogicalWidthTruncates | src/Video.c:132-135 | an 800-pixel window at level 3 asks for a logical width of 266, not 266.67 |
| Common.Truncate | src/Video.c:132-135 | a double converted to an integer keeps the whole part: the floor for non-negative values and the ceiling for negative ones |
| Common.FloorLocates | src/Map.c:239-240 | a quotient's floor names the step of the divisor's width that holds the dividend |
| Common.FloorUnique | src/Map.c:239-240 | a step of the divisor's width that holds the dividend is the one the quotient's floor names |
| Videos.SetZoomSettles | src/Video.c:127-144 | after a successful call the level is in [1, 4] and repeating the call changes nothing |
| MainLoop.PollInput | src/Main.c:230-268 | Q wins over a quit event for the exit status; the moving bit is cleared; P pauses a running game and C resumes a paused one, each with its sounds |
| MainLoop.ZoomKeys | src/Main.c:270-287 | window size and initial level are kept; with a working renderer any zoom key leaves the level in [1, 4]; with a failing one, keys 1 and 2 still shift the level by the frame time |
| MainLoop.LeftKey | src/Main.c:289-293 | the left arrow sets the moving and direction bits and keeps every other bit |
| MainLoop.RightKey | src/Main.c:295-299 | the right arrow sets the moving bit, clears the direction bit and keeps every other bit |
| MainLoop.ArrowKeys | src/Main.c:289-299 | either arrow sets the moving bit; right wins over left for the direction; other bits are unchanged |
| MainLoop.JumpKey | src/Main.c:301-310 | space sets the jumping bit and plays the jump sound only when neither the jumping bit nor the mid-air bit is set |
| MainLoop.CentreOn | src/Main.c:313-323 | the view's centre is the entity's centre for an even entity size, and half a pixel short of it for an odd one, because the size is halved by integer division |
| MainLoop.ClampAxis | src/Main.c:331-353 | a negative coordinate goes to 0, one above the maximum goes to the maximum, and one in between is kept |
| MainLoop.ClampAxisIsNearest | src/Main.c:331-353 | the clamped camera coordinate is the point of [0, max] nearest the wanted one |
| MainLoop.FollowCamera | src/Main.c:313-353 | the bounds are the map size minus the zoomed window; x and y are clamped to them; the lock bit is set exactly when x needed clamping |
| MainLoop.ParallaxVelocities | src/Main.c:356-388 | the scroll bit is the negation of the direction bit, so backgrounds scroll towards +x exactly when the entity faces right; the nearest moves at half the entity's speed, or 0 when locked; background k moves at 1/(5-k) of that |
| MainLoop.ParallaxDepthOrder | src/Main.c:376-388 | with the camera free and a positive horizontal velocity, farther backgrounds move strictly more slowly |
| MainLoop.ParallaxScrollsWithFacing | src/Main.c:356-388 | with the camera free and a positive velocity, the next background draw moves every background towards +x exactly when the entity faces right |
| MainLoop.ChooseAnimation | src/Main.c:391-415 | the idling bit is set; mid air gives rising or falling, else moving gives walking, else idle |
| MainLoop.FloorContact | src/Main.c:418-429 | the mid-air bit is cleared exactly when the map reports "Floor" under the probe point; nothing else changes |
| MainLoop.DrawBackgrounds | src/Main.c:446-452 | each background is drawn in order and keeps its layer; when the query and copies succeed the screen holds two copies per background, and copies 2k and 2k+1 are exactly background k's two copies |
| MainLoop.Render | src/Main.c:446-476 | drawing touches only backgrounds and the map's slots 0 and 2; filled slots stay as they are; the screen opens with the five backgrounds' copies in order, and ends with the cached foreground copy when slot 2 is filled |
| MainLoop.Steered | src/Main.c:289-310 | the keys change only the moving, direction and jumping bits |
| MainLoop.Probed | src/Main.c:391-429 | before the revive check only the flags have changed, and the idling bit is set |
| MainLoop.DeadBitSurvives | src/Main.c:239-429 | no step before the revive check touches the dead bit |
| MainLoop.Prepare | src/Main.c:270-439 | the camera ends inside its bounds; a dead entity is resurrected before update; the death sound plays exactly when the entity was dead |
| MainLoop.Run | src/Main.c:270-476 | a running frame stays unpaused, keeps its exit status, hands UpdateEntity the probed entity (resurrected first when it entered dead), plays the death sound exactly then, and keeps the camera in bounds |
| MainLoop.Step | src/Main.c:221-486 | a paused frame only polls: no animation, no update, nothing drawn; a running frame updates the entity after the revive, and keeps the camera inside its bounds whenever the map is at least as large as the view; the pause and exit rules hold |
| MainLoop.StepUpdatesProbedEntity | src/Main.c:221-439 | in a running frame, UpdateEntity receives the polled and probed entity, passed through ResurrectEntity exactly when the entity entered the frame dead |
| MainLoop.StepRevivesDeadEntity | src/Main.c:432-439 | with RespawnEntity as the resurrection, a dead entity plays the death sound and reaches the update alive at its spawn point |

## Left out

- Rendering, windows, textures, audio and timing. SDL, SDL_image, SDL_mixer and libtmx are treated as external. Their outcomes are inputs, and the frame time `dt` is a parameter.
- The `Backend` record has one success flag per kind of call. It cannot describe, for example, the first of two copies succeeding and the second failing.
- Loading a TMX file and parsing an ini file. `InitMap` takes the loaded map as an `Option`, and `InitConfig` takes the entries the parser would hand to `_Handler`, with values already converted by `atoi`.
- `src/Audio.c` (music and sound effects). The loop step reports sound requests as `Sound` values.
- `UpdateEntity` and `ResurrectEntity` are declared but have no definitions, and `IsEntityJumping` is only called, never declared or defined, so the loop step takes these three as parameters.
- `SetEntitySpriteAnimation` is declared but has no definition. The model does not apply it: only the last call's arguments are reported, and the entity is taken to be unchanged by the calls.
- `ENTITY_IS_IN_MOTION` and `ENTITY_IS_TRAVELING` are undeclared in the source; the model takes both to be bit 5, `ENTITY_IS_MOVING`.
- The program's set-up and tear-down in `main`, and the free functions, because they only allocate or release resources.
- MainLoop.Step: requires the zoom level after the zoom keys to be non-zero. The source divides by it, and a failed `SetVideoZoomLevel` after key 1 can leave it at zero.
- Backgrounds.RenderLayer: requires a positive image width, and a window at most 255 image widths wide. Only then does the width factor fit the `uint8_t` that stores it.
- Backgrounds.WidthFactor: computes the ceiling on integers. For 32-bit operands, the `ceil` of a double quotient gives the same value.
- Configs.Normalise: `abs` of the most negative 32-bit height or width is undefined behaviour in C. The model wraps it back to that same value, and the contract says nothing about that case.
- Doubles are modelled as exact reals, and conversions from double to `int` in `SDL_Rect` fields are not modelled. Rectangles keep their real coordinates.
- The fields of `Entity` that `InitEntity` leaves unset are not modelled. The web build's branch (`__EMSCRIPTEN__`) is not modelled either: the model follows the desktop build, where Q quits.
- The renderer target after a failed target reset in `DrawMap` is not modelled. The model records only the status and the cache slot.

## Findings

| source | as written | input that shows it | evidently intended | confidence | as-written member | corrected member |
|---|---|---|---|---|---|---|
| src/Map.c:243-257 | the guard refuses a scaled point only when it is strictly greater than the map width or height, then indexes `row * width + col` | a 2×2 map of 16-pixel tiles: point (0, 32) has row 2, passes the guard and reads index 4 of a 4-entry layer; point (34, 0) has column 2, passes the guard and reads index 2, the first cell of the next row | refuse points at or beyond the far edges (`>=`) so the index stays below width × height | not executed | TileMap.AsWrittenGuardReadsPastLayer, TileMap.AsWrittenRightEdgeReadsNextRow | TileMap.CellAt |

`TileMap.CellAsWritten` models the guard as written. `TileMap.IsMapCoordOfType` and the main loop's floor probe use the corrected `TileMap.CellAt`.
