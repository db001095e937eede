/** The player entity (src/Entity.c): creation, respawn and the sprite copy
    that draws it. */
module Entities {
  import opened Common
  import opened Flags
  import opened Aabb

  /** Bits of the entity flag word (enum EntityFlags). Entity.c and Main.c
      also use ENTITY_IS_IN_MOTION and ENTITY_IS_TRAVELING, which the enum
      does not declare; the model reads both as IS_MOVING, bit 5. */
  const DIRECTION: Bit := 0
  const IS_DEAD: Bit := 1
  const IS_IDLING: Bit := 2
  const IS_IN_MID_AIR: Bit := 3
  const IS_JUMPING: Bit := 4
  const IS_MOVING: Bit := 5

  /** A loaded sprite sheet. */
  datatype Sprite = Sprite(path: string)

  /** The fields of the Entity record that InitEntity initialises and the
      main loop reads. */
  datatype Entity = Entity(
    acceleration: real,
    flags: Word,
    height: U8,
    width: U8,
    velocityMax: real,
    worldGravitation: real,
    worldPosX: real,
    worldPosY: real,
    frame: U8,
    bb: Box,
    initialWorldPosX: real,
    initialWorldPosY: real,
    sprite: Option<Sprite>,
    velocityX: real,
    velocityY: real)

  /** InitEntity as Entity.c defines it: height first, then width, then the
      spawn position. `allocOk` is whether malloc succeeds. */
  function InitEntity(height: U8, width: U8, posX: real, posY: real, allocOk: bool): (r: Option<Entity>)
    ensures r.Some? <==> allocOk
    ensures r.Some? ==> var e := r.value;
      && e.worldPosX == posX && e.worldPosY == posY
      && e.initialWorldPosX == posX && e.initialWorldPosY == posY
      && e.velocityX == 0.0 && e.velocityY == 0.0
      && e.flags == 0 && e.frame == 0 && e.sprite.None?
      && e.height == height && e.width == width
      && e.acceleration == 400.0 && e.velocityMax == 100.0 && e.worldGravitation == 9.81
      // the box takes the height as its left edge: it is not the entity's rectangle
      && e.bb == Box(0.0, height as real, width as real, 0.0)
  {
    if !allocOk then None
    else Some(Entity(
      acceleration := 400.0,
      flags := 0,
      height := height,
      width := width,
      velocityMax := 100.0,
      worldGravitation := 9.81,
      worldPosX := posX,
      worldPosY := posY,
      frame := 0,
      bb := Box(0.0, height as real, width as real, 0.0),
      initialWorldPosX := posX,
      initialWorldPosY := posY,
      sprite := None,
      velocityX := 0.0,
      velocityY := 0.0))
  }

  /** The box InitEntity builds equals the rectangle the entity occupies
      (bottom posY + height, left posX, right posX + width, top posY)
      exactly when the entity sits at the origin with zero height. */
  lemma InitEntityBoxIsNotItsRectangle(height: U8, width: U8, posX: real, posY: real)
    ensures var e := InitEntity(height, width, posX, posY, true).value;
      e.bb == Box(posY + height as real, posX, posX + width as real, posY)
      <==> posX == 0.0 && posY == 0.0 && height == 0
  {
  }

  /** LoadEntitySprite: replaces the sprite; a failed load leaves none. */
  function LoadEntitySprite(e: Entity, path: string, loadOk: bool): (r: (Entity, int))
    ensures r.1 == 0 <==> loadOk
    ensures r.1 == 0 || r.1 == -1
    ensures r.0.sprite == (if loadOk then Some(Sprite(path)) else None)
    ensures r.0 == e.(sprite := r.0.sprite)
  {
    if loadOk then (e.(sprite := Some(Sprite(path))), 0) else (e.(sprite := None), -1)
  }

  /** RespawnEntity: back to the spawn point, alive and not moving. */
  function RespawnEntity(e: Entity): (r: Entity)
    ensures IsNotSet(r.flags, IS_DEAD) && IsNotSet(r.flags, IS_MOVING)
    ensures forall c: Bit :: c != IS_DEAD && c != IS_MOVING ==> (IsSet(r.flags, c) <==> IsSet(e.flags, c))
    ensures r.worldPosX == e.initialWorldPosX && r.worldPosY == e.initialWorldPosY
    ensures r == e.(flags := r.flags, worldPosX := r.worldPosX, worldPosY := r.worldPosY)
  {
    var flags := ClearBit(ClearBit(e.flags, IS_DEAD), IS_MOVING);
    e.(flags := flags, worldPosX := e.initialWorldPosX, worldPosY := e.initialWorldPosY)
  }

  /** Respawning twice is respawning once: the spawn point and velocities are
      not touched. */
  lemma RespawnIdempotent(e: Entity)
    ensures RespawnEntity(RespawnEntity(e)) == RespawnEntity(e)
  {
  }

  /** Dividing the frame's offset by the frame width gives back the frame. */
  lemma FrameOffsetDivides(frame: int, width: int)
    ensures width > 0 ==> (frame * width) as real / width as real == frame as real
  {
    if width > 0 {
      assert (frame * width) as real == frame as real * width as real;
    }
  }

  /** The sprite copy DrawEntity issues. */
  function EntityBlit(e: Entity, camX: real, camY: real): (b: Blit)
    ensures b.image == SpriteImage
    ensures b.src.Some? && b.src.value.y == 0.0 && b.src.value.w == e.width && b.src.value.h == e.width
    ensures e.width > 0 ==> b.src.value.x / e.width as real == e.frame as real
    ensures b.dst.x + camX == e.worldPosX && b.dst.y + camY == e.worldPosY
    ensures b.dst.w == e.width && b.dst.h == e.height
    ensures b.flipH <==> IsSet(e.flags, DIRECTION)
  {
    FrameOffsetDivides(e.frame as int, e.width as int);
    Blit(SpriteImage,
         Some(Rect((e.frame * e.width) as real, 0.0, e.width, e.width)),
         Rect(e.worldPosX - camX, e.worldPosY - camY, e.width, e.height),
         IsSet(e.flags, DIRECTION))
  }

  /** DrawEntity: returns its status and what reached the screen. */
  function DrawEntity(e: Entity, camX: real, camY: real, copyOk: bool): (r: (int, seq<Blit>))
    ensures e.sprite.None? ==> r == (-1, [])
    ensures e.sprite.Some? ==> (r.0 == 0 <==> copyOk) && (r.0 == 0 || r.0 == -1)
    ensures r.0 == 0 ==>
      && |r.1| == 1
      && r.1[0].src == Some(Rect((e.frame * e.width) as real, 0.0, e.width, e.width))
      && r.1[0].dst.x + camX == e.worldPosX && r.1[0].dst.y + camY == e.worldPosY
      && r.1[0].dst.w == e.width && r.1[0].dst.h == e.height
      && (r.1[0].flipH <==> IsSet(e.flags, DIRECTION))
    ensures r.0 != 0 ==> r.1 == []
  {
    if e.sprite.None? then (-1, [])
    else if !copyOk then (-1, [])
    else (0, [EntityBlit(e, camX, camY)])
  }
}
