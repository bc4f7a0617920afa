# LeapEngine player step and rectangle painting, in Dafny

LeapEngine is a small 2D platformer demo written in Rust on top of the
`minifb` window crate. A single 50 by 50 player box falls under gravity,
walks left and right, jumps off the ground, and collides with six static
platforms. Each frame it is painted into a 1280 by 720 software pixel buffer.

This project models the player's per-frame update (`GameObject::update`),
the rectangle painting used by `GameObject::draw` and `Platform::draw`, the
two record types with their constructors, and the body of one frame of the
main loop. It proves properties of that model with the Dafny verifier.

Modules:

- `Canvas` (canvas.dfy): the world size, the `as usize` cast (`Trunc`), the
  set of cells a body covers (`Covers`), the buffer after painting (`Paint`),
  the in-place painter `PaintRect` with its nested loops, and `Clear`.
- `Level` (level.dfy): the `Platform` value type with its `Draw`, the strict
  box-overlap test, and the level's six platforms.
- `Player` (player.dfy): the key state, the stage functions of one update
  (`Accelerate`, `Dx`, `ClampX`, `ResolveX`, `ClampY`, `ResolveY`), their
  composition `Step`, and the class `GameObject`. Its `Update` changes the
  fields step by step like the Rust code and is proved to produce
  `Step(old state)`.
- `PlayerFacts` (player_facts.dfy): lemmas about `Step`. They cover
  last-overlap-wins resolution, floor catching, standing still, the grounded
  flag, and the absence of a bounds invariant.
- `Frame` (frame.dfy): one frame of the main loop (update, clear, paint the
  player, paint the platforms in order) and the overdraw order.

Representation choices:

- `f32` positions and velocities are `real`, `usize` sizes are `nat`, and
  `u32` colours are a subset type of `int`.
- The Rust cast `v as usize` truncates and saturates negatives to 0. It is
  `Trunc`, so a body at negative x is painted starting at column 0, not
  clipped on the left.
- The `&Window` key queries become a `Keys` record of the six polled keys:
  Space, W, Left, A, Right and D.
- `update` is one Rust function. Here `Update` calls three methods that
  keep the source's statements and order: lines 41-48, lines 60-80, and
  lines 82-109. The computation of `dx` and `dy` stays in `Update` itself.

Three behaviours of the code are worth stating outright:

- There is no bounds invariant over a whole update for every platform list.
  One might expect `0 <= x <= 1280 - width` and `0 <= y <= 720 - height`
  after every update. The code clamps only before the platform loops, and a
  platform snap is not clamped again. A player already overlapping a
  platform near the left edge can end a frame at negative x
  (`PlayerFacts.PlatformSnapCanLeaveWorld`). The clamp bounds are proved
  where they hold, on `ClampX` and `ClampY`. For the level's own platforms
  and its 50 by 50 player, every snap lands inside the world, so the bounds
  do hold after every frame (`PlayerFacts.LevelKeepsPlayerInWorld`).
- Starting at `y = 0` with `velocity_y = 500`, a body reaches the floor only
  if it is taller than 219.75 pixels. The level's 50 by 50 player ends that
  frame airborne at `y = 500.25` (`DefaultBodyOvershootStaysAirborne`). A
  250-pixel-tall body is caught by the floor (`TallBodyOvershootHitsFloor`).
- A player at rest on the floor does not stay grounded. The floor and
  overlap tests are strict comparisons, so it alternates between grounded
  and airborne on successive frames (`RestingOnFloorAlternates`).

## Model

| member | source | states |
|---|---|---|
| Canvas.Trunc | src/main.rs:113-114 | the `as usize` cast of a coordinate: 0 for negative values, otherwise the integer part |
| Canvas.PaintAtCell | src/main.rs:112-120 | after painting, on-screen cell (row, col) holds the colour exactly when it lies in the truncated rectangle; otherwise it keeps its old value |
| Canvas.NegativeOriginShifts | src/main.rs:113-114 | for every position, a body covers the same cells as one with each negative coordinate replaced by 0: a body left of or above the screen is shifted, not clipped |
| Canvas.PaintRect | src/main.rs:113-119 | the nested painting loops write only in-bounds cells; the buffer afterwards is the old buffer with the covered cells set to the colour and all other cells unchanged |
| Canvas.Clear | src/main.rs:166-168 | every cell of the buffer is 0 afterwards |
| Level.Platform.Draw | src/main.rs:134-142 | paints the platform's truncated, clipped rectangle and changes no other cell |
| Level.Overlaps | src/main.rs:69-72 | the strict box test: a body that only touches a platform along an edge, horizontally or vertically, does not overlap it |
| Level.WorldPlatforms | src/main.rs:154-161 | the level's six platforms, each 100 by 20 and lying inside the 1280 by 720 world |
| Player.Accelerate | src/main.rs:41-48 | jump held while grounded launches the player airborne with velocity JUMP_POWER + GRAVITY; an airborne player gains GRAVITY; a grounded player not jumping keeps its velocity |
| Player.Dx | src/main.rs:50-58 | the horizontal step is -2, 0 or +2; it is 0 exactly when left and right are both held or both released, +2 exactly when only right is held |
| Player.ClampX | src/main.rs:60-66 | the clamped x lies in [0, WIDTH - width] when the body fits; a position already inside is kept |
| Player.HitX | src/main.rs:69-79 | one turn of the horizontal loop: no overlap or dx = 0 keeps x; moving right puts the player's right edge on the platform's left edge; moving left puts its left edge on the platform's right edge |
| Player.ResolveX | src/main.rs:68-80 | horizontal resolution ends at the start position or at a platform's snap position; with dx = 0 it never moves |
| Player.ClampY | src/main.rs:82-92 | the clamped y lies in [0, HEIGHT - height]; above the top the player stops at y = 0; the player is grounded exactly when it went below the floor, and then stands on the floor at rest |
| Player.HitY | src/main.rs:95-108 | one turn of the vertical loop: no overlap or dy = 0 changes nothing; falling puts the bottom edge on the platform's top, stops and grounds the player; rising puts the top edge at the platform's bottom and stops it, keeping the grounded flag; x never changes |
| Player.ResolveY | src/main.rs:94-109 | vertical resolution keeps x; with dy = 0 nothing changes; a rising player keeps its grounded flag; any change stops the player at the snap position of a platform whose columns it shares; falling hits ground it; grounded-implies-at-rest is preserved |
| Player.Step | src/main.rs:40-110 | a player that ends the update grounded has velocity 0 |
| Player.GameObject.constructor | src/main.rs:28-38 | a new player has the given position, size and colour, velocity 0, and is not grounded |
| Player.GameObject.Update | src/main.rs:40-110 | the fields x, y, velocity_y and on_ground end as Step of their old values, for the held keys and the platform list |
| Player.GameObject.ApplyJumpAndGravity | src/main.rs:41-48 | the state becomes Accelerate of the old state |
| Player.GameObject.MoveHorizontally | src/main.rs:60-80 | only x changes: it is clamped, then resolved against the platforms in list order |
| Player.GameObject.MoveVertically | src/main.rs:82-109 | x is unchanged; y, velocity_y and on_ground become the clamped and then platform-resolved state |
| Player.GameObject.Draw | src/main.rs:112-120 | paints the player's truncated, clipped rectangle and changes no other cell |
| PlayerFacts.ResolveXLastHit | src/main.rs:68-80 | when moving, the last platform found overlapping in list order decides x: moving right puts x at platform.x - width; moving left puts x at platform.x + platform.width |
| PlayerFacts.ResolveXNoOverlap | src/main.rs:68-80 | a position that overlaps no platform is left unchanged by horizontal resolution |
| PlayerFacts.ResolveYLastHit | src/main.rs:94-109 | the last platform found overlapping decides the outcome; falling lands on its top (y = platform.y - height, velocity 0, grounded); rising stops under it (y = platform.y + platform.height, velocity 0, grounded flag unchanged) |
| PlayerFacts.ResolveYNoOverlap | src/main.rs:94-109 | a state whose box overlaps no platform is left unchanged by vertical resolution |
| PlayerFacts.StandingStillKeepsX | src/main.rs:50-80 | with no net horizontal input, a player inside the world keeps its x through the whole update |
| PlayerFacts.FloorCatchesOvershoot | src/main.rs:82-109 | a move that would carry the player below the floor ends on the floor, at rest and grounded, when no platform overlaps the box standing on the floor in the player's final column |
| PlayerFacts.TallBodyOvershootHitsFloor | src/main.rs:82-92 | from y = 0 with velocity 500, a 250-pixel-tall body beside the level's platforms ends at y = 470, at rest and grounded (an instance of FloorCatchesOvershoot) |
| PlayerFacts.DefaultBodyOvershootStaysAirborne | src/main.rs:82-92 | from y = 0 with velocity 500, a 50-pixel-tall body ends at y = 500.25, still falling and not grounded |
| PlayerFacts.RestingOnFloorAlternates | src/main.rs:46-92 | a player resting on the floor with no input ends the next frame ungrounded at the same place, and is grounded again the frame after |
| PlayerFacts.GroundedOnFloorOrPlatform | src/main.rs:83-109 | a player starting no lower than the floor ends grounded only when at rest, either on the floor, or falling onto a platform whose columns it shares with its bottom edge on that platform's top |
| PlayerFacts.PlatformSnapCanLeaveWorld | src/main.rs:60-80 | the horizontal snap after the clamp can leave the world: a 50-wide player already overlapping a platform whose left edge is at x = 10, walking right, ends at x = -40 |
| PlayerFacts.LevelKeepsPlayerInWorld | src/main.rs:60-109 | with the level's platforms, a 50 by 50 player ends every frame inside the world on both axes, from any starting state |
| Frame.PaintPlatforms | src/main.rs:171-173 | painting the platforms in order keeps the screen size, and every cell ends either unchanged or holding some platform's colour |
| Frame.PaintPlatformsLastCoverWins | src/main.rs:171-173 | a cell shows the colour of the last platform in list order that covers it |
| Frame.PaintPlatformsUncovered | src/main.rs:171-173 | a cell that no platform covers keeps the colour beneath it |
| Frame.RenderFrame | src/main.rs:164-173 | one frame advances the player by Step; the buffer then holds the player painted on a cleared screen with the platforms painted over it in list order |

## Left out

- The `minifb` window is not modelled: its creation, `is_key_down`,
  `is_open`, `update_with_buffer`, and the panics when creation or
  presentation fails (src/main.rs:148-151, 175). These are foreign I/O. The
  key state enters as the `Keys` parameter.
- The `while` loop of `main` and its exit test (src/main.rs:163) are not
  modelled. One iteration of its body is `Frame.RenderFrame`.
- `f32` rounding is not modelled. Positions and velocities are exact reals.
  NaN and infinite values do not arise in the model.
- Canvas.Trunc does not model the saturation of `as usize` at `usize::MAX`,
  because coordinates are unbounded reals here.
- Canvas.PaintRect does not model the `usize` overflow of
  `self.x as usize + self.width` and `self.y as usize + self.height`
  (src/main.rs:113-114, 135-136). It can happen only when a coordinate is
  near `usize::MAX`. A debug build panics there. A release build wraps to an
  empty range and paints nothing, as the model does, since every cell such a
  coordinate covers is off screen.
- Canvas.PaintRect requires a buffer of exactly WIDTH * HEIGHT cells. The
  only caller, `main`, allocates that size (src/main.rs:146). A shorter
  slice would make the Rust indexing panic.
- `GROUND_LEVEL` (src/main.rs:7) is never read by the code and is not modelled.
- There is no bounds invariant over whole updates for arbitrary platform
  lists, because the code does not keep one (see
  `PlayerFacts.PlatformSnapCanLeaveWorld`). The bounds are proved for the
  clamp steps, and for whole frames only in the level built by `main` with
  its 50 by 50 player (`PlayerFacts.LevelKeepsPlayerInWorld`).
- The many-frame fall of the 50 by 50 player in the level is not computed
  frame by frame. Its resting behaviour on the floor is the two-frame cycle
  of `PlayerFacts.RestingOnFloorAlternates`.
