/** The player of the demo, `GameObject` in src/main.rs:17-121: a box with
    a vertical velocity and a grounded flag, moved once per frame by `update`.

    `update` is a method of the class `GameObject` that changes the fields
    step by step as the source does; its postcondition ties the new state to
    `Step`, the composition of one pure function per stage of the source's
    update. The properties of the stages are the contracts of those functions
    and the lemmas of module PlayerFacts. */
module Player {
  import opened Canvas
  import opened Level

  /** Physics constants (src/main.rs:5-6). `GROUND_LEVEL` (line 7) is never
      read by the source and has no counterpart here. */
  const GRAVITY: real := 0.25
  const JUMP_POWER: real := -10.0
  /** Horizontal distance covered per frame while a direction is held
      (src/main.rs:54, 57). */
  const SPEED: real := 2.0

  /** The keys `update` polls (src/main.rs:41, 53, 56): true while held. */
  datatype Keys = Keys(space: bool, w: bool, left: bool, a: bool, right: bool, d: bool)
  {
    predicate JumpHeld() { space || w }
    predicate LeftHeld() { left || a }
    predicate RightHeld() { right || d }
  }

  /** The part of the player that `update` changes. */
  datatype Kinematics = Kinematics(x: real, y: real, vy: real, onGround: bool)

  /** Jump trigger and gravity (src/main.rs:41-48): a grounded player
      holding jump is launched and then pulled down by one step of gravity;
      a grounded player that does not jump keeps its velocity; an airborne
      player gains one step of gravity. */
  function Accelerate(k: Kinematics, jump: bool): (r: Kinematics)
    ensures r.x == k.x && r.y == k.y
    ensures jump && k.onGround ==> r.vy == JUMP_POWER + GRAVITY && !r.onGround
    ensures !k.onGround ==> r.vy == k.vy + GRAVITY && !r.onGround
    ensures k.onGround && !jump ==> r == k
  {
    var launched := if jump && k.onGround then k.(vy := JUMP_POWER, onGround := false) else k;
    if !launched.onGround then launched.(vy := launched.vy + GRAVITY) else launched
  }

  /** The horizontal step of the frame (src/main.rs:50-58). */
  function Dx(keys: Keys): (r: real)
    ensures r == -SPEED || r == 0.0 || r == SPEED
    ensures r == 0.0 <==> keys.LeftHeld() == keys.RightHeld()
    ensures r > 0.0 <==> keys.RightHeld() && !keys.LeftHeld()
    ensures r < 0.0 <==> keys.LeftHeld() && !keys.RightHeld()
  {
    (if keys.LeftHeld() then -SPEED else 0.0) + (if keys.RightHeld() then SPEED else 0.0)
  }

  /** The horizontal world clamp (src/main.rs:62-66). */
  function ClampX(x: real, w: nat): (r: real)
    ensures w <= WIDTH ==> 0.0 <= r <= WIDTH as real - w as real
    ensures 0.0 <= x && x + w as real <= WIDTH as real ==> r == x
    ensures r == x || r == 0.0 || r == WIDTH as real - w as real
  {
    if x < 0.0 then 0.0
    else if x + w as real > WIDTH as real then WIDTH as real - w as real
    else x
  }

  /** Where a horizontal hit moves the player: against the platform's left
      edge when moving right, against its right edge when moving left. */
  function SnapX(p: Platform, w: nat, dx: real): real
  {
    if dx > 0.0 then p.x - w as real else p.x + p.width as real
  }

  /** One turn of the horizontal resolution loop (src/main.rs:69-79). */
  function HitX(x: real, y: real, w: nat, h: nat, dx: real, p: Platform): (r: real)
    ensures !Overlaps(x, y, w, h, p) || dx == 0.0 ==> r == x
    ensures Overlaps(x, y, w, h, p) && dx > 0.0 ==> r + w as real == p.x
    ensures Overlaps(x, y, w, h, p) && dx < 0.0 ==> r == p.x + p.width as real
  {
    if Overlaps(x, y, w, h, p) && dx != 0.0 then SnapX(p, w, dx) else x
  }

  /** The horizontal resolution loop over `ps` in list order
      (src/main.rs:68-80): the result is the starting position, or the snap
      position of one of the platforms; standing still never moves. */
  function ResolveX(x: real, y: real, w: nat, h: nat, dx: real, ps: seq<Platform>): (r: real)
    ensures dx == 0.0 ==> r == x
    ensures r == x || exists j :: 0 <= j < |ps| && r == SnapX(ps[j], w, dx)
  {
    if |ps| == 0 then x
    else HitX(ResolveX(x, y, w, h, dx, ps[..|ps| - 1]), y, w, h, dx, ps[|ps| - 1])
  }

  /** Unfolds the horizontal loop by its last turn. */
  lemma ResolveXSnoc(x: real, y: real, w: nat, h: nat, dx: real, ps: seq<Platform>, p: Platform)
    ensures ResolveX(x, y, w, h, dx, ps + [p]) == HitX(ResolveX(x, y, w, h, dx, ps), y, w, h, dx, p)
  {
    assert (ps + [p])[..|ps|] == ps;
  }

  /** The vertical world clamp after the move and the reset of `on_ground`
      (src/main.rs:82-92): above the top the player is put at 0 and stopped;
      below the floor it is put on the floor, stopped and grounded. */
  function ClampY(x: real, y: real, vy: real, h: nat): (r: Kinematics)
    ensures r.x == x
    ensures h <= HEIGHT ==> 0.0 <= r.y <= HEIGHT as real - h as real
    ensures y < 0.0 ==> r.y == 0.0 && r.vy == 0.0
    ensures r.onGround <==> 0.0 <= y && y + h as real > HEIGHT as real
    ensures r.onGround ==> r.y == HEIGHT as real - h as real && r.vy == 0.0
    ensures 0.0 <= y && y + h as real <= HEIGHT as real ==> r == Kinematics(x, y, vy, false)
  {
    if y < 0.0 then Kinematics(x, 0.0, 0.0, false)
    else if y + h as real > HEIGHT as real then Kinematics(x, HEIGHT as real - h as real, 0.0, true)
    else Kinematics(x, y, vy, false)
  }

  /** Where a vertical hit moves the player: on top of the platform when
      falling, under it when rising. */
  function SnapY(p: Platform, h: nat, dy: real): real
  {
    if dy > 0.0 then p.y - h as real else p.y + p.height as real
  }

  /** One turn of the vertical resolution loop (src/main.rs:95-108). */
  function HitY(k: Kinematics, w: nat, h: nat, dy: real, p: Platform): (r: Kinematics)
    ensures r.x == k.x
    ensures !Overlaps(k.x, k.y, w, h, p) || dy == 0.0 ==> r == k
    ensures Overlaps(k.x, k.y, w, h, p) && dy > 0.0 ==>
              r.y + h as real == p.y && r.vy == 0.0 && r.onGround
    ensures Overlaps(k.x, k.y, w, h, p) && dy < 0.0 ==>
              r.y == p.y + p.height as real && r.vy == 0.0 && r.onGround == k.onGround
  {
    if Overlaps(k.x, k.y, w, h, p) && dy != 0.0 then
      k.(y := SnapY(p, h, dy), vy := 0.0, onGround := if dy > 0.0 then true else k.onGround)
    else k
  }

  /** The vertical resolution loop over `ps` in list order
      (src/main.rs:94-109). */
  function ResolveY(k: Kinematics, w: nat, h: nat, dy: real, ps: seq<Platform>): (r: Kinematics)
    ensures r.x == k.x
    ensures dy == 0.0 ==> r == k
    ensures dy < 0.0 ==> r.onGround == k.onGround
    ensures r == k || (r.vy == 0.0 && exists j :: 0 <= j < |ps| && r.y == SnapY(ps[j], h, dy) &&
                                         k.x < ps[j].x + ps[j].width as real && k.x + w as real > ps[j].x)
    ensures dy > 0.0 && r != k ==> r.onGround
    ensures (k.onGround ==> k.vy == 0.0) ==> (r.onGround ==> r.vy == 0.0)
  {
    if |ps| == 0 then k
    else HitY(ResolveY(k, w, h, dy, ps[..|ps| - 1]), w, h, dy, ps[|ps| - 1])
  }

  /** Unfolds the vertical loop by its last turn. */
  lemma ResolveYSnoc(k: Kinematics, w: nat, h: nat, dy: real, ps: seq<Platform>, p: Platform)
    ensures ResolveY(k, w, h, dy, ps + [p]) == HitY(ResolveY(k, w, h, dy, ps), w, h, dy, p)
  {
    assert (ps + [p])[..|ps|] == ps;
  }

  /** One whole `update` (src/main.rs:40-110), stage by stage in the
      source's order. Whenever the player ends the frame grounded it ends it
      at rest. */
  function Step(k: Kinematics, w: nat, h: nat, keys: Keys, ps: seq<Platform>): (r: Kinematics)
    ensures r.onGround ==> r.vy == 0.0
  {
    var a := Accelerate(k, keys.JumpHeld());
    var dx, dy := Dx(keys), a.vy;
    var x1 := ClampX(a.x + dx, w);
    var x2 := ResolveX(x1, a.y, w, h, dx, ps);
    ResolveY(ClampY(x2, a.y + dy, a.vy, h), w, h, dy, ps)
  }

  class GameObject {
    var x: real
    var y: real
    /** Size and colour are never changed after construction. */
    const width: nat
    const height: nat
    const color: u32
    var velocityY: real
    var onGround: bool

    function State(): Kinematics
      reads this
    {
      Kinematics(x, y, velocityY, onGround)
    }

    /** `GameObject::new` (src/main.rs:28-38): at rest and airborne. */
    constructor (x: real, y: real, width: nat, height: nat, color: u32)
      ensures State() == Kinematics(x, y, 0.0, false)
      ensures this.width == width && this.height == height && this.color == color
    {
      this.x, this.y := x, y;
      this.width, this.height, this.color := width, height, color;
      velocityY, onGround := 0.0, false;
    }

    /** `GameObject::update` (src/main.rs:40-110) with the window's key
        state passed in as `keys`. Its three stages are the methods below,
        called in the source's order. */
    method Update(keys: Keys, platforms: seq<Platform>)
      modifies this
      ensures State() == Step(old(State()), width, height, keys, platforms)
    {
      ApplyJumpAndGravity(keys.JumpHeld());

      var dx := 0.0;
      var dy := velocityY;
      if keys.LeftHeld() {
        dx := dx - SPEED;
      }
      if keys.RightHeld() {
        dx := dx + SPEED;
      }
      assert dx == Dx(keys);

      MoveHorizontally(dx, platforms);
      MoveVertically(dy, platforms);
    }

    /** The jump trigger and gravity (src/main.rs:41-48). */
    method ApplyJumpAndGravity(jump: bool)
      modifies this
      ensures State() == Accelerate(old(State()), jump)
    {
      if jump && onGround {
        velocityY := JUMP_POWER;
        onGround := false;
      }
      if !onGround {
        velocityY := velocityY + GRAVITY;
      }
    }

    /** The horizontal move, world clamp and platform resolution
        (src/main.rs:60-80); only `x` changes. */
    method MoveHorizontally(dx: real, platforms: seq<Platform>)
      modifies this
      ensures State() == old(State()).(x := ResolveX(ClampX(old(x) + dx, width), old(y), width, height, dx, platforms))
    {
      x := x + dx;
      if x < 0.0 {
        x := 0.0;
      } else if x + width as real > WIDTH as real {
        x := WIDTH as real - width as real;
      }

      ghost var x1 := x;
      for i := 0 to |platforms|
        invariant x == ResolveX(x1, y, width, height, dx, platforms[..i])
        invariant y == old(y) && velocityY == old(velocityY) && onGround == old(onGround)
      {
        var p := platforms[i];
        if x < p.x + p.width as real && x + width as real > p.x
          && y < p.y + p.height as real && y + height as real > p.y
        {
          if dx > 0.0 {
            x := p.x - width as real;
          } else if dx < 0.0 {
            x := p.x + p.width as real;
          }
        }
        assert platforms[..i + 1] == platforms[..i] + [p];
        ResolveXSnoc(x1, y, width, height, dx, platforms[..i], p);
      }
      assert platforms[..|platforms|] == platforms;
    }

    /** The vertical move, the reset of `on_ground`, the world clamp and
        platform resolution (src/main.rs:82-109); `x` does not change. */
    method MoveVertically(dy: real, platforms: seq<Platform>)
      modifies this
      ensures State() == ResolveY(ClampY(old(x), old(y) + dy, old(velocityY), height), width, height, dy, platforms)
    {
      y := y + dy;
      onGround := false;
      if y < 0.0 {
        y := 0.0;
        velocityY := 0.0;
      } else if y + height as real > HEIGHT as real {
        y := HEIGHT as real - height as real;
        velocityY := 0.0;
        onGround := true;
      }

      ghost var c := State();
      for i := 0 to |platforms|
        invariant State() == ResolveY(c, width, height, dy, platforms[..i])
      {
        var p := platforms[i];
        ghost var before := State();
        if x < p.x + p.width as real && x + width as real > p.x
          && y < p.y + p.height as real && y + height as real > p.y
        {
          if dy > 0.0 {
            y := p.y - height as real;
            velocityY := 0.0;
            onGround := true;
          } else if dy < 0.0 {
            y := p.y + p.height as real;
            velocityY := 0.0;
          }
          assert Overlaps(before.x, before.y, width, height, p);
        } else {
          assert !Overlaps(before.x, before.y, width, height, p);
        }
        assert State() == HitY(before, width, height, dy, p);
        assert platforms[..i + 1] == platforms[..i] + [p];
        ResolveYSnoc(c, width, height, dy, platforms[..i], p);
      }
      assert platforms[..|platforms|] == platforms;
    }

    /** `GameObject::draw` (src/main.rs:112-120). */
    method Draw(buffer: array<u32>)
      requires buffer.Length == WIDTH * HEIGHT
      modifies buffer
      ensures buffer[..] == Paint(old(buffer[..]), x, y, width, height, color)
    {
      PaintRect(buffer, x, y, width, height, color);
    }
  }
}
