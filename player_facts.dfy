/** Properties of one player `update` (src/main.rs:40-110), stated about the
    function `Player.Step` that `GameObject.Update` is proved to compute. */
module PlayerFacts {
  import opened Canvas
  import opened Level
  import opened Player

  /** In the horizontal loop, platform `j` is tested against the position the
      earlier platforms left behind and overlaps it. */
  predicate HitsX(x: real, y: real, w: nat, h: nat, dx: real, ps: seq<Platform>, j: nat)
    requires j < |ps|
  {
    Overlaps(ResolveX(x, y, w, h, dx, ps[..j]), y, w, h, ps[j])
  }

  /** In the vertical loop, platform `j` overlaps the state the earlier
      platforms left behind. */
  predicate HitsY(k: Kinematics, w: nat, h: nat, dy: real, ps: seq<Platform>, j: nat)
    requires j < |ps|
  {
    var before := ResolveY(k, w, h, dy, ps[..j]);
    Overlaps(before.x, before.y, w, h, ps[j])
  }

  /** Horizontal resolution, last overlapping platform wins
      (src/main.rs:68-80): when moving, the final position is the snap
      position of the last platform found overlapping in list order. */
  lemma {:induction false} ResolveXLastHit(x: real, y: real, w: nat, h: nat, dx: real, ps: seq<Platform>, j: nat)
    requires dx != 0.0 && j < |ps|
    requires HitsX(x, y, w, h, dx, ps, j)
    requires forall m :: j < m < |ps| ==> !HitsX(x, y, w, h, dx, ps, m)
    ensures dx > 0.0 ==> ResolveX(x, y, w, h, dx, ps) == ps[j].x - w as real
    ensures dx < 0.0 ==> ResolveX(x, y, w, h, dx, ps) == ps[j].x + ps[j].width as real
  {
    var n := |ps|;
    var front := ps[..n - 1];
    assert front[..j] == ps[..j];
    if j < n - 1 {
      assert !HitsX(x, y, w, h, dx, ps, n - 1);
      forall m | j < m < n - 1
        ensures !HitsX(x, y, w, h, dx, front, m)
      {
        assert front[..m] == ps[..m];
        assert !HitsX(x, y, w, h, dx, ps, m);
      }
      ResolveXLastHit(x, y, w, h, dx, front, j);
    }
  }

  /** A position that overlaps no platform is kept by horizontal resolution. */
  lemma {:induction false} ResolveXNoOverlap(x: real, y: real, w: nat, h: nat, dx: real, ps: seq<Platform>)
    requires forall p | p in ps :: !Overlaps(x, y, w, h, p)
    ensures ResolveX(x, y, w, h, dx, ps) == x
  {
    if |ps| > 0 {
      var front := ps[..|ps| - 1];
      assert forall p | p in front :: p in ps;
      ResolveXNoOverlap(x, y, w, h, dx, front);
      assert ps[|ps| - 1] in ps;
    }
  }

  /** Vertical resolution, last overlapping platform wins
      (src/main.rs:94-109): falling ends on top of that platform, at rest and
      grounded; rising ends under it, at rest, with the grounded flag it had. */
  lemma {:induction false} ResolveYLastHit(k: Kinematics, w: nat, h: nat, dy: real, ps: seq<Platform>, j: nat)
    requires dy != 0.0 && j < |ps|
    requires HitsY(k, w, h, dy, ps, j)
    requires forall m :: j < m < |ps| ==> !HitsY(k, w, h, dy, ps, m)
    ensures dy > 0.0 ==> ResolveY(k, w, h, dy, ps) == Kinematics(k.x, ps[j].y - h as real, 0.0, true)
    ensures dy < 0.0 ==> ResolveY(k, w, h, dy, ps) == Kinematics(k.x, ps[j].y + ps[j].height as real, 0.0, k.onGround)
  {
    var n := |ps|;
    var front := ps[..n - 1];
    assert front[..j] == ps[..j];
    if j < n - 1 {
      assert !HitsY(k, w, h, dy, ps, n - 1);
      forall m | j < m < n - 1
        ensures !HitsY(k, w, h, dy, front, m)
      {
        assert front[..m] == ps[..m];
        assert !HitsY(k, w, h, dy, ps, m);
      }
      ResolveYLastHit(k, w, h, dy, front, j);
    }
  }

  /** A state whose box overlaps no platform is kept by vertical resolution. */
  lemma {:induction false} ResolveYNoOverlap(k: Kinematics, w: nat, h: nat, dy: real, ps: seq<Platform>)
    requires forall p | p in ps :: !Overlaps(k.x, k.y, w, h, p)
    ensures ResolveY(k, w, h, dy, ps) == k
  {
    if |ps| > 0 {
      var front := ps[..|ps| - 1];
      assert forall p | p in front :: p in ps;
      ResolveYNoOverlap(k, w, h, dy, front);
      assert ps[|ps| - 1] in ps;
    }
  }

  /** Without horizontal input (none, or both directions at once) a player
      inside the world keeps its column: the clamp and the platform loop
      leave it alone, so repeated frames against a world edge stay put. */
  lemma StandingStillKeepsX(k: Kinematics, w: nat, h: nat, keys: Keys, ps: seq<Platform>)
    requires keys.LeftHeld() == keys.RightHeld()
    requires 0.0 <= k.x && k.x + w as real <= WIDTH as real
    ensures Step(k, w, h, keys, ps).x == k.x
  {
  }

  /** No tunnelling through the floor: however far one frame's move carries
      the player below the floor, it ends the frame standing on the floor, at
      rest and grounded, provided no platform overlaps the box standing on the
      floor in the column the player ends in. */
  lemma FloorCatchesOvershoot(k: Kinematics, w: nat, h: nat, keys: Keys, ps: seq<Platform>)
    requires h <= HEIGHT
    requires var a := Accelerate(k, keys.JumpHeld()); a.y + a.vy + h as real > HEIGHT as real
    requires forall p | p in ps :: !Overlaps(Step(k, w, h, keys, ps).x, HEIGHT as real - h as real, w, h, p)
    ensures var r := Step(k, w, h, keys, ps);
            r.y == HEIGHT as real - h as real && r.vy == 0.0 && r.onGround
  {
    var a := Accelerate(k, keys.JumpHeld());
    var dx := Dx(keys);
    var x2 := ResolveX(ClampX(a.x + dx, w), a.y, w, h, dx, ps);
    var c := ClampY(x2, a.y + a.vy, a.vy, h);
    ResolveYNoOverlap(c, w, h, a.vy, ps);
  }

  /** The frame that starts at the top of the screen falling at 500 pixels
      per frame, for a player 250 pixels tall beside the level's platforms:
      it is caught by the floor. */
  lemma TallBodyOvershootHitsFloor()
    ensures Step(Kinematics(100.0, 0.0, 500.0, false), 50, 250, Keys(false, false, false, false, false, false), WorldPlatforms())
         == Kinematics(100.0, 470.0, 0.0, true)
  {
    var k, keys := Kinematics(100.0, 0.0, 500.0, false), Keys(false, false, false, false, false, false);
    assert Step(k, 50, 250, keys, WorldPlatforms()).x == 100.0;
    FloorCatchesOvershoot(k, 50, 250, keys, WorldPlatforms());
  }

  /** The same frame for the level's own 50 by 50 player: 500.25 pixels of
      fall do not reach the floor, so the player is still in the air. */
  lemma DefaultBodyOvershootStaysAirborne()
    ensures Step(Kinematics(100.0, 0.0, 500.0, false), 50, 50, Keys(false, false, false, false, false, false), WorldPlatforms())
         == Kinematics(100.0, 500.25, 500.25, false)
  {
    var c := ClampY(100.0, 500.25, 500.25, 50);
    ResolveYNoOverlap(c, 50, 50, 500.25, WorldPlatforms());
  }

  /** A player resting on the floor does not stay grounded: the overlap and
      floor tests are strict, so a frame without input ends with `on_ground`
      false, and the next frame's gravity step pushes it below the floor and
      the clamp grounds it again. The grounded flag alternates frame by frame. */
  lemma {:induction false} RestingOnFloorAlternates(x: real, w: nat, h: nat, keys: Keys, ps: seq<Platform>)
    requires w <= WIDTH && h <= HEIGHT
    requires 0.0 <= x && x + w as real <= WIDTH as real
    requires !keys.JumpHeld() && keys.LeftHeld() == keys.RightHeld()
    requires forall p | p in ps :: !Overlaps(x, HEIGHT as real - h as real, w, h, p)
    ensures var rest := Kinematics(x, HEIGHT as real - h as real, 0.0, true);
            Step(rest, w, h, keys, ps) == rest.(onGround := false) &&
            Step(rest.(onGround := false), w, h, keys, ps) == rest
  {
    var rest := Kinematics(x, HEIGHT as real - h as real, 0.0, true);
    var c := ClampY(x, HEIGHT as real - h as real + GRAVITY, GRAVITY, h);
    ResolveYNoOverlap(c, w, h, GRAVITY, ps);
  }

  /** A player ends a frame grounded only on the floor, or on top of a
      platform it fell onto and whose columns it shares, provided it started
      the frame no lower than the floor allows; and grounded always means at
      rest. */
  lemma GroundedOnFloorOrPlatform(k: Kinematics, w: nat, h: nat, keys: Keys, ps: seq<Platform>)
    requires k.y + h as real <= HEIGHT as real
    ensures var r := Step(k, w, h, keys, ps);
            r.onGround ==>
              (r.vy == 0.0 &&
               (r.y == HEIGHT as real - h as real ||
                (Accelerate(k, keys.JumpHeld()).vy > 0.0 &&
                 exists j :: 0 <= j < |ps| && r.y == ps[j].y - h as real &&
                             r.x < ps[j].x + ps[j].width as real && r.x + w as real > ps[j].x)))
  {
  }

  /** The world clamp does not bound the end of the frame for every platform
      list: a platform snap comes after it and is not clamped again. A 50
      pixel wide player already overlapping a platform whose left edge is 10
      pixels from the world's left edge, and walking right, ends at x = -40. */
  lemma PlatformSnapCanLeaveWorld()
    ensures Step(Kinematics(8.0, 100.0, 0.0, false), 50, 50, Keys(false, false, false, false, true, false),
                 [Platform(10.0, 90.0, 100, 20, 0x00FF00)]).x == -40.0
  {
  }

  /** In the level built by `main`, every snap position of the 50 by 50
      player lies inside the world, so whatever state a frame starts from,
      it ends with the player inside the world on both axes. */
  lemma LevelKeepsPlayerInWorld(k: Kinematics, keys: Keys)
    ensures var r := Step(k, 50, 50, keys, WorldPlatforms());
            0.0 <= r.x <= WIDTH as real - 50.0 && 0.0 <= r.y <= HEIGHT as real - 50.0
  {
    var ps := WorldPlatforms();
    forall j, d: real | 0 <= j < |ps| && d != 0.0
      ensures 0.0 <= SnapX(ps[j], 50, d) <= WIDTH as real - 50.0
      ensures 0.0 <= SnapY(ps[j], 50, d) <= HEIGHT as real - 50.0
    {
      assert ps[j] in ps;
    }
  }
}
