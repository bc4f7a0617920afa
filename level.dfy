/** The static platforms of the level (src/main.rs:9-15, 123-143) and the
    axis-aligned box test the player's update runs against them. */
module Level {
  import opened Canvas

  /** A platform never moves, so it is a value. Rust's `Platform::new`
      (src/main.rs:124-132) only copies its arguments; the datatype
      constructor `Platform(x, y, width, height, color)` is that function. */
  datatype Platform = Platform(x: real, y: real, width: nat, height: nat, color: u32)
  {
    /** Paints the platform into the screen buffer (src/main.rs:134-142). */
    method Draw(buffer: array<u32>)
      requires buffer.Length == WIDTH * HEIGHT
      modifies buffer
      ensures buffer[..] == Paint(old(buffer[..]), x, y, width, height, color)
    {
      PaintRect(buffer, x, y, width, height, color);
    }
  }

  /** The strict overlap test of src/main.rs:69-72 and 95-98 between a body
      of size w by h at (x, y) and a platform: boxes that only touch along an
      edge do not overlap. */
  predicate Overlaps(x: real, y: real, w: nat, h: nat, p: Platform)
    ensures x + w as real == p.x || p.x + p.width as real == x ==> !Overlaps(x, y, w, h, p)
    ensures y + h as real == p.y || p.y + p.height as real == y ==> !Overlaps(x, y, w, h, p)
  {
    x < p.x + p.width as real && x + w as real > p.x &&
    y < p.y + p.height as real && y + h as real > p.y
  }

  /** The level built by `main` (src/main.rs:154-161). */
  function WorldPlatforms(): (ps: seq<Platform>)
    ensures |ps| == 6
    ensures forall p | p in ps :: p.width == 100 && p.height == 20
    ensures forall p | p in ps ::
      0.0 <= p.x && p.x + p.width as real <= WIDTH as real &&
      0.0 <= p.y && p.y + p.height as real <= HEIGHT as real
  {
    [ Platform(200.0, 600.0, 100, 20, 0x00FF00),
      Platform(300.0, 500.0, 100, 20, 0x00FF00),
      Platform(500.0, 400.0, 100, 20, 0x00FF00),
      Platform(700.0, 300.0, 100, 20, 0x00FF00),
      Platform(900.0, 200.0, 100, 20, 0x00FF00),
      Platform(1100.0, 150.0, 100, 20, 0x0000FF) ]
  }
}
