/** The body of one iteration of the frame loop in `main`
    (src/main.rs:164-173): update the player, clear the screen, paint the
    player, then paint the platforms in list order. */
module Frame {
  import opened Canvas
  import opened Level
  import opened Player

  /** The screen after painting the platforms of `ps` in order over `s`. */
  function PaintPlatforms(s: seq<u32>, ps: seq<Platform>): (r: seq<u32>)
    ensures |r| == |s|
    ensures forall i :: 0 <= i < |s| ==> r[i] == s[i] || exists j :: 0 <= j < |ps| && r[i] == ps[j].color
  {
    if |ps| == 0 then s
    else
      var p := ps[|ps| - 1];
      Paint(PaintPlatforms(s, ps[..|ps| - 1]), p.x, p.y, p.width, p.height, p.color)
  }

  /** A cell shows the colour of the last platform in list order that covers
      it: later platforms overdraw earlier ones. */
  lemma {:induction false} PaintPlatformsLastCoverWins(s: seq<u32>, ps: seq<Platform>, i: nat, j: nat)
    requires i < |s| && j < |ps|
    requires Covers(ps[j].x, ps[j].y, ps[j].width, ps[j].height, i)
    requires forall m :: j < m < |ps| ==> !Covers(ps[m].x, ps[m].y, ps[m].width, ps[m].height, i)
    ensures PaintPlatforms(s, ps)[i] == ps[j].color
  {
    var n := |ps|;
    var front := ps[..n - 1];
    if j < n - 1 {
      PaintPlatformsLastCoverWins(s, front, i, j);
    }
  }

  /** A cell no platform covers keeps what was under it. */
  lemma {:induction false} PaintPlatformsUncovered(s: seq<u32>, ps: seq<Platform>, i: nat)
    requires i < |s|
    requires forall m :: 0 <= m < |ps| ==> !Covers(ps[m].x, ps[m].y, ps[m].width, ps[m].height, i)
    ensures PaintPlatforms(s, ps)[i] == s[i]
  {
    if |ps| > 0 {
      PaintPlatformsUncovered(s, ps[..|ps| - 1], i);
    }
  }

  /** One frame: the player's state advances by one `Step`, and the screen
      holds the player painted over a cleared screen with the platforms
      painted over both. */
  method RenderFrame(player: GameObject, keys: Keys, platforms: seq<Platform>, buffer: array<u32>)
    requires buffer.Length == WIDTH * HEIGHT
    modifies player, buffer
    ensures player.State() == Step(old(player.State()), player.width, player.height, keys, platforms)
    ensures buffer[..] == PaintPlatforms(Paint(Blank(), player.x, player.y, player.width, player.height, player.color), platforms)
  {
    player.Update(keys, platforms);
    Clear(buffer);
    player.Draw(buffer);
    ghost var withPlayer := buffer[..];
    for i := 0 to |platforms|
      modifies buffer
      invariant buffer[..] == PaintPlatforms(withPlayer, platforms[..i])
    {
      platforms[i].Draw(buffer);
      assert platforms[..i + 1][..i] == platforms[..i];
    }
    assert platforms[..|platforms|] == platforms;
  }
}
