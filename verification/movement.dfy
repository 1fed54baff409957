/**
 Per-frame player movement rules: velocity chosen from the four arrow keys,
 and the world-wrap teleport that sends a player who left the 800x600 world
 to the opposite edge.
 */
module Movement {
  import opened World

  /** Player speed along one axis, in units per second. */
  const Speed: int := 150

  /** Which arrow keys are held this frame. */
  datatype Keys = Keys(left: bool, right: bool, up: bool, down: bool)

  datatype Velocity = Velocity(vx: int, vy: int)

  const Still: Velocity := Velocity(0, 0)

  /** The velocity set by one frame: zero both axes, then apply left, right,
      up and down in that order, each overwriting its axis. Hence right beats
      left and down beats up, and the axes never influence each other. */
  function SelectVelocity(k: Keys): (v: Velocity)
    ensures v.vx == Speed <==> k.right
    ensures v.vx == -Speed <==> k.left && !k.right
    ensures v.vx == 0 <==> !k.left && !k.right
    ensures v.vy == Speed <==> k.down
    ensures v.vy == -Speed <==> k.up && !k.down
    ensures v.vy == 0 <==> !k.up && !k.down
  {
    var afterLeft := if k.left then Still.(vx := -Speed) else Still;
    var afterRight := if k.right then afterLeft.(vx := Speed) else afterLeft;
    var afterUp := if k.up then afterRight.(vy := -Speed) else afterRight;
    if k.down then afterUp.(vy := Speed) else afterUp
  }

  /** Horizontal keys never change the vertical speed and vice versa. */
  lemma AxesIndependent(k: Keys, k': Keys)
    ensures k.left == k'.left && k.right == k'.right ==> SelectVelocity(k).vx == SelectVelocity(k').vx
    ensures k.up == k'.up && k.down == k'.down ==> SelectVelocity(k).vy == SelectVelocity(k').vy
  {
  }

  /** Both axes can be set in one frame, so all four diagonals occur. */
  lemma DiagonalsReachable(sx: int, sy: int)
    requires sx == Speed || sx == -Speed
    requires sy == Speed || sy == -Speed
    ensures exists k :: SelectVelocity(k) == Velocity(sx, sy)
  {
    var k := Keys(sx == -Speed, sx == Speed, sy == -Speed, sy == Speed);
    assert SelectVelocity(k) == Velocity(sx, sy);
  }

  /** The teleport along one axis of extent `size`: below 0 lands on the far
      edge, beyond `size` lands on 0, anything in between is left alone. */
  function WrapAxis(c: real, size: real): (r: real)
    requires 0.0 <= size
    ensures 0.0 <= r <= size
    ensures c < 0.0 ==> r == size
    ensures c > size ==> r == 0.0
    ensures 0.0 <= c <= size ==> r == c
  {
    if c < 0.0 then size
    else if c > size then 0.0
    else c
  }

  predicate InWorld(p: Point)
  {
    0.0 <= p.x <= Width && 0.0 <= p.y <= Height
  }

  /** The teleport applied to a position, x against the width and y against
      the height; the result is always inside the world. */
  function Wrap(p: Point): (q: Point)
    ensures InWorld(q)
    ensures InWorld(p) <==> q == p
  {
    Point(WrapAxis(p.x, Width), WrapAxis(p.y, Height))
  }

  /** Wrapping twice is wrapping once. */
  lemma WrapIdempotent(p: Point)
    ensures Wrap(Wrap(p)) == Wrap(p)
  {
  }

  /** The x coordinate does not influence the wrapped y, nor y the wrapped x. */
  lemma WrapAxesIndependent(p: Point, q: Point)
    ensures p.x == q.x ==> Wrap(p).x == Wrap(q).x
    ensures p.y == q.y ==> Wrap(p).y == Wrap(q).y
  {
  }
}
