/** The first-person camera: mouse look with a clamped pitch and a free yaw,
    walking in the horizontal plane along the yaw, and direct vertical steps. */
module Camera {
  import World

  /** The keys the camera reads: W, S, A, D, Space and left Shift. */
  datatype Keys = Keys(forward: bool, backward: bool, strafeLeft: bool, strafeRight: bool, up: bool, down: bool)

  const NoKeys: Keys := Keys(false, false, false, false, false, false)

  /** Position, orientation in degrees, and the per-frame tuning constants. */
  datatype Camera = Camera(x: real, y: real, z: real, pitch: real, yaw: real, speed: real, sensitivity: real)

  const PITCH_LIMIT: real := 89.0

  /** Sine and cosine of the yaw, in radians, after the frame's rotation has
      been applied; supplied by the caller, as the trigonometry is. */
  datatype Heading = Heading(sin: real, cos: real)

  /** One frame of input: held keys, mouse motion in pixels, and the heading
      of the rotated camera. */
  datatype Input = Input(keys: Keys, mouseDx: int, mouseDy: int, heading: Heading)

  /** The starting camera for a world of the given size: over the middle
      column (half the width and depth, rounded down), 5 above the top, level. */
  function Initial(cfg: World.Config): (c: Camera)
    ensures c.pitch == 0.0 && c.yaw == 0.0
    ensures c.speed == 0.1 && c.sensitivity == 0.2
    ensures c.y == cfg.height as real + 5.0
    ensures c.x == c.x.Floor as real && 2.0 * c.x <= cfg.width as real <= 2.0 * c.x + 1.0
    ensures c.z == c.z.Floor as real && 2.0 * c.z <= cfg.depth as real <= 2.0 * c.z + 1.0
  {
    Camera((cfg.width / 2) as real, (cfg.height + 5) as real, (cfg.depth / 2) as real, 0.0, 0.0, 0.1, 0.2)
  }

  function Min(a: real, b: real): real {
    if b < a then b else a
  }

  function Max(a: real, b: real): real {
    if b > a then b else a
  }

  /** max(-89, min(89, v)). */
  function ClampPitch(v: real): (r: real)
    ensures -PITCH_LIMIT <= r <= PITCH_LIMIT
    ensures -PITCH_LIMIT <= v <= PITCH_LIMIT ==> r == v
    ensures v > PITCH_LIMIT ==> r == PITCH_LIMIT
    ensures v < -PITCH_LIMIT ==> r == -PITCH_LIMIT
  {
    Max(-PITCH_LIMIT, Min(PITCH_LIMIT, v))
  }

  /** +1 when only the first of two opposing keys is held, -1 when only the
      second is, 0 when both or neither are. */
  function Axis(plus: bool, minus: bool): real {
    (if plus then 1.0 else 0.0) - (if minus then 1.0 else 0.0)
  }

  /** Horizontal step for the held walking keys along the given heading,
      one key at a time as the program applies them. In closed form: W/S
      move along (-sin, -cos) and D/A along (cos, -sin), each scaled by the
      speed and the key pair's direction. */
  function Walk(keys: Keys, h: Heading, speed: real): (d: (real, real))
    ensures var fb := Axis(keys.forward, keys.backward);
            var rl := Axis(keys.strafeRight, keys.strafeLeft);
            && d.0 == (rl * h.cos - fb * h.sin) * speed
            && d.1 == -(fb * h.cos + rl * h.sin) * speed
  {
    var dx0 := 0.0;
    var dz0 := 0.0;
    var dx1 := if keys.forward then dx0 - h.sin * speed else dx0;
    var dz1 := if keys.forward then dz0 - h.cos * speed else dz0;
    var dx2 := if keys.backward then dx1 + h.sin * speed else dx1;
    var dz2 := if keys.backward then dz1 + h.cos * speed else dz1;
    var dx3 := if keys.strafeRight then dx2 + h.cos * speed else dx2;
    var dz3 := if keys.strafeRight then dz2 - h.sin * speed else dz2;
    var dx4 := if keys.strafeLeft then dx3 - h.cos * speed else dx3;
    var dz4 := if keys.strafeLeft then dz3 + h.sin * speed else dz3;
    (dx4, dz4)
  }

  /** One frame: rotate by the mouse motion (both axes inverted), clamp the
      pitch, then move. Space raises and Shift lowers the camera by one step. */
  function Update(c: Camera, input: Input): (c': Camera)
    ensures -PITCH_LIMIT <= c'.pitch <= PITCH_LIMIT
    ensures c'.pitch == ClampPitch(c.pitch - input.mouseDy as real * c.sensitivity)
    ensures c'.yaw == c.yaw - input.mouseDx as real * c.sensitivity
    ensures (c'.x - c.x, c'.z - c.z) == Walk(input.keys, input.heading, c.speed)
    ensures c'.speed == c.speed && c'.sensitivity == c.sensitivity
    ensures c'.y - c.y == (if input.keys.up then c.speed else 0.0) - (if input.keys.down then c.speed else 0.0)
  {
    var yaw := c.yaw - input.mouseDx as real * c.sensitivity;
    var pitch := ClampPitch(c.pitch - input.mouseDy as real * c.sensitivity);
    var y1 := if input.keys.up then c.y + c.speed else c.y;
    var y2 := if input.keys.down then y1 - c.speed else y1;
    var d := Walk(input.keys, input.heading, c.speed);
    Camera(c.x + d.0, y2, c.z + d.1, pitch, yaw, c.speed, c.sensitivity)
  }

  /** The camera after a sequence of frames. */
  function Run(c: Camera, inputs: seq<Input>): Camera
    decreases |inputs|
  {
    if |inputs| == 0 then c else Run(Update(c, inputs[0]), inputs[1..])
  }

  /** Sum of the horizontal mouse motion over a sequence of frames. */
  function SumDx(inputs: seq<Input>): int
    decreases |inputs|
  {
    if |inputs| == 0 then 0 else inputs[0].mouseDx + SumDx(inputs[1..])
  }

  /** After any non-empty run the pitch is within +-89 degrees, and the yaw
      is the unclamped running total of the mouse motion. */
  lemma {:induction false} RunOrientation(c: Camera, inputs: seq<Input>)
    ensures Run(c, inputs).yaw == c.yaw - SumDx(inputs) as real * c.sensitivity
    ensures Run(c, inputs).sensitivity == c.sensitivity && Run(c, inputs).speed == c.speed
    ensures |inputs| > 0 ==> -PITCH_LIMIT <= Run(c, inputs).pitch <= PITCH_LIMIT
    decreases |inputs|
  {
    if |inputs| > 0 {
      var c1 := Update(c, inputs[0]);
      RunOrientation(c1, inputs[1..]);
      if |inputs| > 1 {
        assert -PITCH_LIMIT <= Run(c1, inputs[1..]).pitch <= PITCH_LIMIT;
      }
    }
  }

  /** An idle frame, no keys and no mouse motion. */
  predicate Idle(input: Input) {
    input.keys == NoKeys && input.mouseDx == 0 && input.mouseDy == 0
  }

  /** Idle frames leave a camera with a legal pitch exactly where it was. */
  lemma {:induction false} IdleRunIsStill(c: Camera, inputs: seq<Input>)
    requires -PITCH_LIMIT <= c.pitch <= PITCH_LIMIT
    requires forall i :: 0 <= i < |inputs| ==> Idle(inputs[i])
    ensures Run(c, inputs) == c
    decreases |inputs|
  {
    if |inputs| > 0 {
      assert Idle(inputs[0]);
      assert Update(c, inputs[0]) == c;
      IdleRunIsStill(c, inputs[1..]);
    }
  }

  /** With only W held and the heading of yaw 0 (sin 0, cos 1) the camera
      walks one step towards -z. The heading alone decides the direction, so
      neither the camera's yaw nor the mouse motion enters the premise. */
  lemma ForwardAtZeroYaw(c: Camera, input: Input)
    requires input.keys == NoKeys.(forward := true)
    requires input.heading == Heading(0.0, 1.0)
    ensures Update(c, input).x == c.x && Update(c, input).y == c.y && Update(c, input).z == c.z - c.speed
  {
  }

  /** Walking with one key held moves exactly one step, whatever the heading. */
  lemma WalkStepLength(keys: Keys, h: Heading, speed: real)
    requires h.sin * h.sin + h.cos * h.cos == 1.0
    requires !keys.backward && !keys.strafeLeft && !keys.strafeRight
    requires keys.forward
    ensures var d := Walk(keys, h, speed); d.0 * d.0 + d.1 * d.1 == speed * speed
  {
  }

  /** W and S together cancel, whatever else is held, and so do A and D. */
  lemma OppositeKeysCancel(keys: Keys, h: Heading, speed: real)
    ensures keys.forward && keys.backward ==>
              Walk(keys, h, speed) == Walk(keys.(forward := false, backward := false), h, speed)
    ensures keys.strafeLeft && keys.strafeRight ==>
              Walk(keys, h, speed) == Walk(keys.(strafeLeft := false, strafeRight := false), h, speed)
    ensures keys.forward && keys.backward && keys.strafeLeft && keys.strafeRight ==>
              Walk(keys, h, speed) == (0.0, 0.0)
  {
  }
}
