/** Host-side control of the voxel renderer (`VoxelRendererImpl` in voxels.cpp): the pause and
    single-step switches, the ping-pong between the two physics buffer sets, and the click
    state of the picker. The GPU work itself is only recorded, as the sequence of
    `physicsStep` dispatches issued. */
module Renderer {
  import opened NDArray

  /** `PHYS_STEPS_PER_FRAME` and `SLOWDOWN_FACTOR`. */
  const PhysStepsPerFrame: nat := 2
  const SlowdownFactor: nat := 1

  /** The GLFW codes the listeners compare against. */
  const Release: int := 0
  const Press: int := 1
  const MouseButtonLeft: int := 0

  /** The two physics buffer sets `physBuf1` and `physBuf2`. */
  datatype Buffer = Buf1 | Buf2

  /** One `physicsStep(in, out)` dispatch: the integrator reads `input` and writes `output`. */
  datatype Dispatch = Dispatch(input: Buffer, output: Buffer)

  /** The two switches of the physics loop: `paused` and `doingStep`. */
  datatype Control = Control(paused: bool, doingStep: bool)

  datatype Vec3 = Vec3(x: real, y: real, z: real)

  /** `ClickData`: the selected cube (-1 for none), its depth on screen and the offset from
      the cube to the cursor in world space. */
  datatype ClickData = ClickData(cubeSel: int, screenDepth: real, worldOffset: Vec3)

  /** The default-constructed `ClickData`. */
  const NoClick := ClickData(-1, 1.0, Vec3(0.0, 0.0, 0.0))

  newtype byte = x: int | 0 <= x < 256

  /** The red, green and blue bytes of the pixel read back under the cursor. */
  datatype Pixel = Pixel(r: byte, g: byte, b: byte)

  /** The picker's clear colour. */
  const White := Pixel(255, 255, 255)

  // ---------------------------------------------------------------------------
  // Physics stepping

  /** `stepsToDo`: one iteration for a single step, otherwise enough iterations of two
      dispatches each for `PhysStepsPerFrame / SlowdownFactor` dispatches per frame. */
  function StepsToDo(doingStep: bool): (n: nat)
    ensures doingStep ==> n == 1
    ensures !doingStep ==> 2 * n * SlowdownFactor == PhysStepsPerFrame
  {
    if doingStep then 1 else PhysStepsPerFrame / 2 / SlowdownFactor
  }

  /** The dispatches of n iterations of the loop body `physicsStep(physBuf1, physBuf2);
      physicsStep(physBuf2, physBuf1)`. */
  function PingPong(n: nat): seq<Dispatch>
  {
    if n == 0 then [] else PingPong(n - 1) + [Dispatch(Buf1, Buf2), Dispatch(Buf2, Buf1)]
  }

  /** The ping-pong chain: 2n dispatches, each writing the other buffer set than it reads,
      each reading what the previous one wrote, starting from and ending in `physBuf1`. */
  lemma {:induction false} PingPongChain(n: nat)
    ensures |PingPong(n)| == 2 * n
    ensures n > 0 ==> PingPong(n)[0].input == Buf1 && PingPong(n)[2 * n - 1].output == Buf1
    ensures forall k :: 0 <= k < |PingPong(n)| ==> PingPong(n)[k].input != PingPong(n)[k].output
    ensures forall k :: 0 <= k < |PingPong(n)| - 1 ==> PingPong(n)[k].output == PingPong(n)[k + 1].input
  {
    if n > 0 {
      PingPongChain(n - 1);
      var prev, pair := PingPong(n - 1), [Dispatch(Buf1, Buf2), Dispatch(Buf2, Buf1)];
      assert PingPong(n) == prev + pair;
      forall k | 0 <= k < |prev + pair|
        ensures (prev + pair)[k] == if k < |prev| then prev[k] else pair[k - |prev|]
      {
      }
    }
  }

  /** `doPhysics` on the switches: nothing while paused without a pending step; otherwise
      the switches after it and the dispatches it issues. */
  function Physics(c: Control): (r: (Control, seq<Dispatch>))
    ensures r.0.paused == c.paused && !r.0.doingStep
    ensures r.1 == [] <==> c.paused && !c.doingStep
    ensures c.doingStep ==> r.1 == [Dispatch(Buf1, Buf2), Dispatch(Buf2, Buf1)]
    ensures !c.paused && !c.doingStep ==> |r.1| * SlowdownFactor == PhysStepsPerFrame
    ensures r.1 != [] ==> r.1[0].input == Buf1 && r.1[|r.1| - 1].output == Buf1
    ensures forall k :: 0 <= k < |r.1| ==> r.1[k].input != r.1[k].output
    ensures forall k :: 0 <= k < |r.1| - 1 ==> r.1[k].output == r.1[k + 1].input
  {
    if c.paused && !c.doingStep then (c, [])
    else
      PingPongChain(StepsToDo(c.doingStep));
      (Control(c.paused, false), PingPong(StepsToDo(c.doingStep)))
  }

  /** The key listener for P: a press toggles `paused`. */
  function KeyP(c: Control, action: int): (r: Control)
    ensures r.doingStep == c.doingStep
    ensures r.paused != c.paused <==> action == Press
  {
    if action == Press then Control(!c.paused, c.doingStep) else c
  }

  /** The key listener for '.': a press pauses and asks for a single step. */
  function KeyPeriod(c: Control, action: int): (r: Control)
    ensures action == Press ==> r.paused && r.doingStep
    ensures action != Press ==> r == c
  {
    if action == Press then Control(true, true) else c
  }

  /** Pressing P twice leaves the switches as they were. */
  lemma KeyPTwice(c: Control)
    ensures KeyP(KeyP(c, Press), Press) == c
  {
  }

  /** Single stepping: after '.', the next frame runs exactly one pair of dispatches, ending in
      `physBuf1`, and the frame after that runs none. */
  lemma SingleStep(c: Control)
    ensures var (c1, d1) := Physics(KeyPeriod(c, Press));
      && c1 == Control(true, false)
      && d1 == [Dispatch(Buf1, Buf2), Dispatch(Buf2, Buf1)]
      && Physics(c1).1 == []
  {
  }

  // ---------------------------------------------------------------------------
  // Picking

  /** The face id `getClickPos` decodes from the picked pixel, as written:
      r + g * 0xFF + b * 0xFFFF. Its largest value, that of white, lies below 0xFFFFFF, so the
      background test can never succeed. */
  function FaceId(p: Pixel): (id: nat)
    ensures id <= 16776705 && id != 0xFFFFFF
  {
    p.r as int + p.g as int * 0xFF + p.b as int * 0xFFFF
  }

  /** `getClickPos` from the picked pixel on: the background id leaves the click state alone,
      any other id selects the cube owning that face. The cube's depth on screen and the world
      offset to the cursor are floating-point projections computed from the cube's position
      and the camera; they are passed in. */
  function Pick(faceCubes: seq<nat>, click: ClickData, p: Pixel, depth: real, offset: Vec3): (r: ClickData)
    requires FaceId(p) == 0xFFFFFF || FaceId(p) < |faceCubes|
    ensures r.cubeSel == faceCubes[FaceId(p)] && r.screenDepth == depth && r.worldOffset == offset
  {
    var id := FaceId(p);
    if id == 0xFFFFFF then click else ClickData(faceCubes[id], depth, offset)
  }

  /** The click listener on the click state: a left-button press picks, a left-button release
      (`mouseUp`) resets to the defaults, anything else leaves it alone. */
  function Clicked(faceCubes: seq<nat>, click: ClickData, button: int, action: int, p: Pixel, depth: real, offset: Vec3): (r: ClickData)
    requires button == MouseButtonLeft && action == Press ==> FaceId(p) == 0xFFFFFF || FaceId(p) < |faceCubes|
    ensures button != MouseButtonLeft ==> r == click
    ensures button == MouseButtonLeft && action == Release ==> r == NoClick
    ensures button == MouseButtonLeft && action == Press ==> r.cubeSel == faceCubes[FaceId(p)]
    ensures button == MouseButtonLeft && action != Press && action != Release ==> r == click
  {
    if button != MouseButtonLeft then click
    else if action == Press then Pick(faceCubes, click, p, depth, offset)
    else if action == Release then NoClick
    else click
  }

  /** Press then release: whatever was picked, the click state is back to its defaults. */
  lemma ClickReleased(faceCubes: seq<nat>, click: ClickData, p: Pixel, q: Pixel, depth: real, offset: Vec3)
    requires FaceId(p) < |faceCubes|
    ensures var down := Clicked(faceCubes, click, MouseButtonLeft, Press, p, depth, offset);
      && down.cubeSel in faceCubes
      && Clicked(faceCubes, down, MouseButtonLeft, Release, q, depth, offset) == NoClick
  {
  }

  /** As written, the clear colour does not decode to the background id 0xFFFFFF. */
  lemma WhiteMissesBackground()
    ensures FaceId(White) == 16776705
    ensures FaceId(White) != 0xFFFFFF
  {
  }

  /** As written, the decode is not one-to-one: pure red and the darkest green give the same id. */
  lemma FaceIdCollides()
    ensures FaceId(Pixel(255, 0, 0)) == FaceId(Pixel(0, 1, 0)) == 255
  {
  }

  /** The base-256 encoding of a face id below 2^24 as a colour: the base-256 decode reads
      the id back, and only the background id is painted white. */
  function Encode(id: nat): (p: Pixel)
    requires id < 0x100_0000
    ensures FaceIdBase256(p) == id
    ensures p == White <==> id == 0xFFFFFF
  {
    Pixel((id % 0x100) as byte, (id / 0x100 % 0x100) as byte, (id / 0x1_0000) as byte)
  }

  /** Base-256 face id of a colour: r + g * 0x100 + b * 0x10000. */
  function FaceIdBase256(p: Pixel): (id: nat)
    ensures id < 0x100_0000
  {
    p.r as int + p.g as int * 0x100 + p.b as int * 0x1_0000
  }

  /** The encoding inverts the base-256 decode, and white decodes to the background id. */
  lemma Base256RoundTrip(p: Pixel)
    ensures Encode(FaceIdBase256(p)) == p
    ensures FaceIdBase256(White) == 0xFFFFFF
  {
    Base256Injective(Encode(FaceIdBase256(p)), p);
  }

  /** The base-256 decode is one-to-one. */
  lemma Base256Injective(p: Pixel, q: Pixel)
    ensures FaceIdBase256(p) == FaceIdBase256(q) <==> p == q
  {
    if FaceIdBase256(p) == FaceIdBase256(q) {
      var lowP, lowQ := p.r as int + p.g as int * 0x100, q.r as int + q.g as int * 0x100;
      DigitsUnique(p.b as int, lowP, q.b as int, lowQ, 0x1_0000);
      DigitsUnique(p.g as int, p.r as int, q.g as int, q.r as int, 0x100);
    }
  }

  /** Two-digit numbers in a base are equal only digit by digit. */
  lemma DigitsUnique(hi1: nat, lo1: nat, hi2: nat, lo2: nat, base: nat)
    requires lo1 < base && lo2 < base && hi1 * base + lo1 == hi2 * base + lo2
    ensures hi1 == hi2 && lo1 == lo2
  {
    var n := hi1 * base + lo1;
    DivModUnique(n, base, hi1, lo1);
    DivModUnique(n, base, hi2, lo2);
  }

  /** The base-255 encoding of a face id as a colour, three digits below 255 each, which the
      base-255 decode reads back. */
  function EncodeBase255(id: nat): (p: Pixel)
    requires id < 255 * 255 * 255
    ensures p.r < 255 && p.g < 255 && p.b < 255
    ensures FaceIdBase255(p) == id
  {
    var rest := id / 255;
    assert id == id % 255 + 255 * rest;
    assert rest == rest % 255 + 255 * (rest / 255);
    Pixel((id % 255) as byte, (rest % 255) as byte, (rest / 255) as byte)
  }

  /** Base-255 face id of a colour: r + g * 255 + b * 255^2. */
  function FaceIdBase255(p: Pixel): (id: nat)
    ensures id <= 255 * (1 + 255 + 255 * 255)
  {
    p.r as int + p.g as int * 255 + p.b as int * (255 * 255)
  }

  /** The base-255 encoding inverts the base-255 decode on colours whose digits are below 255. */
  lemma Base255RoundTrip(p: Pixel)
    requires p.r < 255 && p.g < 255 && p.b < 255
    ensures FaceIdBase255(p) < 255 * 255 * 255
    ensures EncodeBase255(FaceIdBase255(p)) == p
  {
    var id, lo := FaceIdBase255(p), p.r as int + p.g as int * 255;
    DigitsUnique(p.b as int, lo, id / (255 * 255), id % (255 * 255), 255 * 255);
  }

  /** On base-255 digits (each below 255) the as-written decode is one-to-one: the collision of
      `FaceIdCollides` needs a digit of 255. */
  lemma FaceIdInjectiveOnBase255(p: Pixel, q: Pixel)
    requires p.r < 255 && p.g < 255 && p.b < 255 && q.r < 255 && q.g < 255 && q.b < 255
    ensures FaceId(p) == FaceId(q) <==> p == q
  {
    if FaceId(p) == FaceId(q) {
      var lowP, lowQ := p.r as int + p.g as int * 0xFF, q.r as int + q.g as int * 0xFF;
      DigitsUnique(p.b as int, lowP, q.b as int, lowQ, 0xFFFF);
      DigitsUnique(p.g as int, p.r as int, q.g as int, q.r as int, 0xFF);
    }
  }

  /** The as-written decode inverts neither encoding, since B is weighted 0xFFFF rather than
      255^2 or 256^2: it reads base-255 face 255^2 as 0xFFFF and base-256 face 256 as 255. A
      base-255 decode does not give white the background id either. */
  lemma DecodeMismatch()
    ensures FaceId(EncodeBase255(255 * 255)) == 0xFFFF != 255 * 255
    ensures FaceId(Encode(256)) == 255 != 256
    ensures FaceIdBase255(White) == 16646655 != 0xFFFFFF
  {
  }

  /** The picker with the base-256 decode: the background leaves the click state alone, and
      every other colour selects the owner of the face it encodes. */
  function PickBase256(faceCubes: seq<nat>, click: ClickData, p: Pixel, depth: real, offset: Vec3): (r: ClickData)
    requires FaceIdBase256(p) == 0xFFFFFF || FaceIdBase256(p) < |faceCubes|
    ensures p == White ==> r == click
    ensures p != White ==> r == ClickData(faceCubes[FaceIdBase256(p)], depth, offset)
  {
    var id := FaceIdBase256(p);
    Base256Injective(p, White);
    if id == 0xFFFFFF then click else ClickData(faceCubes[id], depth, offset)
  }

  // ---------------------------------------------------------------------------
  // The renderer's state

  class VoxelRenderer {
    var paused: bool
    var doingStep: bool
    var clickData: ClickData
    /** `toRender.faceCubes`: the cube owning each face, indexed by face id. */
    var faceCubes: seq<nat>
    /** The `physicsStep` dispatches issued so far. */
    var dispatches: seq<Dispatch>

    function Switches(): Control
      reads this
    {
      Control(paused, doingStep)
    }

    constructor (faceCubes: seq<nat>)
      ensures paused && !doingStep && clickData == NoClick
      ensures this.faceCubes == faceCubes && dispatches == []
    {
      paused, doingStep := true, false;
      clickData := NoClick;
      this.faceCubes := faceCubes;
      dispatches := [];
    }

    /** `physicsStep(in, out)`: one dispatch of the integrator. */
    method PhysicsStep(input: Buffer, output: Buffer)
      modifies this
      ensures dispatches == old(dispatches) + [Dispatch(input, output)]
      ensures paused == old(paused) && doingStep == old(doingStep)
      ensures clickData == old(clickData) && faceCubes == old(faceCubes)
    {
      dispatches := dispatches + [Dispatch(input, output)];
    }

    /** `doPhysics`. */
    method DoPhysics()
      modifies this
      ensures Switches() == Physics(old(Switches())).0
      ensures dispatches == old(dispatches) + Physics(old(Switches())).1
      ensures clickData == old(clickData) && faceCubes == old(faceCubes)
    {
      if paused && !doingStep {
        return;
      }
      assert PhysStepsPerFrame % 2 == 0;
      assert PhysStepsPerFrame / 2 % SlowdownFactor == 0;
      var stepsToDo := PhysStepsPerFrame / 2 / SlowdownFactor;
      if doingStep {
        stepsToDo := 1;
        doingStep := false;
      }
      var i := 0;
      while i < stepsToDo
        invariant 0 <= i <= stepsToDo == StepsToDo(old(doingStep))
        invariant dispatches == old(dispatches) + PingPong(i)
        invariant paused == old(paused) && !doingStep
        invariant clickData == old(clickData) && faceCubes == old(faceCubes)
      {
        PhysicsStep(Buf1, Buf2);
        PhysicsStep(Buf2, Buf1);
        i := i + 1;
      }
    }

    /** The key listener for P. */
    method OnKeyP(action: int)
      modifies this
      ensures Switches() == KeyP(old(Switches()), action)
      ensures clickData == old(clickData) && faceCubes == old(faceCubes) && dispatches == old(dispatches)
    {
      if action == Press {
        paused := !paused;
      }
    }

    /** The key listener for '.'. */
    method OnKeyPeriod(action: int)
      modifies this
      ensures Switches() == KeyPeriod(old(Switches()), action)
      ensures clickData == old(clickData) && faceCubes == old(faceCubes) && dispatches == old(dispatches)
    {
      if action == Press {
        doingStep := true;
        paused := true;
      }
    }

    /** The click listener: a left press runs `mouseDown`, a left release `mouseUp`. `picked`
        is the pixel read back under the cursor; `depth` and `offset` stand for the projection
        of the picked cube. */
    method OnClick(button: int, action: int, picked: Pixel, depth: real, offset: Vec3)
      requires button == MouseButtonLeft && action == Press ==> FaceId(picked) == 0xFFFFFF || FaceId(picked) < |faceCubes|
      modifies this
      ensures clickData == Clicked(old(faceCubes), old(clickData), button, action, picked, depth, offset)
      ensures Switches() == old(Switches()) && faceCubes == old(faceCubes) && dispatches == old(dispatches)
    {
      if button == MouseButtonLeft {
        if action == Press {
          GetClickPos(picked, depth, offset);
        } else if action == Release {
          MouseUp();
        }
      }
    }

    /** The integer part of `getClickPos`: decode the face id and select its cube. */
    method GetClickPos(picked: Pixel, depth: real, offset: Vec3)
      requires FaceId(picked) == 0xFFFFFF || FaceId(picked) < |faceCubes|
      modifies this
      ensures clickData == Pick(old(faceCubes), old(clickData), picked, depth, offset)
      ensures Switches() == old(Switches()) && faceCubes == old(faceCubes) && dispatches == old(dispatches)
    {
      var faceId := picked.r as int + picked.g as int * 0xFF + picked.b as int * 0xFFFF;
      if faceId != 0xFFFFFF {
        clickData := ClickData(faceCubes[faceId], depth, offset);
      }
    }

    /** `mouseUp`: back to a default-constructed `ClickData`. */
    method MouseUp()
      modifies this
      ensures clickData == NoClick
      ensures Switches() == old(Switches()) && faceCubes == old(faceCubes) && dispatches == old(dispatches)
    {
      clickData := NoClick;
    }
  }
}
