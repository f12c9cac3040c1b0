/**
 * The keyboard state machine of the particle universe: four mode flags, the
 * particle size and the speed multiplier, and how one key press changes them.
 * The SPACE key's effect on particles and force fields lives in the class
 * that owns them (module Universe); here it leaves the controls alone.
 */
module ControlState {

  // java.awt.event.KeyEvent codes of the keys the handler switches on
  const KeyV: int := 0x56
  const KeyE: int := 0x45
  const KeyR: int := 0x52
  const KeyT: int := 0x54
  const KeySpace: int := 0x20
  const KeyEquals: int := 0x3D
  const KeyMinus: int := 0x2D
  const KeyLeft: int := 0x25
  const KeyRight: int := 0x27

  const InitialSize: int := 4
  const MinSize: int := 2
  const MaxSize: int := 10

  const InitialSpeed: real := 1.0
  const MinSpeed: real := 0.2
  const MaxSpeed: real := 3.0
  const SpeedStep: real := 0.1

  /** The mode flags, particle size and speed multiplier of the panel. */
  datatype Controls = Controls(
    vortex: bool,
    explosion: bool,
    rainbow: bool,
    trail: bool,
    size: int,
    speed: real)

  /** The field initialisers of the panel. */
  const Initial: Controls := Controls(false, false, false, false, InitialSize, InitialSpeed)

  /** The key codes that have a case in the handler's switch. */
  predicate Handled(key: int) {
    key == KeyV || key == KeyE || key == KeyR || key == KeyT || key == KeySpace ||
    key == KeyEquals || key == KeyMinus || key == KeyLeft || key == KeyRight
  }

  /** What every reachable control state satisfies. */
  predicate Consistent(c: Controls) {
    && !(c.vortex && c.explosion)
    && MinSize <= c.size <= MaxSize
    && MinSpeed <= c.speed <= MaxSpeed
  }

  // Math.min and Math.max on int and on float
  function MinInt(a: int, b: int): int { if a <= b then a else b }
  function MaxInt(a: int, b: int): int { if a >= b then a else b }
  function MinReal(a: real, b: real): real { if a <= b then a else b }
  function MaxReal(a: real, b: real): real { if a >= b then a else b }

  /** The effect of one key press on the controls. */
  function KeyStep(c: Controls, key: int): (r: Controls)
    ensures Consistent(c) ==> Consistent(r)
    ensures !Handled(key) || key == KeySpace ==> r == c
    ensures key == KeyV ==> !r.explosion && r.vortex == !c.vortex
    ensures key == KeyE ==> !r.vortex && r.explosion == !c.explosion
    ensures key == KeyEquals || key == KeyMinus || key == KeyLeft || key == KeyRight ==>
      r.vortex == c.vortex && r.explosion == c.explosion && r.rainbow == c.rainbow && r.trail == c.trail
  {
    if key == KeyV then c.(vortex := !c.vortex, explosion := false)
    else if key == KeyE then c.(explosion := !c.explosion, vortex := false)
    else if key == KeyR then c.(rainbow := !c.rainbow)
    else if key == KeyT then c.(trail := !c.trail)
    else if key == KeyEquals then c.(size := MinInt(MaxSize, c.size + 1))
    else if key == KeyMinus then c.(size := MaxInt(MinSize, c.size - 1))
    else if key == KeyLeft then c.(speed := MaxReal(MinSpeed, c.speed - SpeedStep))
    else if key == KeyRight then c.(speed := MinReal(MaxSpeed, c.speed + SpeedStep))
    else c
  }

  /** The controls after a sequence of key presses, first key first. */
  function RunKeys(c: Controls, keys: seq<int>): Controls
    decreases |keys|
  {
    if keys == [] then c else RunKeys(KeyStep(c, keys[0]), keys[1..])
  }

  /** No sequence of key presses leads out of a consistent state. */
  lemma {:induction false} RunKeysConsistent(c: Controls, keys: seq<int>)
    requires Consistent(c)
    ensures Consistent(RunKeys(c, keys))
    decreases |keys|
  {
    if keys != [] {
      RunKeysConsistent(KeyStep(c, keys[0]), keys[1..]);
    }
  }

  /**
   * From the panel's initial settings, after any key sequence, vortex and
   * explosion are not both on, the size is in [2, 10] and the speed in [0.2, 3.0].
   */
  lemma AnyKeysFromStart(keys: seq<int>)
    ensures Consistent(RunKeys(Initial, keys))
    ensures !(RunKeys(Initial, keys).vortex && RunKeys(Initial, keys).explosion)
    ensures MinSize <= RunKeys(Initial, keys).size <= MaxSize
    ensures MinSpeed <= RunKeys(Initial, keys).speed <= MaxSpeed
  {
    RunKeysConsistent(Initial, keys);
  }

  /** V and E touch only the two exclusive modes; R and T only their own flag. */
  lemma ModeKeysTouchOnlyTheirFlags(c: Controls)
    ensures var r := KeyStep(c, KeyV);
      !r.explosion && r.vortex == !c.vortex &&
      r.rainbow == c.rainbow && r.trail == c.trail && r.size == c.size && r.speed == c.speed
    ensures var r := KeyStep(c, KeyE);
      !r.vortex && r.explosion == !c.explosion &&
      r.rainbow == c.rainbow && r.trail == c.trail && r.size == c.size && r.speed == c.speed
    ensures KeyStep(c, KeyR) == c.(rainbow := !c.rainbow)
    ensures KeyStep(c, KeyT) == c.(trail := !c.trail)
  {
  }

  /** Pressing R twice, or T twice, restores the state it started from. */
  lemma ToggleTwiceRestores(c: Controls)
    ensures KeyStep(KeyStep(c, KeyR), KeyR) == c
    ensures KeyStep(KeyStep(c, KeyT), KeyT) == c
  {
  }

  /**
   * `=` and `-` move the size by at most one, in the key's direction, and
   * change nothing else.
   */
  lemma SizeKeysMoveByOne(c: Controls)
    requires Consistent(c)
    ensures c.size <= KeyStep(c, KeyEquals).size <= c.size + 1
    ensures c.size - 1 <= KeyStep(c, KeyMinus).size <= c.size
    ensures KeyStep(c, KeyEquals).size == c.size <==> c.size == MaxSize
    ensures KeyStep(c, KeyMinus).size == c.size <==> c.size == MinSize
    ensures KeyStep(c, KeyEquals) == c.(size := KeyStep(c, KeyEquals).size)
    ensures KeyStep(c, KeyMinus) == c.(size := KeyStep(c, KeyMinus).size)
  {
  }

  /**
   * LEFT and RIGHT move the speed by at most one step, in the key's
   * direction, and change nothing else.
   */
  lemma SpeedKeysMoveByAStep(c: Controls)
    requires Consistent(c)
    ensures c.speed - SpeedStep <= KeyStep(c, KeyLeft).speed <= c.speed
    ensures c.speed <= KeyStep(c, KeyRight).speed <= c.speed + SpeedStep
    ensures KeyStep(c, KeyLeft).speed == c.speed <==> c.speed == MinSpeed
    ensures KeyStep(c, KeyRight).speed == c.speed <==> c.speed == MaxSpeed
    ensures KeyStep(c, KeyLeft) == c.(speed := KeyStep(c, KeyLeft).speed)
    ensures KeyStep(c, KeyRight) == c.(speed := KeyStep(c, KeyRight).speed)
  {
  }

  /** The speed, counted in tenths, as an integer state machine. */
  function TenthsStep(k: int, key: int): int {
    if key == KeyLeft then MaxInt(2, k - 1)
    else if key == KeyRight then MinInt(30, k + 1)
    else k
  }

  function RunTenths(k: int, keys: seq<int>): int
    decreases |keys|
  {
    if keys == [] then k else RunTenths(TenthsStep(k, keys[0]), keys[1..])
  }

  /**
   * With exact arithmetic the speed only takes values k/10 for k in [2, 30]:
   * the multiplier evolves exactly as the integer count of tenths does.
   */
  lemma {:induction false} SpeedInTenths(c: Controls, k: int, keys: seq<int>)
    requires 2 <= k <= 30 && c.speed == k as real / 10.0
    ensures 2 <= RunTenths(k, keys) <= 30
    ensures RunKeys(c, keys).speed == RunTenths(k, keys) as real / 10.0
    decreases |keys|
  {
    if keys != [] {
      var k' := TenthsStep(k, keys[0]);
      assert KeyStep(c, keys[0]).speed == k' as real / 10.0;
      SpeedInTenths(KeyStep(c, keys[0]), k', keys[1..]);
    }
  }
}
