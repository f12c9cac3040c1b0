/**
 * The particle universe panel as mutable objects: the particles and force
 * fields it owns, the mode flags, size, speed and hue it keeps, and the
 * mouse, keyboard and timer handlers that change them in place.
 */
module Universe {
  import opened ControlState
  import opened ForceFields
  import opened Kinematics

  const ParticleCount: nat := 1000

  /** A force field; the tick decays its strength in place. */
  class ForceField {
    var x: real
    var y: real
    var strength: real
    var radius: real

    /** The field as a value. */
    function Value(): (f: Field)
      reads this
      ensures f.strength == strength
    {
      Field(x, y, strength, radius)
    }

    /** A field at the cursor with strength 5 and radius 100. */
    constructor (x: real, y: real)
      ensures Value() == Field(x, y, InitialStrength, FieldRadius)
    {
      this.x := x;
      this.y := y;
      strength := InitialStrength;
      radius := FieldRadius;
    }

    /** One tick of decay: the strength shrinks by the factor 0.95. */
    method Update()
      modifies this`strength
      ensures strength == 0.95 * old(strength)
      ensures Value() == old(Value()).(strength := 0.95 * old(strength))
    {
      strength := strength * 0.95;
    }
  }

  /** One point particle. */
  class Particle {
    var x: real
    var y: real
    var vx: real
    var vy: real
    var hue: real
    var size: int

    /** The particle's position and velocity as a value. */
    function State(): Motion
      reads this
    {
      Motion(x, y, vx, vy)
    }

    /** A new particle is reset at once. */
    constructor (d: ResetDraw, particleSize: int)
      ensures State() == Respawn(d) && hue == d.uhue && size == particleSize
    {
      new;
      Reset(d, particleSize);
    }

    /** Random position, velocity and hue, and the panel's current size. */
    method Reset(d: ResetDraw, particleSize: int)
      modifies this
      ensures State() == Respawn(d) && hue == d.uhue && size == particleSize
    {
      x := d.ix as real;
      y := d.iy as real;
      vx := (d.uvx - 0.5) * 2.0;
      vy := (d.uvy - 0.5) * 2.0;
      hue := d.uhue;
      size := particleSize;
    }

    /**
     * The update after the force loop: `after` is the velocity that loop
     * leaves, `speed` the panel's multiplier, `width` and `height` the panel's
     * current size, `j` the two random draws of the jitter.
     */
    method Update(speed: real, width: nat, height: nat, after: Velocity, j: Jitter)
      modifies this`x, this`y, this`vx, this`vy
      ensures State() == Move(old(State()), speed, width, height, after, j)
      ensures 0.0 <= x <= width as real && 0.0 <= y <= height as real
    {
      vx, vy := after.vx, after.vy;
      x := x + Scaled(vx, speed);
      y := y + Scaled(vy, speed);
      if x < 0.0 || x > width as real {
        vx := vx * -0.8;
      }
      if y < 0.0 || y > height as real {
        vy := vy * -0.8;
      }
      x := MaxReal(0.0, MinReal(x, width as real));
      y := MaxReal(0.0, MinReal(y, height as real));
      vx := vx + (j.ux - 0.5) * 0.1;
      vy := vy + (j.uy - 0.5) * 0.1;
      vx := vx * 0.99;
      vy := vy * 0.99;
    }
  }

  /** No object occurs twice in the list. */
  predicate Distinct<T(==)>(s: seq<T>)
    decreases |s|
  {
    s == [] || (s[|s| - 1] !in s[..|s| - 1] && Distinct(s[..|s| - 1]))
  }

  /** Two positions of a list without repeats hold different objects. */
  lemma {:induction false} DistinctApart<T>(s: seq<T>, i: int, j: int)
    requires Distinct(s) && 0 <= i < j < |s|
    ensures s[i] != s[j]
    decreases |s|
  {
    var n := |s| - 1;
    if j == n {
      assert s[i] in s[..n];
    } else {
      DistinctApart(s[..n], i, j);
    }
  }

  /** In a list without repeats, no other position holds the object at `i`. */
  lemma DistinctOthers<T>(s: seq<T>, i: int)
    requires Distinct(s) && 0 <= i < |s|
    ensures forall k :: 0 <= k < |s| && k != i ==> s[k] != s[i]
  {
    forall k | 0 <= k < |s| && k != i ensures s[k] != s[i] {
      if k < i { DistinctApart(s, k, i); } else { DistinctApart(s, i, k); }
    }
  }

  /** Appending an object not yet in the list keeps it without repeats. */
  lemma DistinctAppend<T>(s: seq<T>, x: T)
    requires Distinct(s) && x !in s
    ensures Distinct(s + [x])
  {
    assert (s + [x])[..|s|] == s;
  }

  /** The values of a list of force fields. */
  function Snapshot(fs: seq<ForceField>): (r: seq<Field>)
    reads fs
    ensures |r| == |fs|
    ensures forall i {:trigger r[i]} :: 0 <= i < |fs| ==> r[i] == fs[i].Value()
  {
    seq(|fs|, i requires 0 <= i < |fs| reads fs => fs[i].Value())
  }

  /** The states of a list of particles. */
  function States(ps: seq<Particle>): (r: seq<Motion>)
    reads ps
    ensures |r| == |ps|
    ensures forall i {:trigger r[i]} :: 0 <= i < |ps| ==> r[i] == ps[i].State()
  {
    seq(|ps|, i requires 0 <= i < |ps| reads ps => ps[i].State())
  }

  /** What a particle's drawing uses besides its state: its hue and its size. */
  datatype Look = Look(hue: real, size: int)

  /** The looks of a list of particles. */
  function Looks(ps: seq<Particle>): (r: seq<Look>)
    reads ps
    ensures |r| == |ps|
    ensures forall i {:trigger r[i]} :: 0 <= i < |ps| ==> r[i] == Look(ps[i].hue, ps[i].size)
  {
    seq(|ps|, i requires 0 <= i < |ps| reads ps => Look(ps[i].hue, ps[i].size))
  }

  /** Snapshot distributes over appending one field. */
  lemma SnapshotAppend(fs: seq<ForceField>, f: ForceField)
    ensures Snapshot(fs + [f]) == Snapshot(fs) + [f.Value()]
  {
    assert (fs + [f])[..|fs|] == fs;
  }

  /**
   * The objects that the tick's removal of spent fields keeps, in order,
   * given the values `vs` the objects hold.
   */
  function Kept(fs: seq<ForceField>, vs: seq<Field>): (r: seq<ForceField>)
    requires |vs| == |fs|
    ensures |r| <= |fs|
    decreases |fs|
  {
    if fs == [] then []
    else
      var n := |fs| - 1;
      Kept(fs[..n], vs[..n]) + (if Spent(vs[n]) then [] else [fs[n]])
  }

  /** The kept objects carry exactly the values the prune keeps. */
  lemma {:induction false} KeptArePruned(fs: seq<ForceField>)
    ensures Snapshot(Kept(fs, Snapshot(fs))) == Prune(Snapshot(fs))
  {
    if fs != [] {
      var n := |fs| - 1;
      var init, last, values := fs[..n], fs[n], Snapshot(fs);
      KeptArePruned(init);
      assert values[..n] == Snapshot(init);
      assert values[n] == last.Value();
      assert Prune(values) == Prune(Snapshot(init)) + (if Spent(last.Value()) then [] else [last.Value()]);
      assert Kept(fs, values) == Kept(init, Snapshot(init)) + (if Spent(last.Value()) then [] else [last]);
      if !Spent(last.Value()) {
        SnapshotAppend(Kept(init, Snapshot(init)), last);
      }
    }
  }

  /** Every kept object comes from the list. */
  lemma {:induction false} KeptFromList(fs: seq<ForceField>, vs: seq<Field>, f: ForceField)
    requires |vs| == |fs|
    ensures f in Kept(fs, vs) ==> f in fs
    decreases |fs|
  {
    if fs != [] {
      var n := |fs| - 1;
      KeptFromList(fs[..n], vs[..n], f);
      assert fs == fs[..n] + [fs[n]];
    }
  }

  /** Dropping objects from a list without repeats leaves it without repeats. */
  lemma {:induction false} KeptAreDistinct(fs: seq<ForceField>, vs: seq<Field>)
    requires |vs| == |fs| && Distinct(fs)
    ensures Distinct(Kept(fs, vs))
    decreases |fs|
  {
    if fs != [] {
      var n := |fs| - 1;
      var init, last := fs[..n], fs[n];
      assert Distinct(init);
      KeptAreDistinct(init, vs[..n]);
      var prefix := Kept(init, vs[..n]);
      if Spent(vs[n]) {
        assert Kept(fs, vs) == prefix + [] == prefix;
      } else {
        KeptFromList(init, vs[..n], last);
        DistinctAppend(prefix, last);
        assert Kept(fs, vs) == prefix + [last];
      }
    }
  }

  class ParticleUniverse {
    var particles: seq<Particle>
    var forceFields: seq<ForceField>
    var mousePressed: bool
    var mouseX: int
    var mouseY: int

    var vortexMode: bool
    var explosionMode: bool
    var rainbowMode: bool
    var trailMode: bool
    var globalHue: real
    var particleSize: int
    var particleSpeed: real

    /** The keyboard-controlled settings as a value. */
    function ControlValues(): ControlState.Controls
      reads this`vortexMode, this`explosionMode, this`rainbowMode, this`trailMode, this`particleSize, this`particleSpeed
    {
      ControlState.Controls(vortexMode, explosionMode, rainbowMode, trailMode, particleSize, particleSpeed)
    }

    /** The panel's invariant. */
    ghost predicate Valid()
      reads this, forceFields
    {
      && Consistent(ControlValues())
      && 0.0 <= globalHue <= 1.0
      && |particles| == ParticleCount
      && Distinct(particles)
      && Distinct(forceFields)
      && AllLive(Snapshot(forceFields))
    }

    /** The panel: default settings, no fields, 1000 freshly reset particles. */
    constructor (draws: seq<ResetDraw>)
      requires |draws| == ParticleCount
      ensures Valid()
      ensures ControlValues() == Initial && globalHue == 0.0 && !mousePressed
      ensures forceFields == [] && |particles| == ParticleCount
      ensures mouseX == 0 && mouseY == 0
      ensures forall i :: 0 <= i < ParticleCount ==>
        fresh(particles[i]) && particles[i].State() == Respawn(draws[i]) &&
        particles[i].hue == draws[i].uhue && particles[i].size == InitialSize
    {
      var ps := NewParticles(draws, InitialSize);
      particles := ps;
      forceFields := [];
      mousePressed := false;
      mouseX, mouseY := 0, 0;
      vortexMode, explosionMode, rainbowMode, trailMode := false, false, false, false;
      globalHue := 0.0;
      particleSize := InitialSize;
      particleSpeed := InitialSpeed;
    }

    /** The constructor's loop: one new, freshly reset particle per draw. */
    static method NewParticles(draws: seq<ResetDraw>, size: int) returns (ps: seq<Particle>)
      ensures |ps| == |draws| && Distinct(ps)
      ensures forall i :: 0 <= i < |ps| ==>
        fresh(ps[i]) && ps[i].State() == Respawn(draws[i]) && ps[i].hue == draws[i].uhue && ps[i].size == size
    {
      ps := [];
      var i := 0;
      while i < |draws|
        invariant 0 <= i <= |draws|
        invariant |ps| == i && Distinct(ps)
        invariant forall k :: 0 <= k < i ==>
          fresh(ps[k]) && ps[k].State() == Respawn(draws[k]) && ps[k].hue == draws[k].uhue && ps[k].size == size
      {
        var p := new Particle(draws[i], size);
        assert p !in ps;
        DistinctAppend(ps, p);
        ps := ps + [p];
        assert ps[i] == p;
        i := i + 1;
      }
    }

    /** The timer callback: hue, particles, then force fields. */
    method ActionPerformed(width: nat, height: nat, after: seq<Velocity>, jitter: seq<Jitter>)
      requires Valid()
      requires |after| == |particles| && |jitter| == |particles|
      modifies this, particles, forceFields
      ensures Valid()
      ensures globalHue == NextHue(old(globalHue))
      ensures ControlValues() == old(ControlValues()) && mousePressed == old(mousePressed)
      ensures mouseX == old(mouseX) && mouseY == old(mouseY)
      ensures particles == old(particles)
      ensures States(particles) == MoveAll(old(States(particles)), particleSpeed, width, height, after, jitter)
      ensures forall i :: 0 <= i < |particles| ==>
        Look(particles[i].hue, particles[i].size) == old(Looks(particles))[i]
      ensures forceFields == Kept(old(forceFields), old(Snapshot(forceFields)))
      ensures Snapshot(forceFields) == Step(old(Snapshot(forceFields)))
    {
      AdvanceHue();
      UpdateParticles(width, height, after, jitter);
      StepFields();
    }

    /** The force-field half of the tick: remove spent fields, decay the rest. */
    method StepFields()
      requires Distinct(forceFields) && AllLive(Snapshot(forceFields))
      modifies this`forceFields, forceFields
      ensures Distinct(forceFields) && AllLive(Snapshot(forceFields))
      ensures forceFields == Kept(old(forceFields), old(Snapshot(forceFields)))
      ensures Snapshot(forceFields) == Step(old(Snapshot(forceFields)))
      ensures unchanged(this`particles, this`mousePressed, this`mouseX, this`mouseY, this`globalHue)
      ensures unchanged(this`vortexMode, this`explosionMode)
      ensures unchanged(this`rainbowMode, this`trailMode, this`particleSize, this`particleSpeed)
      ensures States(particles) == old(States(particles)) && Looks(particles) == old(Looks(particles))
    {
      ghost var fields := Snapshot(forceFields);
      RemoveSpentFields();
      assert forall i :: 0 <= i < |forceFields| ==> forceFields[i] in old(forceFields);
      DecayFields();
      StepOfLive(fields);
    }

    /** Advance the hue by 0.005, wrapping to 0 once it exceeds 1. */
    method AdvanceHue()
      modifies this`globalHue
      ensures globalHue == NextHue(old(globalHue))
      ensures unchanged(this`particles, this`forceFields, this`mousePressed, this`mouseX, this`mouseY)
      ensures unchanged(this`vortexMode, this`explosionMode)
      ensures unchanged(this`rainbowMode, this`trailMode, this`particleSize, this`particleSpeed)
      ensures States(particles) == old(States(particles)) && Snapshot(forceFields) == old(Snapshot(forceFields))
      ensures Looks(particles) == old(Looks(particles))
    {
      globalHue := globalHue + 0.005;
      if globalHue > 1.0 {
        globalHue := 0.0;
      }
    }

    /** Every particle's update, in list order. */
    method UpdateParticles(width: nat, height: nat, after: seq<Velocity>, jitter: seq<Jitter>)
      requires Distinct(particles)
      requires |after| == |particles| && |jitter| == |particles|
      modifies particles
      ensures States(particles) == MoveAll(old(States(particles)), particleSpeed, width, height, after, jitter)
      ensures Looks(particles) == old(Looks(particles))
      ensures unchanged(this) && Snapshot(forceFields) == old(Snapshot(forceFields))
    {
      var i := 0;
      while i < |particles|
        invariant 0 <= i <= |particles|
        invariant forall k :: 0 <= k < i ==>
          particles[k].State() == Move(old(particles[k].State()), particleSpeed, width, height, after[k], jitter[k])
        invariant forall k :: i <= k < |particles| ==> particles[k].State() == old(particles[k].State())
        invariant forall k :: 0 <= k < |particles| ==>
          particles[k].hue == old(particles[k].hue) && particles[k].size == old(particles[k].size)
      {
        DistinctOthers(particles, i);
        particles[i].Update(particleSpeed, width, height, after[i], jitter[i]);
        i := i + 1;
      }
    }

    /** Drop, in place and in order, every field whose strength is no longer positive. */
    method RemoveSpentFields()
      modifies this`forceFields
      ensures forceFields == Kept(old(forceFields), Snapshot(old(forceFields)))
      ensures Snapshot(forceFields) == Prune(Snapshot(old(forceFields)))
      ensures Distinct(old(forceFields)) ==> Distinct(forceFields)
      ensures forall f :: f in forceFields ==> f in old(forceFields)
      ensures States(particles) == old(States(particles)) && particles == old(particles)
      ensures Looks(particles) == old(Looks(particles))
    {
      ghost var values := Snapshot(forceFields);
      var kept: seq<ForceField> := [];
      var i := 0;
      while i < |forceFields|
        invariant 0 <= i <= |forceFields|
        invariant kept == Kept(forceFields[..i], values[..i])
      {
        assert forceFields[..i + 1][..i] == forceFields[..i];
        assert values[..i + 1][..i] == values[..i];
        if forceFields[i].strength > 0.0 {
          kept := kept + [forceFields[i]];
        }
        i := i + 1;
      }
      assert forceFields[..i] == forceFields && values[..i] == values;
      forceFields := kept;
      KeptArePruned(old(forceFields));
      if Distinct(old(forceFields)) {
        KeptAreDistinct(old(forceFields), values);
      }
      forall f | f in forceFields ensures f in old(forceFields) {
        KeptFromList(old(forceFields), values, f);
      }
    }

    /** Decay every remaining field, in list order. */
    method DecayFields()
      requires Distinct(forceFields)
      modifies forceFields
      ensures Snapshot(forceFields) == Decay(old(Snapshot(forceFields)))
      ensures unchanged(this) && States(particles) == old(States(particles))
      ensures Looks(particles) == old(Looks(particles))
    {
      var i := 0;
      while i < |forceFields|
        invariant 0 <= i <= |forceFields|
        invariant forall k :: 0 <= k < i ==>
          forceFields[k].Value() == old(forceFields[k].Value()).(strength := 0.95 * old(forceFields[k].strength))
        invariant forall k :: i <= k < |forceFields| ==> forceFields[k].Value() == old(forceFields[k].Value())
      {
        DistinctOthers(forceFields, i);
        forceFields[i].Update();
        i := i + 1;
      }
    }

    /** Mouse moved: track the cursor. */
    method MouseMoved(ex: int, ey: int)
      requires Valid()
      modifies this`mouseX, this`mouseY
      ensures Valid() && mouseX == ex && mouseY == ey
    {
      mouseX, mouseY := ex, ey;
    }

    /** Mouse pressed: start spawning, and spawn one field now. */
    method MousePressed(ex: int, ey: int)
      requires Valid()
      modifies this`mousePressed, this`forceFields
      ensures Valid() && mousePressed
      ensures |forceFields| == |old(forceFields)| + 1
      ensures forceFields[..|old(forceFields)|] == old(forceFields)
      ensures fresh(forceFields[|old(forceFields)|])
      ensures Snapshot(forceFields) == old(Snapshot(forceFields)) + [Spawn(ex, ey)]
    {
      mousePressed := true;
      AddField(ex, ey);
    }

    /** Mouse dragged: track the cursor, and spawn a field while pressed. */
    method MouseDragged(ex: int, ey: int)
      requires Valid()
      modifies this`mouseX, this`mouseY, this`forceFields
      ensures Valid() && mouseX == ex && mouseY == ey
      ensures !mousePressed ==> forceFields == old(forceFields)
      ensures mousePressed ==>
        && |forceFields| == |old(forceFields)| + 1
        && forceFields[..|old(forceFields)|] == old(forceFields)
        && fresh(forceFields[|old(forceFields)|])
        && Snapshot(forceFields) == old(Snapshot(forceFields)) + [Spawn(ex, ey)]
    {
      mouseX, mouseY := ex, ey;
      if mousePressed {
        AddField(ex, ey);
      }
    }

    /** Mouse released: stop spawning; the fields stay. */
    method MouseReleased()
      requires Valid()
      modifies this`mousePressed
      ensures Valid() && !mousePressed
    {
      mousePressed := false;
    }

    /** Append a new field at the event's coordinates. */
    method AddField(ex: int, ey: int)
      requires Valid()
      modifies this`forceFields
      ensures Valid()
      ensures |forceFields| == |old(forceFields)| + 1
      ensures forceFields[..|old(forceFields)|] == old(forceFields)
      ensures fresh(forceFields[|old(forceFields)|])
      ensures Snapshot(forceFields) == old(Snapshot(forceFields)) + [Spawn(ex, ey)]
    {
      var f := new ForceField(ex as real, ey as real);
      ghost var before := Snapshot(forceFields);
      DistinctAppend(forceFields, f);
      forceFields := forceFields + [f];
      assert Snapshot(forceFields) == before + [Spawn(ex, ey)];
      SpawnKeepsLive(before, ex, ey);
    }

    /** The key handler's switch; `draws` are the random values SPACE's resets use. */
    method KeyPressed(keyCode: int, draws: seq<ResetDraw>)
      requires Valid()
      requires keyCode == KeySpace ==> |draws| == |particles|
      modifies this, particles
      ensures Valid()
      ensures ControlValues() == KeyStep(old(ControlValues()), keyCode)
      ensures particles == old(particles) && |particles| == ParticleCount
      ensures globalHue == old(globalHue) && mousePressed == old(mousePressed)
      ensures mouseX == old(mouseX) && mouseY == old(mouseY)
      ensures keyCode == KeySpace ==>
        && forceFields == []
        && forall i :: 0 <= i < |particles| ==>
             particles[i].State() == Respawn(draws[i]) && particles[i].hue == draws[i].uhue &&
             particles[i].size == particleSize
      ensures keyCode != KeySpace ==> forceFields == old(forceFields) && unchanged(particles)
    {
      if keyCode == KeySpace {
        ResetParticles(draws);
        forceFields := [];
      } else {
        ChangeControls(keyCode);
      }
    }

    /** The eight cases of the key switch other than SPACE. */
    method ChangeControls(keyCode: int)
      requires keyCode != KeySpace
      modifies this`vortexMode, this`explosionMode, this`rainbowMode, this`trailMode, this`particleSize, this`particleSpeed
      ensures ControlValues() == KeyStep(old(ControlValues()), keyCode)
    {
      if keyCode == KeyV {
        vortexMode := !vortexMode;
        explosionMode := false;
      } else if keyCode == KeyE {
        explosionMode := !explosionMode;
        vortexMode := false;
      } else if keyCode == KeyR {
        rainbowMode := !rainbowMode;
      } else if keyCode == KeyT {
        trailMode := !trailMode;
      } else if keyCode == KeyEquals {
        particleSize := MinInt(MaxSize, particleSize + 1);
      } else if keyCode == KeyMinus {
        particleSize := MaxInt(MinSize, particleSize - 1);
      } else if keyCode == KeyLeft {
        particleSpeed := MaxReal(MinSpeed, particleSpeed - SpeedStep);
      } else if keyCode == KeyRight {
        particleSpeed := MinReal(MaxSpeed, particleSpeed + SpeedStep);
      }
    }

    /** SPACE's reset of every particle, in list order. */
    method ResetParticles(draws: seq<ResetDraw>)
      requires Distinct(particles) && |draws| == |particles|
      modifies particles
      ensures forall i :: 0 <= i < |particles| ==>
        particles[i].State() == Respawn(draws[i]) && particles[i].hue == draws[i].uhue &&
        particles[i].size == particleSize
    {
      var i := 0;
      while i < |particles|
        invariant 0 <= i <= |particles|
        invariant forall k :: 0 <= k < i ==>
          particles[k].State() == Respawn(draws[k]) && particles[k].hue == draws[k].uhue &&
          particles[k].size == particleSize
      {
        DistinctOthers(particles, i);
        particles[i].Reset(draws[i], particleSize);
        i := i + 1;
      }
    }
  }
}
