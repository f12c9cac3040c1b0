/**
 * Force fields as values: what the mouse spawns, and the per-tick step on the
 * list of fields, which first drops every field whose strength is no longer
 * positive and then decays each survivor by the factor 0.95.
 */
module ForceFields {

  const InitialStrength: real := 5.0
  const FieldRadius: real := 100.0

  /** The state of one force field: position, strength and radius. */
  datatype Field = Field(x: real, y: real, strength: real, radius: real)

  /** A field just spawned at the cursor. */
  function Spawn(x: int, y: int): (f: Field)
    ensures f.x == x as real && f.y == y as real
    ensures f.strength == InitialStrength && f.radius == FieldRadius
    ensures 0.0 < f.strength
  {
    Field(x as real, y as real, InitialStrength, FieldRadius)
  }

  /** The condition under which the tick removes a field. */
  predicate Spent(f: Field) {
    f.strength <= 0.0
  }

  /** The list with every spent field removed. */
  function Prune(fs: seq<Field>): (r: seq<Field>)
    ensures |r| <= |fs|
    ensures forall i :: 0 <= i < |r| ==> !Spent(r[i])
  {
    if fs == [] then []
    else
      var last := fs[|fs| - 1];
      Prune(fs[..|fs| - 1]) + (if Spent(last) then [] else [last])
  }

  /** Every field's strength multiplied by the decay factor. */
  function Decay(fs: seq<Field>): (r: seq<Field>)
    ensures |r| == |fs|
    ensures forall i :: 0 <= i < |fs| ==>
      r[i].strength == 0.95 * fs[i].strength &&
      r[i].x == fs[i].x && r[i].y == fs[i].y && r[i].radius == fs[i].radius
  {
    if fs == [] then []
    else
      var last := fs[|fs| - 1];
      Decay(fs[..|fs| - 1]) + [last.(strength := 0.95 * last.strength)]
  }

  /** The force-field part of one tick: prune, then decay. */
  function Step(fs: seq<Field>): (r: seq<Field>)
    ensures |r| <= |fs|
    ensures forall i :: 0 <= i < |r| ==> !Spent(r[i])
  {
    Decay(Prune(fs))
  }

  /** What every field in the panel's list satisfies. */
  predicate AllLive(fs: seq<Field>) {
    forall i :: 0 <= i < |fs| ==>
      0.0 < fs[i].strength <= InitialStrength && fs[i].radius == FieldRadius
  }

  /** A field survives the prune exactly when it is in the list and not spent. */
  lemma {:induction false} PruneKeepsExactlyTheLive(fs: seq<Field>, f: Field)
    ensures f in Prune(fs) <==> f in fs && !Spent(f)
  {
    if fs != [] {
      var init, last := fs[..|fs| - 1], fs[|fs| - 1];
      assert fs == init + [last];
      PruneKeepsExactlyTheLive(init, f);
    }
  }

  /**
   * Pruning a concatenation prunes each part in order: survivors keep their
   * relative order.
   */
  lemma {:induction false} PruneKeepsOrder(a: seq<Field>, b: seq<Field>)
    ensures Prune(a + b) == Prune(a) + Prune(b)
    decreases |b|
  {
    if b == [] {
      assert a + b == a;
    } else {
      var init, last := b[..|b| - 1], b[|b| - 1];
      var ab := a + b;
      assert ab[..|ab| - 1] == a + init;
      assert ab[|ab| - 1] == last;
      PruneKeepsOrder(a, init);
      var tail := if Spent(last) then [] else [last];
      calc {
        Prune(ab);
        Prune(a + init) + tail;
        (Prune(a) + Prune(init)) + tail;
        Prune(a) + (Prune(init) + tail);
      }
    }
  }

  /** A single field is kept exactly when it is not spent. */
  lemma PruneSingle(f: Field)
    ensures Prune([f]) == if Spent(f) then [] else [f]
  {
    assert [f][..0] == [];
  }

  /** A list with no spent field passes the prune unchanged. */
  lemma {:induction false} PruneOfLiveIsIdentity(fs: seq<Field>)
    requires forall i :: 0 <= i < |fs| ==> !Spent(fs[i])
    ensures Prune(fs) == fs
  {
    if fs != [] {
      var init := fs[..|fs| - 1];
      PruneOfLiveIsIdentity(init);
      assert init + [fs[|fs| - 1]] == fs;
    }
  }

  /**
   * One tick on the panel's list: nothing is removed, each field keeps its
   * place, position and radius, and its strength shrinks by exactly the
   * decay factor, staying positive and strictly decreasing.
   */
  lemma StepOfLive(fs: seq<Field>)
    requires AllLive(fs)
    ensures |Step(fs)| == |fs|
    ensures AllLive(Step(fs))
    ensures forall i :: 0 <= i < |fs| ==>
      Step(fs)[i].strength == 0.95 * fs[i].strength &&
      0.0 < Step(fs)[i].strength < fs[i].strength &&
      Step(fs)[i].x == fs[i].x && Step(fs)[i].y == fs[i].y
  {
    PruneOfLiveIsIdentity(fs);
  }

  /** The field a live field becomes after one tick. */
  function Decayed(f: Field): Field {
    f.(strength := 0.95 * f.strength)
  }

  /**
   * After one tick the list holds the decayed form of every live field of the
   * list before, and nothing else.
   */
  lemma StepKeepsExactlyTheDecayedLive(fs: seq<Field>)
    ensures forall f :: f in fs && !Spent(f) ==> Decayed(f) in Step(fs)
    ensures forall g :: g in Step(fs) ==> exists f :: f in fs && !Spent(f) && g == Decayed(f)
  {
    var pruned := Prune(fs);
    forall f | f in fs && !Spent(f) ensures Decayed(f) in Step(fs) {
      PruneKeepsExactlyTheLive(fs, f);
      var i :| 0 <= i < |pruned| && pruned[i] == f;
      assert Step(fs)[i] == Decayed(f);
    }
    forall g | g in Step(fs) ensures exists f :: f in fs && !Spent(f) && g == Decayed(f) {
      var i :| 0 <= i < |Step(fs)| && Step(fs)[i] == g;
      PruneKeepsExactlyTheLive(fs, pruned[i]);
      assert g == Decayed(pruned[i]);
    }
  }

  /** Appending a freshly spawned field keeps the list live. */
  lemma SpawnKeepsLive(fs: seq<Field>, x: int, y: int)
    requires AllLive(fs)
    ensures AllLive(fs + [Spawn(x, y)])
  {
  }

  /** The strength of a field n ticks after it was spawned: 5 * 0.95^n. */
  function StrengthAfter(n: nat): real {
    if n == 0 then InitialStrength else 0.95 * StrengthAfter(n - 1)
  }

  /** The list after n ticks. */
  function Ticks(fs: seq<Field>, n: nat): seq<Field>
    decreases n
  {
    if n == 0 then fs else Step(Ticks(fs, n - 1))
  }

  /** The strength of a spawned field stays in (0, 5] however many ticks pass. */
  lemma {:induction false} StrengthAfterBounds(n: nat)
    ensures 0.0 < StrengthAfter(n) <= InitialStrength
  {
    if n > 0 {
      StrengthAfterBounds(n - 1);
    }
  }

  /** A field spawned at (x, y) that has already lived through k ticks. */
  function Aged(x: int, y: int, k: nat): Field {
    Field(x as real, y as real, StrengthAfter(k), FieldRadius)
  }

  /**
   * A lone field spawned at (x, y) is, n ticks later, still the only field,
   * at the same place, with strength 5 * 0.95^n, which lies in (0, 5].
   * With exact arithmetic decay alone never brings a field to the prune.
   */
  lemma SpawnedFieldDecays(x: int, y: int, n: nat)
    ensures 0.0 < StrengthAfter(n) <= InitialStrength
    ensures Ticks([Spawn(x, y)], n) == [Aged(x, y, n)]
  {
    StrengthAfterBounds(n);
    LoneFieldAges(x, y, n);
    assert Ticks([Spawn(x, y)], n) == [Ticks([Spawn(x, y)], n)[0]];
  }

  /** n ticks on a lone spawned field age it by n. */
  lemma {:induction false} LoneFieldAges(x: int, y: int, n: nat)
    ensures |Ticks([Spawn(x, y)], n)| == 1 && Ticks([Spawn(x, y)], n)[0] == Aged(x, y, n)
  {
    if n > 0 {
      var before := Ticks([Spawn(x, y)], n - 1);
      LoneFieldAges(x, y, n - 1);
      AgedFieldSteps(before, x, y, n);
      assert Ticks([Spawn(x, y)], n) == Step(before);
    }
  }

  /** One tick ages a lone field by one. */
  lemma AgedFieldSteps(fs: seq<Field>, x: int, y: int, k: nat)
    requires k > 0 && |fs| == 1 && fs[0] == Aged(x, y, k - 1)
    ensures |Step(fs)| == 1 && Step(fs)[0] == Aged(x, y, k)
  {
    StrengthAfterBounds(k - 1);
    assert fs == [fs[0]];
    StepOfSingle(fs[0]);
  }

  /** One tick on a lone live field decays it in place. */
  lemma StepOfSingle(f: Field)
    requires 0.0 < f.strength
    ensures Step([f]) == [f.(strength := 0.95 * f.strength)]
  {
    PruneSingle(f);
    assert Decay([f]) == Decay([]) + [f.(strength := 0.95 * f.strength)];
  }

  /**
   * The source keeps the strength in a `float`. Below 2^-126 a `float` is a
   * whole multiple m of 2^-149, and one decay multiplies m by the `float`
   * nearest to 0.95, which is 15938355 / 2^24, rounding to the nearest
   * multiple (ties to even). This is that step on m.
   */
  function DecayUlps(m: nat): (r: nat)
    requires m < 0x80_0000
    ensures r <= m
    ensures m > 0 ==> r > 0
    ensures r == m <==> m <= 9
  {
    var p := m * 15938355;
    var q := p / 0x100_0000;
    var rest := p % 0x100_0000;
    if rest > 0x80_0000 || (rest == 0x80_0000 && q % 2 == 1) then q + 1 else q
  }

  /** The `float` strength, in multiples of 2^-149, after k more ticks. */
  function DecayUlpsAfter(m: nat, k: nat): (r: nat)
    requires m < 0x80_0000
    ensures r <= m
  {
    if k == 0 then m else DecayUlps(DecayUlpsAfter(m, k - 1))
  }

  /**
   * With `float` rounding a subnormal strength never reaches 0: every strength
   * of at most 9 * 2^-149 is a fixed point of the decay, and a larger one stays
   * positive. So the removal of fields with strength <= 0 never fires on a
   * field that only decays.
   */
  lemma {:induction false} FloatDecayNeverReachesZero(m: nat, k: nat)
    requires 0 < m < 0x80_0000
    ensures DecayUlpsAfter(m, k) > 0
    ensures m <= 9 ==> DecayUlpsAfter(m, k) == m
  {
    if k > 0 {
      FloatDecayNeverReachesZero(m, k - 1);
    }
  }
}
