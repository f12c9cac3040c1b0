# Particle Universe: a verified model of the panel's state machine

Particle Universe is a Swing panel that animates 1000 particles. A 16 ms timer advances a global
hue, moves every particle (force-field attraction, swirl or repulsion, wall bounce, jitter,
damping) and then decays the force fields the user drags out with the mouse. The keyboard
switches the modes, the particle size and the speed multiplier. SPACE resets every particle and
clears the force fields, and leaves the modes, size, speed and hue as they are.

This project models the non-graphical core of `ParticleUniverse.java` in Dafny:

- `controls.dfy` (module `ControlState`): the key handler's effect on the four mode flags, the
  particle size and the speed multiplier, as a pure state machine, with its invariants.
- `fields.dfy` (module `ForceFields`): force fields as values, and the per-tick list step, which
  removes every field whose strength is at most 0 and multiplies each remaining strength by 0.95.
- `kinematics.dfy` (module `Kinematics`): the hue step with its wrap at 1, and the part of a
  particle's update that follows the force loop: move by velocity times speed, bounce off a wall
  with factor -0.8, clamp into the panel, jitter and damp. This part also holds the reset draw.
- `universe.dfy` (module `Universe`): the panel itself as mutable objects. It has the classes
  `ForceField`, `Particle` and `ParticleUniverse`, whose handlers update fields and lists in
  place. Each handler is proved against the pure functions above. The invariant `Valid` keeps
  the controls consistent, the hue in [0, 1], exactly 1000 particles, no object listed twice, and
  every listed field with strength in (0, 5] and radius 100.

The random draws, the velocity the force loop leaves and the panel's current size are
parameters of the handlers.

## Model

| member | source | states |
|---|---|---|
| ControlState.KeyStep | src/main/java/particleUniverse/ParticleUniverse.java:262-295 | A key keeps a consistent control state consistent. An unhandled key and SPACE leave the controls alone. V turns explosion off and flips vortex. E turns vortex off and flips explosion. `=`, `-`, LEFT and RIGHT leave the four mode flags alone. |
| ControlState.RunKeysConsistent | src/main/java/particleUniverse/ParticleUniverse.java:262-295 | No sequence of key presses leads out of a consistent state. |
| ControlState.AnyKeysFromStart | src/main/java/particleUniverse/ParticleUniverse.java:20-26 | From the initial settings, after any key sequence, vortex and explosion are never both on, the size is in [2, 10] and the speed in [0.2, 3.0]. |
| ControlState.ModeKeysTouchOnlyTheirFlags | src/main/java/particleUniverse/ParticleUniverse.java:264-277 | V and E change only the two exclusive modes. R and T flip only their own flag. |
| ControlState.ToggleTwiceRestores | src/main/java/particleUniverse/ParticleUniverse.java:272-277 | Pressing R twice, or T twice, restores the state. |
| ControlState.SizeKeysMoveByOne | src/main/java/particleUniverse/ParticleUniverse.java:282-287 | `=` and `-` move the size by at most one in their direction and change nothing else. They leave the size unchanged exactly at the bound 10 or 2. |
| ControlState.SpeedKeysMoveByAStep | src/main/java/particleUniverse/ParticleUniverse.java:288-293 | LEFT and RIGHT move the speed by at most 0.1 in their direction and change nothing else. They leave the speed unchanged exactly at the bound 0.2 or 3.0. |
| ControlState.SpeedInTenths | src/main/java/particleUniverse/ParticleUniverse.java:288-293 | Starting from k/10, the speed stays k'/10 with 2 <= k' <= 30. It follows the clamped integer count of tenths that LEFT and RIGHT step. |
| ForceFields.Spawn | src/main/java/particleUniverse/ParticleUniverse.java:214-219 | A new field lies at the given point with strength exactly 5 and radius 100. |
| ForceFields.Prune | src/main/java/particleUniverse/ParticleUniverse.java:113 | The pruned list is no longer than the input and holds no field with strength <= 0. |
| ForceFields.Decay | src/main/java/particleUniverse/ParticleUniverse.java:116-118 | Same length. Each field keeps position and radius, and its strength becomes 0.95 times the old one. |
| ForceFields.Step | src/main/java/particleUniverse/ParticleUniverse.java:112-118 | One tick on the list never makes it longer and leaves no field with strength <= 0. |
| ForceFields.PruneKeepsExactlyTheLive | src/main/java/particleUniverse/ParticleUniverse.java:113 | A field survives the prune if and only if it was in the list and its strength is positive. |
| ForceFields.PruneKeepsOrder | src/main/java/particleUniverse/ParticleUniverse.java:113 | Pruning a concatenation prunes each part, so survivors keep their relative order. |
| ForceFields.PruneSingle | src/main/java/particleUniverse/ParticleUniverse.java:113 | A one-field list is emptied exactly when that field is spent. |
| ForceFields.PruneOfLiveIsIdentity | src/main/java/particleUniverse/ParticleUniverse.java:113 | A list with no spent field passes the prune unchanged. |
| ForceFields.StepOfLive | src/main/java/particleUniverse/ParticleUniverse.java:112-118 | On a list of live fields, prune then decay removes nothing. Each strength becomes exactly 0.95 times the old one and stays positive and strictly smaller, positions are kept, and the list stays live. |
| ForceFields.StepKeepsExactlyTheDecayedLive | src/main/java/particleUniverse/ParticleUniverse.java:112-118 | In both directions: every field live before the tick is in the list afterwards with its strength times 0.95, and every field afterwards is such a decayed live field. |
| ForceFields.SpawnKeepsLive | src/main/java/particleUniverse/ParticleUniverse.java:242-253 | Appending a freshly spawned field keeps the list live. |
| ForceFields.StrengthAfterBounds | src/main/java/particleUniverse/ParticleUniverse.java:214-223 | The strength 5 * 0.95^n of a field n ticks old lies in (0, 5]. |
| ForceFields.StepOfSingle | src/main/java/particleUniverse/ParticleUniverse.java:112-118 | A lone live field stays in the list with its strength multiplied by 0.95. |
| ForceFields.AgedFieldSteps | src/main/java/particleUniverse/ParticleUniverse.java:112-118 | One tick on a list holding only a field k - 1 ticks old leaves only that field, at the same place, k ticks old. |
| ForceFields.LoneFieldAges | src/main/java/particleUniverse/ParticleUniverse.java:112-118 | n ticks after a lone field is spawned the list holds exactly one field, the spawned one aged n ticks. |
| ForceFields.SpawnedFieldDecays | src/main/java/particleUniverse/ParticleUniverse.java:214-223 | A lone spawned field is, after n ticks, the only field, with strength 5 * 0.95^n in (0, 5]. Exact decay alone never makes it prunable. |
| ForceFields.DecayUlps | src/main/java/particleUniverse/ParticleUniverse.java:221-223 | The `float` decay of a subnormal strength of m units of 2^-149 never grows it and never takes a positive strength to 0. It keeps m exactly when m <= 9. |
| ForceFields.DecayUlpsAfter | src/main/java/particleUniverse/ParticleUniverse.java:221-223 | Repeated `float` decay of a subnormal strength never grows it. |
| ForceFields.FloatDecayNeverReachesZero | src/main/java/particleUniverse/ParticleUniverse.java:113-118 | Under `float` rounding a positive subnormal strength stays positive however many ticks pass, and one of at most 9 units of 2^-149 stays exactly where it is, so the removal of spent fields never fires on it. |
| Kinematics.NextHue | src/main/java/particleUniverse/ParticleUniverse.java:104-105 | The hue stays in [0, 1]. It becomes 0 exactly when the advanced value exceeds 1 (or is 0), and otherwise it is the old hue plus 0.005. |
| Kinematics.HueIsPeriodic | src/main/java/particleUniverse/ParticleUniverse.java:104-105 | From 0, the hue after n ticks is (n mod 201) * 0.005, always in [0, 1]. |
| Kinematics.Bounce | src/main/java/particleUniverse/ParticleUniverse.java:171-177 | The result is clamped into [0, limit]. The position is kept if and only if it was in range. Out of range, the velocity is scaled by -0.8 and the position goes to 0 below the range and to the limit above it; in range the velocity is kept. |
| Kinematics.BounceClampsToNearest | src/main/java/particleUniverse/ParticleUniverse.java:176-177 | The clamped position is the point of [0, limit] nearest to the raw one. |
| Kinematics.Move | src/main/java/particleUniverse/ParticleUniverse.java:167-185 | After a move the particle lies inside [0, width] x [0, height]. |
| Kinematics.MoveBouncesExactlyOffWalls | src/main/java/particleUniverse/ParticleUniverse.java:167-185 | A coordinate equals the raw moved one if and only if that stays in range. The pre-jitter velocity is scaled by -0.8 exactly on an axis that left the range, and is then jittered and damped by 0.99. |
| Kinematics.MoveAll | src/main/java/particleUniverse/ParticleUniverse.java:108-110 | Every particle of the list is moved by its own velocity and draws and ends inside the panel. |
| Kinematics.Respawn | src/main/java/particleUniverse/ParticleUniverse.java:133-137 | With draws in the ranges of `java.util.Random`, a reset particle lies in [0, 800) x [0, 600) with both velocity components in [-1, 1). |
| Universe.ForceField.constructor | src/main/java/particleUniverse/ParticleUniverse.java:214-219 | The new object holds the field spawned at the point: strength 5, radius 100. |
| Universe.ForceField.Update | src/main/java/particleUniverse/ParticleUniverse.java:221-223 | The strength is multiplied by 0.95 and nothing else changes. |
| Universe.Particle.constructor | src/main/java/particleUniverse/ParticleUniverse.java:129-131 | A new particle is in its reset state, with the given hue draw and size. |
| Universe.Particle.Reset | src/main/java/particleUniverse/ParticleUniverse.java:133-140 | Reset gives the respawned position and velocity, the hue draw and the panel's current size. |
| Universe.Particle.Update | src/main/java/particleUniverse/ParticleUniverse.java:167-185 | The new state is the move of the old one, and the position lies inside the panel. |
| Universe.Kept | src/main/java/particleUniverse/ParticleUniverse.java:113 | The objects the prune keeps form a list no longer than the input. |
| Universe.KeptArePruned | src/main/java/particleUniverse/ParticleUniverse.java:113 | The kept objects carry exactly the values that the prune of the values keeps, in order. |
| Universe.KeptFromList | src/main/java/particleUniverse/ParticleUniverse.java:113 | Every kept object was in the list. |
| Universe.KeptAreDistinct | src/main/java/particleUniverse/ParticleUniverse.java:113 | Pruning a list without repeated objects leaves one without repeats. |
| Universe.ParticleUniverse.constructor | src/main/java/particleUniverse/ParticleUniverse.java:20-41 | The panel starts with the initial controls, hue 0, no fields, the mouse up at (0, 0), and 1000 fresh particles in their reset state (the position, velocity and hue of their own draw) with size 4. The invariant holds. |
| Universe.ParticleUniverse.NewParticles | src/main/java/particleUniverse/ParticleUniverse.java:39-41 | One distinct new particle per draw, each in its reset state with the hue of its draw and the given size. |
| Universe.ParticleUniverse.ActionPerformed | src/main/java/particleUniverse/ParticleUniverse.java:103-121 | One tick keeps the invariant. It sets the hue to its successor and moves every particle. The field list becomes the objects the prune keeps, in order, with values prune-then-decay of the old values. Controls, mouse state and position, the particle list and every particle's hue and size are unchanged. |
| Universe.ParticleUniverse.AdvanceHue | src/main/java/particleUniverse/ParticleUniverse.java:104-105 | The hue becomes its successor and nothing else changes. |
| Universe.ParticleUniverse.UpdateParticles | src/main/java/particleUniverse/ParticleUniverse.java:108-110 | The particle states become the move of the old states. Every particle keeps its hue and size, and the panel and the fields are unchanged. |
| Universe.ParticleUniverse.StepFields | src/main/java/particleUniverse/ParticleUniverse.java:112-118 | The list becomes the kept objects, with values prune-then-decay of the old ones, and stays live and without repeats. Nothing else changes. |
| Universe.ParticleUniverse.RemoveSpentFields | src/main/java/particleUniverse/ParticleUniverse.java:113 | The list becomes the objects whose strength is positive, in order, carrying the pruned values. It keeps no repeats and only holds old objects. |
| Universe.ParticleUniverse.DecayFields | src/main/java/particleUniverse/ParticleUniverse.java:116-118 | The values of the listed fields become the decay of the old values. The panel and the particles are unchanged. |
| Universe.ParticleUniverse.MouseMoved | src/main/java/particleUniverse/ParticleUniverse.java:237-239 | The cursor position is recorded, and the invariant holds. |
| Universe.ParticleUniverse.MousePressed | src/main/java/particleUniverse/ParticleUniverse.java:250-253 | The mouse is down, and exactly one new field spawned at the point is appended; the old fields stay in order. |
| Universe.ParticleUniverse.MouseDragged | src/main/java/particleUniverse/ParticleUniverse.java:242-247 | The cursor is recorded. A field is appended exactly while the mouse is down, and otherwise the list is unchanged. |
| Universe.ParticleUniverse.MouseReleased | src/main/java/particleUniverse/ParticleUniverse.java:256-258 | The mouse is up, the fields remain, and the invariant holds. |
| Universe.ParticleUniverse.AddField | src/main/java/particleUniverse/ParticleUniverse.java:242-253 | One fresh field with strength 5 and radius 100 is appended, and the invariant holds. |
| Universe.ParticleUniverse.KeyPressed | src/main/java/particleUniverse/ParticleUniverse.java:262-295 | The controls become `KeyStep` of the old ones, and the invariant holds. SPACE empties the field list and resets every one of the 1000 particles to its own draw, hue included, with the current size. Every other key leaves fields and particles untouched. Hue, mouse state and cursor position never change. |
| Universe.ParticleUniverse.ChangeControls | src/main/java/particleUniverse/ParticleUniverse.java:263-295 | The eight non-SPACE cases of the switch change the controls exactly as `KeyStep` says. |
| Universe.ParticleUniverse.ResetParticles | src/main/java/particleUniverse/ParticleUniverse.java:279 | Every particle takes its own reset draw, hue and the current size. |

## Left out

- Painting (`paintComponent`, `drawControls`, `Particle.draw`, `ForceField.draw`): rendering only, it changes no state.
- Swing wiring (listener registration, `Timer` start, `repaint`), the unused `mouseClicked`, `mouseEntered`, `mouseExited`, `keyTyped` and `keyReleased` handlers, and `Main.java`: no state logic.
- `java.util.Random`: every draw a handler makes (reset position, velocity and hue; jitter) is an explicit parameter (`ResetDraw`, `Jitter`).
- `getWidth()` and `getHeight()`: the panel's current size is a parameter of the tick. The 800 x 600 `PANEL_SIZE` only bounds the reset draws.
- Kinematics.Move: the bound 0 <= x <= width, 0 <= y <= height holds only for finite velocities. In the source a particle exactly on a field has distance 0, so the force is infinite and `dx / distance` is NaN. NaN fails both wall tests, and `Math.min` and `Math.max` return NaN, so such a particle leaves the panel for good. One way in: a field dragged out at (0, 0) pulls particles into the corner, where the clamp puts them exactly at (0, 0). The velocity `after` is a real number here, so this is not captured.
- Universe.Particle.Update: the force-field loop at the start of `update` (distance, attraction, swirl, repulsion) is not modelled. The velocity it leaves is the parameter `after`, so its `sqrt` and division, including the division by a zero distance, are not captured.
- Universe.ParticleUniverse.ActionPerformed: takes one `after` velocity per particle, so the dependence of the particles' motion on the force fields and mode flags is not captured.
- ControlState.KeyStep: the speed is an exact number. The `float` clamps do return exactly 0.2 and 3.0; for example, eight LEFT presses from 1.0 give 0.2. But the 0.1 steps between them round, so `SpeedInTenths` holds for reals only: twenty RIGHT presses from 1.0 give 2.9999993 in `float`, and only the twenty-first gives 3.0.
- Kinematics.NextHue: exact arithmetic. With `float` the 0.005 steps round, so the values (n mod 201) * 0.005 that `HueIsPeriodic` names hold for reals only. The `float` hue also first exceeds 1 at tick 201.
- ForceFields.Decay: exact arithmetic. The exact strength 5 * 0.95^n never reaches 0, and neither does the source's `float` strength. The `float` strength falls into the subnormal range. There, rounding keeps every strength of at most 9 * 2^-149 fixed (`FloatDecayNeverReachesZero`), and from 5.0 the strength comes to rest at 9 * 2^-149 (about 1.26e-44). So in the source, as in the model, the removal of fields with strength <= 0 never removes a field the mouse made: the tick never removes a field, and only SPACE empties the list. What the real model misses is that the source's strength stops decreasing once it is at rest: the "strictly smaller" of `StepOfLive` holds for reals only. The normal-range `float` multiplication is not modelled, only the subnormal one in `DecayUlps`.
- Float-to-int casts, float widening in the `Math.max`/`Math.min` calls, and overflow are not modelled: every quantity is an unbounded `int` or `real`.
- Scheduling: the Swing timer delivers each tick on the event thread, so handlers never interleave. The model runs each handler atomically, as the source does.
