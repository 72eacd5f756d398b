# N-body sandbox: the step engine

This project models the discrete-time N-body engine of a gravity sandbox
web application. The engine exists in four variants:

- the planar component (`src/page/component/2d.tsx`) with its body class
  `Star2D`;
- the spatial component (`src/page/component/3d.tsx`);
- two older planar pages (`src/page/2d.tsx` and `src/page/canvas.tsx`).

The shared body classes live in `src/page/component/star.ts`.

Every variant ticks the same way:

1. A force and collision pass (`calcForce`) visits every pair of bodies
   in nested loops. Overlapping bodies merge by momentum average; the
   larger survives, and a tie keeps the first. Every other pair adds
   equal and opposite attractions to a dictionary keyed by body id.
   Deleted indices are collected and filtered out after the scan.
2. Each body except the anchor `#0` then takes one semi-implicit Euler
   step: speed first, then position with the new speed.
3. The body's trail of past positions is pushed onto and trimmed.

Modules:

| module | file | contents |
|---|---|---|
| `Numerics` | numerics.dfy | `Cube`, and the square and cube roots passed in as a `Roots` value |
| `Vectors` | vectors.dfy | planar and spatial vectors |
| `Ids` | ids.dfy | the id template `#${n}` |
| `Trails` | trails.dfy | the trail trims |
| `Bodies` | bodies.dfy | the body record, the scan state, the deferred deletion and the `changeList` substitution |
| `Scans` | scans.dfy | the nested pair loops as a fold |
| `Motion` | motion.dfy | the integrator and the per-variant move functions |
| `Engine2D` | engine2d.dfy | the planar `calcForce` (strict test, optional anchor guard), with the loop methods proved against the fold |
| `Engine3D` | engine3d.dfy | the spatial `calcForce` (inclusive test, anchor guard), and its line cleanup as written |
| `Stars` | star.dfy | the classes `Star2D` and `Star3D` |
| `Seeds` | seeds.dfy | the id numbering of every `initStars` |
| `Component2D` | component2d.dfy | the planar component |
| `Component3D` | component3d.dfy | the spatial component |
| `Page2D` | page2d.dfy | the first planar page |
| `Canvas` | canvas.dfy | the second planar page |

How the variants are written:

- Objects whose fields the source updates in place are classes with
  `modifies` clauses: the two body classes, the two components and the
  two pages.
- Each loop is a method. Its `ensures` ties the result to a
  specification function: a fold for `calcForce`, a sequence
  comprehension for the tick.
- Properties of a single step are `ensures` clauses. Properties about the
  whole pass or the whole tick are lemmas over those functions.

Square root, cube root, `atan2`, `cos`, `sin` and `PI` are library calls.
They are parameters of type `Roots` and `Trig`, and carry only the facts
the proofs use:

- each root inverts its power on non-negative reals;
- `PI` is positive;
- `cos² + sin² = 1`.

Numbers are Dafny `real`s.

## Model

| member | source | states |
|---|---|---|
| Numerics.CubePositive | src/page/component/star.ts:21 | a body of positive size has a positive mass `size³`, so every division by a mass is defined |
| Numerics.CbrtPositive | src/page/component/2d.tsx:320 | the merged size `(m1+m2)^(1/3)` is positive and its cube is `m1+m2` |
| Numerics.SqrtPositive | src/page/component/2d.tsx:311 | the distance of two distinct centres is positive and squares back to `distance_2` |
| Numerics.StrictTestSquared | src/page/component/2d.tsx:316 | `sqrt(d2) < s` holds exactly when `s > 0` and `d2 < s²` |
| Numerics.InclusiveTestSquared | src/page/component/3d.tsx:178 | `sqrt(d2) <= s` holds exactly when `s >= 0` and `d2 <= s²` |
| Numerics.CubeOrder | src/page/component/3d.tsx:172-182 | on positive sizes the mass `size³` is strictly increasing, in both directions, so a larger merged mass means a larger merged size |
| Ids.IdOfIsAnchor | src/page/component/2d.tsx:218 | the template `#${n}` gives the anchor id `#0` exactly for `n = 0` |
| Ids.DecimalInjective | src/page/component/2d.tsx:237 | different numbers render as different decimal texts |
| Ids.IdOfInjective | src/page/component/2d.tsx:232-237 | two ids from the template are equal exactly when their numbers are |
| Trails.Last | src/page/component/star.ts:233 | the last `n` entries of a trail: length `min(n, len)`, and a suffix of it |
| Trails.SliceFrom | src/page/component/star.ts:233 | `slice(start)`: a negative start keeps the last `-start` entries, zero keeps everything, a positive start drops a prefix |
| Trails.DrawTrim | src/page/component/star.ts:229-233 | a zero length empties the trail, a positive length keeps the newest entries, and the result is always a suffix |
| Trails.PushTrim | src/page/2d.tsx:196-198 | push then trim keeps the newest `travelLength` entries, or none when `travelLength` is not positive; the length is bounded accordingly |
| Trails.ChangeTravelLength | src/page/component/star.ts:452-454 | a longer length leaves the trail alone; a shorter positive one keeps the newest entries; zero keeps the whole trail |
| Trails.PushAllKeepsNewest | src/page/2d.tsx:196-198 | after any number of pushes, a bounded trail holds exactly the newest `travelLength` positions, oldest first |
| Trails.PushAllForgetsStart | src/page/2d.tsx:196-198 | after at least `travelLength` pushes only pushed positions remain |
| Trails.LastOfPushedLastAll | src/page/2d.tsx:196-198 | trimming before more pushes gives the same newest entries as trimming after them |
| Bodies.Kept | src/page/component/2d.tsx:359-360 | the surviving indices are strictly increasing and are exactly the indices below `n` absent from `deleteIndex`; duplicates are harmless |
| Bodies.KeptLength | src/page/component/2d.tsx:359-360 | the filter never yields more bodies than it is given |
| Bodies.KeptOfTwo | src/page/component/2d.tsx:359-360 | with two bodies, no deletion keeps both and one deletion keeps the other body |
| Bodies.ZeroForcesShape | src/page/component/2d.tsx:300-303 | the initial dictionary has a key for exactly the ids of the bodies, each mapped to the zero vector |
| Bodies.InitForces | src/page/component/2d.tsx:300-303 | the `forEach` that fills `result` builds exactly that dictionary |
| Bodies.Start | src/page/component/2d.tsx:299-305 | the scan starts from a well-formed state: zero forces for every body, no deletions, empty `changeList` |
| Bodies.Survivors | src/page/component/2d.tsx:359-367 | the filtered list has one body per kept index, carrying that index's id |
| Bodies.SurvivorsAreKept | src/page/component/2d.tsx:359-367 | with distinct ids the `changeList` lookup returns the very body it replaces, so the survivors are the kept bodies in order |
| Bodies.SurvivorsKeepFrame | src/page/component/2d.tsx:359-367 | survivors are the start-of-tick bodies at the kept indices, in order, changed only in speed and size, and their ids stay distinct |
| Bodies.WithoutAnchor | src/page/component/2d.tsx:208 | the filter keeps every body whose id is not `#0`, and only those |
| Bodies.WithoutAnchorAppend | src/page/component/2d.tsx:208 | the filter distributes over concatenation, so relative order is kept |
| Bodies.WithoutAnchorNoop | src/page/component/2d.tsx:208 | a list without the anchor passes unchanged |
| Scans.ScanToFrame | src/page/component/2d.tsx:306-307 | every state the nested loops reach keeps the shape of the starting state |
| Scans.ScanToStep | src/page/component/2d.tsx:306-307 | one more inner iteration is one more pair step, in loop order |
| Scans.ScannedFrame | src/page/component/2d.tsx:306-356 | the state after all pairs keeps the shape of the start |
| Scans.ScanToInvariant | src/page/component/2d.tsx:306-356 | a property every pair step preserves holds at every point of the scan |
| Scans.ScannedInvariant | src/page/component/2d.tsx:306-356 | such a property holds after the whole scan |
| Scans.ScannedPair | src/page/component/2d.tsx:306-307 | with two bodies the loops visit the single pair `(0, 1)` |
| Scans.ScannedTriple | src/page/component/3d.tsx:162-163 | with three bodies the loops visit `(0, 1)`, `(0, 2)`, `(1, 2)` in this order, each from a well-formed state |
| Motion.Euler2 | src/page/component/star.ts:151-162 | speed changes by `force/mass·step` (impulse), then position changes by the NEW speed times `step` |
| Motion.Euler3 | src/page/component/star.ts:319-337 | the same two equations on three axes |
| Motion.Euler2Unique | src/page/component/star.ts:151-162 | any phase satisfying the impulse and drift equations is the one the step computes |
| Motion.Euler3Unique | src/page/component/star.ts:319-337 | the same in space |
| Motion.Euler2Reversible | src/page/component/star.ts:151-162 | the planar step loses no information: running it backwards restores position and speed |
| Motion.Euler3Reversible | src/page/component/star.ts:319-337 | the spatial step is reversible likewise |
| Motion.MoveToNext2D | src/page/component/star.ts:148-165 | id, colour and size kept; the Euler equations hold; the trail grows by exactly the new position |
| Motion.MoveToNext3D | src/page/component/star.ts:315-346 | the Euler equations hold on three axes; the new position is pushed and then `slice(-travelLength)` applies, so a zero length keeps everything |
| Motion.MoveStar3D | src/page/component/3d.tsx:249-285 | the pre-move position is pushed and trimmed, so the trail holds at most `max(0, travelLength)` entries; the step is scaled by `step` |
| Motion.MoveStarPage | src/page/2d.tsx:193-213 | the same push and trim, with a step of length 1 (no step factor) |
| Engine2D.CollideSquared | src/page/component/2d.tsx:311-316 | the strict test `distance < size1 + size2` is equivalent to `d² < (size1+size2)²` |
| Engine2D.ApartHasDistance | src/page/component/2d.tsx:343-348 | bodies that do not overlap are a positive distance apart, so the force divisions are defined |
| Engine2D.ResolvedPull | src/page/component/2d.tsx:347-348 | resolving `f` along the separation gives a vector of length `f` that projects onto the separation as `f·distance` |
| Engine2D.AttractionLaw | src/page/component/2d.tsx:345-348 | `(xF, yF)` has magnitude `(g/100)·m1·m2/d²` and points from star2 to star1, so `-F` on star1 and `+F` on star2 pull them together |
| Engine2D.MergedSpeed | src/page/component/2d.tsx:322-327 | total mass times the merged speed equals the summed momenta: momentum is conserved |
| Engine2D.Exert | src/page/component/2d.tsx:351-354 | the accumulation adds no key to and removes none from the dictionary |
| Engine2D.ExertZero | src/page/component/2d.tsx:351-354 | a colliding pair's zero force changes no entry |
| Engine2D.ResolvePairFrame | src/page/component/2d.tsx:308-355 | one pair changes at most star1 and star2, and only their speed and size; the dictionary keys stay the same and `deleteIndex` only grows |
| Engine2D.ApartPair | src/page/component/2d.tsx:343-354 | a non-overlapping pair subtracts `F` from star1's entry and adds it to star2's; everything else is unchanged |
| Engine2D.CollidingPair | src/page/component/2d.tsx:316-342 | an overlapping pair adds no force and pushes exactly one index: star2's on a tie or larger star1, star1's otherwise. The loser is untouched. The winner gets the momentum average, and in merge mode the total mass. Under the guard a winning anchor as star1 keeps its speed and stays out of `changeList` |
| Engine2D.FrameStep | src/page/component/2d.tsx:306-356 | the shape facts chain from pair to pair |
| Engine2D.FrameSteps | src/page/component/2d.tsx:306-356 | the pair step qualifies for the generic fold |
| Engine2D.ScanStateStep | src/page/component/2d.tsx:306-307 | the inner loop's next iteration is one `ResolvePair` |
| Engine2D.ForcePass | src/page/component/2d.tsx:298-368 | the survivors have positive sizes and are no more than the start; the dictionary has a key for exactly the start-of-tick ids, removed bodies included |
| Engine2D.ForcePassSurvivors | src/page/component/2d.tsx:359-367 | with distinct ids the new list is the bodies whose index was never deleted, in original order, changed only in speed and size, ids still distinct |
| Engine2D.StartPair | src/page/component/2d.tsx:300-305 | the scan of two bodies starts from two zero forces |
| Engine2D.PassOfPair | src/page/component/2d.tsx:306-367 | with two bodies the pass is one pair step followed by the filter |
| Engine2D.TwoBodiesMerge | src/page/component/2d.tsx:316-342 | two overlapping bodies leave one survivor, the first on a tie, carrying both masses in merge mode, and both receive zero force |
| Engine2D.TwoBodiesMergeSurvivor | src/page/component/2d.tsx:316-342 | the survivor of a two-body merge is the larger body (the first on a tie) with its id, colour, position and trail; only speed and size change |
| Engine2D.TwoBodiesApart | src/page/component/2d.tsx:343-354 | two separate bodies both survive unchanged and receive `-F` and `+F` |
| Engine2D.TotalUpdate | src/page/component/2d.tsx:351-354 | replacing one entry changes the force total by the difference, counted once |
| Engine2D.ExertBalanced | src/page/component/2d.tsx:351-354 | `-F` on one id and `+F` on another leave the total unchanged |
| Engine2D.PairBalanced | src/page/component/2d.tsx:314-354 | no pair, colliding or not, changes the total force |
| Engine2D.ZeroTotal | src/page/component/2d.tsx:300-303 | the all-zero dictionary totals zero |
| Engine2D.ScanBalanced | src/page/component/2d.tsx:306-356 | the whole scan leaves the total force where it started |
| Engine2D.ForcesBalance | src/page/component/2d.tsx:298-357 | after the pass the forces on the start-of-tick bodies sum to the zero vector |
| Engine2D.VisitPair | src/page/component/2d.tsx:308-354 | the in-place body of the inner loop computes exactly `ResolvePair` |
| Engine2D.ScanRow | src/page/component/2d.tsx:307-355 | the inner `forEach` over `slice(index1 + 1)` ends in the fold's state at the end of row `index1` |
| Engine2D.ScanPairs | src/page/component/2d.tsx:306-356 | the outer `forEach` computes the fold over all pairs |
| Engine2D.CalcForce | src/page/component/2d.tsx:298-368 | the method returns exactly the survivors and dictionary of `ForcePass` |
| Engine3D.CollideSquared | src/page/component/3d.tsx:171-178 | the inclusive test `distance <= size1 + size2` is equivalent to `d² <= (size1+size2)²` |
| Engine3D.ApartHasDistance | src/page/component/3d.tsx:215-221 | bodies that do not overlap are a positive distance apart |
| Engine3D.Normalised | src/page/component/3d.tsx:219-221 | the separation divided by its length is a unit vector along it |
| Engine3D.DotScale | src/page/component/3d.tsx:219-221 | scaling one side of a dot product scales the product |
| Engine3D.ResolvedPull | src/page/component/3d.tsx:219-221 | the resolved vector has length `f` and projects onto the separation as `f·distance` |
| Engine3D.AttractionLaw | src/page/component/3d.tsx:217-221 | `(xF, yF, zF)` has magnitude `(g/100)·m1·m2/d²` and points from star2 to star1 |
| Engine3D.MergedSpeed | src/page/component/3d.tsx:184-192 | momentum is conserved on all three axes |
| Engine3D.Exert | src/page/component/3d.tsx:223-228 | the accumulation keeps the dictionary's keys |
| Engine3D.ExertZero | src/page/component/3d.tsx:223-228 | a colliding pair's zero force changes no entry |
| Engine3D.ResolvePairFrame | src/page/component/3d.tsx:164-229 | one pair changes at most the speed and size of star1 or star2, keeps the keys, and only grows `deleteIndex` |
| Engine3D.ApartPair | src/page/component/3d.tsx:215-228 | a non-overlapping pair subtracts `F` from star1 and adds it to star2, nothing else |
| Engine3D.CollidingPair | src/page/component/3d.tsx:178-210 | one index is pushed (star2's on a tie). The winner gets the momentum average and, in merge mode, the total mass. A winning anchor as star1 keeps its speed but still grows |
| Engine3D.FrameStep | src/page/component/3d.tsx:162-230 | the shape facts chain from pair to pair |
| Engine3D.FrameSteps | src/page/component/3d.tsx:162-230 | the spatial pair step qualifies for the generic fold |
| Engine3D.ScanStateStep | src/page/component/3d.tsx:162-163 | the next inner iteration is one `ResolvePair` |
| Engine3D.ForcePass | src/page/component/3d.tsx:154-246 | survivors positive and no more than the start; `this.g` has a key for exactly the start-of-tick ids |
| Engine3D.ForcePassSurvivors | src/page/component/3d.tsx:233-245 | the survivors are the never-deleted bodies in original order, changed only in speed and size |
| Engine3D.StartPair | src/page/component/3d.tsx:156-161 | two bodies start from two zero forces |
| Engine3D.PassOfPair | src/page/component/3d.tsx:162-245 | two bodies: one pair step, then the filter |
| Engine3D.TwoBodiesMerge | src/page/component/3d.tsx:178-210 | touching bodies (distance equal to the sum of sizes included) leave one survivor with both masses in merge mode and no force |
| Engine3D.TwoBodiesApart | src/page/component/3d.tsx:215-228 | two separate bodies survive unchanged with `-F` and `+F` |
| Engine3D.TotalUpdate | src/page/component/3d.tsx:223-228 | replacing one entry changes the total by the difference |
| Engine3D.ExertBalanced | src/page/component/3d.tsx:223-228 | an equal and opposite update keeps the total |
| Engine3D.PairBalanced | src/page/component/3d.tsx:174-228 | no pair changes the total force |
| Engine3D.ZeroTotal | src/page/component/3d.tsx:156-159 | the all-zero dictionary totals zero |
| Engine3D.ScanBalanced | src/page/component/3d.tsx:162-230 | the scan keeps the total force |
| Engine3D.ForcesBalance | src/page/component/3d.tsx:154-232 | the forces in `this.g` sum to the zero vector |
| Engine3D.VisitPair | src/page/component/3d.tsx:164-228 | the in-place inner loop body computes `ResolvePair` |
| Engine3D.ScanRow | src/page/component/3d.tsx:163-229 | the inner loop ends in the fold's state at the end of the row |
| Engine3D.ScanPairs | src/page/component/3d.tsx:162-230 | the nested loops compute the fold over all pairs |
| Engine3D.CalcForce | src/page/component/3d.tsx:154-246 | the method returns exactly `ForcePass` |
| Engine3D.DropLines | src/page/component/3d.tsx:211-214 | the per-collision cleanup of the line lists: when it completes, it removed the list of every deleted index and added none; it throws when a list is already gone |
| Engine3D.DropLinesMissing | src/page/component/3d.tsx:212 | a loser whose list is gone makes the cleanup throw |
| Engine3D.DropLinesThrows | src/page/component/3d.tsx:196-214 | with distinct ids and a list for every loser, the cleanup throws exactly when some index appears twice in `deleteIndex` |
| Engine3D.ScanIndexes | src/page/component/3d.tsx:197-204 | every entry of `deleteIndex` is an index of the start list |
| Engine3D.PassAsWritten | src/page/component/3d.tsx:154-246 | the as-written pass: when it does not throw, it is `ForcePass`; when it throws, `this.g` and `this.stars` are not assigned |
| Engine3D.LineKeys | src/page/component/3d.tsx:339-358 | `init` gives every body of the list a line list |
| Engine3D.ThrowsIffLosesTwice | src/page/component/3d.tsx:154-246 | with distinct ids, the pass throws exactly when one body loses twice in the scan, and otherwise completes with `ForcePass` |
| Engine3D.Absorbs | src/page/component/3d.tsx:178-210 | a touching pair pushes the loser's index; the winner keeps its place and its position and does not shrink |
| Engine3D.ScanOfThree | src/page/component/3d.tsx:162-230 | with three bodies the pass is the pair steps `(0, 1)`, `(0, 2)`, `(1, 2)` in order |
| Engine3D.DoubleLoss | src/page/component/3d.tsx:178-204 | sizes 2, 1, 2 at x = 0, 1, 2: `deleteIndex` ends as `[1, 2, 1]` |
| Engine3D.DoubleLossFrom | src/page/component/3d.tsx:178-204 | the same three pair steps from any state holding those bodies |
| Engine3D.DoubleLossTail | src/page/component/3d.tsx:178-204 | after the first absorption, the pairs `(0, 2)` and `(1, 2)` push 2, then 1 |
| Engine3D.DoubleLossThrows | src/page/component/3d.tsx:212 | on those bodies the as-written pass throws |
| Stars.MagnitudeZero | src/page/component/utils.ts:228-233 | `calcDistanceOnVec2(v, 0)` is non-negative and zero exactly for the zero vector |
| Stars.MagnitudeScale | src/page/component/star.ts:137-139 | multiplying both components by `k` multiplies the length by `|k|` |
| Stars.ScaledSquares | src/page/component/star.ts:137-139 | the arithmetic behind it: the squared components scale by `k²` |
| Stars.PolarMagnitude | src/page/component/star.ts:118-121 | `(r·cos θ, r·sin θ)` has length `|r|` |
| Stars.ResizedMagnitude | src/page/component/star.ts:128-141 | after the `speedSize` setter the speed has length `|s|`, whether the body was moving or at rest |
| Stars.TurnedKeepsMagnitude | src/page/component/star.ts:114-122 | the `direction` setter keeps the length of the speed, and a body at rest then reports the direction it was given |
| Stars.Star2D.constructor | src/page/component/star.ts:9-22 | the fields are the parameters, `mass = size³`, the trail is empty |
| Stars.Star2D.SetSize | src/page/component/star.ts:37-41 | size and mass change together, keeping `mass = size³`; no other field changes |
| Stars.Star2D.Clone | src/page/component/star.ts:47-55 | a fresh object with the same id, colour, size, position and speed and an empty trail, so later changes to either leave the other alone |
| Stars.Star2D.SandboxData | src/page/component/star.ts:91-98 | position, speed, colour and size of the body |
| Stars.Star2D.Direction | src/page/component/star.ts:102-112 | a moving body reports and stores the angle of its speed; a body at rest reports the stored angle; nothing else changes |
| Stars.Star2D.SetDirection | src/page/component/star.ts:114-122 | the speed is turned to the given angle with its length kept, and the angle is stored |
| Stars.Star2D.SpeedSize | src/page/component/star.ts:124-126 | the getter returns the non-negative length of the speed |
| Stars.Star2D.SetSpeedSize | src/page/component/star.ts:128-141 | the speed becomes `Resized`, which has the requested length |
| Stars.Star2D.MoveToNext | src/page/component/star.ts:148-165 | the object's new values are one `MoveToNext2D` step with its own force entry; the mass invariant is kept |
| Stars.Star2D.DrawTravel | src/page/component/star.ts:222-233 | the trail becomes its `DrawTrim`; no other field changes |
| Stars.Star3D.constructor | src/page/component/star.ts:261-265 | the fields are the parameters, `mass = size³`, the trail is empty |
| Stars.Star3D.SetSize | src/page/component/star.ts:37-41 | size and mass change together; nothing else changes |
| Stars.Star3D.MoveLines | src/page/component/star.ts:422-425 | the trail becomes `slice(-travelLength)` of itself |
| Stars.Star3D.MoveToNext | src/page/component/star.ts:315-346 | the object's new values are one `MoveToNext3D` step, trim included |
| Stars.Star3D.ChangeTravelLength | src/page/component/star.ts:452-454 | the trail becomes `ChangeTravelLength` of itself |
| Seeds.Numbered | src/page/component/2d.tsx:215-224 | the bodies are numbered `#first, #first+1, …` in input order and keep each seed's position, speed, colour and size |
| Seeds.NumberedIds | src/page/component/2d.tsx:215-224 | numbered ids are pairwise different, and none is `#0` when numbering starts at 1 |
| Seeds.AnchoredIds | src/page/2d.tsx:79-113 | an anchor in front of bodies numbered from 1: ids pairwise different, `#0` only at index 0 |
| Component2D.ZoomedAffine | src/page/component/2d.tsx:83-93 | `zoomedX`/`zoomedY` fix the origin and scale differences by `zoomed` |
| Component2D.ZoomRoundTrip | src/page/component/2d.tsx:87-106 | `zoomedX_INV(zoomedX(x)) = floor(x)` and likewise for Y, for every non-zero scale |
| Component2D.ZoomedXInvColumn | src/page/component/2d.tsx:96-100 | for a positive scale the inverse returns the integer column whose screen span contains the point |
| Component2D.RemoveUndoesAdd | src/page/component/2d.tsx:192-209 | `removeCenterStar` after `addCenterStar` gives the list without anchors it would have given before |
| Component2D.InitialIds | src/page/component/2d.tsx:212-242 | sandbox ids are distinct and never `#0`; random start ids are distinct, with `#0` only in front and only when the centre is enabled |
| Component2D.TickBody | src/page/component/2d.tsx:275-291 | `draw` trims first; the anchor keeps position and speed; any other body takes one Euler step and gains one entry, so the trail is at most `travelLength + 1` long |
| Component2D.TickKeepsAnchor | src/page/component/2d.tsx:272-292 | after the pass every body can be moved, ids stay distinct, and a surviving anchor is where an anchor was at the start of the tick |
| Component2D.MoveAll | src/page/component/2d.tsx:275-292 | the `forEach` that writes `stars[index]` computes the per-body tick for every slot |
| Component2D.Simulation.constructor | src/page/component/2d.tsx:63-73 | no bodies, no forces, scale 1, origin at the corner |
| Component2D.Simulation.AddCenterStar | src/page/component/2d.tsx:192-204 | exactly one red anchor at rest in the middle of the canvas is appended |
| Component2D.Simulation.RemoveCenterStar | src/page/component/2d.tsx:207-209 | `stars` becomes its filter without `#0` |
| Component2D.Simulation.InitStars | src/page/component/2d.tsx:212-242 | sandbox mode replaces the list by `#1..#n`; otherwise the anchor (unless disabled) and `#1..#total` are appended to the current list |
| Component2D.Simulation.CalcForce | src/page/component/2d.tsx:298-368 | `stars` and `forceDict` become the pass of the old list under the anchor guard |
| Component2D.InsertPerm | src/page/component/2d.tsx:461-462 | inserting one body into the sorted part adds exactly that body |
| Component2D.InsertDescending | src/page/component/2d.tsx:461-462 | inserting into a largest-first list keeps it largest first |
| Component2D.InsertStable | src/page/component/2d.tsx:461-462 | the inserted body goes behind larger bodies only, so it stays in front of the bodies of its own size |
| Component2D.BySizeSorts | src/page/component/2d.tsx:461-462 | the reorder of `render` leaves the list largest first and holds the same bodies (equal multisets); bodies of equal size keep their old order, because the comparator `value2.size - value1.size` is zero on them and `sort` is stable |
| Component2D.BySizeKeepsSorted | src/page/component/2d.tsx:461-462 | a list that is already largest first is left as it is |
| Component2D.BySizeIdempotent | src/page/component/2d.tsx:461-462 | a second render's sort changes nothing |
| Component2D.Simulation.Render | src/page/component/2d.tsx:461-462 | `stars` becomes its size reorder, run by the `forceUpdate` at line 293; `forceDict` and the view are unchanged |
| Component2D.Simulation.Tick | src/page/component/2d.tsx:263-293 | one pass, then the per-body tick on the survivors with the new `forceDict`, then the reorder of `render`, so the next pass visits its pairs largest first |
| Component3D.Initial | src/page/component/3d.tsx:91-151 | ids distinct. Sandbox mode has no anchor and holds the sandbox bodies `#1..#n` in order. Otherwise the red anchor at the origin is first and the only `#0`, followed by the generated bodies `#1..#total` in order. Every other body starts with its position as trail |
| Component3D.TickBody | src/page/component/3d.tsx:323-326 | the anchor is returned unchanged; every other body takes `moveStar`, its trail bounded by `max(0, travelLength)` |
| Component3D.TickKeepsAnchor | src/page/component/3d.tsx:321-328 | ids stay distinct and a surviving anchor is a start-of-tick body changed at most in speed and size |
| Component3D.MoveAll | src/page/component/3d.tsx:323-328 | the `forEach` writing `this.stars[index]` computes the per-body tick |
| Component3D.Simulation.constructor | src/page/component/3d.tsx:82-86 | no bodies and an empty `g` |
| Component3D.Simulation.InitStars | src/page/component/3d.tsx:91-151 | the list is replaced by `Initial` in both modes |
| Component3D.Simulation.CalcForce | src/page/component/3d.tsx:154-246 | `stars` and `g` become the pass of the old list |
| Component3D.Simulation.Tick | src/page/component/3d.tsx:321-328 | one pass, then every body but `#0` moves with the new `g` |
| Page2D.Initial | src/page/2d.tsx:76-116 | the anchor first, then the generated bodies as `#1..#total` in order; ids distinct, `#0` only at index 0, each other body's trail is its position |
| Page2D.InitStars | src/page/2d.tsx:76-116 | the pushing loop builds exactly `Initial` |
| Page2D.Move | src/page/2d.tsx:193-215 | one unit Euler step; the trail gets the old position and holds at most `max(0, travelLength)` entries |
| Page2D.AdvanceMovesAllButAnchor | src/page/2d.tsx:151-158 | every body but `#0` takes one unit step with its force and trail push; `#0` stays exactly as it is |
| Page2D.TickKeepsAnchor | src/page/2d.tsx:149-158 | a surviving anchor is a start-of-tick body changed at most in speed and size, so it has not moved |
| Page2D.MoveAll | src/page/2d.tsx:151-158 | the `forEach` writing `stars[index]` computes `Advance` |
| Page2D.ZoomPair | src/page/2d.tsx:353-359 | zooming keeps a positive scale positive; zoom in then out (either order) is `scale·0.99`, not the identity |
| Page2D.Page.constructor | src/page/2d.tsx:48-50 | empty list, empty `g`, scale 1 |
| Page2D.Page.Start | src/page/2d.tsx:131-137 | the centre point is the middle of the canvas and the list is `Initial` |
| Page2D.Page.CalcForce | src/page/2d.tsx:218-287 | `stars` and `g` become the pass of the old list, without the anchor guard |
| Page2D.Page.Tick | src/page/2d.tsx:148-159 | one pass, then `Advance` on the survivors |
| Page2D.Page.ZoomIn | src/page/2d.tsx:353-355 | scale times 1.1, nothing else changes |
| Page2D.Page.ZoomOut | src/page/2d.tsx:357-359 | scale times 0.9, nothing else changes |
| Canvas.AgreesWhileAnchorFirst | src/page/canvas.tsx:148-154 | while `#0` is at index 0 and nowhere else, skipping index 0 equals skipping the anchor |
| Canvas.FirstSurvivorFrozen | src/page/canvas.tsx:146-155 | when the anchor is absorbed by `#1`, whatever `#1`'s trail, the tick leaves `#1` in place with that trail untouched, where skipping by id would move it and push its old position |
| Canvas.TransCordInverts | src/page/canvas.tsx:288-294 | `transCord` undoes the drawing transform up to the pan offset: the point comes back shifted by `offset/scale` |
| Canvas.MoveAll | src/page/canvas.tsx:148-154 | the `forEach` writing `stars[index]` computes the index-0-skipping `Advance` |
| Canvas.Page.constructor | src/page/canvas.tsx:63-72 | empty list, empty `g`, scale 1, zero centre point and offset |
| Canvas.Page.Start | src/page/canvas.tsx:122-133 | `g` is cleared, the list is `Initial`, the centre point is the middle of the canvas |
| Canvas.Page.CalcForce | src/page/canvas.tsx:215-285 | `stars` and `g` become the pass of the old list, without the anchor guard |
| Canvas.Page.Tick | src/page/canvas.tsx:146-155 | one pass, then every body but the FIRST moves |
| Canvas.Page.ZoomIn | src/page/canvas.tsx:341-343 | scale times 1.1, nothing else changes |
| Canvas.Page.ZoomOut | src/page/canvas.tsx:345-347 | scale times 0.9, nothing else changes |

## Left out

- Drawing is not modelled, because it only reads the state. The one exception is the status panel of the planar component: `render` sorts `this.stars` in place (src/page/component/2d.tsx:461-462), which sets the pair order of the next pass. It is modelled as `Component2D.Simulation.Render`. The drawing that is left out:
  - `drawArc`, the canvas calls of `drawTravel`, `drawStar` and `drawLine`;
  - the THREE scene, meshes, lines and sprites. The line lists enter the model only as a set of keys, because the cleanup in the spatial `calcForce` (src/page/component/3d.tsx:211-214) can throw; see Findings;
  - the line bookkeeping of `moveLines` and `changeTravelLength`.
- Timers and the React lifecycle are not modelled: `setInterval` cadence, `componentWillReceiveProps`, mount and unmount. One tick is one synchronous method call. The `forceUpdate` at the end of a planar tick is modelled as the `render` it runs at once from a timer callback.
- Component2D.Simulation.Tick: the size reorder is applied at the end of every tick only. `render` also runs when the parent passes new props, and each such render sorts the list again. Sorting a list that is already sorted leaves it unchanged (`Component2D.BySizeIdempotent`), but a render between `initStars` and the first tick is not modelled, so the first pass scans in insertion order.
- `setState` on the pages is taken to apply at once. This matches a call from a timer callback, which React does not batch. The focus feature (`focusOn`) is left out.
- Randomness is not modelled. `Star2D.ofRandom`, `Star3D.ofRandom`, `randomColor`, `randomRGB` and the random branches of every `initStars` become the `generated` seed list, an input. Only the ids, trails and anchor placement that the code itself decides are modelled.
- UI and input are not modelled: the mouse, wheel and pinch handlers (`move`, `trackWheel`), which set `scale` and `origin` (src/page/component/2d.tsx:109-189), the pan handler of the canvas page that sets `centerPointOffset`, and `initCenterPoint`. `Canvas.DrawnAt` takes the offset as a parameter.
- IEEE floating point is not modelled. Numbers are reals, so momentum, mass and force balance hold exactly. Infinities and NaN from a zero mass or distance are not represented.
- `Math.pow(x, 0.5)`, `Math.pow(x, 1/3)`, `atan2`, `cos`, `sin` and `PI` are foreign calls. They are the `Roots` and `Trig` parameters.
- Object identity and aliasing are not modelled:
  - bodies in the passes and ticks are values;
  - `changeList` maps an id to the index of the updated body;
  - `deepCopy` is a value copy.
  - A later in-place update that the source makes visible through a shared object is therefore not modelled.
- Engine2D.ForcePass: requires every size to be positive. The sandbox editor accepts any number as a size (src/page/component/addStar.tsx:132-137, src/page/component/editStar.tsx:83-87), and those sizes reach `initStars` (src/page/component/2d.tsx:215-224). A zero or negative size gives a zero or negative mass, and a division by a zero mass gives IEEE NaN or Infinity, which the model does not represent. Random bodies and the anchor get the sizes their inputs give.
- Engine3D.ForcePass: requires positive sizes, for the same reason (src/page/component/3d.tsx:91-103).
- Engine3D.ForcePass: is the corrected pass, which always completes. The pass as written throws when one body loses twice in the same scan (Findings). Then `this.g` and `this.stars` are not assigned, and every later tick throws again, so the simulation stops. `PassAsWritten` and `ThrowsIffLosesTwice` state this.
- Engine3D.PassAsWritten: does not model the size and speed updates made in place before the throw. `calcForce` works on `this.stars` itself (src/page/component/3d.tsx:155), so in merge mode a winner keeps growing on each failed tick. The scene removals before the throw are not modelled either.
- Component3D.Simulation.CalcForce: uses the corrected `Engine3D.ForcePass`. The throwing case is stated by `Engine3D.PassAsWritten`, not by the method.
- Engine2D.ForcesBalance: requires distinct ids. So do `Engine2D.ForcePassSurvivors`, `Engine3D.ForcesBalance` and the `TickKeepsAnchor` lemmas. `addCenterStar` after a start that already has an anchor gives two `#0` bodies; the balance and survivor facts are not proved for that list.
- Stars.Star2D.MoveToNext: requires the body's id in the dictionary and a non-zero mass. The source would read an undefined force and fail.
- Stars.Star3D.MoveToNext: requires the same as `Star2D.MoveToNext`.
- Component2D.ZoomRoundTrip: requires a non-zero scale, as `ZoomedXInv` and `ZoomedYInv` do. A zero scale is an IEEE division the model does not represent.
- Canvas.TransCordInverts: requires a non-zero scale, as `TransCord` does.
- Stars.Star2D.SetDirection: the length of the new speed follows from `TurnedKeepsMagnitude`, which needs valid `Roots` and `Trig`. The method itself states the new speed only as a polar vector.
- Canvas.Page.Start: the list that the first `setState` builds is replaced at once by the second (src/page/canvas.tsx:126-133), so only one list is modelled.
- The tick-driver `start` of each variant is modelled from its first tick on. Clearing the previous timer is not modelled.

## Findings

| source | as written | input that shows it | evidently intended | confidence | as-written member | corrected member |
|---|---|---|---|---|---|---|
| src/page/canvas.tsx:152 | the tick skips the body at index 0, whatever its id | the anchor `#0` collides with a larger `#1` and is absorbed, so `#1` is first after the pass; `#1` is then never moved again and its trail stays as it was | skip the anchor `#0` by id, as the sibling page src/page/2d.tsx:155 does, and move every other body | medium, not executed | Canvas.FirstSurvivorFrozen | Page2D.AdvanceMovesAllButAnchor |
| src/page/component/3d.tsx:212 | each collision looks up the loser's line list and then deletes it, but a body can lose more than once in the same scan, because `deleteIndex` is only filtered after the loops | three bodies of sizes 2, 1, 2 at x = 0, 1, 2: the first absorbs the middle one, then the third; the pair of the middle and the third, both already deleted, pushes the middle again, and the second lookup of its list fails with a TypeError | the pass completes, and the loser's line list is removed only once | high, not executed | Engine3D.DoubleLossThrows | Engine3D.ForcePass |

`Canvas.Page.Tick` keeps the behaviour as written. The corrected tick is
`Page2D.Advance`, which `Page2D.Page.Tick` uses.
`Canvas.AgreesWhileAnchorFirst` shows that the two agree as long as the
anchor is the first body and the only one with id `#0`.

The spatial simulation `Component3D.Simulation` uses the corrected pass
`Engine3D.ForcePass`. `Engine3D.ThrowsIffLosesTwice` shows that the pass
as written agrees with it whenever no body loses twice in a scan.
