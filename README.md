# Arena shooter: the per-frame game state

This project models the core of a browser arena shooter (`script.js`). The
player moves a square along the bottom of an 800 x 600 canvas, fires bullets
upwards, raises a shield and fires a two-bullet power attack. Enemies and
obstacles fall from the top. An enemy is destroyed, for 10 points, when the
collision pass tests it against a bullet that overlaps it. An enemy that the
enemy pass removes below the bottom of the canvas costs a life, and so does an
obstacle that the player overlaps, unless the shield is up; boxes that only
touch along an edge do not overlap. Each pass skips the element after each
removal (see the next paragraphs), so an overlapping enemy, bullet or obstacle
that shifts into a vacated slot is not tested in that frame. The game ends when
the lives reach exactly 0.

The model is a `Game` class (`game.dfy`). Its fields are the player record
(`x`, `y`, `dx`, `lives`, `shield`), the `bullets`, `enemies` and `obstacles`
lists, the `score`, and the end-of-game state (`gameOver`, `finalScore`). There
is one method per update function of the frame loop. `Tick` runs the frame in
the loop's order: player, bullets, enemies, obstacles, collisions.

Every list pass of the source is a `forEach` whose callback may `splice` the
current element out of the array it is walking. The model keeps that loop as it
is: the index `k` advances while it is below both the starting length and the
current length. After a splice, the element that shifts into slot `k` is
neither moved nor tested in that pass.

- `Sprites.Sweep` is the reference definition of such a pass, stated on the
  original list.
- `Sprites.Removed` counts the removals of such a pass.
- `Collisions.Collide` is the reference definition of the nested bullet-against-enemy pass.

In the nested pass, the enemy loop keeps going with the captured bullet and its
now stale index. Every further hit splices whatever bullet has shifted into that
index.

Files:
- `geometry.dfy`: the canvas size, boxes, the strict overlap test and the clamp.
- `sprites.dfy`: entities, the per-element rules and the forEach-with-splice pass.
- `collisions.dfy`: the nested bullet-against-enemy pass.
- `game.dfy`: the game state and its update methods.

Four behaviours of `script.js` are easy to misread, and the model keeps them as written:
- A splice during a pass skips the next element: the element that shifts into
  the spliced slot is neither moved nor tested (script.js:76-79, 87-99, 107-112, 141-157).
- In the bullet pass, the enemy loop keeps the captured bullet after a hit
  (script.js:125-138). One bullet can therefore destroy several enemies in one
  pass, and each further hit splices whatever bullet now sits at the stale
  index (script.js:133).
- The fire rate limit needs the newest bullet to be strictly more than 20
  units above the player (script.js:53). A bullet exactly 20 units up still blocks the key.
- Enemies and obstacles share the spawn range of a 30-wide enemy
  (script.js:84, 104). A 50-wide obstacle placed past x = 750 therefore
  overhangs the right edge of the canvas.

## Model

| member | source | states |
|---|---|---|
| Geometry.OverlapsIffCommonInterior | script.js:127-132 | for boxes of positive size the four strict inequalities hold exactly when the boxes share an interior point, so boxes touching only at an edge or corner never collide |
| Geometry.Overlaps | script.js:127-132 | the four strict inequalities of the collision test; for boxes of positive size they hold exactly when the intersection of the boxes has positive width and height |
| Geometry.Clamp | script.js:46-49 | the clamped position lies in [lo, hi] and is the point of [lo, hi] nearest to the unclamped one |
| Sprites.Sweep | script.js:76-79 | the outcome of a forEach-with-splice pass has exactly as many elements as the input minus the removals |
| Sprites.Drops | script.js:78 | the removal test of each pass (bullet bottom above the canvas, enemy or obstacle top below it, or overlap with the target); an element leaves at an edge only when wholly off the canvas, and never while wholly within the canvas rows |
| Sprites.Removed | script.js:76-79 | the number of splices a pass makes; since each removal skips the next element, at most every other element goes |
| Sprites.SweepIsSwept | script.js:75-80 | a pass adds nothing and keeps the survivors in order; an element is removed only if its moved form met the removal condition, and kept in moved form only if that form did not |
| Sprites.SweptFrom | script.js:75-80 | every element after a pass is an element from before it, or the moved form of one that was not dropped |
| Sprites.SweepWithoutDrops | script.js:76-79 | when no moved element is dropped, the pass removes nothing and moves every element once |
| Sprites.SweepSkips | script.js:78 | the defining equation of the skip: after a splice at k, the pass over the rest keeps the element that shifted into slot k unmoved and untested, and continues two places on |
| Sprites.Moved | script.js:77 | one frame of motion, the `y += dy` of lines 77, 88 and 108: the y coordinate moves by exactly dy, and x, size, colour and dy stay as they were |
| Sprites.Splice | script.js:76-79 | the effect of one callback on the array (lines 77-78, 88-90, 108-110, 142-148): the element at index k is written back in its visited form, or spliced out when that form is dropped, in which case the list is one shorter; every other slot holds the element it held before, shifted down by one past k after a splice |
| Sprites.SweepStep | script.js:76-79 | one callback (move, then splice if the condition holds) keeps the passed prefix plus the pass over the rest equal to the pass over the original, and accounts for its removal |
| Sprites.SweepEnds | script.js:76-79 | once the index passes the end of the current array, the array is the outcome of the pass and the count is its number of removals |
| Collisions.Collide | script.js:125-139 | the surviving enemies plus the hits equal the enemies before; each hit removes at most one bullet |
| Collisions.SpliceRun | script.js:133 | the closed form of `count` calls of splice(i, 1): the elements before i stay, the list loses `count` elements or, when fewer remain, everything from i on, and each element from i on is the one `count` places further along |
| Collisions.Spliced | script.js:133 | repeated splice(i, 1) one call at a time: the list never shrinks below index i nor grows |
| Collisions.SplicedLength | script.js:133 | each splice(i, 1) removes one bullet until none is left at index i |
| Collisions.SplicedAgain | script.js:133 | c splices at one index followed by d more are c + d splices |
| Collisions.SplicedIsRun | script.js:133 | repeated splice(i, 1) cuts out the run of bullets starting at i, and removes nothing once the list ends before i |
| Collisions.SpliceRunIsSubsequence | script.js:133 | cutting out such a run leaves a subsequence of the bullets |
| Collisions.CollideOnlyRemoves | script.js:125-139 | the bullet pass adds nothing: surviving bullets are a subsequence of the bullets, and surviving enemies are the enemies less some that a bullet present at the start overlaps |
| Collisions.ContactSweepCulled | script.js:126-134 | the inner enemy pass of one bullet removes only enemies that bullet overlaps |
| Collisions.CollideWithoutOverlap | script.js:125-139 | when no bullet overlaps any enemy the pass changes nothing and scores nothing |
| Collisions.OneBulletTwoHits | script.js:126-137 | with three overlapping enemies, one bullet destroys the first and the third (the second is skipped) and scores twice |
| Collisions.StaleIndexRemovesBystander | script.js:133 | a second hit by an already spliced bullet removes the bullet that shifted into its index, which overlaps nothing |
| Shooter.BulletsStayInBand | script.js:75-80 | the bullet pass keeps every bullet its own shape, at most its height above the canvas and not below the player |
| Shooter.EnemiesStayInBand | script.js:87-99 | the enemy pass keeps every enemy its own shape and between the canvas top and bottom |
| Shooter.ObstaclesStayInBand | script.js:107-112 | the obstacle pass keeps every obstacle its own shape and between the canvas top and bottom |
| Shooter.ContactSweepMembers | script.js:141-157 | the obstacle contact pass only removes obstacles |
| Shooter.Shot | script.js:54 | the fired bullet is centred on the player, level with its top, flying up, and in the bullet band whenever the player is on the canvas |
| Shooter.PowerShots | script.js:70-71 | exactly two bullets level with the player, one ending 20 units left of it and one starting 20 units right of it, both in the bullet band whenever the player is on the canvas |
| Shooter.ReadyToFire | script.js:53 | firing is open with no bullet; only the newest bullet matters; a bullet still level with the player blocks the key |
| Shooter.NewEnemy | script.js:84 | an enemy spawned at a fraction in [0, 1) of the range starts at the canvas top, wholly within the canvas width, in the enemy band |
| Shooter.NewObstacle | script.js:104 | an obstacle spawned at a fraction in [0, 1) starts at the canvas top in the obstacle band, and overhangs the right edge exactly when it starts past 750 |
| Shooter.LoseOne | script.js:92-96 | one lost life: the counter drops by one, the game ends exactly when this loss takes the last life, and a consistent tally stays consistent |
| Shooter.Fired | script.js:42-44 | the bullets after the fire and power keys (with shootBullet at lines 52-57 and powerAttack at 69-73): the old bullets stay as a prefix; one shot is appended exactly when the fire key is held and firing is open; the two power shots come last when the power key is held; with the player on the canvas every bullet stays in the bullet band |
| Shooter.Spawned | script.js:83-85 | the random spawn check (also lines 103-105): the old list stays as a prefix, it grows by one exactly when the roll is below the chance, the new last element is the spawned one, and nothing else is added |
| Shooter.Losses | script.js:91-97 | n lives lost one after another, each with the `=== 0` test (also lines 149-155): the counter drops by n, a game that is over stays over, and a counter already at 0 or below neither ends the game nor changes the score shown |
| Shooter.Lost | script.js:91-97 | the closed form of n losses at one score: the counter drops by n, a game that is over stays over, and the game newly ends, showing that score, exactly when the counter was positive and at most n |
| Shooter.FireRateLimit | script.js:53 | a shot moves 5 units up per frame, and blocks the fire key until it has flown five frames: after four it is exactly 20 units up, which is not enough |
| Shooter.LossesAdd | script.js:91-97 | lives lost one after another add up |
| Shooter.LossesClosedForm | script.js:91-97 | after n lost lives the counter is n lower, and the game has ended, showing the score, exactly when the counter was positive and at most n |
| Shooter.LossesKeepTallyOk | script.js:91-97 | losing lives keeps the tally consistent: at most 3 lives, over exactly when none are left, final score no more than the score |
| Shooter.CollisionsKeepTally | script.js:124-158 | the collisions of a frame keep the score a non-negative multiple of 10 and the tally consistent, whatever the hits and lives lost |
| Shooter.CollisionsKeepBands | script.js:125-139 | the bullet pass keeps every surviving bullet and enemy in its band |
| Shooter.ChargeAdvances | script.js:88-97 | visiting one enemy (or obstacle) keeps the pass on course and charges one life for its removal unless the shield is up |
| Shooter.ChargeEnds | script.js:87-99 | at the end of the pass the tally shows one lost life per removal unless the shield is up |
| Shooter.Game.constructor | script.js:7-22 | the player starts centred on its row with 3 lives, no shield and no motion; the lists are empty and the score is 0 |
| Shooter.Game.ShootBullet | script.js:52-57 | appends exactly one bullet, from the middle of the player moving up at 5, iff there is no bullet or the newest is more than 20 above the player; otherwise nothing changes |
| Shooter.Game.ActivateShield | script.js:59-67 | the shield is up afterwards; the expiry timer starts only if it was down, so an active shield is not extended |
| Shooter.Game.ExpireShield | script.js:63-65 | the timer callback lowers the shield and changes nothing else |
| Shooter.Game.PowerAttack | script.js:69-73 | always appends exactly two bullets, 25 left of the player and 20 right of it, at the player's row |
| Shooter.Game.UpdatePlayer | script.js:37-50 | dx is +5 when right is held (even with left), -5 when only left is held, else 0; x ends clamped to [0, 770]; y never changes; shots start from the position before the move |
| Shooter.Game.Steer | script.js:38-40 | the velocity follows the arrow keys, right winning over left |
| Shooter.Game.PressKeys | script.js:42-44 | the fire, shield and power-attack keys act in that order |
| Shooter.Game.Move | script.js:46-49 | the player moves by dx and is clamped into [0, canvas width - player width] |
| Shooter.Game.UpdateBullets | script.js:75-80 | the bullets become the pass that moves them up and drops those whose bottom is above the canvas; the invariant holds |
| Shooter.Game.RiseBullets | script.js:76-79 | the forEach loop produces exactly the reference pass over the bullets |
| Shooter.Game.MoveBullet | script.js:77-78 | one callback: move the bullet, then splice it out when it is above the canvas |
| Shooter.Game.LoseLife | script.js:92-96 | one life less; the game ends, showing the current score, exactly when the counter reaches 0 |
| Shooter.Game.UpdateEnemies | script.js:82-100 | spawns an enemy iff the roll is below 0.02, then runs the descent pass; lives drop by one per removed enemy, by none with the shield up |
| Shooter.Game.DescendEnemies | script.js:87-99 | the forEach loop produces the reference pass and charges one life per removal unless the shield is up |
| Shooter.Game.MoveEnemy | script.js:88-97 | one callback: the enemy moves down 3, and once its top is below 600 it is spliced out (reported as dropped) and costs a life unless the shield is up |
| Shooter.Game.PassEnemy | script.js:87-99 | one iteration of the enemy forEach: the callback for index k keeps the pass and its charges on course and never grows the list |
| Shooter.Game.UpdateObstacles | script.js:102-113 | spawns an obstacle iff the roll is below 0.01, then runs the descent pass; lives and score are untouched |
| Shooter.Game.DescendObstacles | script.js:107-112 | the forEach loop produces exactly the reference pass over the obstacles |
| Shooter.Game.MoveObstacle | script.js:108-111 | one callback: the obstacle moves down 2 and is spliced out once its top is below 600 |
| Shooter.Game.CheckCollisions | script.js:124-158 | bullets, enemies and score follow the reference nested pass (10 points per hit); then each visited obstacle the player overlaps is removed and costs a life unless the shield is up, while the obstacle after each removal is skipped; the invariant holds |
| Shooter.Game.ShootEnemies | script.js:125-139 | the outer forEach loop over the bullets produces exactly the reference nested pass |
| Shooter.Game.ResolveShot | script.js:126-138 | the inner loop for the bullet at index i removes each visited enemy it overlaps (the enemy after each removal is skipped), splices index i once per hit, and scores 10 per hit |
| Shooter.Game.MeetEnemy | script.js:127-137 | one inner callback: on strict overlap, the enemy and whatever bullet sits at the stale index are spliced out and 10 is scored |
| Shooter.Game.PassEnemyShot | script.js:126-138 | one iteration of the inner forEach: the callback for enemy index j keeps the enemy pass, the splices at index i and the score on course |
| Shooter.Game.HitObstacles | script.js:141-157 | the obstacle forEach produces the contact pass and charges one life per removal unless the shield is up |
| Shooter.Game.TouchObstacle | script.js:142-156 | one callback: an obstacle the player overlaps is spliced out (reported as dropped) and costs a life unless the shield is up |
| Shooter.Game.PassObstacle | script.js:141-157 | one iteration of the obstacle forEach: the callback for index k keeps the pass and its charges on course and never grows the list |
| Shooter.Game.Advance | script.js:209-212 | the four movement updates of a frame compose into the reference passes over the fired bullets and the spawned lists |
| Shooter.Game.Tick | script.js:207-221 | one frame runs the updates in loop order, yielding the composed outcome; the score never decreases and lives never increase, and never drop with the shield up; after game over a frame changes nothing |

## Left out

- Drawing, the canvas context and `clearCanvas` (script.js:1-5, 160-205): rendering with no game logic.
- The `Audio` cues and their `.play()` calls: foreign media API with no effect on the state.
- The keydown/keyup listeners and the `keys` map: the held keys are boolean parameters of `UpdatePlayer` and `Tick`.
- `Math.random`: the spawn rolls and the spawn position fractions are parameters, with the fractions in [0, 1).
- `getRandomColor` (script.js:115-122): the colour of a new enemy is an opaque string parameter.
- The five-second `setTimeout` shield expiry is not scheduled by the model. `ActivateShield` reports whether the timer would start, and the host calls `ExpireShield` when it fires.
- `alert` and `document.location.reload` are modelled as `gameOver` and the `finalScore` the alert would show. The rest of the frame still runs, as in the source, where the reload takes effect only after the frame.
- Shooter.Game.Tick: a frame after game over changes nothing. It stands in for the reloaded page and does not model a fresh game starting.
- `requestAnimationFrame` scheduling: the host calls `Tick` once per frame.
- Coordinates are exact reals: floating-point rounding of JavaScript numbers is not modelled.
- Shooter.Game.Advance: it only groups the four movement updates of `gameLoop` so that `Tick` states the frame in two steps. It has no counterpart of its own in the source.
