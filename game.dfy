/** The game state of the arena shooter and its per-frame update: the
    player record, the bullet, enemy and obstacle lists and the score, with
    one method per update function of the frame loop. */
module Shooter {
  import opened Geometry
  import opened Sprites
  import opened Collisions

  const PlayerSize: real := 30.0
  const PlayerTop: real := ArenaHeight - 60.0
  const Speed: real := 5.0
  /** How far above the player the newest bullet must be before another shot. */
  const FireGap: real := 20.0
  const EnemyChance: real := 0.02
  const ObstacleChance: real := 0.01
  /** Spawn positions are a random fraction of this width, for enemies and
      obstacles alike. */
  const SpawnRange: real := ArenaWidth - 30.0

  /** The bullet fired from the middle of the player at (px, py): centred
      on the player, level with its top, flying up, and in the bullet band
      whenever the player is on the canvas. */
  function Shot(px: real, py: real): (r: Entity)
    ensures r.x + r.width / 2.0 == px + PlayerSize / 2.0 && r.y == py && r.dy < 0.0
    ensures 0.0 <= px <= ArenaWidth - PlayerSize && py == PlayerTop ==> IsBullet(r)
  {
    Entity(px + PlayerSize / 2.0 - 2.5, py, 5.0, 10.0, "red", -5.0)
  }

  /** The two bullets of a power attack: one ending 20 units left of the
      player, one starting 20 units right of it, both level with its top,
      and both in the bullet band whenever the player is on the canvas. */
  function PowerShots(px: real, py: real): (r: seq<Entity>)
    ensures |r| == 2 && r[0].y == py && r[1].y == py
    ensures r[0].x + r[0].width + 20.0 == px && r[1].x == px + PlayerSize + 20.0
    ensures 0.0 <= px <= ArenaWidth - PlayerSize && py == PlayerTop ==> IsBullet(r[0]) && IsBullet(r[1])
  {
    [Entity(px - 25.0, py, 5.0, 10.0, "yellow", -5.0),
     Entity(px + PlayerSize + 20.0, py, 5.0, 10.0, "yellow", -5.0)]
  }

  /** The rate limit of the fire key: there is no bullet, or the newest one
      is more than FireGap above the player. Only the newest bullet
      matters, and a bullet still level with the player blocks the key. */
  predicate ReadyToFire(bs: seq<Entity>, py: real): (r: bool)
    ensures bs == [] ==> r
    ensures |bs| > 1 ==> r == ReadyToFire(bs[|bs| - 1..], py)
    ensures bs != [] && bs[|bs| - 1].y == py ==> !r
    decreases |bs|
  {
    |bs| < 1 || bs[|bs| - 1].y < py - FireGap
  }

  /** The bullets after the fire and power-attack keys of one frame, with the
      player at (px, py). */
  function Fired(bs: seq<Entity>, px: real, py: real, fire: bool, power: bool): (r: seq<Entity>)
    ensures bs <= r
    ensures |r| == |bs| + (if fire && ReadyToFire(bs, py) then 1 else 0) + (if power then 2 else 0)
    ensures fire && ReadyToFire(bs, py) ==> r[|bs|] == Shot(px, py)
    ensures power ==> r[|r| - 2..] == PowerShots(px, py)
    ensures (forall b :: b in bs ==> IsBullet(b)) && 0.0 <= px <= ArenaWidth - PlayerSize && py == PlayerTop ==>
              forall b :: b in r ==> IsBullet(b)
  {
    bs + (if fire && ReadyToFire(bs, py) then [Shot(px, py)] else [])
       + (if power then PowerShots(px, py) else [])
  }

  /** An enemy spawned at the fraction xRoll of the spawn range: at the top
      of the canvas, wholly within its width, in the enemy band. */
  function NewEnemy(xRoll: real, color: Color): (r: Entity)
    ensures 0.0 <= xRoll < 1.0 ==> IsEnemy(r) && r.y == 0.0 && r.x + r.width < ArenaWidth
  {
    Entity(xRoll * SpawnRange, 0.0, 30.0, 30.0, color, 3.0)
  }

  /** An obstacle spawned at the fraction xRoll of the spawn range, at the
      top of the canvas and in the obstacle band. The spawn range is that of
      the 30-wide enemies, so the 50-wide obstacle overhangs the right edge
      exactly when it starts past 750. */
  function NewObstacle(xRoll: real): (r: Entity)
    ensures 0.0 <= xRoll < 1.0 ==> IsObstacle(r) && r.y == 0.0
    ensures r.x + r.width > ArenaWidth <==> xRoll * SpawnRange > ArenaWidth - 50.0
  {
    Entity(xRoll * SpawnRange, 0.0, 50.0, 20.0, "gray", 2.0)
  }

  /** The list after the random spawn check of a frame: roll stands for the
      value Math.random() returned. */
  function Spawned(s: seq<Entity>, roll: real, chance: real, e: Entity): (r: seq<Entity>)
    ensures s <= r
    ensures roll < chance <==> |r| == |s| + 1
    ensures roll < chance ==> r[|s|] == e
    ensures forall v :: v in r ==> v in s || v == e
  {
    if roll < chance then s + [e] else s
  }

  /** Shapes and vertical bands each kind of entity stays in. A bullet is at
      most its own height above the canvas and never below the player; enemies
      and obstacles are never above the canvas top and leave as soon as their
      top passes the bottom. */
  predicate IsBullet(e: Entity)
  {
    e.width == 5.0 && e.height == 10.0 && e.dy == -5.0 &&
    -10.0 <= e.y <= PlayerTop && -25.0 <= e.x <= ArenaWidth + 20.0
  }

  predicate IsEnemy(e: Entity)
  {
    e.width == 30.0 && e.height == 30.0 && e.dy == 3.0 &&
    0.0 <= e.y <= ArenaHeight && 0.0 <= e.x < SpawnRange
  }

  predicate IsObstacle(e: Entity)
  {
    e.width == 50.0 && e.height == 20.0 && e.dy == 2.0 && e.color == "gray" &&
    0.0 <= e.y <= ArenaHeight && 0.0 <= e.x < SpawnRange
  }

  /** The bullet pass keeps every bullet in its band. */
  lemma BulletsStayInBand(s: seq<Entity>)
    requires forall e :: e in s ==> IsBullet(e)
    ensures forall e :: e in Sweep(s, Exit(Top)) ==> IsBullet(e)
  {
    SweepIsSwept(s, Exit(Top));
    SweptFrom(Sweep(s, Exit(Top)), s, Exit(Top));
  }

  /** The enemy pass keeps every enemy in its band. */
  lemma EnemiesStayInBand(s: seq<Entity>)
    requires forall e :: e in s ==> IsEnemy(e)
    ensures forall e :: e in Sweep(s, Exit(Bottom)) ==> IsEnemy(e)
  {
    SweepIsSwept(s, Exit(Bottom));
    SweptFrom(Sweep(s, Exit(Bottom)), s, Exit(Bottom));
  }

  /** The obstacle pass keeps every obstacle in its band. */
  lemma ObstaclesStayInBand(s: seq<Entity>)
    requires forall e :: e in s ==> IsObstacle(e)
    ensures forall e :: e in Sweep(s, Exit(Bottom)) ==> IsObstacle(e)
  {
    SweepIsSwept(s, Exit(Bottom));
    SweptFrom(Sweep(s, Exit(Bottom)), s, Exit(Bottom));
  }

  /** A contact pass only removes elements. */
  lemma ContactSweepMembers(s: seq<Entity>, target: Rect)
    ensures forall e :: e in Sweep(s, Contact(target)) ==> e in s
  {
    SweepIsSwept(s, Contact(target));
    SweptFrom(Sweep(s, Contact(target)), s, Contact(target));
  }

  /** Where a bullet is after flying freely for some frames. */
  function Flown(b: Entity, frames: nat): Entity
    decreases frames
  {
    if frames == 0 then b else Moved(Flown(b, frames - 1))
  }

  /** The fire rate the rate limit allows: a shot blocks the fire key until
      it has flown five frames (25 units); after four it is exactly 20 units
      up, which is not enough. */
  lemma {:induction false} FireRateLimit(bs: seq<Entity>, px: real, py: real, frames: nat)
    ensures Flown(Shot(px, py), frames).dy == -5.0
    ensures Flown(Shot(px, py), frames).y == py - 5.0 * (frames as real)
    ensures ReadyToFire(bs + [Flown(Shot(px, py), frames)], py) <==> frames >= 5
    decreases frames
  {
    if frames > 0 {
      FireRateLimit(bs, px, py, frames - 1);
    }
  }

  /** The lives counter, whether the game has ended, and the score it
      showed when it ended. */
  datatype Tally = Tally(lives: int, over: bool, finalScore: int)

  /** One lost life, with the score at `score`: the counter drops by one, and
      when it reaches exactly 0 the game ends showing that score. */
  function LoseOne(t: Tally, score: int): (r: Tally)
    ensures r.lives == t.lives - 1
    ensures r.over <==> t.over || t.lives == 1
    ensures 0 <= score && TallyOk(t, score) ==> TallyOk(r, score)
  {
    var left := t.lives - 1;
    Tally(left, t.over || left == 0, if left == 0 then score else t.finalScore)
  }

  /** n lives lost one after another while the score stays at `score`. */
  function Losses(t: Tally, score: int, n: nat): (r: Tally)
    ensures r.lives == t.lives - n
    ensures t.over ==> r.over
    ensures t.lives <= 0 ==> r.over == t.over && r.finalScore == t.finalScore
    decreases n
  {
    if n == 0 then t else LoseOne(Losses(t, score, n - 1), score)
  }

  /** The tally after n losses, in closed form: the counter drops by n, and
      the game ends, showing the score, exactly when the counter was positive
      and at most n; a counter that starts at 0 or below never ends the game
      again. The update methods state their effect on the tally with it. */
  function Lost(t: Tally, score: int, n: nat): (r: Tally)
    ensures r.lives == t.lives - n
    ensures t.over ==> r.over
    ensures r.over && !t.over ==> r.finalScore == score && 0 < t.lives <= n
    ensures 0 < t.lives <= n ==> r.over && r.finalScore == score
  {
    Tally(t.lives - n, t.over || 0 < t.lives <= n, if 0 < t.lives <= n then score else t.finalScore)
  }

  /** Losses add up: a losses followed by b more are a + b losses. */
  lemma {:induction false} LossesAdd(t: Tally, score: int, a: nat, b: nat)
    ensures Losses(Losses(t, score, a), score, b) == Losses(t, score, a + b)
    decreases b
  {
    if b > 0 {
      LossesAdd(t, score, a, b - 1);
    }
  }

  /** The closed form agrees with losing the lives one at a time. */
  lemma {:induction false} LossesClosedForm(t: Tally, score: int, n: nat)
    ensures Losses(t, score, n) == Lost(t, score, n)
    decreases n
  {
    if n > 0 {
      LossesClosedForm(t, score, n - 1);
    }
  }

  /** A pass that costs a life per removal unless the shield is up is on
      course, and the tally t shows the lives it has cost so far. */
  ghost predicate Charging(cur: seq<Entity>, k: nat, start: seq<Entity>, rule: Rule, lost: nat,
                           t0: Tally, score: int, shield: bool, t: Tally)
  {
    Sweeping(cur, k, start, rule, lost) && t == Lost(t0, score, if shield then 0 else lost)
  }

  /** Before the first visit nothing is passed and nothing is charged. */
  lemma ChargeBegins(start: seq<Entity>, rule: Rule, t0: Tally, score: int, shield: bool)
    ensures Charging(start, 0, start, rule, 0, t0, score, shield, t0)
  {
    SweepBegins(start, rule);
  }

  /** Visiting index k, where a removal costs one life unless the shield is
      up, keeps the pass and its charges on course. */
  lemma ChargeAdvances(cur: seq<Entity>, k: nat, start: seq<Entity>, rule: Rule, lost: nat,
                       t0: Tally, score: int, shield: bool, t: Tally,
                       dropped: bool, next: seq<Entity>, after: Tally)
    requires Charging(cur, k, start, rule, lost, t0, score, shield, t) && k < |cur|
    requires dropped == Drops(Visit(cur[k], rule), rule) && next == Splice(cur, k, rule)
    requires after == Lost(t, score, if shield || !dropped then 0 else 1)
    ensures Charging(next, k + 1, start, rule, lost + if dropped then 1 else 0, t0, score, shield, after)
  {
    SweepAdvances(cur, k, start, rule, lost);
  }

  /** At the end of the pass, the list is its outcome and every removal it
      made has been charged. */
  lemma ChargeEnds(cur: seq<Entity>, k: nat, start: seq<Entity>, rule: Rule, lost: nat,
                   t0: Tally, score: int, shield: bool, t: Tally)
    requires Charging(cur, k, start, rule, lost, t0, score, shield, t) && k >= |cur|
    ensures cur == Sweep(start, rule) && t == Lost(t0, score, if shield then 0 else Removed(start, rule))
  {
    SweepEnds(cur, k, start, rule, lost);
  }

  /** A consistent tally: at most the three starting lives, the game is over
      exactly when none are left, and the score it showed is one the game
      has reached. */
  predicate TallyOk(t: Tally, score: int)
  {
    t.lives <= 3 && (t.over <==> t.lives <= 0) && (t.over ==> 0 <= t.finalScore <= score)
  }

  /** Losing lives keeps the tally consistent. */
  lemma {:induction false} LossesKeepTallyOk(t: Tally, score: int, n: nat)
    requires 0 <= score && TallyOk(t, score)
    ensures TallyOk(Losses(t, score, n), score)
    decreases n
  {
    if n > 0 {
      LossesKeepTallyOk(t, score, n - 1);
    }
  }

  /** Collisions keep the tally consistent: hits worth 10 points each keep
      the score a non-negative multiple of 10, and lives lost at the new
      score leave a consistent tally. */
  lemma CollisionsKeepTally(t: Tally, score: int, hits: nat, n: nat)
    requires 0 <= score && score % 10 == 0 && TallyOk(t, score)
    ensures 0 <= score + 10 * hits && (score + 10 * hits) % 10 == 0
    ensures TallyOk(Lost(t, score + 10 * hits, n), score + 10 * hits)
  {
    var tens := score / 10 + hits;
    assert score + 10 * hits == 10 * tens;
  }

  /** The bullet pass keeps every surviving bullet and enemy in its band. */
  lemma CollisionsKeepBands(bs: seq<Entity>, es: seq<Entity>)
    requires forall b :: b in bs ==> IsBullet(b)
    requires forall e :: e in es ==> IsEnemy(e)
    ensures forall b :: b in Collide(bs, es, 0).bullets ==> IsBullet(b)
    ensures forall e :: e in Collide(bs, es, 0).enemies ==> IsEnemy(e)
  {
    var o := Collide(bs, es, 0);
    CollideOnlyRemoves(bs, es, 0, bs);
    SubsequenceMembers(o.bullets, bs);
    CulledMembers(o.enemies, es, bs);
  }

  class Game {
    /** The player record; its size is PlayerSize square. */
    var x: real
    var y: real
    var dx: real
    var lives: int
    var shield: bool

    var bullets: seq<Entity>
    var enemies: seq<Entity>
    var obstacles: seq<Entity>
    var score: int

    /** Set when a lost life brings lives to exactly 0, where the game shows
        its final score and reloads; finalScore is the score it shows. */
    var gameOver: bool
    var finalScore: int

    /** The class invariant; each part reads only the fields it is about. */
    ghost predicate Valid()
      reads this
    {
      PlayerValid() && TallyValid() && BulletsValid() && EnemiesValid() && ObstaclesValid()
    }

    /** The player stays on the canvas, on its row, moving at most Speed. */
    ghost predicate PlayerValid()
      reads this`x, this`y, this`dx
    {
      0.0 <= x <= ArenaWidth - PlayerSize && y == PlayerTop &&
      (dx == 0.0 || dx == Speed || dx == -Speed)
    }

    /** The score is a count of 10-point hits and the tally is consistent. */
    ghost predicate TallyValid()
      reads this`lives, this`gameOver, this`score, this`finalScore
    {
      0 <= score && score % 10 == 0 && TallyOk(Tallied(), score)
    }

    ghost predicate BulletsValid()
      reads this`bullets
    {
      forall e :: e in bullets ==> IsBullet(e)
    }

    ghost predicate EnemiesValid()
      reads this`enemies
    {
      forall e :: e in enemies ==> IsEnemy(e)
    }

    ghost predicate ObstaclesValid()
      reads this`obstacles
    {
      forall e :: e in obstacles ==> IsObstacle(e)
    }

    function PlayerBounds(): Rect
      reads this`x, this`y
    {
      Rect(x, y, PlayerSize, PlayerSize)
    }

    function Tallied(): Tally
      reads this`lives, this`gameOver, this`finalScore
    {
      Tally(lives, gameOver, finalScore)
    }

    constructor ()
      ensures Valid()
      ensures x == ArenaWidth / 2.0 - 15.0 && y == PlayerTop && dx == 0.0
      ensures lives == 3 && !shield && score == 0 && !gameOver
      ensures bullets == [] && enemies == [] && obstacles == []
    {
      x := ArenaWidth / 2.0 - 15.0;
      y := ArenaHeight - 60.0;
      dx := 0.0;
      lives := 3;
      shield := false;
      bullets := [];
      enemies := [];
      obstacles := [];
      score := 0;
      gameOver := false;
      finalScore := 0;
    }

    /** Fires one bullet when the rate limit allows it. */
    method ShootBullet()
      requires Valid()
      modifies this`bullets
      ensures Valid()
      ensures bullets == old(bullets) + (if ReadyToFire(old(bullets), y) then [Shot(x, y)] else [])
    {
      if |bullets| < 1 || bullets[|bullets| - 1].y < y - FireGap {
        bullets := bullets + [Shot(x, y)];
      }
    }

    /** Raises the shield unless it is already up. timerStarted tells whether
        the five-second expiry timer is started, after which the host calls
        ExpireShield; an active shield is neither refreshed nor extended. */
    method ActivateShield() returns (timerStarted: bool)
      requires Valid()
      modifies this`shield
      ensures Valid()
      ensures shield && timerStarted == !old(shield)
    {
      timerStarted := false;
      if !shield {
        shield := true;
        timerStarted := true;
      }
    }

    /** The expiry timer of the shield firing. */
    method ExpireShield()
      requires Valid()
      modifies this`shield
      ensures Valid()
      ensures !shield
    {
      shield := false;
    }

    /** Fires the two power-attack bullets, with no rate limit. */
    method PowerAttack()
      requires Valid()
      modifies this`bullets
      ensures Valid()
      ensures bullets == old(bullets) + PowerShots(x, y)
    {
      bullets := bullets + PowerShots(x, y);
    }

    /** Steers by the held arrow keys (right wins over left), runs the fire,
        shield and power-attack keys, then moves the player and clamps it to
        the canvas. The shots start from where the player was before moving. */
    method UpdatePlayer(right: bool, left: bool, fire: bool, shieldKey: bool, power: bool)
      returns (timerStarted: bool)
      requires Valid()
      modifies this`dx, this`x, this`bullets, this`shield
      ensures Valid()
      ensures dx == (if right then Speed else if left then -Speed else 0.0)
      ensures x == Clamp(old(x) + dx, 0.0, ArenaWidth - PlayerSize)
      ensures bullets == Fired(old(bullets), old(x), y, fire, power)
      ensures shield == (old(shield) || shieldKey)
      ensures timerStarted == (shieldKey && !old(shield))
    {
      Steer(right, left);
      timerStarted := PressKeys(fire, shieldKey, power);
      Move();
    }

    /** The velocity set by the arrow keys. */
    method Steer(right: bool, left: bool)
      requires Valid()
      modifies this`dx
      ensures Valid()
      ensures dx == (if right then Speed else if left then -Speed else 0.0)
    {
      if right {
        dx := Speed;
      } else if left {
        dx := -Speed;
      } else {
        dx := 0.0;
      }
    }

    /** The fire, shield and power-attack keys, in that order. */
    method PressKeys(fire: bool, shieldKey: bool, power: bool) returns (timerStarted: bool)
      requires Valid()
      modifies this`bullets, this`shield
      ensures Valid()
      ensures bullets == Fired(old(bullets), x, y, fire, power)
      ensures shield == (old(shield) || shieldKey)
      ensures timerStarted == (shieldKey && !old(shield))
    {
      ghost var before := bullets;
      if fire {
        ShootBullet();
      }
      ghost var aimed := bullets;
      assert aimed == before + (if fire && ReadyToFire(before, y) then [Shot(x, y)] else []);
      timerStarted := false;
      if shieldKey {
        timerStarted := ActivateShield();
      }
      if power {
        PowerAttack();
      }
    }

    /** Moves the player by dx, then clamps it to the canvas: first at the
        left edge, then at the right edge. */
    method Move()
      requires Valid()
      modifies this`x
      ensures Valid()
      ensures x == Clamp(old(x) + dx, 0.0, ArenaWidth - PlayerSize)
    {
      x := x + dx;
      if x < 0.0 {
        x := 0.0;
      }
      if x + PlayerSize > ArenaWidth {
        x := ArenaWidth - PlayerSize;
      }
    }

    /** Moves every visited bullet up and splices out the ones whose bottom
        is above the canvas. */
    method UpdateBullets()
      requires Valid()
      modifies this`bullets
      ensures Valid()
      ensures bullets == Sweep(old(bullets), Exit(Top))
    {
      RiseBullets();
      BulletsStayInBand(old(bullets));
    }

    /** The forEach of updateBullets. */
    method RiseBullets()
      modifies this`bullets
      ensures bullets == Sweep(old(bullets), Exit(Top))
    {
      ghost var removed: nat := 0;
      SweepBegins(bullets, Exit(Top));
      var n := |bullets|;
      var k := 0;
      while k < n && k < |bullets|
        invariant |bullets| <= n
        invariant Sweeping(bullets, k, old(bullets), Exit(Top), removed)
        decreases n - k
      {
        ghost var bs := bullets;
        MoveBullet(k);
        SweepAdvances(bs, k, old(bullets), Exit(Top), removed);
        removed := removed + if Drops(Visit(bs[k], Exit(Top)), Exit(Top)) then 1 else 0;
        k := k + 1;
      }
      SweepEnds(bullets, k, old(bullets), Exit(Top), removed);
    }

    /** The callback of updateBullets for index k: the bullet moves up and
        is spliced out once its bottom is above the canvas. */
    method MoveBullet(k: nat)
      requires k < |bullets|
      modifies this`bullets
      ensures bullets == Splice(old(bullets), k, Exit(Top))
    {
      var b := Moved(bullets[k]);
      bullets := bullets[k := b];
      if b.y + b.height < 0.0 {
        bullets := bullets[..k] + bullets[k + 1..];
      }
    }

    /** One lost life; reaching exactly 0 ends the game with the current score. */
    method LoseLife()
      modifies this`lives, this`gameOver, this`finalScore
      ensures Tallied() == LoseOne(old(Tallied()), score)
    {
      lives := lives - 1;
      if lives == 0 {
        gameOver := true;
        finalScore := score;
      }
    }

    /** Spawns an enemy when roll is below EnemyChance, then moves every
        visited enemy down and splices out the ones below the canvas, each
        costing a life unless the shield is up. */
    method UpdateEnemies(roll: real, xRoll: real, color: Color)
      requires Valid()
      requires 0.0 <= xRoll < 1.0
      modifies this`enemies, this`lives, this`gameOver, this`finalScore
      ensures Valid()
      ensures var spawned := Spawned(old(enemies), roll, EnemyChance, NewEnemy(xRoll, color));
              enemies == Sweep(spawned, Exit(Bottom)) &&
              Tallied() == Lost(old(Tallied()), score, if shield then 0 else Removed(spawned, Exit(Bottom)))
    {
      if roll < EnemyChance {
        enemies := enemies + [NewEnemy(xRoll, color)];
      }
      ghost var spawned := enemies;
      DescendEnemies();
      EnemiesStayInBand(spawned);
    }

    /** The forEach of updateEnemies: every visited enemy moves down; one
        whose top is below the canvas is spliced out and costs a life unless
        the shield is up. */
    method DescendEnemies()
      modifies this`enemies, this`lives, this`gameOver, this`finalScore
      ensures enemies == Sweep(old(enemies), Exit(Bottom))
      ensures Tallied() == Lost(old(Tallied()), score, if shield then 0 else Removed(old(enemies), Exit(Bottom)))
    {
      ghost var lost: nat := 0;
      ChargeBegins(enemies, Exit(Bottom), Tallied(), score, shield);
      var n := |enemies|;
      var k := 0;
      while k < n && k < |enemies|
        invariant |enemies| <= n
        invariant Charging(enemies, k, old(enemies), Exit(Bottom), lost, old(Tallied()), score, shield, Tallied())
        decreases n - k
      {
        ghost var dropped := PassEnemy(k, old(enemies), lost, old(Tallied()));
        lost := lost + if dropped then 1 else 0;
        k := k + 1;
      }
      ChargeEnds(enemies, k, old(enemies), Exit(Bottom), lost, old(Tallied()), score, shield, Tallied());
    }

    /** One iteration of the enemy pass: the callback for index k, which
        keeps the pass and its charges on course. */
    method PassEnemy(k: nat, ghost start: seq<Entity>, ghost lost: nat, ghost t0: Tally)
      returns (ghost dropped: bool)
      requires k < |enemies|
      requires Charging(enemies, k, start, Exit(Bottom), lost, t0, score, shield, Tallied())
      modifies this`enemies, this`lives, this`gameOver, this`finalScore
      ensures |enemies| <= |old(enemies)|
      ensures Charging(enemies, k + 1, start, Exit(Bottom), lost + if dropped then 1 else 0, t0, score, shield, Tallied())
    {
      dropped := MoveEnemy(k);
      ChargeAdvances(old(enemies), k, start, Exit(Bottom), lost, t0, score, shield, old(Tallied()), dropped, enemies, Tallied());
    }

    /** The callback of updateEnemies for index k: the enemy moves down and
        is spliced out once its top is below the canvas, costing a life
        unless the shield is up. */
    method MoveEnemy(k: nat) returns (ghost dropped: bool)
      requires k < |enemies|
      modifies this`enemies, this`lives, this`gameOver, this`finalScore
      ensures dropped == Drops(Visit(old(enemies)[k], Exit(Bottom)), Exit(Bottom))
      ensures enemies == Splice(old(enemies), k, Exit(Bottom))
      ensures Tallied() == Lost(old(Tallied()), score, if shield || !dropped then 0 else 1)
    {
      var m := Moved(enemies[k]);
      dropped := m.y > ArenaHeight;
      enemies := enemies[k := m];
      if m.y > ArenaHeight {
        enemies := enemies[..k] + enemies[k + 1..];
        if !shield {
          LoseLife();
        }
      }
    }

    /** Spawns an obstacle when roll is below ObstacleChance, then moves every
        visited obstacle down and splices out the ones below the canvas; no
        life is lost. */
    method UpdateObstacles(roll: real, xRoll: real)
      requires Valid()
      requires 0.0 <= xRoll < 1.0
      modifies this`obstacles
      ensures Valid()
      ensures obstacles == Sweep(Spawned(old(obstacles), roll, ObstacleChance, NewObstacle(xRoll)), Exit(Bottom))
    {
      if roll < ObstacleChance {
        obstacles := obstacles + [NewObstacle(xRoll)];
      }
      ghost var spawned := obstacles;
      DescendObstacles();
      ObstaclesStayInBand(spawned);
    }

    /** The forEach of updateObstacles: every visited obstacle moves down;
        one whose top is below the canvas is spliced out. */
    method DescendObstacles()
      modifies this`obstacles
      ensures obstacles == Sweep(old(obstacles), Exit(Bottom))
    {
      ghost var removed: nat := 0;
      SweepBegins(obstacles, Exit(Bottom));
      var n := |obstacles|;
      var k := 0;
      while k < n && k < |obstacles|
        invariant |obstacles| <= n
        invariant Sweeping(obstacles, k, old(obstacles), Exit(Bottom), removed)
        decreases n - k
      {
        ghost var os := obstacles;
        MoveObstacle(k);
        SweepAdvances(os, k, old(obstacles), Exit(Bottom), removed);
        removed := removed + if Drops(Visit(os[k], Exit(Bottom)), Exit(Bottom)) then 1 else 0;
        k := k + 1;
      }
      SweepEnds(obstacles, k, old(obstacles), Exit(Bottom), removed);
    }

    /** The callback of updateObstacles for index k: the obstacle moves
        down and is spliced out once its top is below the canvas. */
    method MoveObstacle(k: nat)
      requires k < |obstacles|
      modifies this`obstacles
      ensures obstacles == Splice(old(obstacles), k, Exit(Bottom))
    {
      var m := Moved(obstacles[k]);
      obstacles := obstacles[k := m];
      if m.y > ArenaHeight {
        obstacles := obstacles[..k] + obstacles[k + 1..];
      }
    }

    /** Resolves bullet-against-enemy hits (10 points each) and then
        player-against-obstacle contacts (a life each unless the shield is up). */
    method CheckCollisions()
      requires Valid()
      modifies this`bullets, this`enemies, this`obstacles, this`score
      modifies this`lives, this`gameOver, this`finalScore
      ensures Valid()
      ensures var o := Collide(old(bullets), old(enemies), 0);
              bullets == o.bullets && enemies == o.enemies && score == old(score) + 10 * o.hits
      ensures obstacles == Sweep(old(obstacles), Contact(PlayerBounds()))
      ensures Tallied() == Lost(old(Tallied()), score, if shield then 0 else Removed(old(obstacles), Contact(PlayerBounds())))
    {
      ShootEnemies();
      ghost var hits := Collide(old(bullets), old(enemies), 0).hits;
      CollisionsKeepBands(old(bullets), old(enemies));
      HitObstacles(PlayerBounds());
      ContactSweepMembers(old(obstacles), PlayerBounds());
      CollisionsKeepTally(old(Tallied()), old(score), hits,
                          if shield then 0 else Removed(old(obstacles), Contact(PlayerBounds())));
    }

    /** The outer forEach of the bullet pass: each bullet still at index i
        when the pass gets there is captured and tested against the enemies. */
    method ShootEnemies()
      modifies this`bullets, this`enemies, this`score
      ensures var o := Collide(old(bullets), old(enemies), 0);
              bullets == o.bullets && enemies == o.enemies && score == old(score) + 10 * o.hits
    {
      ghost var goal := Collide(bullets, enemies, 0);
      var n := |bullets|;
      var i := 0;
      while i < n && i < |bullets|
        invariant |bullets| <= n
        invariant Collide(bullets, enemies, i).bullets == goal.bullets
        invariant Collide(bullets, enemies, i).enemies == goal.enemies
        invariant score + 10 * Collide(bullets, enemies, i).hits == old(score) + 10 * goal.hits
        decreases n - i
      {
        ResolveShot(i);
        i := i + 1;
      }
    }

    /** The inner forEach for the bullet captured at index i: every enemy it
        visits and overlaps is spliced out and scores 10, and every such hit
        also splices index i of the bullets, whatever bullet is there by then. */
    method ResolveShot(i: nat)
      requires i < |bullets|
      modifies this`bullets, this`enemies, this`score
      ensures var shot := Contact(Bounds(old(bullets)[i]));
              var h := Removed(old(enemies), shot);
              enemies == Sweep(old(enemies), shot) &&
              bullets == SpliceRun(old(bullets), i, h) &&
              score == old(score) + 10 * h
    {
      var bullet := bullets[i];
      var shot := Contact(Bounds(bullet));
      ghost var hits: nat := 0;
      SweepBegins(enemies, shot);
      var m := |enemies|;
      var j := 0;
      while j < m && j < |enemies|
        invariant |enemies| <= m
        invariant Sweeping(enemies, j, old(enemies), shot, hits)
        invariant bullets == Spliced(old(bullets), i, hits)
        invariant score == old(score) + 10 * hits
        decreases m - j
      {
        ghost var step := PassEnemyShot(i, bullet, j, old(enemies), old(bullets), old(score), hits);
        hits := hits + step;
        j := j + 1;
      }
      SweepEnds(enemies, j, old(enemies), shot, hits);
      SplicedIsRun(old(bullets), i, hits);
    }

    /** One iteration of the inner pass for the bullet captured at index i:
        the callback for enemy index j, which keeps the enemy pass, the
        splices at index i and the score on course. */
    method PassEnemyShot(i: nat, bullet: Entity, j: nat, ghost start: seq<Entity>, ghost bs0: seq<Entity>,
                         ghost score0: int, ghost hits: nat)
      returns (ghost step: nat)
      requires i <= |bs0| && j < |enemies|
      requires Sweeping(enemies, j, start, Contact(Bounds(bullet)), hits)
      requires bullets == Spliced(bs0, i, hits) && score == score0 + 10 * hits
      modifies this`bullets, this`enemies, this`score
      ensures |enemies| <= |old(enemies)|
      ensures Sweeping(enemies, j + 1, start, Contact(Bounds(bullet)), hits + step)
      ensures bullets == Spliced(bs0, i, hits + step) && score == score0 + 10 * (hits + step)
    {
      var shot := Contact(Bounds(bullet));
      step := if Drops(Visit(enemies[j], shot), shot) then 1 else 0;
      MeetEnemy(i, bullet, j);
      SweepAdvances(old(enemies), j, start, shot, hits);
      SplicedAgain(bs0, i, hits, step);
    }

    /** The inner callback for enemy index j and the bullet captured at
        index i: on a hit the enemy and whatever bullet is now at index i are
        spliced out, and the score goes up by 10. */
    method MeetEnemy(i: nat, bullet: Entity, j: nat)
      requires i <= |bullets| && j < |enemies|
      modifies this`bullets, this`enemies, this`score
      ensures var hit := Overlaps(Bounds(bullet), Bounds(old(enemies)[j]));
              enemies == Splice(old(enemies), j, Contact(Bounds(bullet))) &&
              bullets == Spliced(old(bullets), i, if hit then 1 else 0) &&
              score == old(score) + (if hit then 10 else 0)
    {
      assert enemies[j := enemies[j]] == enemies;
      if Overlaps(Bounds(bullet), Bounds(enemies[j])) {
        if i < |bullets| {
          bullets := bullets[..i] + bullets[i + 1..];
        }
        enemies := enemies[..j] + enemies[j + 1..];
        score := score + 10;
      }
    }

    /** The obstacle pass: every visited obstacle the player overlaps is
        spliced out and costs a life unless the shield is up. */
    method HitObstacles(player: Rect)
      modifies this`obstacles, this`lives, this`gameOver, this`finalScore
      ensures obstacles == Sweep(old(obstacles), Contact(player))
      ensures Tallied() == Lost(old(Tallied()), score, if shield then 0 else Removed(old(obstacles), Contact(player)))
    {
      ghost var lost: nat := 0;
      ChargeBegins(obstacles, Contact(player), Tallied(), score, shield);
      var n := |obstacles|;
      var k := 0;
      while k < n && k < |obstacles|
        invariant |obstacles| <= n
        invariant Charging(obstacles, k, old(obstacles), Contact(player), lost, old(Tallied()), score, shield, Tallied())
        decreases n - k
      {
        ghost var dropped := PassObstacle(player, k, old(obstacles), lost, old(Tallied()));
        lost := lost + if dropped then 1 else 0;
        k := k + 1;
      }
      ChargeEnds(obstacles, k, old(obstacles), Contact(player), lost, old(Tallied()), score, shield, Tallied());
    }

    /** One iteration of the obstacle pass: the callback for index k, which
        keeps the pass and its charges on course. */
    method PassObstacle(player: Rect, k: nat, ghost start: seq<Entity>, ghost lost: nat, ghost t0: Tally)
      returns (ghost dropped: bool)
      requires k < |obstacles|
      requires Charging(obstacles, k, start, Contact(player), lost, t0, score, shield, Tallied())
      modifies this`obstacles, this`lives, this`gameOver, this`finalScore
      ensures |obstacles| <= |old(obstacles)|
      ensures Charging(obstacles, k + 1, start, Contact(player), lost + if dropped then 1 else 0, t0, score, shield, Tallied())
    {
      dropped := TouchObstacle(player, k);
      ChargeAdvances(old(obstacles), k, start, Contact(player), lost, t0, score, shield, old(Tallied()), dropped, obstacles, Tallied());
    }

    /** The callback of the obstacle pass for index k: an obstacle the
        player overlaps is spliced out and costs a life unless the shield is
        up. */
    method TouchObstacle(player: Rect, k: nat) returns (ghost dropped: bool)
      requires k < |obstacles|
      modifies this`obstacles, this`lives, this`gameOver, this`finalScore
      ensures dropped == Drops(Visit(old(obstacles)[k], Contact(player)), Contact(player))
      ensures obstacles == Splice(old(obstacles), k, Contact(player))
      ensures Tallied() == Lost(old(Tallied()), score, if shield || !dropped then 0 else 1)
    {
      dropped := Overlaps(player, Bounds(obstacles[k]));
      assert obstacles[k := obstacles[k]] == obstacles;
      if Overlaps(player, Bounds(obstacles[k])) {
        obstacles := obstacles[..k] + obstacles[k + 1..];
        if !shield {
          LoseLife();
        }
      }
    }

    /** The four movement updates of a frame, in order, before collisions
        are resolved. */
    method Advance(right: bool, left: bool, fire: bool, shieldKey: bool, power: bool,
                   enemyRoll: real, enemyX: real, enemyColor: Color,
                   obstacleRoll: real, obstacleX: real)
      returns (timerStarted: bool, ghost fired: seq<Entity>, ghost invaded: seq<Entity>)
      requires Valid()
      requires 0.0 <= enemyX < 1.0 && 0.0 <= obstacleX < 1.0
      modifies this`dx, this`x, this`shield, this`bullets, this`enemies, this`obstacles
      modifies this`lives, this`gameOver, this`finalScore
      ensures Valid()
      ensures dx == (if right then Speed else if left then -Speed else 0.0) &&
              x == Clamp(old(x) + dx, 0.0, ArenaWidth - PlayerSize) &&
              shield == (old(shield) || shieldKey) && timerStarted == (shieldKey && !old(shield))
      ensures fired == Fired(old(bullets), old(x), y, fire, power) && bullets == Sweep(fired, Exit(Top))
      ensures invaded == Spawned(old(enemies), enemyRoll, EnemyChance, NewEnemy(enemyX, enemyColor)) &&
              enemies == Sweep(invaded, Exit(Bottom))
      ensures Tallied() == Lost(old(Tallied()), score, if shield then 0 else Removed(invaded, Exit(Bottom)))
      ensures obstacles == Sweep(Spawned(old(obstacles), obstacleRoll, ObstacleChance, NewObstacle(obstacleX)), Exit(Bottom))
    {
      timerStarted := UpdatePlayer(right, left, fire, shieldKey, power);
      fired := bullets;
      UpdateBullets();
      invaded := Spawned(enemies, enemyRoll, EnemyChance, NewEnemy(enemyX, enemyColor));
      UpdateEnemies(enemyRoll, enemyX, enemyColor);
      UpdateObstacles(obstacleRoll, obstacleX);
    }

    /** One frame of the game loop: player, bullets, enemies, obstacles,
        collisions, in that order. Once the game is over the frame changes
        nothing, since the game has ended and is reloaded. */
    method Tick(right: bool, left: bool, fire: bool, shieldKey: bool, power: bool,
                enemyRoll: real, enemyX: real, enemyColor: Color,
                obstacleRoll: real, obstacleX: real)
      returns (timerStarted: bool, ghost fired: seq<Entity>, ghost invaded: seq<Entity>,
               ghost descended: seq<Entity>)
      requires Valid()
      requires 0.0 <= enemyX < 1.0 && 0.0 <= obstacleX < 1.0
      modifies this
      ensures Valid()
      ensures old(gameOver) ==> unchanged(this) && !timerStarted
      ensures !old(gameOver) ==>
        dx == (if right then Speed else if left then -Speed else 0.0) &&
        x == Clamp(old(x) + dx, 0.0, ArenaWidth - PlayerSize) &&
        shield == (old(shield) || shieldKey) && timerStarted == (shieldKey && !old(shield))
      ensures !old(gameOver) ==> fired == Fired(old(bullets), old(x), old(y), fire, power)
      ensures !old(gameOver) ==> invaded == Spawned(old(enemies), enemyRoll, EnemyChance, NewEnemy(enemyX, enemyColor))
      ensures !old(gameOver) ==> descended == Sweep(Spawned(old(obstacles), obstacleRoll, ObstacleChance, NewObstacle(obstacleX)), Exit(Bottom))
      ensures !old(gameOver) ==>
        var o := Collide(Sweep(fired, Exit(Top)), Sweep(invaded, Exit(Bottom)), 0);
        bullets == o.bullets && enemies == o.enemies && score == old(score) + 10 * o.hits
      ensures !old(gameOver) ==> obstacles == Sweep(descended, Contact(PlayerBounds()))
      ensures !old(gameOver) ==>
        var escaped := if shield then 0 else Removed(invaded, Exit(Bottom));
        var crashed := if shield then 0 else Removed(descended, Contact(PlayerBounds()));
        Tallied() == Lost(Lost(old(Tallied()), old(score), escaped), score, crashed)
      ensures score >= old(score) && lives <= old(lives)
      ensures shield ==> lives == old(lives)
    {
      timerStarted := false;
      fired, invaded, descended := [], [], [];
      if gameOver {
        return;
      }
      timerStarted, fired, invaded := Advance(right, left, fire, shieldKey, power, enemyRoll, enemyX, enemyColor, obstacleRoll, obstacleX);
      descended := obstacles;
      CheckCollisions();
    }
  }
}
