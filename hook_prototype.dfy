/** The hook-based prototype of the game screen (store/gameSlice.tsx): one
    player with vertical velocity, one enemy scrolling left and wrapping
    round, and bullets that fly right. Each interval callback and the key
    handler become one atomic step; the window size is a parameter. */
module HookPrototype {
  import opened Geometry

  const Gravity: real := 0.5
  const JumpHeight: real := -12.0
  const MoveSpeed: real := 5.0
  const GroundHeight: real := 20.0
  const EnemySpeed: real := 2.0
  const BulletSpeed: real := 8.0
  /** Box sizes the collision tests use. */
  const PlayerSize: real := 50.0
  const EnemySize: real := 40.0
  const BulletSize: real := 10.0
  /** An enemy whose x drops below `EnemyExitX` restarts at `EnemyRestartX`. */
  const EnemyExitX: real := -50.0
  const EnemyRestartX: real := 800.0
  /** Where a new bullet appears relative to the player. */
  const MuzzleOffsetX: real := 40.0
  const MuzzleOffsetY: real := 35.0

  /** Vertical state after one physics tick. */
  datatype Physics = Physics(y: real, velocityY: real, onGround: bool)

  /** One gravity tick: move by the velocity, then land on the ground or
      keep falling with the velocity increased by gravity. */
  function GravityStep(y: real, velocityY: real): (r: Physics)
    ensures r.y >= GroundHeight
    ensures r.onGround <==> y + velocityY <= GroundHeight
    ensures r.onGround ==> r.y == GroundHeight && r.velocityY == 0.0
    ensures !r.onGround ==> r.y == y + velocityY && r.velocityY == velocityY + Gravity
  {
    var newY := y + velocityY;
    if newY <= GroundHeight then Physics(GroundHeight, 0.0, true)
    else Physics(newY, velocityY + Gravity, false)
  }

  /** One enemy tick: scroll left, wrapping round past the left edge. */
  function EnemyStep(x: real): (r: real)
    ensures r >= EnemyExitX
    ensures x - EnemySpeed >= EnemyExitX ==> r == x - EnemySpeed
    ensures x - EnemySpeed < EnemyExitX ==> r == EnemyRestartX
  {
    var newX := x - EnemySpeed;
    if newX < EnemyExitX then EnemyRestartX else newX
  }

  /** Player and enemy boxes overlap horizontally and the player is no
      higher than the enemy's top. */
  predicate PlayerHitsEnemy(p: Pos, e: Pos): (b: bool)
    ensures b <==> (exists t :: InSpan(t, p.x, PlayerSize) && InSpan(t, e.x, EnemySize))
                   && p.y <= e.y + GroundHeight
  {
    SpansOverlapIffCommonPoint(p.x, PlayerSize, e.x, EnemySize);
    SpansOverlap(p.x, PlayerSize, e.x, EnemySize) && p.y <= e.y + GroundHeight
  }

  /** A bullet (y measured from the top of the window) inside the enemy's
      box (y measured from the bottom). */
  predicate BulletHitsEnemy(b: Pos, e: Pos, screenHeight: real): (hit: bool)
    ensures hit <==> (exists t :: InSpan(t, b.x, BulletSize) && InSpan(t, e.x, EnemySize))
                     && screenHeight - e.y - EnemySize <= b.y <= screenHeight - e.y
  {
    SpansOverlapIffCommonPoint(b.x, BulletSize, e.x, EnemySize);
    SpansOverlap(b.x, BulletSize, e.x, EnemySize)
    && screenHeight - e.y - EnemySize <= b.y <= screenHeight - e.y
  }

  /** The bullet a shot adds: its box lies inside the player's box, once the
      player's bottom-based y is turned into a top-based one. */
  function Muzzle(p: Pos, screenHeight: real): (r: Pos)
    ensures p.x <= r.x && r.x + BulletSize <= p.x + PlayerSize
    ensures screenHeight - p.y - PlayerSize <= r.y && r.y + BulletSize <= screenHeight - p.y
  {
    Pos(p.x + MuzzleOffsetX, screenHeight - p.y - MuzzleOffsetY)
  }

  /** A new shot starts inside the enemy's vertical hit band exactly when
      the player is at most 35 below and 5 above the enemy: with the enemy on
      the ground, only a player no more than 5 above the ground can hit. */
  lemma MuzzleInEnemyBandIff(p: Pos, e: Pos, screenHeight: real)
    ensures var m := Muzzle(p, screenHeight);
      (screenHeight - e.y - EnemySize <= m.y <= screenHeight - e.y)
      <==> e.y - MuzzleOffsetY <= p.y <= e.y + (EnemySize - MuzzleOffsetY)
  {
  }

  /** A bullet one tick later: moved right by the bullet speed, same height. */
  function Advanced(b: Pos): (r: Pos)
    ensures r.y == b.y && r.x > b.x
    ensures Pos(r.x - BulletSpeed, r.y) == b
  {
    Pos(b.x + BulletSpeed, b.y)
  }

  /** Bullets moved right and those that left the window dropped. */
  function AdvanceBullets(bs: seq<Pos>, screenWidth: real): (r: seq<Pos>)
    ensures |r| <= |bs|
    ensures forall i :: 0 <= i < |r| ==> r[i].x < screenWidth
  {
    if bs == [] then []
    else if Advanced(bs[0]).x < screenWidth then [Advanced(bs[0])] + AdvanceBullets(bs[1..], screenWidth)
    else AdvanceBullets(bs[1..], screenWidth)
  }

  /** Every moved bullet still inside the window is kept. */
  lemma {:induction false} AdvanceBulletsKeepsVisible(bs: seq<Pos>, screenWidth: real, b: Pos)
    requires b in bs && Advanced(b).x < screenWidth
    ensures Advanced(b) in AdvanceBullets(bs, screenWidth)
  {
    if b != bs[0] {
      AdvanceBulletsKeepsVisible(bs[1..], screenWidth, b);
    }
  }

  /** Every kept bullet is a moved input bullet inside the window. */
  lemma {:induction false} AdvanceBulletsKeepsOnlyMoved(bs: seq<Pos>, screenWidth: real, p: Pos)
    requires p in AdvanceBullets(bs, screenWidth)
    ensures p.x < screenWidth && Pos(p.x - BulletSpeed, p.y) in bs
  {
    if p != Advanced(bs[0]) || Advanced(bs[0]).x >= screenWidth {
      AdvanceBulletsKeepsOnlyMoved(bs[1..], screenWidth, p);
    }
  }

  /** The list keeps its length exactly when no moved bullet left the window. */
  lemma {:induction false} AdvanceBulletsDropsIff(bs: seq<Pos>, screenWidth: real)
    ensures |AdvanceBullets(bs, screenWidth)| == |bs| <==>
              forall i :: 0 <= i < |bs| ==> Advanced(bs[i]).x < screenWidth
  {
    if bs != [] {
      AdvanceBulletsDropsIff(bs[1..], screenWidth);
      assert forall i :: 1 <= i < |bs| ==> bs[i] == bs[1..][i - 1];
    }
  }

  /** The bullets that do not hit the enemy, in their original order. */
  function Survivors(bs: seq<Pos>, e: Pos, screenHeight: real): (r: seq<Pos>)
    ensures |r| <= |bs|
    ensures forall i :: 0 <= i < |r| ==> !BulletHitsEnemy(r[i], e, screenHeight)
  {
    if bs == [] then []
    else if BulletHitsEnemy(bs[0], e, screenHeight) then Survivors(bs[1..], e, screenHeight)
    else [bs[0]] + Survivors(bs[1..], e, screenHeight)
  }

  /** Every bullet that misses the enemy survives, and only input bullets do. */
  lemma {:induction false} SurvivorsKeepsMisses(bs: seq<Pos>, e: Pos, screenHeight: real, b: Pos)
    ensures b in Survivors(bs, e, screenHeight) <==> b in bs && !BulletHitsEnemy(b, e, screenHeight)
  {
    if bs != [] {
      SurvivorsKeepsMisses(bs[1..], e, screenHeight, b);
    }
  }

  /** The list keeps its length exactly when no bullet hits the enemy. */
  lemma {:induction false} SurvivorsDropsIff(bs: seq<Pos>, e: Pos, screenHeight: real)
    ensures |Survivors(bs, e, screenHeight)| == |bs| <==>
              forall i :: 0 <= i < |bs| ==> !BulletHitsEnemy(bs[i], e, screenHeight)
  {
    if bs != [] {
      SurvivorsDropsIff(bs[1..], e, screenHeight);
      assert forall i :: 1 <= i < |bs| ==> bs[i] == bs[1..][i - 1];
    }
  }

  /** Advancing distributes over concatenation: the kept bullets stay in
      their original relative order. */
  lemma {:induction false} AdvanceBulletsAppend(a: seq<Pos>, b: seq<Pos>, screenWidth: real)
    ensures AdvanceBullets(a + b, screenWidth) == AdvanceBullets(a, screenWidth) + AdvanceBullets(b, screenWidth)
  {
    if a != [] {
      assert (a + b)[1..] == a[1..] + b;
      AdvanceBulletsAppend(a[1..], b, screenWidth);
    } else {
      assert a + b == b;
    }
  }

  /** Filtering out hits distributes over concatenation: the survivors keep
      their relative order. */
  lemma {:induction false} SurvivorsAppend(a: seq<Pos>, b: seq<Pos>, e: Pos, screenHeight: real)
    ensures Survivors(a + b, e, screenHeight) == Survivors(a, e, screenHeight) + Survivors(b, e, screenHeight)
  {
    if a != [] {
      assert (a + b)[1..] == a[1..] + b;
      SurvivorsAppend(a[1..], b, e, screenHeight);
    } else {
      assert a + b == b;
    }
  }

  /** The bullet/enemy pass: every bullet is tested against the enemy
      position captured before the pass; a hit bullet is dropped and the
      enemy is sent back to its restart point. */
  method FilterHits(bs: seq<Pos>, e: Pos, screenHeight: real) returns (kept: seq<Pos>, enemy: Pos)
    ensures kept == Survivors(bs, e, screenHeight)
    ensures (exists i :: 0 <= i < |bs| && BulletHitsEnemy(bs[i], e, screenHeight)) ==>
              enemy == Pos(EnemyRestartX, GroundHeight)
    ensures (forall i :: 0 <= i < |bs| ==> !BulletHitsEnemy(bs[i], e, screenHeight)) ==> enemy == e
  {
    kept, enemy := [], e;
    var i := 0;
    while i < |bs|
      invariant 0 <= i <= |bs|
      invariant kept == Survivors(bs[..i], e, screenHeight)
      invariant enemy == if |kept| < i then Pos(EnemyRestartX, GroundHeight) else e
    {
      SurvivorsAppend(bs[..i], [bs[i]], e, screenHeight);
      assert bs[..i + 1] == bs[..i] + [bs[i]];
      if BulletHitsEnemy(bs[i], e, screenHeight) {
        enemy := Pos(EnemyRestartX, GroundHeight);
      } else {
        kept := kept + [bs[i]];
      }
      i := i + 1;
    }
    assert bs[..i] == bs;
    SurvivorsDropsIff(bs, e, screenHeight);
  }

  /** With y measured from the bottom, the negative jump velocity moves the
      player down: the tick after a jump from the ground lands it again. */
  lemma JumpCancelledByNextTick()
    ensures GravityStep(GroundHeight, JumpHeight) == Physics(GroundHeight, 0.0, true)
  {
  }

  /** The state of the prototype's game screen. */
  class GamePage {
    var playerPosition: Pos
    var velocityY: real
    var onGround: bool
    var enemyPosition: Pos
    var playerAlive: bool
    var bullets: seq<Pos>

    /** The player never sinks below the ground, stands still while on the
        ground, and the enemy stays on the ground inside its patrol range. */
    ghost predicate Valid()
      reads this
    {
      && playerPosition.y >= GroundHeight
      && (onGround ==> velocityY == 0.0 && playerPosition.y == GroundHeight)
      && EnemyExitX <= enemyPosition.x <= EnemyRestartX
      && enemyPosition.y == GroundHeight
    }

    constructor ()
      ensures Valid()
      ensures playerPosition == Pos(100.0, GroundHeight) && velocityY == 0.0 && onGround
      ensures enemyPosition == Pos(500.0, GroundHeight) && playerAlive && bullets == []
    {
      playerPosition := Pos(100.0, GroundHeight);
      velocityY := 0.0;
      onGround := true;
      enemyPosition := Pos(500.0, GroundHeight);
      playerAlive := true;
      bullets := [];
    }

    /** Arrow keys move by the speed without clamping, Space jumps only from
        the ground, KeyS shoots. */
    method HandleKeyDown(code: string, screenHeight: real)
      requires Valid()
      modifies this
      ensures Valid()
      ensures playerPosition.y == old(playerPosition.y)
      ensures code == "ArrowLeft" ==> playerPosition.x == old(playerPosition.x) - MoveSpeed
      ensures code == "ArrowRight" ==> playerPosition.x == old(playerPosition.x) + MoveSpeed
      ensures code != "ArrowLeft" && code != "ArrowRight" ==> playerPosition == old(playerPosition)
      ensures code == "Space" && old(onGround) ==> velocityY == JumpHeight && !onGround
      ensures !(code == "Space" && old(onGround)) ==> velocityY == old(velocityY) && onGround == old(onGround)
      ensures bullets == if code == "KeyS" then old(bullets) + [Muzzle(old(playerPosition), screenHeight)]
                         else old(bullets)
      ensures enemyPosition == old(enemyPosition) && playerAlive == old(playerAlive)
    {
      if code == "ArrowLeft" {
        playerPosition := playerPosition.(x := playerPosition.x - MoveSpeed);
      }
      if code == "ArrowRight" {
        playerPosition := playerPosition.(x := playerPosition.x + MoveSpeed);
      }
      if code == "Space" && onGround {
        velocityY := JumpHeight;
        onGround := false;
      }
      if code == "KeyS" {
        ShootBullet(screenHeight);
      }
    }

    method GravityTick()
      requires Valid()
      modifies this
      ensures Valid()
      ensures Physics(playerPosition.y, velocityY, onGround) == GravityStep(old(playerPosition.y), old(velocityY))
      ensures playerPosition.x == old(playerPosition.x)
      ensures enemyPosition == old(enemyPosition) && playerAlive == old(playerAlive) && bullets == old(bullets)
    {
      var next := GravityStep(playerPosition.y, velocityY);
      onGround := next.onGround;
      velocityY := next.velocityY;
      playerPosition := playerPosition.(y := next.y);
    }

    method EnemyTick()
      requires Valid()
      modifies this
      ensures Valid()
      ensures enemyPosition == Pos(EnemyStep(old(enemyPosition.x)), old(enemyPosition.y))
      ensures playerPosition == old(playerPosition) && velocityY == old(velocityY) && onGround == old(onGround)
      ensures playerAlive == old(playerAlive) && bullets == old(bullets)
    {
      enemyPosition := enemyPosition.(x := EnemyStep(enemyPosition.x));
    }

    /** The player dies exactly on an overlap; nothing revives it. */
    method CheckCollision()
      requires Valid()
      modifies this
      ensures Valid()
      ensures playerAlive == (old(playerAlive) && !PlayerHitsEnemy(old(playerPosition), old(enemyPosition)))
      ensures playerPosition == old(playerPosition) && velocityY == old(velocityY) && onGround == old(onGround)
      ensures enemyPosition == old(enemyPosition) && bullets == old(bullets)
    {
      if PlayerHitsEnemy(playerPosition, enemyPosition) {
        playerAlive := false;
      }
    }

    method ShootBullet(screenHeight: real)
      modifies this
      ensures bullets == old(bullets) + [Muzzle(old(playerPosition), screenHeight)]
      ensures playerPosition == old(playerPosition) && velocityY == old(velocityY) && onGround == old(onGround)
      ensures enemyPosition == old(enemyPosition) && playerAlive == old(playerAlive)
    {
      bullets := bullets + [Muzzle(playerPosition, screenHeight)];
    }

    /** Bullets advance and leave the window, then the survivors of the
        enemy test are kept; any hit sends the enemy back to the right. */
    method BulletTick(screenWidth: real, screenHeight: real)
      requires Valid()
      modifies this
      ensures Valid()
      ensures var advanced := AdvanceBullets(old(bullets), screenWidth);
        && bullets == Survivors(advanced, old(enemyPosition), screenHeight)
        && ((exists i :: 0 <= i < |advanced| && BulletHitsEnemy(advanced[i], old(enemyPosition), screenHeight))
              ==> enemyPosition == Pos(EnemyRestartX, GroundHeight))
        && ((forall i :: 0 <= i < |advanced| ==> !BulletHitsEnemy(advanced[i], old(enemyPosition), screenHeight))
              ==> enemyPosition == old(enemyPosition))
      ensures playerPosition == old(playerPosition) && velocityY == old(velocityY) && onGround == old(onGround)
      ensures playerAlive == old(playerAlive)
    {
      var advanced := AdvanceBullets(bullets, screenWidth);
      bullets, enemyPosition := FilterHits(advanced, enemyPosition, screenHeight);
    }
  }

  /** On the ground, Space followed by one gravity tick leaves the player
      where it was, on the ground and at rest: the jump never shows. */
  method JumpThenTick(g: GamePage, screenHeight: real)
    requires g.Valid() && g.onGround
    modifies g
    ensures g.Valid() && g.onGround && g.velocityY == 0.0
    ensures g.playerPosition == old(g.playerPosition)
  {
    g.HandleKeyDown("Space", screenHeight);
    g.GravityTick();
  }
}
