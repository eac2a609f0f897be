/** The standalone enemy component (components/enemy.tsx): an enemy that
    falls 5 pixels per tick from the top of the window, restarts at the top
    at a random column when it passes the bottom, and is sent back to the
    top when it reaches the player. The random column is an argument. */
module EnemyComponent {

  datatype EnemyPos = EnemyPos(top: real, left: real)

  const FallSpeed: real := 5.0
  const PlayerWidth: real := 50.0
  /** An enemy must be below this line to touch the player. */
  const CollisionTop: real := 450.0

  /** One fall tick in a window `screenHeight` high; `freshLeft` is the
      random column a restarted enemy takes. */
  function Fall(p: EnemyPos, screenHeight: real, freshLeft: real): (r: EnemyPos)
    ensures p.top + FallSpeed <= screenHeight ==> r == EnemyPos(p.top + FallSpeed, p.left)
    ensures p.top + FallSpeed > screenHeight ==> r == EnemyPos(0.0, freshLeft)
    ensures 0.0 <= p.top && 0.0 <= screenHeight ==> 0.0 <= r.top <= screenHeight
  {
    var newTop := p.top + FallSpeed;
    if newTop > screenHeight then EnemyPos(0.0, freshLeft) else p.(top := newTop)
  }

  /** The enemy is low enough and its left edge is over the player. */
  predicate Collides(p: EnemyPos, playerPosition: real): (b: bool)
    ensures b ==> p.top > CollisionTop
    ensures p.top > CollisionTop ==> (b <==> 0.0 <= p.left - playerPosition <= PlayerWidth)
  {
    p.top > CollisionTop && playerPosition <= p.left <= playerPosition + PlayerWidth
  }

  /** The collision check: a colliding enemy restarts at the top. */
  function Resolve(p: EnemyPos, playerPosition: real, freshLeft: real): (r: EnemyPos)
    ensures Collides(p, playerPosition) ==> r == EnemyPos(0.0, freshLeft)
    ensures !Collides(p, playerPosition) ==> r == p
    ensures !Collides(r, playerPosition)
  {
    if Collides(p, playerPosition) then EnemyPos(0.0, freshLeft) else p
  }

  /** The position after one fall tick per random column in `freshLefts`. */
  function Falls(p: EnemyPos, screenHeight: real, freshLefts: seq<real>): (r: EnemyPos)
    decreases |freshLefts|
  {
    if freshLefts == [] then p else Falls(Fall(p, screenHeight, freshLefts[0]), screenHeight, freshLefts[1..])
  }

  /** An enemy inside the window stays inside it however long it falls. */
  lemma {:induction false} FallsStayInWindow(p: EnemyPos, screenHeight: real, freshLefts: seq<real>)
    requires 0.0 <= p.top <= screenHeight
    ensures 0.0 <= Falls(p, screenHeight, freshLefts).top <= screenHeight
    decreases |freshLefts|
  {
    if freshLefts != [] {
      FallsStayInWindow(Fall(p, screenHeight, freshLefts[0]), screenHeight, freshLefts[1..]);
    }
  }

  /** In a window no higher than the collision line the enemy never reaches the player. */
  lemma {:induction false} NoCollisionInShortWindow(p: EnemyPos, screenHeight: real, freshLefts: seq<real>, playerPosition: real)
    requires 0.0 <= p.top <= screenHeight <= CollisionTop
    ensures !Collides(Falls(p, screenHeight, freshLefts), playerPosition)
  {
    FallsStayInWindow(p, screenHeight, freshLefts);
  }

  /** The component's state. */
  class Enemy {
    var position: EnemyPos

    /** A new enemy starts at the top, at a random column. */
    constructor (freshLeft: real)
      ensures position == EnemyPos(0.0, freshLeft)
    {
      position := EnemyPos(0.0, freshLeft);
    }

    method FallTick(screenHeight: real, freshLeft: real)
      modifies this
      ensures position == Fall(old(position), screenHeight, freshLeft)
    {
      position := Fall(position, screenHeight, freshLeft);
    }

    method CheckCollision(playerPosition: real, freshLeft: real)
      modifies this
      ensures position == Resolve(old(position), playerPosition, freshLeft)
    {
      position := Resolve(position, playerPosition, freshLeft);
    }
  }
}
