/** The Redux slice of the game (redux/gameSlice.tsx): the player's position,
    the bullet and enemy lists and the alive flag, with the six reducers the
    slice exports. `Reduce` is the reducer as a state-in/state-out function;
    `GameStore` is the same slice as the mutable draft its reducers update in
    place. */
module ReduxGame {
  import opened Geometry

  datatype State = State(playerPosition: Pos, bullets: seq<Pos>, enemies: seq<Pos>, playerAlive: bool)

  /** The actions of the slice, one per exported reducer, with their payloads. */
  datatype Action =
    | MovePlayer(direction: string, moveSpeed: real)
    | ApplyGravity(amount: real)
    | ShootBullet(bullet: Pos)
    | MoveEnemies(speed: real)
    | SetPlayerAlive(alive: bool)
    | UpdateBullets(speed: real)

  /** Every point moved horizontally by `d`, in the same order. */
  function ShiftX(s: seq<Pos>, d: real): (r: seq<Pos>)
    ensures |r| == |s|
    ensures forall i :: 0 <= i < |s| ==> r[i] == Pos(s[i].x + d, s[i].y)
  {
    if s == [] then [] else [Pos(s[0].x + d, s[0].y)] + ShiftX(s[1..], d)
  }

  /** The slice's reducer: the state after one action. Each action touches
      only its own part of the state, and no action changes the number of
      enemies or removes a bullet. */
  function Reduce(st: State, a: Action): (r: State)
    ensures !a.MovePlayer? && !a.ApplyGravity? ==> r.playerPosition == st.playerPosition
    ensures a.MovePlayer? ==> r.playerPosition.y == st.playerPosition.y
    ensures a.ApplyGravity? ==> r.playerPosition.x == st.playerPosition.x
    ensures !a.ShootBullet? && !a.UpdateBullets? ==> r.bullets == st.bullets
    ensures |r.bullets| == |st.bullets| + (if a.ShootBullet? then 1 else 0)
    ensures !a.MoveEnemies? ==> r.enemies == st.enemies
    ensures |r.enemies| == |st.enemies|
    ensures !a.SetPlayerAlive? ==> r.playerAlive == st.playerAlive
  {
    match a
    case MovePlayer(direction, moveSpeed) =>
      if direction == "left" then
        st.(playerPosition := st.playerPosition.(x := st.playerPosition.x - moveSpeed))
      else if direction == "right" then
        st.(playerPosition := st.playerPosition.(x := st.playerPosition.x + moveSpeed))
      else st
    case ApplyGravity(amount) =>
      st.(playerPosition := st.playerPosition.(y := st.playerPosition.y + amount))
    case ShootBullet(b) => st.(bullets := st.bullets + [b])
    case MoveEnemies(speed) => st.(enemies := ShiftX(st.enemies, -speed))
    case SetPlayerAlive(alive) => st.(playerAlive := alive)
    case UpdateBullets(speed) => st.(bullets := ShiftX(st.bullets, speed))
  }

  /** The slice's state as the draft its reducers mutate. */
  class GameStore {
    var playerPosition: Pos
    var bullets: seq<Pos>
    var enemies: seq<Pos>
    var playerAlive: bool

    function Snapshot(): (s: State)
      reads this
    {
      State(playerPosition, bullets, enemies, playerAlive)
    }

    /** The slice's initial state. */
    constructor ()
      ensures playerPosition == Pos(100.0, 20.0)
      ensures bullets == [] && enemies == [Pos(500.0, 20.0)]
      ensures playerAlive
    {
      playerPosition := Pos(100.0, 20.0);
      bullets := [];
      enemies := [Pos(500.0, 20.0)];
      playerAlive := true;
    }

    method MovePlayer(direction: string, moveSpeed: real)
      modifies this
      ensures Snapshot() == Reduce(old(Snapshot()), Action.MovePlayer(direction, moveSpeed))
    {
      if direction == "left" {
        playerPosition := playerPosition.(x := playerPosition.x - moveSpeed);
      } else if direction == "right" {
        playerPosition := playerPosition.(x := playerPosition.x + moveSpeed);
      }
    }

    method ApplyGravity(amount: real)
      modifies this
      ensures Snapshot() == Reduce(old(Snapshot()), Action.ApplyGravity(amount))
    {
      playerPosition := playerPosition.(y := playerPosition.y + amount);
    }

    method ShootBullet(bullet: Pos)
      modifies this
      ensures Snapshot() == Reduce(old(Snapshot()), Action.ShootBullet(bullet))
    {
      bullets := bullets + [bullet];
    }

    method MoveEnemies(speed: real)
      modifies this
      ensures Snapshot() == Reduce(old(Snapshot()), Action.MoveEnemies(speed))
    {
      enemies := ShiftX(enemies, -speed);
    }

    method SetPlayerAlive(alive: bool)
      modifies this
      ensures Snapshot() == Reduce(old(Snapshot()), Action.SetPlayerAlive(alive))
    {
      playerAlive := alive;
    }

    method UpdateBullets(speed: real)
      modifies this
      ensures Snapshot() == Reduce(old(Snapshot()), Action.UpdateBullets(speed))
    {
      bullets := ShiftX(bullets, speed);
    }
  }

  /** Shifting twice is shifting once by the sum; shifting by zero changes nothing. */
  lemma {:induction false} ShiftXAdditive(s: seq<Pos>, d1: real, d2: real)
    ensures ShiftX(ShiftX(s, d1), d2) == ShiftX(s, d1 + d2)
    ensures ShiftX(s, 0.0) == s
  {
    if s != [] {
      ShiftXAdditive(s[1..], d1, d2);
    }
  }

  /** "left" subtracts the speed from x, "right" adds it, anything else is a
      no-op; y, the lists and the alive flag never change. */
  lemma MovePlayerOnlyMovesX(st: State, direction: string, moveSpeed: real)
    ensures var r := Reduce(st, MovePlayer(direction, moveSpeed));
      && r.playerPosition.y == st.playerPosition.y
      && r.bullets == st.bullets && r.enemies == st.enemies
      && r.playerAlive == st.playerAlive
      && (direction == "left" ==> r.playerPosition.x == st.playerPosition.x - moveSpeed)
      && (direction == "right" ==> r.playerPosition.x == st.playerPosition.x + moveSpeed)
      && (direction != "left" && direction != "right" ==> r == st)
  {
  }

  /** A step left undone by a step right of the same speed. */
  lemma LeftThenRightRestores(st: State, moveSpeed: real)
    ensures Reduce(Reduce(st, MovePlayer("left", moveSpeed)), MovePlayer("right", moveSpeed)) == st
  {
  }

  lemma ApplyGravityOnlyMovesY(st: State, amount: real)
    ensures Reduce(st, ApplyGravity(amount))
      == st.(playerPosition := Pos(st.playerPosition.x, st.playerPosition.y + amount))
  {
  }

  /** One more bullet, the new one last, the earlier ones untouched and in order. */
  lemma ShootBulletAppends(st: State, b: Pos)
    ensures var r := Reduce(st, ShootBullet(b));
      && |r.bullets| == |st.bullets| + 1
      && r.bullets[|st.bullets|] == b
      && r.bullets[..|st.bullets|] == st.bullets
      && r.playerPosition == st.playerPosition && r.enemies == st.enemies
      && r.playerAlive == st.playerAlive
  {
    var r := Reduce(st, ShootBullet(b));
    assert r.bullets[..|st.bullets|] == st.bullets;
  }

  /** Enemies keep their number, order and height and move left by the speed. */
  lemma MoveEnemiesShiftsLeft(st: State, speed: real)
    ensures var r := Reduce(st, MoveEnemies(speed));
      && |r.enemies| == |st.enemies|
      && (forall i :: 0 <= i < |st.enemies| ==>
            r.enemies[i] == Pos(st.enemies[i].x - speed, st.enemies[i].y))
      && r.playerPosition == st.playerPosition && r.bullets == st.bullets
      && r.playerAlive == st.playerAlive
  {
  }

  /** Bullets keep their number, order and height and move right by the speed. */
  lemma UpdateBulletsShiftsRight(st: State, speed: real)
    ensures var r := Reduce(st, UpdateBullets(speed));
      && |r.bullets| == |st.bullets|
      && (forall i :: 0 <= i < |st.bullets| ==>
            r.bullets[i] == Pos(st.bullets[i].x + speed, st.bullets[i].y))
      && r.playerPosition == st.playerPosition && r.enemies == st.enemies
      && r.playerAlive == st.playerAlive
  {
  }

  /** Setting the flag changes only the flag, and setting it twice is setting it once. */
  lemma SetPlayerAliveIdempotent(st: State, alive: bool)
    ensures Reduce(st, SetPlayerAlive(alive)) == st.(playerAlive := alive)
    ensures Reduce(Reduce(st, SetPlayerAlive(alive)), SetPlayerAlive(alive))
      == Reduce(st, SetPlayerAlive(alive))
  {
  }
}
