/** The game screen (game/page.tsx) as a producer of Redux commands: the
    keyboard handler and the timers and effects each issue a list of
    dispatches. Commands whose reducers live in the slice above are applied
    through `ReduxGame.Reduce`; the page also dispatches commands whose
    reducers are not part of that slice, and `Run` stops in front of the
    first of those rather than guess what it does. */
module Page {
  import opened Geometry
  import ReduxGame

  const Gravity: real := 0.5
  const JumpHeight: real := 12.0
  const MoveSpeed: real := 5.0
  /** Payload of the 40 ms entity update. */
  const EntityBulletSpeed: real := 11.0
  const EntityEnemySpeed: real := 2.5

  /** A dispatch issued by the page. `Dispatch` carries an action of the
      modelled slice; the other constructors name reducers the page imports
      whose bodies are not part of this model. */
  datatype Command =
    | Dispatch(action: ReduxGame.Action)
    | SetOnGround(onGround: bool)
    | SetDefense(inDefense: bool)
    | GenerateEnemies
    | SetBestScore
    | ResetScore
    | UpdateAllEntities(bulletSpeed: real, enemySpeed: real)
    | CheckEnemyBulletCollisions
    | EnemyShoot
    | CheckEnemyPosition

  /** The store as the page reads it: the modelled slice, plus the two flags
      that reducers outside that slice maintain. */
  datatype PageState = PageState(slice: ReduxGame.State, onGround: bool, inDefense: bool)

  /** The page's interval timers. */
  datatype Timer = GravityTimer | EntityTimer | EnemyShootTimer | EnemyPositionTimer

  /** The key codes the handler's switch names; every other code is `Unhandled`. */
  datatype Key = ArrowLeft | ArrowRight | Space | KeyS | KeyD | Unhandled

  function KeyOf(code: string): (k: Key)
    ensures k == ArrowLeft <==> code == "ArrowLeft"
    ensures k == ArrowRight <==> code == "ArrowRight"
    ensures k == Space <==> code == "Space"
    ensures k == KeyS <==> code == "KeyS"
    ensures k == KeyD <==> code == "KeyD"
  {
    if code == "ArrowLeft" then ArrowLeft
    else if code == "ArrowRight" then ArrowRight
    else if code == "Space" then Space
    else if code == "KeyS" then KeyS
    else if code == "KeyD" then KeyD
    else Unhandled
  }

  /** The commands one key press dispatches, in order. */
  function HandleKeyDown(key: Key, s: PageState): (r: seq<Command>)
    ensures !s.slice.playerAlive ==> r == []
    ensures |r| <= 2
    ensures forall i :: 0 <= i < |r| && r[i].Dispatch? && r[i].action.ApplyGravity? ==>
              r[i].action.amount > 0.0
  {
    if !s.slice.playerAlive then []
    else
      match key
      case ArrowLeft => [Dispatch(ReduxGame.MovePlayer("left", MoveSpeed))]
      case ArrowRight => [Dispatch(ReduxGame.MovePlayer("right", MoveSpeed))]
      case Space =>
        if s.onGround then [Dispatch(ReduxGame.ApplyGravity(JumpHeight)), SetOnGround(false)] else []
      case KeyS => [Dispatch(ReduxGame.ShootBullet(s.slice.playerPosition))]
      case KeyD => [SetDefense(!s.inDefense)]
      case Unhandled => []
  }

  /** The commands one firing of a timer dispatches. */
  function OnTimer(t: Timer): (r: seq<Command>)
    ensures t == GravityTimer ==> r == [Dispatch(ReduxGame.ApplyGravity(Gravity))]
    ensures t == EntityTimer ==>
      r == [UpdateAllEntities(EntityBulletSpeed, EntityEnemySpeed), CheckEnemyBulletCollisions]
    ensures t == EnemyShootTimer ==> r == [EnemyShoot]
    ensures t == EnemyPositionTimer ==> r == [CheckEnemyPosition]
    ensures forall i :: 0 <= i < |r| && r[i].Dispatch? ==>
              r[i].action.ApplyGravity? && r[i].action.amount > 0.0
  {
    match t
    case GravityTimer => [Dispatch(ReduxGame.ApplyGravity(Gravity))]
    case EntityTimer => [UpdateAllEntities(EntityBulletSpeed, EntityEnemySpeed), CheckEnemyBulletCollisions]
    case EnemyShootTimer => [EnemyShoot]
    case EnemyPositionTimer => [CheckEnemyPosition]
  }

  /** The effect that watches the enemy list: an empty list asks for a new wave. */
  function OnEnemiesChanged<T>(enemies: seq<T>): (r: seq<Command>)
    ensures r == [GenerateEnemies] <==> |enemies| == 0
    ensures |enemies| > 0 ==> r == []
  {
    if |enemies| == 0 then [GenerateEnemies] else []
  }

  /** The two effects that watch the alive flag, in declaration order: a dead
      player commits the best score, a live one resets the score. */
  function OnAliveChanged(playerAlive: bool): (r: seq<Command>)
    ensures |r| == 1
    ensures r[0] == SetBestScore <==> !playerAlive
    ensures r[0] == ResetScore <==> playerAlive
  {
    (if !playerAlive then [SetBestScore] else []) + (if playerAlive then [ResetScore] else [])
  }

  /** Where applying a command list stops: all applied, or at a command whose
      reducer is not modelled, with the commands still to apply. */
  datatype Outcome = Done(state: ReduxGame.State) | Pending(state: ReduxGame.State, rest: seq<Command>)

  /** The commands applied one after the other through the slice's reducer,
      up to the first one the slice does not define. */
  function Run(st: ReduxGame.State, cmds: seq<Command>): (r: Outcome)
    ensures r.Done? <==> forall i :: 0 <= i < |cmds| ==> cmds[i].Dispatch?
    ensures r.Pending? ==> 0 < |r.rest| <= |cmds| && !r.rest[0].Dispatch?
                           && r.rest == cmds[|cmds| - |r.rest|..]
                           && forall i :: 0 <= i < |cmds| - |r.rest| ==> cmds[i].Dispatch?
    decreases |cmds|
  {
    if cmds == [] then Done(st)
    else if cmds[0].Dispatch? then
      var r := Run(ReduxGame.Reduce(st, cmds[0].action), cmds[1..]);
      assert forall i :: 1 <= i < |cmds| ==> cmds[i] == cmds[1..][i - 1];
      r
    else Pending(st, cmds)
  }

  /** Running a list of modelled dispatches and then more commands is running
      the second list from where the first one ended. */
  lemma {:induction false} RunAppend(st: ReduxGame.State, a: seq<Command>, b: seq<Command>)
    requires forall i :: 0 <= i < |a| ==> a[i].Dispatch?
    ensures Run(st, a + b) == Run(Run(st, a).state, b)
    decreases |a|
  {
    if a == [] {
      assert a + b == b;
    } else {
      assert (a + b)[0] == a[0];
      assert (a + b)[1..] == a[1..] + b;
      RunAppend(ReduxGame.Reduce(st, a[0].action), a[1..], b);
    }
  }

  /** Only a negative `applyGravity` can lower the player: the other modelled
      reducers leave y alone. */
  lemma {:induction false} RunNeverLowersPlayer(st: ReduxGame.State, cmds: seq<Command>)
    requires forall i :: 0 <= i < |cmds| && cmds[i].Dispatch? && cmds[i].action.ApplyGravity? ==>
               cmds[i].action.amount >= 0.0
    ensures Run(st, cmds).state.playerPosition.y >= st.playerPosition.y
    decreases |cmds|
  {
    if cmds != [] && cmds[0].Dispatch? {
      var next := ReduxGame.Reduce(st, cmds[0].action);
      assert next.playerPosition.y >= st.playerPosition.y;
      forall i | 0 <= i < |cmds[1..]| && cmds[1..][i].Dispatch? && cmds[1..][i].action.ApplyGravity?
        ensures cmds[1..][i].action.amount >= 0.0
      {
        assert cmds[1..][i] == cmds[i + 1];
      }
      RunNeverLowersPlayer(next, cmds[1..]);
    }
  }

  /** No key press and no timer of the page ever lowers the player. */
  lemma PageNeverLowersPlayer(s: PageState, key: Key, t: Timer)
    ensures Run(s.slice, HandleKeyDown(key, s)).state.playerPosition.y >= s.slice.playerPosition.y
    ensures Run(s.slice, OnTimer(t)).state.playerPosition.y >= s.slice.playerPosition.y
  {
    RunNeverLowersPlayer(s.slice, HandleKeyDown(key, s));
    RunNeverLowersPlayer(s.slice, OnTimer(t));
  }

  /** A key produces a command exactly when the player is alive and the key
      is one the handler names (Space only on the ground). */
  lemma KeyProducesCommandsIff(key: Key, s: PageState)
    ensures HandleKeyDown(key, s) != [] <==>
      s.slice.playerAlive && key != Unhandled && (key == Space ==> s.onGround)
  {
  }

  /** The arrows move the player by the page's speed through the slice. */
  lemma ArrowsMovePlayer(s: PageState)
    requires s.slice.playerAlive
    ensures var st := s.slice;
      Run(st, HandleKeyDown(ArrowLeft, s))
        == Done(st.(playerPosition := st.playerPosition.(x := st.playerPosition.x - MoveSpeed)))
    ensures var st := s.slice;
      Run(st, HandleKeyDown(ArrowRight, s))
        == Done(st.(playerPosition := st.playerPosition.(x := st.playerPosition.x + MoveSpeed)))
  {
  }

  /** On the ground Space raises the player by the jump height through the
      slice and then waits for `setOnGround(false)`; in the air it dispatches
      nothing. */
  lemma SpaceJumpsOnlyFromGround(s: PageState)
    requires s.slice.playerAlive
    ensures s.onGround ==>
      HandleKeyDown(Space, s) == [Dispatch(ReduxGame.ApplyGravity(JumpHeight)), SetOnGround(false)]
    ensures var st := s.slice;
      s.onGround ==>
        Run(st, HandleKeyDown(Space, s))
          == Pending(st.(playerPosition := st.playerPosition.(y := st.playerPosition.y + JumpHeight)),
                     [SetOnGround(false)])
    ensures !s.onGround ==> HandleKeyDown(Space, s) == []
  {
    if s.onGround {
      var st := s.slice;
      var cmds := [Dispatch(ReduxGame.ApplyGravity(JumpHeight)), SetOnGround(false)];
      assert HandleKeyDown(Space, s) == cmds;
      var jumped := ReduxGame.Reduce(st, ReduxGame.ApplyGravity(JumpHeight));
      assert jumped == st.(playerPosition := st.playerPosition.(y := st.playerPosition.y + JumpHeight));
      assert cmds[1..] == [SetOnGround(false)];
      assert Run(jumped, [SetOnGround(false)]) == Pending(jumped, [SetOnGround(false)]);
      assert Run(st, cmds) == Run(jumped, cmds[1..]);
    }
  }

  /** Shooting appends the player's current position as the last bullet. */
  lemma ShootAppendsPlayerPosition(s: PageState)
    requires s.slice.playerAlive
    ensures var st := s.slice;
      Run(st, HandleKeyDown(KeyS, s)) == Done(st.(bullets := st.bullets + [st.playerPosition]))
  {
    var st := s.slice;
    var cmds := [Dispatch(ReduxGame.ShootBullet(st.playerPosition))];
    assert HandleKeyDown(KeyS, s) == cmds;
    var shot := ReduxGame.Reduce(st, cmds[0].action);
    assert shot == st.(bullets := st.bullets + [st.playerPosition]);
    assert cmds[1..] == [];
    assert Run(st, cmds) == Run(shot, []);
  }

  /** KeyD flips the defence flag. */
  lemma DefenseKeyToggles(s: PageState)
    requires s.slice.playerAlive
    ensures HandleKeyDown(KeyD, s) == [SetDefense(!s.inDefense)]
  {
  }
}
