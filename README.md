# Retro shooter game-state model

A Dafny model of the game-state logic of an early 2D side-scrolling shooter
written in TypeScript with React and Redux. It covers five pieces:

- **`ReduxGame`** (`redux/gameSlice.tsx`): the Redux slice. The state holds
  the player position, the bullet and enemy lists and the alive flag. The
  six reducers are `movePlayer`, `applyGravity`, `shootBullet`,
  `moveEnemies`, `setPlayerAlive` and `updateBullets`. `Reduce` is the
  reducer as a state-in/state-out function. `GameStore` is the same state
  as the mutable draft that each reducer updates in place, and each of its
  methods is proved equal to `Reduce`.
- **`Page`** (`game/page.tsx`): the game screen as a source of dispatches.
  It covers the key handler, the interval timers and the effects that
  watch the enemy list and the alive flag. `Run` applies a command list
  through `ReduxGame.Reduce`. It stops at the first command whose reducer
  is not part of the slice above, and returns that command and the rest.
- **`HookPrototype`** (`store/gameSlice.tsx`): the earlier hook-based
  version of the screen. It has gravity with ground clamping, an enemy
  that scrolls left and wraps round, bullets that advance and leave the
  window, the player/enemy box test, and the bullet/enemy pass that
  removes hit bullets and resets the enemy. The pure rules are functions.
  The component's state is the class `GamePage`, whose `Valid()`
  invariant every step keeps.
- **`PlayerComponent`** (`components/player.tsx`): the clamped left/right
  movement.
- **`EnemyComponent`** (`components/enemy.tsx`): the falling enemy and its
  collision reset.
- **`Geometry`**: the shared point type and the interval-overlap test
  behind the box checks.

Coordinates are `real`. The window size is a parameter wherever the source
reads `window.innerWidth` or `window.innerHeight`. Every value of
`Math.random() * window.innerWidth` is a `freshLeft` argument. Each
interval callback and each key press is one atomic step.

In the slice, `movePlayer` does not clamp, and `applyGravity` only adds
to y. The page (`game/page.tsx:9-14`) imports reducers that the slice
(`redux/gameSlice.tsx:70`) does not export. The model records that the page
dispatches them but gives them no behaviour.

One consequence of the code as written is proved, not corrected. In the
hook prototype y is the CSS `bottom`, so the jump velocity of -12 moves the
player down. The next gravity tick lands the player again.
`HookPrototype.JumpCancelledByNextTick` states this.

## Model

| member | source | states |
|---|---|---|
| ReduxGame.Reduce | frontend/src/app/redux/gameSlice.tsx:36-66 | each action changes only its own part of the state; only `shootBullet` adds a bullet (exactly one), no action removes one, and the enemy count never changes |
| ReduxGame.ShiftX | frontend/src/app/redux/gameSlice.tsx:50-65 | the mapped list has the input's length, and each point keeps its y while x moves by the offset, index by index |
| ReduxGame.ShiftXAdditive | frontend/src/app/redux/gameSlice.tsx:50-65 | two moves equal one move by the sum, and a move by zero is the identity |
| ReduxGame.GameStore.constructor | frontend/src/app/redux/gameSlice.tsx:26-31 | initial state: player at (100, 20), no bullets, one enemy at (500, 20), player alive |
| ReduxGame.GameStore.MovePlayer | frontend/src/app/redux/gameSlice.tsx:37-43 | the draft after the call is the reducer's result for `movePlayer` |
| ReduxGame.GameStore.ApplyGravity | frontend/src/app/redux/gameSlice.tsx:44-46 | the draft after the call is the reducer's result for `applyGravity` |
| ReduxGame.GameStore.ShootBullet | frontend/src/app/redux/gameSlice.tsx:47-49 | the draft after the call is the reducer's result for `shootBullet` |
| ReduxGame.GameStore.MoveEnemies | frontend/src/app/redux/gameSlice.tsx:50-55 | the draft after the call is the reducer's result for `moveEnemies` |
| ReduxGame.GameStore.SetPlayerAlive | frontend/src/app/redux/gameSlice.tsx:57-59 | the draft after the call is the reducer's result for `setPlayerAlive` |
| ReduxGame.GameStore.UpdateBullets | frontend/src/app/redux/gameSlice.tsx:60-65 | the draft after the call is the reducer's result for `updateBullets` |
| ReduxGame.MovePlayerOnlyMovesX | frontend/src/app/redux/gameSlice.tsx:37-43 | "left" subtracts the speed from x and "right" adds it; any other direction leaves the whole state unchanged; y, lists and flag never change |
| ReduxGame.LeftThenRightRestores | frontend/src/app/redux/gameSlice.tsx:37-43 | moving left then right with the same speed restores the state |
| ReduxGame.ApplyGravityOnlyMovesY | frontend/src/app/redux/gameSlice.tsx:44-46 | y grows by the amount and nothing else changes |
| ReduxGame.ShootBulletAppends | frontend/src/app/redux/gameSlice.tsx:47-49 | one more bullet, the new one last, earlier bullets identical and in order, the rest unchanged |
| ReduxGame.MoveEnemiesShiftsLeft | frontend/src/app/redux/gameSlice.tsx:50-55 | enemies keep count, order and y and each x drops by the speed; nothing else changes |
| ReduxGame.UpdateBulletsShiftsRight | frontend/src/app/redux/gameSlice.tsx:60-65 | bullets keep count, order and y and each x grows by the speed; nothing else changes |
| ReduxGame.SetPlayerAliveIdempotent | frontend/src/app/redux/gameSlice.tsx:57-59 | only the flag changes, and setting the same value twice equals setting it once |
| Page.KeyOf | frontend/src/app/game/page.tsx:125-144 | each of the five codes the switch names maps to its own key, and only that code does; every other code is unhandled |
| Page.HandleKeyDown | frontend/src/app/game/page.tsx:122-145 | a dead player produces no command, at most two commands per key, and every `applyGravity` it dispatches is positive |
| Page.OnTimer | frontend/src/app/game/page.tsx:147-218 | the gravity timer dispatches `applyGravity(0.5)`; the entity timer dispatches `updateAllEntities(11, 2.5)` then `checkEnemyBulletCollisions`; the others dispatch `enemyShoot` and `checkEnemyPosition`; so every modelled dispatch is a positive `applyGravity` |
| Page.OnEnemiesChanged | frontend/src/app/game/page.tsx:171-176 | `generateEnemies` is dispatched exactly when the enemy list is empty |
| Page.OnAliveChanged | frontend/src/app/game/page.tsx:178-188 | exactly one command: `setBestScore` exactly when not alive, `resetScore` exactly when alive |
| Page.Run | frontend/src/app/redux/gameSlice.tsx:36-66 | the run completes exactly when every command is a modelled dispatch; otherwise it stops at the first command whose reducer is not modelled, and what remains is that suffix of the input |
| Page.RunAppend | frontend/src/app/redux/gameSlice.tsx:36-66 | running modelled dispatches and then more commands equals running the second list from the state the first one reached |
| Page.RunNeverLowersPlayer | frontend/src/app/redux/gameSlice.tsx:36-66 | commands with no negative `applyGravity` never lower the player's y |
| Page.PageNeverLowersPlayer | frontend/src/app/game/page.tsx:122-218 | no key press and no timer of the page lowers the player's y under the modelled reducers |
| Page.KeyProducesCommandsIff | frontend/src/app/game/page.tsx:122-145 | a key yields a command exactly when the player is alive and the key is handled, with Space only on the ground |
| Page.ArrowsMovePlayer | frontend/src/app/game/page.tsx:126-131 | the arrows move x by exactly 5 through the slice, and nothing else changes |
| Page.SpaceJumpsOnlyFromGround | frontend/src/app/game/page.tsx:132-137 | on the ground Space dispatches `applyGravity(12)` then `setOnGround(false)`, raising y by 12; in the air it dispatches nothing |
| Page.ShootAppendsPlayerPosition | frontend/src/app/game/page.tsx:138-139 | KeyS appends the current player position as the last bullet and changes nothing else |
| Page.DefenseKeyToggles | frontend/src/app/game/page.tsx:141-143 | KeyD dispatches `setDefense` with the negated flag |
| Geometry.SpansOverlapIffCommonPoint | frontend/src/app/store/gameSlice.tsx:139-146 | the two-inequality box test holds exactly when the two open spans share a point |
| HookPrototype.GravityStep | frontend/src/app/store/gameSlice.tsx:101-114 | y never ends below the ground; it lands (y = ground, velocity 0, on ground) exactly when y + velocity is at or below the ground, otherwise y moves by the velocity and the velocity grows by 0.5 |
| HookPrototype.EnemyStep | frontend/src/app/store/gameSlice.tsx:124-129 | x drops by 2, or restarts at 800 when that falls below -50; the result is never below -50 |
| HookPrototype.Muzzle | frontend/src/app/store/gameSlice.tsx:157-162 | the new bullet's 10x10 box lies inside the player's 50x50 box, with the player's bottom-based y turned into a top-based one |
| HookPrototype.MuzzleInEnemyBandIff | frontend/src/app/store/gameSlice.tsx:157-162 | a new shot is inside the enemy's vertical hit band exactly when the player is at most 35 below and 5 above the enemy |
| HookPrototype.PlayerHitsEnemy | frontend/src/app/store/gameSlice.tsx:139-146 | a hit holds exactly when the player's and the enemy's horizontal spans share a point and the player is no higher than the enemy's y plus 20 |
| HookPrototype.BulletHitsEnemy | frontend/src/app/store/gameSlice.tsx:176-184 | a hit holds exactly when the bullet's and the enemy's horizontal spans share a point and the bullet's top is inside the enemy's vertical extent measured from the top |
| HookPrototype.Advanced | frontend/src/app/store/gameSlice.tsx:169 | a bullet moves strictly right, keeps its y, and moving it back by 8 gives the original bullet |
| HookPrototype.AdvanceBullets | frontend/src/app/store/gameSlice.tsx:167-171 | never longer than the input, and every kept bullet is inside the window |
| HookPrototype.AdvanceBulletsKeepsVisible | frontend/src/app/store/gameSlice.tsx:167-171 | every bullet still inside the window after moving 8 right is kept |
| HookPrototype.AdvanceBulletsKeepsOnlyMoved | frontend/src/app/store/gameSlice.tsx:167-171 | every kept bullet is an input bullet moved 8 right, with y unchanged, inside the window |
| HookPrototype.AdvanceBulletsDropsIff | frontend/src/app/store/gameSlice.tsx:167-171 | the list keeps its length exactly when no moved bullet leaves the window |
| HookPrototype.AdvanceBulletsAppend | frontend/src/app/store/gameSlice.tsx:167-171 | advancing distributes over concatenation, so kept bullets keep their order |
| HookPrototype.Survivors | frontend/src/app/store/gameSlice.tsx:174-191 | never longer than the input, and no kept bullet is inside the enemy box |
| HookPrototype.SurvivorsKeepsMisses | frontend/src/app/store/gameSlice.tsx:174-191 | a bullet is kept exactly when it is an input bullet outside the enemy box |
| HookPrototype.SurvivorsDropsIff | frontend/src/app/store/gameSlice.tsx:174-191 | the list keeps its length exactly when no bullet hits the enemy |
| HookPrototype.SurvivorsAppend | frontend/src/app/store/gameSlice.tsx:174-191 | the filter distributes over concatenation, so survivors keep their order |
| HookPrototype.FilterHits | frontend/src/app/store/gameSlice.tsx:174-191 | the pass keeps the survivors against the enemy position captured before it; the enemy is reset to (800, 20) exactly when some bullet hit, otherwise it is unchanged |
| HookPrototype.JumpCancelledByNextTick | frontend/src/app/store/gameSlice.tsx:89-114 | from the ground, the tick after a jump puts the player back on the ground with velocity 0 |
| HookPrototype.JumpThenTick | frontend/src/app/store/gameSlice.tsx:82-119 | for any valid screen state on the ground, Space followed by one gravity tick leaves the player where it was, on the ground and at rest |
| HookPrototype.GamePage.constructor | frontend/src/app/store/gameSlice.tsx:74-79 | initial state: player at (100, 20) standing still on the ground, enemy at (500, 20), alive, no bullets |
| HookPrototype.GamePage.HandleKeyDown | frontend/src/app/store/gameSlice.tsx:82-96 | arrows move x by exactly 5 without clamping; Space sets velocity -12 and leaves the ground only when on the ground; KeyS appends one bullet; the invariant holds |
| HookPrototype.GamePage.GravityTick | frontend/src/app/store/gameSlice.tsx:99-119 | y, velocity and on-ground flag become the gravity step of the old ones; nothing else changes |
| HookPrototype.GamePage.EnemyTick | frontend/src/app/store/gameSlice.tsx:122-134 | the enemy takes one enemy step, keeps its y and stays in [-50, 800] |
| HookPrototype.GamePage.CheckCollision | frontend/src/app/store/gameSlice.tsx:137-154 | the player is alive afterwards exactly when it was alive and the boxes did not overlap; the flag is never set back to true |
| HookPrototype.GamePage.ShootBullet | frontend/src/app/store/gameSlice.tsx:157-162 | exactly one bullet, at the muzzle position, is appended; nothing else changes |
| HookPrototype.GamePage.BulletTick | frontend/src/app/store/gameSlice.tsx:165-195 | bullets become the survivors of the advanced list against the pre-pass enemy, and the enemy is reset exactly when one hit |
| PlayerComponent.KeyDown | frontend/src/app/components/player.tsx:20-26 | ArrowLeft never goes below 0 and moves exactly 10 when the position is at least 10; ArrowRight never goes above width - 50 and moves exactly 10 when there is room; other keys change nothing |
| PlayerComponent.StaysInWindow | frontend/src/app/components/player.tsx:17-26 | a position in [0, width - 50] stays there for every key sequence |
| PlayerComponent.AlwaysInWindow | frontend/src/app/components/player.tsx:17-26 | from the initial position 0 the player stays in [0, width - 50] for every key sequence |
| EnemyComponent.Fall | frontend/src/app/components/enemy.tsx:34-40 | top grows by 5 with the column kept, or restarts at 0 at the fresh column past the bottom; a non-negative top stays in [0, height] |
| EnemyComponent.Collides | frontend/src/app/components/enemy.tsx:22-25 | a collision needs the enemy below the 450 line, and below it a collision holds exactly when the enemy's left edge is within the player's 50-pixel width |
| EnemyComponent.Resolve | frontend/src/app/components/enemy.tsx:22-30 | a colliding enemy restarts at top 0 at the fresh column, any other is unchanged, and the result never collides |
| EnemyComponent.FallsStayInWindow | frontend/src/app/components/enemy.tsx:34-40 | an enemy inside the window stays inside it for any number of ticks |
| EnemyComponent.NoCollisionInShortWindow | frontend/src/app/components/enemy.tsx:22-40 | in a window no higher than 450 the falling enemy never collides |
| EnemyComponent.Enemy.constructor | frontend/src/app/components/enemy.tsx:20 | a new enemy starts at top 0 at the fresh column |
| EnemyComponent.Enemy.FallTick | frontend/src/app/components/enemy.tsx:33-41 | the position becomes the fall step of the old one |
| EnemyComponent.Enemy.CheckCollision | frontend/src/app/components/enemy.tsx:22-30 | the position becomes the collision resolution of the old one |

## Left out

- Rendering, styled-components and JSX in every file. The layout, the menu, the start screen and the health bar are presentation or routing.
- `setInterval`/`useEffect` scheduling and effect dependency arrays. Each callback is one atomic step. The interleavings of stale closures are not modelled. One example is the prototype's key handler, which is registered again only when `onGround` changes and so shoots from the player position of that render. The model shoots from the current position.
- `window.innerWidth`/`innerHeight` are parameters, and `Math.random()` is an argument (`freshLeft`).
- `alert`, `console.log` and `location.reload()` are side effects with no state.
- The reducers the page imports but the modelled slice does not define. These are `setOnGround`, `setDefense`, `generateEnemies`, `setBestScore`, `resetScore`, `updateAllEntities`, `checkEnemyBulletCollisions`, `enemyShoot` and `checkEnemyPosition`. The model records that they are dispatched, and `Page.Run` stops at them. Their behaviour is not part of this model.
- Page.OnAliveChanged: models the two effects' bodies, not the fact that React runs them only on mount and when the flag changes.
- IEEE floating-point rounding of 0.5, 1.2 and 2.5. Arithmetic is exact over `real`.
- PlayerComponent.StaysInWindow: the window width is fixed over the key sequence. The source reads it again on every key, and a window that shrinks can leave the player outside.
