# Platformer character controller

This project models the per-tick character controller of a small Phaser 2D platformer (`update()` in `js/game.js`). Every tick the controller reads the LEFT, RIGHT and SPACEBAR keys, whether the player's body is on the floor, and the game clock. It then updates its state in a fixed order:

1. It sets the body's horizontal velocity to 0, then to -160 for LEFT or, failing that, +160 for RIGHT. The same key sets `facing`.
2. It fires a jump when SPACEBAR is down, the body is on the floor and the clock is strictly past `jumpTimer`. A jump loads the `'jumping'` spritesheet, sets the vertical velocity to -120 and sets `jumpTimer` to now + 650 ms.
3. If the `'jumping'` sheet is selected, it loads `'character'` again.
4. It shows frame 0 when facing left and frame 1 otherwise.

The model is split into two files:

- `game.dfy` (module `Game`):
  - `Step` is the pure transition of one tick. It is composed of four phase functions, one for each step above.
  - Class `Sprite` holds the engine fields that the tick writes in place: velocity, texture key and frame.
  - Class `Controller` holds the two module variables, `facing` and `jumpTimer`, and the player sprite. Its `Update` method makes the same writes in the same order as the source and is proved to compute `Step`.
- `runs.dfy` (module `Runs`) composes ticks into runs. It proves what the cooldown guarantees over time, and how the facing persists.

The keyboard, the floor-contact test and the clock are parameters of `Update` and fields of `Tick`.

## Model

| member | source | states |
|---|---|---|
| `Game.Step` | js/game.js:57-127 | The result of one tick. LEFT gives velocity.x -160 and facing left, whatever RIGHT is. RIGHT alone gives +160 and facing right. Neither key gives 0 and keeps the facing, so velocity.x is always -160, 0 or 160. A jump fires iff SPACEBAR, floor contact and now > jumpTimer all hold. A fired jump sets velocity.y to -120 and jumpTimer to now + 650. Otherwise both are unchanged. jumpTimer never decreases, and it increases exactly when a jump fires. The tick always ends on the `'character'` key with frame 0 for left and 1 for right. |
| `Game.LeftWinsTies` | js/game.js:63-89 | With LEFT down, pressing RIGHT as well changes nothing in the outcome of the tick. |
| `Game.Sprite.constructor` | js/game.js:38-47 | A spawned sprite shows the given sheet at frame 0, with its body at rest. |
| `Game.Sprite.LoadTexture` | js/game.js:101 | Loading a texture sets the key and the frame and leaves the body's velocity alone. |
| `Game.Controller.constructor` | js/game.js:22-38 | The starting state: a fresh player sprite on `'character'`, facing left, jumpTimer 0. This state is already settled (key `'character'`, frame matching the facing). |
| `Game.Controller.Update` | js/game.js:57-127 | The in-place update computes exactly `Step` of the old state. It reports whether the jump fired, and it leaves the sprite settled. |
| `Runs.Run` | js/game.js:57-127 | Over any sequence of ticks, jumpTimer never ends below its starting value. After at least one tick, the state is settled. |
| `Runs.TimerMonotone` | js/game.js:97-108 | jumpTimer after any prefix of a run is at most its value after any longer prefix. |
| `Runs.CooldownBlocksJump` | js/game.js:97-108 | After a jump at time T, no jump fires on any later tick whose clock reads T + 650 or less. |
| `Runs.JumpGap` | js/game.js:97-108 | Between any two fired jumps of a run, jumpTimer advances by at least 651 ms: the later jump needs now > the timer the earlier one set, and sets the timer to now + 650. |
| `Runs.QuietTicksKeepTimer` | js/game.js:97-109 | Ticks on which no jump fires leave jumpTimer unchanged. |
| `Runs.NextJumpAfterCooldown` | js/game.js:97-108 | Take a jump at time T, followed by ticks with no jump. A later tick then fires iff it has SPACEBAR down, floor contact and a clock strictly past T + 650. |
| `Runs.TimerAfterJumps` | js/game.js:97-108 | In a run whose clock stays within [lo, hi], after n > 0 jumps, jumpTimer is between lo + 650 + 651(n-1) and hi + 650. After no jumps, it is unchanged. |
| `Runs.JumpRate` | js/game.js:97-108 | No double jumps: in a run whose clock stays within [lo, hi], n jumps need (n-1)·651 ≤ hi - lo. |
| `Runs.FacingFollowsLastSteer` | js/game.js:63-89 | After a run, facing is the direction of the last tick that held LEFT or RIGHT (LEFT winning a tie). If no tick held either key, facing is the starting one. |
| `Runs.JumpScenarios` | js/game.js:57-127 | Concrete ticks from the starting state. Walking left at 1000 ms gives -160, facing left, frame 0. A jump at 1000 ms gives velocity.y -120, jumpTimer 1650 and, already at the end of that tick, key `'character'`. A press at 1500 ms against a cooldown until 1650 ms does not jump, and keeps whatever velocity.y the body had. A press at 1651 ms jumps again. |

### Where the code and its description differ (the model follows the code)

- There is no separate animation-mode variable. The revert at js/game.js:111-113 tests only the texture key. Because it runs in the same call as the `loadTexture('jumping')` at line 101, the `'jumping'` key never survives to the end of a tick, not even until the next tick.
- The comment at js/game.js:103 says `vertMove` is -90. The constant at line 25 is -120, and the model uses -120.
- The comments at js/game.js:118 and 122 name the frames the wrong way round. The code shows frame 0 for left and 1 for right.
- The jump animation is played with its loop argument `true` (js/game.js:100), not as a non-looping animation.

## Left out

- Engine bootstrap, canvas and renderer selection (js/game.js:3-14), and asset loading in `preload()` (js/game.js:16-20): no controller logic.
- The rest of `create()` (js/game.js:28-55): stage colour, starting the physics system, the spawn position, `collideWorldBounds` and `gravity.y = 96`. This is one-time setup of the engine. Only the starting state it leaves is modelled.
- Physics integration: how gravity changes velocity.y between ticks and how `onFloor()` is computed. This is floating-point engine internals. `onFloor` is a boolean input of each tick. `Runs.Run` applies ticks back to back, without the engine's changes between them. That is why the run lemmas state only `facing` and `jumpTimer`, which only the controller writes, and fields that the last tick of the run sets itself (the texture key and the frame).
- Keyboard polling and `game.time.now` are parameters, not services. Nothing assumes the clock is monotonic.
- `player.animations.add` / `play` (js/game.js:99-100): renderer calls with no effect on the modelled state. `Update` only reports, through `jumped`, the ticks on which they run. How animation playback changes the displayed frame between ticks is not modelled.
- `Game.Sprite.LoadTexture`: the revert call at js/game.js:112 passes no frame. The model selects frame 0 there, as the engine's default. The frame write at the end of the tick overrides it either way.
- `player` is a `const` field of `Controller`. The source assigns it once, in `create()`, and never again.
