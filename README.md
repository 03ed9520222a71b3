# Hit the Ferrises: score and target bookkeeping

This project models the per-frame callback `game_logic` of a small arcade game
built on the `rusty_engine` crate. The player drives a car around the window.
Targets labelled `ferris0`, `ferris1`, … appear on a left click and every
time a 2-second timer fires. Touching a target removes it and adds one to the
score. The R key resets the score. The high score only ever goes up.

The game owns a `GameState` record (`score`, `high_score`, `ferris_index`).
The engine owns two tables: the sprite table, keyed by label, and the text
table, which holds the two HUD lines `"score"` and `"high_score"`. Each frame,
`game_logic` does these steps in order:

1. It drains the engine's collision queue.
2. It moves the player.
3. It may spawn a target under the mouse.
4. It may spawn a target at a random spot when the timer fires.
5. It may reset the score.

The model has three modules:

- `Format` (format.dfy) models the strings the callback builds with `format!`:
  decimal numbers, target labels and the two HUD lines. Each is proved to read
  back to the number it shows, so no target label is ever reused.
- `Logic` (logic.dfy) models one frame as functions over a `World` value. A
  `World` holds the three counters, the two tables and the number of sound
  effects played. The lemmas prove the bookkeeping facts for one event, a
  whole drain, one frame and any run of frames. The main fact is the invariant
  `Consistent`, which holds at startup and after every frame:
  - the player and both HUD lines are present;
  - `score <= high_score`;
  - the HUD shows the current counters;
  - no label `ferris<k>` with `k >= ferris_index` is in the sprite table.
- `Game` (game.dfy) models the callback as the source runs it. `Engine` and
  `GameState` are classes whose fields the methods update in place. The
  collision queue is drained by a loop, and so is the inner loop over each
  event's pair. Each method's postcondition ties the new state of both objects
  to the matching function of `Logic`. `GameLogic` is proved equal to `Frame`.

What the engine supplies is an input to the model:

- the collision queue;
- the held arrow keys and the frame time;
- whether the mouse was clicked, and the cursor position if there is one;
- whether the spawn timer just finished, and the random spot it draws;
- whether the reset key was pressed.

Two readings of engine behaviour are assumptions:

- `pair.one_starts_with("player")` is read from its name: one of the two
  labels begins with `player`. The code tests a prefix, and the model follows
  the code. Whether the test is inclusive ("at least one") or exclusive
  ("exactly one") matters only for a pair whose two labels both start with
  `player`. The game never creates such a pair, because no target label
  starts with `player` (`Format.FerrisLabel`).
- Adding a sprite under a label that already exists replaces it. The
  invariant shows this never happens in the game.

The `unwrap()` lookups of `"player"`, `"score"` and `"high_score"` become
preconditions (`Ready`): these entities must be present.

## Model

| member | source | states |
|---|---|---|
| `Game.GameState.constructor` | src/main.rs:11-19 | the default game state has score, high score and target counter all zero |
| `Game.Engine.constructor` | src/main.rs:24 | a new engine has no sprites, no texts, an empty collision queue and no sound effects played |
| `Game.NewGame` | src/main.rs:24-46 | `main()` leaves the engine with the player car at the origin (collidable), the HUD lines "Score: 0" and "High Score: 0", an empty collision queue, and the default game state: exactly the world `Logic.Startup` |
| `Logic.StartupConsistent` | src/main.rs:11-43 | the state at startup has all counters at zero and satisfies the invariant: `high_score >= score`, the HUD reads "Score: 0" and "High Score: 0", no target label is taken yet |
| `Format.NatToString` | src/main.rs:74 | `{}` formatting of a counter yields a non-empty string of decimal digits, which starts with '0' exactly when the number is zero; numbers below ten take one digit, and zero is "0" |
| `Format.DigitsValueOfNatToString` | src/main.rs:74 | reading back the rendered digits gives the number: the formatting loses nothing |
| `Format.NatToStringInjective` | src/main.rs:105 | different numbers render as different strings |
| `Format.FerrisLabel` | src/main.rs:105 | a target label is "ferris" followed by digits, so it is never "player" and never starts with "player" |
| `Format.FerrisLabelInjective` | src/main.rs:105-106 | different counter values give different labels, so a target label is never reused |
| `Format.HudTextsReadBack` | src/main.rs:74-79 | the score line is "Score: " and the high-score line "High Score: ", each followed by digits that read back as the number shown |
| `Logic.Removed` | src/main.rs:67-71 | a scoring event removes exactly the labels of its pair other than "player"; "player" is never removed; other events remove nothing |
| `Logic.ApplyEvent` | src/main.rs:66-82 | one pass of the drain keeps the set of text labels and the target counter, and plays exactly one sound effect, whether or not the player was involved |
| `Logic.EventEffect` | src/main.rs:66-81 | a begin event involving the player adds exactly 1 to the score, makes the high score the larger of the old high score and the new score, removes the pair's non-player sprites, and rewrites the score line; the high-score line is rewritten only when the high score rises; any other event leaves score, high score, sprites and texts as they were |
| `Logic.ApplyEvents` | src/main.rs:65-83 | draining the whole queue keeps the text labels and the player sprite, leaves the target counter alone and plays one sound effect per event |
| `Logic.CountScoring` | src/main.rs:65-66 | at most every event of the queue scores, and a queue of player begin events scores once per event |
| `Logic.RemovedBy` | src/main.rs:65-71 | the labels a whole drain removes never include "player" |
| `Logic.EventsScore` | src/main.rs:65-72 | after the drain, the score is the old score plus the number of scoring events, so n player begin events from score s give s + n |
| `Logic.EventsHighScore` | src/main.rs:76-80 | if `high_score >= score` before the drain, the high score after it is the larger of the old high score and the new score, so it never decreases and stays at or above the score |
| `Logic.EventsSprites` | src/main.rs:65-71 | the drain removes exactly the non-player labels of the scoring events; the player and all other sprites keep their entries |
| `Logic.EventsWithoutScoring` | src/main.rs:65-83 | a queue with no scoring event changes nothing except the count of sound effects |
| `Logic.EventsConsistent` | src/main.rs:65-83 | the drain keeps the invariant: score at or below high score, HUD lines showing the counters, no label at or past the counter in use |
| `Logic.MovePoint` | src/main.rs:87-100 | each held arrow key moves the player 200 units per second along its axis; opposite keys held together cancel |
| `Logic.MoveStep` | src/main.rs:86-100 | movement moves the player's sprite as `MovePoint` says and changes nothing else: the same labels stay in the table, every other sprite is untouched, and the counters and texts do not change |
| `Logic.MoveConsistent` | src/main.rs:86-100 | movement keeps the invariant |
| `Logic.Spawn` | src/main.rs:105-109 | a spawn adds the collidable sprite "ferris<counter>" at the given spot, leaves every other sprite and all texts and scores alone, and adds 1 to the counter |
| `Logic.SpawnAddsOne` | src/main.rs:103-121 | under the invariant the new label was not in the table, so the sprite count grows by exactly one and the invariant still holds |
| `Logic.MouseStep` | src/main.rs:103-111 | a click with a cursor position adds exactly one entry to the sprite table: the collidable "cute-ferris.png" target labelled from the counter before the click, at the cursor; the counter advances by one and scores, texts and sound effects stay; a click without a position, or no click, changes nothing |
| `Logic.TimerStep` | src/main.rs:114-121 | when the timer fires, exactly one entry is added to the sprite table: the collidable "cute-ferris.png" target labelled from the counter before it, at the drawn spot; the counter advances by one and scores, texts and sound effects stay; otherwise nothing changes |
| `Logic.Reset` | src/main.rs:124-128 | reset sets the score to 0 and the score line to "Score: 0"; the high score, the counter, the sprites and the high-score line stay the same |
| `Logic.ResetStep` | src/main.rs:124-128 | when the reset key was pressed the score becomes 0 and the score line "Score: 0", with every other text unchanged; otherwise score and texts stay; the high score, the counter, the sprites and the sound effects never change |
| `Logic.ResetConsistent` | src/main.rs:124-128 | "Score: 0" is the score line for zero, so reset keeps the invariant and the high score |
| `Logic.Frame` | src/main.rs:49-129 | one call of the callback keeps the player and both HUD lines present |
| `Logic.FrameScore` | src/main.rs:65-128 | after a frame the score is 0 if the reset key was pressed, and otherwise the old score plus the frame's scoring events, whatever the high score |
| `Logic.FrameScores` | src/main.rs:65-128 | after a frame the high score is the larger of the old high score and the old score plus the frame's scoring events, even when reset is pressed in the same frame; the score is 0 after a reset and otherwise the old score plus the scoring events |
| `Logic.FrameCounters` | src/main.rs:65-121 | a frame advances the target counter by the number of spawns (click with position, timer) and plays one sound effect per drained event |
| `Logic.FrameConsistent` | src/main.rs:49-129 | every frame keeps the invariant |
| `Logic.Run` | src/main.rs:45-46 | running frames one after another keeps the player and the HUD lines present |
| `Logic.RunConsistent` | src/main.rs:45-46 | the invariant holds after any number of frames |
| `Logic.RunHighScore` | src/main.rs:76-80 | over any run of frames the high score never decreases and never falls below the score |
| `Logic.RunAppend` | src/main.rs:45-46 | running frames a and then frames b ends in the same state as running a followed by b in one go, so any point of a run is a run of its own |
| `Logic.RunScore` | src/main.rs:65-128 | after any run, the score is the number of scoring events since the last frame in which the reset key was pressed, added to the start score if there was no reset |
| `Logic.RunHighScoreIsPeak` | src/main.rs:76-80 | after any run, the high score is the larger of its start value and the largest score reached, counting the score right after each frame's drain, before a reset in the same frame |
| `Logic.HighScoreCoversEarlier` | src/main.rs:76-80 | at any later point of a run, the high score is at least the score and the high score at every earlier point |
| `Logic.RunSpawns` | src/main.rs:103-121 | over any run the target counter grows by exactly the number of spawns, so it never goes back and no label is given out twice |
| `Logic.ThreeHitsThenReset` | src/main.rs:65-128 | from a fresh start, three player hits give score 3, high score 3, "Score: 3" and "High Score: 3"; a later reset gives score 0 and "Score: 0" while the high score and its line stay at 3 |
| `Logic.ClickSpawnsAtCursor` | src/main.rs:103-111 | a click at (100, 50) adds one collidable target at (100, 50) whose label uses the counter value from before the click, and the label was not in use before |
| `Game.HandleCollisions` | src/main.rs:65-83 | the drain loop leaves the collision queue empty and leaves both objects as `ApplyEvents` says |
| `Game.HandleEvent` | src/main.rs:66-82 | one pass of the loop updates both objects as `ApplyEvent` says |
| `Game.RemovePairSprites` | src/main.rs:67-71 | the inner loop over the pair removes exactly the pair's non-player labels from the sprite table and changes nothing else |
| `Game.MovePlayer` | src/main.rs:86-100 | the movement block updates the sprite table as `MoveStep` says |
| `Game.SpawnTarget` | src/main.rs:105-109 | adding a target updates both objects as `Spawn` says |
| `Game.HandleMouse` | src/main.rs:103-111 | the mouse block updates both objects as `MouseStep` says |
| `Game.HandleTimer` | src/main.rs:114-121 | the timer block updates both objects as `TimerStep` says |
| `Game.HandleReset` | src/main.rs:124-128 | the reset block updates both objects as `ResetStep` says |
| `Game.GameLogic` | src/main.rs:49-129 | the whole callback leaves the collision queue empty and the state equal to `Frame` of the old state, the old queue and the frame's inputs |

## Left out

- `main()` (src/main.rs:22-47) is modelled by `Game.NewGame` only for the tables it leaves for the first frame. The window title, the background music, the player's rotation and scale, and the positions of the HUD texts are not modelled.
- HUD repositioning (src/main.rs:56-62) is not modelled. It is f32 arithmetic on the window size and changes only where the texts are drawn. The text table in the model holds only the displayed strings.
- The quit key (src/main.rs:52-54) is not modelled. It only sets a flag that the engine reads after the frame.
- The spawn timer (src/main.rs:114) is engine code. It appears only as a per-frame boolean "timer just finished", so the 2-second cadence is not modelled.
- Random spawn coordinates (src/main.rs:118-119) come in as an input point. The model does not state that they lie in [-550, 550) x [-325, 325).
- Positions and the frame time are exact reals. The model does not capture f32 rounding in the movement step.
- Sprite rotation and scale are never changed by the callback, so the model leaves them out.
- `score` and `high_score` are `u32` and `ferris_index` is `i32` in the source. The model uses unbounded naturals. It does not model overflow after 2^32 points or 2^31 spawns.
- Sound effects are a counter. The model does not record which effect plays or at what volume. It does model that one plays per drained event, including events that do not involve the player.
- Collision detection, keyboard and mouse polling, and the engine's run loop belong to the engine. The model takes their results as inputs.
