# Memory game session, modelled in Dafny

This project models the session logic of the "memory rectangles" tile game in
`memory/script.js`. The player watches a random sequence of tiles flash on a
grid and then clicks them back in order. A level is completed when the whole
sequence has been clicked. The whole game runs against a ten-minute countdown.
Progress (level, best level, the current sequence and cursor, and the timer)
is kept in the browser's key/value storage so that a reload resumes the game.

The model keeps the game's own structure:

- `JsValues`: how a stored string is read back. The game only ever applies
  `Number(s)` or `JSON.parse(s)` to a stored string, or tests whether it is
  non-empty, so a `Text` is exactly those three observations. A missing key
  reads as `null`, and `Number(null)` is 0.
- `Storage`: the six keys, plus `saveGameProgress`, `loadGameProgress` and
  `clearSavedProgress` as functions on a `map<Key, Text>`. It also holds the
  resume test of `startLevel`.
- `Timer`: `restoreTimerState` as a function of the store and the wall clock
  `now`, which is passed in as a parameter. It also holds the save and clear
  of the timer keys.
- `Grid`: `getGridConfig` and the tile count that `buildGrid` derives from it.
- `SequenceGen`: `generateSequence`. The fill loop and the in-place
  Fisher–Yates swap loop run on an `array<int>`, and a prefix is kept as
  `slice(0, flashCount)` does. Each call to `Math.random()` becomes an
  arbitrary choice `j` with `0 <= j <= i`.
- `Game`: the module globals (`level`, `bestLevel`, `sequence`, `userIndex`,
  `timeLeft`, `isPlayingSequence`, `tiles.length`, the interval, and
  storage) are the fields of class `Session`. The handlers are its methods.
  Each handler is one atomic step. The `startLevel` that `levelUp` defers by
  800 ms is a separate step that the caller runs next.
- `Scenarios`: whole sessions driven only through the handlers' contracts.

Between `levelUp` and the deferred `startLevel`, input is not blocked, and
the model does not block it either. A click in that window on the first tile
of the finished sequence counts as correct and is saved with cursor 1. The
next level then resumes the previous level's sequence
(`Game.StaleClickResumesPreviousSequence`). A tick that ends the game in that
window does not stop the deferred `startLevel`, which then unblocks input
after game over.

Every handler keeps the saved progress consistent: either no sequence is
stored, or the stored cursor is an integer strictly inside the stored array
(`Storage.ProgressConsistent`).

Two details of the code that the model follows literally:

- The comment at line 113 says the timer restore falls back to the full game
  time when nothing is saved. The code reads a missing key as 0 (see
  Findings).
- `startLevel` and `levelUp` write the current level under a literal key
  string, while `startGame` goes through `STORAGE_KEYS`. Both are the same
  string, so the model has one key.

## Model

| member | source | states |
|---|---|---|
| `Grid.GetGridConfig` | memory/script.js:133-139 | every grid has 2 to 4 rows and is square or one column wider than tall |
| `Grid.TileCount` | memory/script.js:145-148 | a grid has rows × cols tiles, between 4 and 20 |
| `Grid.TileCounts` | memory/script.js:133-139 | levels 0–3 give 4, 9, 12 and 16 tiles; every other level, negative ones included, gives 20 |
| `Grid.TileCountMonotone` | memory/script.js:133-139 | grids never shrink as the level rises from 0 |
| `SequenceGen.SliceLength` | memory/script.js:201-204 | `slice(0, end)` never keeps more elements than the array has |
| `SequenceGen.SequenceLengthOfLevel` | memory/script.js:185 | from level -2 up, the sequence length is `min(tileCount, 4 + 2·level)` |
| `SequenceGen.Iota` | memory/script.js:187-190 | the indexes before shuffling are `[0, n)`, n of them |
| `SequenceGen.IotaOccurrences` | memory/script.js:187-190 | each of `0..n-1` occurs exactly once before shuffling, and nothing else occurs |
| `SequenceGen.PermutationOfIota` | memory/script.js:187-199 | any permutation of `[0, n)` has length n, entries in `[0, n)` and no repeats |
| `SequenceGen.Shuffle` | memory/script.js:193-199 | the Fisher–Yates swap loop leaves the array a permutation of what it was |
| `SequenceGen.GenerateSequence` | memory/script.js:184-204 | the result has the level's length, every entry is a tile of the grid, and no tile repeats |
| `JsValues.StoredCounter` | memory/script.js:3-4 | `Number(x) \|\| 0` is never NaN, and a missing key gives 0 |
| `JsValues.CounterRoundTrip` | memory/script.js:3-4 | a counter the game stored reads back as the same integer, 0 included |
| `Storage.SaveProgress` | memory/script.js:45-57 | saving progress changes no key other than the sequence and the cursor |
| `Storage.ClearProgress` | memory/script.js:95-102 | clearing removes exactly the sequence and cursor keys |
| `Storage.LoadProgress` | memory/script.js:76-90 | a sequence that fails to parse gives no sequence and cursor 0, whatever the cursor key holds. A missing key gives no sequence, or cursor 0. Otherwise a finite stored cursor is read as it is. `SaveLoadRoundTrip` and `LoadIgnoresOtherKeys` pin it down further |
| `Storage.Resumable` | memory/script.js:279-289 | a resumable save holds a non-empty array whose first entry is a tile, so the grid has at least one tile. `SaveLoadRoundTrip` states exactly which saves pass |
| `Storage.RestoredSequence` | memory/script.js:282-293 | the restored sequence has the stored entries in order, each a tile of the grid |
| `Storage.RestoredIndex` | memory/script.js:285-294 | the restored cursor is the stored one and lies strictly inside the restored sequence |
| `Storage.ShowsResumeHint` | memory/script.js:386-392 | the hint needs a stored array with the cursor below its length, and an empty array never shows it. `ResumableShowsHint` relates it to the resume test |
| `Storage.SaveLoadRoundTrip` | memory/script.js:45-90 | a saved sequence and cursor are resumed exactly when the cursor is strictly inside a sequence of tile indices, and then both come back unchanged |
| `Storage.ClearedProgressNeverResumes` | memory/script.js:76-102 | after clearing, loading gives no sequence and cursor 0, and nothing is resumable |
| `Storage.CompletedSaveNeverResumes` | memory/script.js:282-289 | a save with the cursor at the end of the sequence, or with an empty sequence, is never resumed |
| `Storage.LoadIgnoresOtherKeys` | memory/script.js:76-90 | writing or removing any other key does not change what is loaded |
| `Storage.SaveKeepsConsistent` | memory/script.js:44-57 | the saved progress is consistent after a save exactly when the saved sequence is empty or the cursor lies strictly inside it. Consistent means no stored sequence, or an integer cursor strictly inside the stored array |
| `Storage.ConsistencyIgnoresOtherKeys` | memory/script.js:76-90 | two stores that agree on the sequence and cursor keys load the same progress, so both are consistent or neither is |
| `Storage.ResumableShowsHint` | memory/script.js:383-393 | whenever a level would be resumed, the start screen offers to continue |
| `Timer.ClearTimer` | memory/script.js:334-335 | the timer keys are removed and nothing else changes |
| `Timer.SaveTimer` | memory/script.js:63-70 | the time left and the timestamp read back as the numbers written, and no other key changes. `RestoreAfterSave` is its round trip with the restore |
| `Timer.RestoreTimerState` | memory/script.js:108-129 | the restored time is never negative, and it is the full game time when a stored value is not a finite number |
| `Timer.RestoreNeverGains` | memory/script.js:118-124 | unless the clock has gone backwards, the restored time is at most the saved time (or 0) |
| `Timer.RestoreAfterSave` | memory/script.js:63-70 | restoring a saved timer subtracts the whole seconds since the save, floored at 0; within the same second nothing is lost |
| `Timer.RestoreExample` | memory/script.js:108-124 | 100 s saved at T leaves 70 s at T + 30 s and 0 at T + 200 s |
| `Timer.NoSavedTimerRestoresZero` | memory/script.js:110-116 | with no timer saved, the code restores 0 rather than the full game time |
| `Timer.RestoreTimerStateIntended` | memory/script.js:113-116 | the corrected restore gives the full game time when a timer key is missing, and is never negative |
| `Timer.IntendedAgreesWhenSaved` | memory/script.js:108-124 | when both timer keys are present, the corrected restore agrees with the code |
| `Game.Session.constructor` | memory/script.js:3-27 | the level and the best level decode from storage, and the rest of the state starts empty |
| `Game.RecordLevel` | memory/script.js:272 | the stored level reads back as the level, and no other key changes |
| `Game.AfterLevelUp` | memory/script.js:312-320 | after the writes of `levelUp`, no progress is loaded and the timer keys are untouched. `LevelUpRecordsLevels` states the two level keys |
| `Game.ForcedReset` | memory/script.js:329-335 | after a forced restart's writes, no progress is loaded, the stored level reads as 0, both timer keys are gone, and the best level is kept |
| `Game.Session.GenerateSequence` | memory/script.js:184-208 | a fresh sequence for the level and grid, the cursor at 0, and both saved The saved progress is consistent afterwards. |
| `Game.Session.PlaySequence` | memory/script.js:210-227 | shows exactly `sequence[startFrom..]`, all tiles of the grid, then unblocks input |
| `Game.Session.OnTileClick` | memory/script.js:231-266 | while input is blocked, a click changes nothing. A correct click advances the cursor by one and saves it, and completes the level exactly when the cursor reaches the end. A wrong click resets the cursor to 0 from any position, saves, and replays the unchanged sequence from 0 Any click that is not ignored leaves the saved progress consistent, and an ignored one leaves it as it was. |
| `Game.Session.LevelUp` | memory/script.js:307-325 | the level rises by exactly one, the best level becomes the maximum and never decreases, the saved progress is cleared, and the cursor returns to 0 The saved progress is consistent afterwards. |
| `Game.Session.StartLevel` | memory/script.js:270-305 | records the level and builds its grid. Resumes the save, playing from its cursor, exactly when it passes the resume test; otherwise clears it and plays a fresh saved sequence from 0 Either way, the saved progress is consistent afterwards. |
| `Game.Session.EndGame` | memory/script.js:359-370 | the interval stops, input is blocked, and the timer keys are removed Removing the timer keys neither makes the saved progress consistent nor breaks its consistency. |
| `Game.Session.Tick` | memory/script.js:162-175 | exactly one second less, saved with its timestamp; game over once the time is 0 or less Saving or removing the timer keys neither makes the saved progress consistent nor breaks its consistency. |
| `Game.Session.StartGame` | memory/script.js:327-355 | a forced start removes the saved progress and both timer keys, records level 0 and keeps the best level. It then sets the full time and saves a fresh 4-tile sequence with cursor 0. Otherwise the time is restored, and if none is left the game ends without starting a level Whenever the timer runs afterwards, the saved progress is consistent, and a consistent store stays consistent either way. |
| `Game.ForcedStartIsFresh` | memory/script.js:329-338 | after a forced restart, `startLevel`'s level-0 write changes nothing, so the level starts from a store with no saved progress |
| `Game.ResumeRestoresSave` | memory/script.js:280-297 | a mid-level save is resumed bit for bit, and playback shows only the tiles from the cursor on |
| `Game.CompletedLevelStartsFresh` | memory/script.js:284-303 | a save with the cursor at the end of its sequence is discarded for a fresh sequence |
| `Game.LevelUpThenStartIsFresh` | memory/script.js:319-324 | the level started right after `levelUp` gets a fresh sequence |
| `Game.StaleClickResumesPreviousSequence` | memory/script.js:231-250 | a click between `levelUp` and `startLevel` makes the next level resume the previous level's sequence |
| `Game.FreshSequenceLength` | memory/script.js:185 | on every level from 0 up, a fresh sequence has `min(tiles, 4 + 2·level)` tiles, at least four |
| `Game.LevelUpRecordsLevels` | memory/script.js:312-317 | the new level is stored, and so is the new best level when it is exceeded; otherwise the stored best is untouched |
| `Scenarios.PlayFirstLevel` | memory/script.js:231-324 | on level 0, clicking the four tiles in order gives three correct clicks and a completed level. Level and best level become 1, and no progress stays saved |
| `Scenarios.ClickFourInOrder` | memory/script.js:231-266 | clicking the four tiles of a 4-tile level in order from cursor 0 gives three correct clicks and a completed level. The level rises by one, and no progress stays saved |
| `Scenarios.WrongClickMidLevel` | memory/script.js:251-264 | a wrong click at cursor 2 resets the cursor to 0 and replays the same four tiles |
| `Scenarios.StartOnEmptyStore` | memory/script.js:339-347 | on a store with no saved timer, Start ends the game at once |

## Left out

- Rendering: the tiles' CSS classes, the grid's column template, the status,
  level and final texts, the game-over overlay, and `updateTimerUI` (a
  floating-point percentage for display only).
- Timing: the 300, 450, 600 and 800 ms delays, and the one-second period of
  the interval. Handlers are atomic steps. The timer's interval is reduced to
  the flag `timerRunning`, and one firing is `Tick`.
- Interleavings: a tick that ends the game during a playback is not modelled.
  In the code, that playback's end would unblock input again after game over.
  A tick that ends the game between `levelUp` and the deferred `startLevel`
  is representable: `endGame` does not cancel the timeout
  (memory/script.js:324), so `StartLevel` still runs and unblocks input
  after game over, in the model as in the code.
- Game.Session.OnTileClick: the 600 ms before a wrong click takes effect is
  folded into the click, so clicks in that window are not modelled.
- Game.Session.OnTileClick: requires the index to be a tile of the current
  grid. Listeners exist only for the tiles `buildGrid` creates
  (memory/script.js:150-157), so no other index can reach the handler.
- `Math.random`: each choice is arbitrary in `[0, i]`. Uniformity of the
  shuffle is not modelled.
- `Date.now`: it is the parameter `now`.
- JSON and number formatting: a stored string is abstracted to what
  `Number` and `JSON.parse` give. Numbers are exact reals or integers, with
  no floating-point rounding.
- Storage failures: a `setItem` or `removeItem` that throws (storage disabled
  or full) is not modelled, and every write succeeds. A stored sequence that
  fails to parse is modelled; it lands in the catch block of
  `loadGameProgress`.
- `savedSequence`: it is written but never read, so it has no field.
- Game.Session.constructor: requires the stored level and best level to
  decode to integers. Only hand-edited storage could hold a fraction or an
  infinity there, and `level` is an integer in the model.
- Game.Session.PlaySequence: requires `startFrom <= sequence.length`, which
  every caller guarantees. The code's loop would simply not run for a larger
  value.
- Game.Session.Tick: requires the interval to be set, since it only fires then.
- `Play_CSS/script.js` and `ArrayC1/script.js` are not part of this model: the
  first is CSS custom-property wiring, and the second is a console demo over a
  constant array.

## Findings

| source | as written | input that shows it | evidently intended | confidence | as-written member | corrected member |
|---|---|---|---|---|---|---|
| memory/script.js:110-116 | a missing timer key reads as `Number(null)`, which is 0 and finite, so the "no saved time" fallback is never taken. The elapsed time is counted from the epoch, and the restored time is 0 | empty storage, Start pressed at `now = 1700000000000`: the restored time is 0 and the game ends before level 0 starts | a missing key falls back to the full game time of 600 s, as the comment at line 113 says | high; not executed | `Timer.NoSavedTimerRestoresZero` | `Timer.RestoreTimerStateIntended` |

`Game.Session.StartGame` keeps the code's `Timer.RestoreTimerState`, so that
the session's steps stay those of the code. `Scenarios.StartOnEmptyStore`
shows the consequence. `Timer.IntendedAgreesWhenSaved` shows that the
corrected restore differs only when a timer key is missing.
