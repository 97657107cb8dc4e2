# GameModel of Code in the Dark, in Dafny

This project models `GameModel`, the session engine of the Code in the Dark
editor page (`packages/app/src/modules/code_in_the_dark/models/game.model.ts`).
The engine keeps one timed coding session: whether a game is running, the
player's name, the code, the score and the level derived from it, and the
selected challenge. Every change is mirrored into the browser's key-value
store, so that after a page reload `gameUpdate` can rebuild the session from
the store. A repeating callback drives two coupled countdowns:

- a coarse `timer` in seconds, persisted as "gameTimer";
- a fine `tick` and a `progressTicker`, which an edit refills and which, once
  drained, zero the score and the level.

The files:

- `storage.dfy` (module `Storage`) models the store and the coercions the
  engine applies when it writes and reads it:
  - the store is a map from the keys the session uses to strings;
  - `n.toString()` on integers is `IntToString`;
  - `Number(v) || 0` is `ParseNumber` and `StoredNumber`;
  - `getKey(k) || ""` is `StoredText`;
  - `/^true$/i` is `IsTrueFromString` and `StoredFlag`.
- `catalog.dfy` (module `Catalog`) models the static challenge catalog and
  the lookup by name.
- `countdown.dfy` (module `Countdown`) holds the countdown as a value
  (`Clock`) and the pure transitions of the callback, `setTick`,
  `startTimer` and `update`. It also holds the lemmas about runs of the
  callback.
- `game_model.dfy` (module `Game`) is the class `GameModel`:
  - its fields are the source's private fields plus the store;
  - each method updates them in place, in the source's order, with a
    `modifies` clause naming exactly the fields it may change;
  - the countdown methods are proved against the `Countdown` functions;
  - the invariant `Valid()` (level at most 5, fine tick in [0, 5], a held
    handle names a scheduled callback) is kept by every method.
- `game_scenarios.dfy` (module `Scenarios`) drives models through whole
  sessions: a reload after `gameStart` and the challenge it carries over,
  a reload while a callback runs, an expiry, the score-to-level steps, and
  `dispose`.

The source's `_timerInterval` handle becomes two fields:

- `intervalActive` says whether a handle is held;
- `intervals` counts the callbacks still scheduled, including ones whose
  handle was overwritten and can no longer be cleared.

With these two fields, the interval leak in `gameUpdate` can be stated.

## Model

| member | source | states |
|---|---|---|
| Storage.IntToString | packages/app/src/modules/code_in_the_dark/models/game.model.ts:83 | the decimal text of an integer is non-empty, all digits exactly when the integer is non-negative, and starts with '-' exactly when it is negative |
| Storage.NatToString | packages/app/src/modules/code_in_the_dark/models/game.model.ts:114 | the decimal text of a natural number is non-empty, all digits, and has no leading zero unless the number is 0 |
| Storage.NatToStringRoundTrip | packages/app/src/modules/code_in_the_dark/models/game.model.ts:114 | the digits written for a natural number have that number as their value |
| Storage.ParseIntToString | packages/app/src/modules/code_in_the_dark/models/game.model.ts:128-131 | a number the session writes with `toString()` is read back by `Number(v) \|\| 0` as the same number, negative numbers included |
| Storage.BoolToString | packages/app/src/modules/code_in_the_dark/models/game.model.ts:119 | the "finish" text written for a boolean is read back by the recovery test as that boolean |
| Storage.IsTrueFromString | packages/app/src/modules/code_in_the_dark/models/game.model.ts:217-219 | a value the test accepts has exactly four characters |
| Storage.IsTrueFromStringLower | packages/app/src/modules/code_in_the_dark/models/game.model.ts:217-219 | the test accepts a value exactly when its ASCII lower-case form is "true" |
| Storage.ParseNumber | packages/app/src/modules/code_in_the_dark/models/game.model.ts:128-134 | text that is not an integer (empty, a word, a stray sign) reads as 0; a negative value comes only from minus-led integer text; with `Storage.ParseIntToString`, every integer the session writes reads back as itself |
| Storage.KeyNamesDistinct | packages/app/src/modules/code_in_the_dark/models/game.model.ts:123-145 | the nine key texts the session reads and writes are distinct, so the store keyed by `Key` holds the same entries as the string-keyed store |
| Storage.StoredNumber | packages/app/src/modules/code_in_the_dark/models/game.model.ts:128-134 | an absent key reads as 0; a present key reads as the number its text parses to |
| Storage.StoredText | packages/app/src/modules/code_in_the_dark/models/game.model.ts:132 | an absent key reads as the empty string; a present key reads as its text |
| Storage.StoredFlag | packages/app/src/modules/code_in_the_dark/models/game.model.ts:123-125 | a flag is set exactly when the key is present and its text passes the "true" test |
| Catalog.Find | packages/app/src/modules/code_in_the_dark/models/game.model.ts:95-97 | the lookup finds an entry with the given name and no earlier one has it; it finds nothing exactly when no entry has the name |
| Catalog.FindOwnName | packages/app/src/modules/code_in_the_dark/models/game.model.ts:95-100 | in a catalog of distinct names, looking up an entry's own name selects that entry |
| Countdown.SetTick | packages/app/src/modules/code_in_the_dark/models/game.model.ts:181-191 | at a fine tick of 0 or less the coarse timer loses one second and the fine tick restarts at 5; otherwise only the fine tick drops by one; the fine tick stays in [0, 5] |
| Countdown.StartTimer | packages/app/src/modules/code_in_the_dark/models/game.model.ts:161-162 | one more callback is scheduled and its handle is held; if a handle was already held, the schedule now leaks a callback |
| Countdown.Fire | packages/app/src/modules/code_in_the_dark/models/game.model.ts:162-178 | a run with the ticker at 0 or below and a handle held pins the ticker at 0 and clears the callback; any other run lowers the ticker by one and takes a fine tick; runs keep the fine-tick range and the no-leak property |
| Countdown.Refill | packages/app/src/modules/code_in_the_dark/models/game.model.ts:193-204 | after an edit a handle is held, a callback is started only if none was held, and the timer and ticker are refilled from the full duration |
| Countdown.Fires | packages/app/src/modules/code_in_the_dark/models/game.model.ts:162-178 | n runs that do not expire lower the ticker by n and keep the handle and the schedule |
| Countdown.FiresAdd | packages/app/src/modules/code_in_the_dark/models/game.model.ts:162-178 | a + b runs are a runs followed by b runs |
| Countdown.OneSecondIsSixFires | packages/app/src/modules/code_in_the_dark/models/game.model.ts:181-191 | from a full fine tick, five runs leave the coarse timer unchanged and the sixth takes one second off it and refills the fine tick |
| Countdown.SecondsElapse | packages/app/src/modules/code_in_the_dark/models/game.model.ts:181-191 | from a full fine tick, 6k runs take exactly k seconds off the coarse timer |
| Countdown.RefillDrains | packages/app/src/modules/code_in_the_dark/models/game.model.ts:200-203 | for a non-negative duration an edit leaves the countdown draining: the ticker never asks for more seconds than the timer holds |
| Countdown.FireKeepsDraining | packages/app/src/modules/code_in_the_dark/models/game.model.ts:162-178 | a run of the held callback keeps the countdown draining and leak-free |
| Countdown.DrainThenExpire | packages/app/src/modules/code_in_the_dark/models/game.model.ts:162-178 | from a draining state, after as many runs as the ticker shows, the ticker is 0 and the timer is still non-negative; the next run expires and leaves no callback scheduled |
| Countdown.OrphanRunsPastZero | packages/app/src/modules/code_in_the_dark/models/game.model.ts:163 | a callback running while no handle is held does not expire; it drives the ticker below 0 and stays scheduled |
| Game.RestoreReselects | packages/app/src/modules/code_in_the_dark/models/game.model.ts:92-101 | a store naming a catalog entry under "challenge" selects that entry again; an entry named "" is skipped by the lookup, so it stays selected only when it already is |
| Game.RestoredEmptyName | packages/app/src/modules/code_in_the_dark/models/game.model.ts:94 | the lookup never selects an entry named "": a restored challenge with an empty name is the current selection |
| Game.GameModel.constructor | packages/app/src/modules/code_in_the_dark/models/game.model.ts:26-38 | the idle defaults hold: not running, finished, timer 0, level 0, fine tick 5, ticker 0, no callback, default code; the stored challenge is selected if the catalog has it, otherwise the first entry |
| Game.GameModel.SetLevel | packages/app/src/modules/code_in_the_dark/models/game.model.ts:80-85 | a level of at most 5 is taken and persisted, with no lower bound; a higher level leaves the level and the store unchanged |
| Game.GameModel.SetChallenge | packages/app/src/modules/code_in_the_dark/models/game.model.ts:212-215 | the challenge is selected and its name persisted under "challenge" |
| Game.GameModel.RestoreChallenge | packages/app/src/modules/code_in_the_dark/models/game.model.ts:92-101 | a non-empty stored name that the catalog has selects that entry; a missing, empty or unknown name keeps the selection; the store does not change |
| Game.GameModel.GameStart | packages/app/src/modules/code_in_the_dark/models/game.model.ts:104-120 | running and not finished with the given name and duration; timer, level and ticker 0; the score field untouched; the store gets name, duration, score 0, code, level 0, "true" and "false"; no callback is started |
| Game.GameModel.GameUpdate | packages/app/src/modules/code_in_the_dark/models/game.model.ts:122-159 | every field is read back from the store on entry; the ticker is five runs per stored second; a callback is started exactly when the stored flags say running and not finished, whether or not one is held |
| Game.GameModel.RestoreSession | packages/app/src/modules/code_in_the_dark/models/game.model.ts:123-143 | the flags, timer, score, full duration, code and name equal what the store held; a stored level above 5 is ignored, any other is taken and written back |
| Game.GameModel.StartTimer | packages/app/src/modules/code_in_the_dark/models/game.model.ts:161-179 | the countdown after the call is `Countdown.StartTimer` of the one before |
| Game.GameModel.Fire | packages/app/src/modules/code_in_the_dark/models/game.model.ts:162-178 | the countdown follows `Countdown.Fire`; on expiry score and level are 0 and both are persisted as "0"; otherwise score and level are unchanged and only a new coarse second is persisted; `finish` is never touched |
| Game.GameModel.SetTick | packages/app/src/modules/code_in_the_dark/models/game.model.ts:181-191 | the countdown follows `Countdown.SetTick`, and "gameTimer" is rewritten exactly when a second is taken |
| Game.GameModel.Update | packages/app/src/modules/code_in_the_dark/models/game.model.ts:193-204 | the code is set and persisted, and the countdown follows `Countdown.Refill` with the full duration |
| Game.GameModel.UpdateScore | packages/app/src/modules/code_in_the_dark/models/game.model.ts:206-210 | the score is set and persisted; the level becomes floor(score / 50) when that is at most 5 and is otherwise unchanged |
| Game.GameModel.Dispose | packages/app/src/modules/code_in_the_dark/models/game.model.ts:221-239 | the idle defaults return; exactly the seven session keys leave the store, "challenge" stays; a held callback is cleared; level, fine tick and ticker stay |
| Scenarios.RecoverAfterStart | packages/app/src/modules/code_in_the_dark/models/game.model.ts:104-159 | a model rebuilt from the store after `gameStart` runs with the configured duration as its timer, while the original has timer 0; it holds one callback; name, code, score and level carry over; the full duration is whatever "timer" held before |
| Scenarios.RecoverKeepsChallenge | packages/app/src/modules/code_in_the_dark/models/game.model.ts:92-101 | the reload selects the same catalog entry as the session that wrote the store, for any catalog with distinct names, an entry named "" included |
| Scenarios.RecoverWhileRunningLeaks | packages/app/src/modules/code_in_the_dark/models/game.model.ts:156-158 | `gameUpdate` after an edit already started a callback leaves two callbacks scheduled and one handle held |
| Scenarios.ExpireAfterEdit | packages/app/src/modules/code_in_the_dark/models/game.model.ts:163-173 | with a duration of 0 the first run after an edit expires; score and level become 0 and are persisted, no callback is left, and the session stays running and unfinished |
| Scenarios.StartKeepsScore | packages/app/src/modules/code_in_the_dark/models/game.model.ts:115 | after `gameStart` the store holds score "0" while the score field keeps the earlier value |
| Scenarios.ScoreLevels | packages/app/src/modules/code_in_the_dark/models/game.model.ts:206-210 | a score of 250 gives level 5, and a later score of 300 leaves it at 5 |
| Scenarios.DisposeTwice | packages/app/src/modules/code_in_the_dark/models/game.model.ts:221-239 | `dispose` clears the callback an edit started and removes the session keys; a second `dispose` leaves the store as the first left it |
| Scenarios.DisposeKeepsChallenge | packages/app/src/modules/code_in_the_dark/models/game.model.ts:221-239 | after `dispose` the selected challenge is still stored, and the level field keeps its value while the "level" key is gone |

## Behaviour of the code as written

The model follows the code. The points below are places where one part of
`game.model.ts` does not match another; each is stated by a member:

- The ticker counts five runs per second: `TICK` is 5 (line 7) and the
  ticker is set to `timer * TICK` (lines 111, 143, 202). `setTick` takes a
  coarse second only once the fine tick, restarted at 5, has gone below 1
  (lines 181-191), so one coarse second lasts six runs
  (`Countdown.OneSecondIsSixFires`, `Countdown.SecondsElapse`).
- `update` starts a callback only when no handle is held (line 194).
  `gameUpdate` starts one without that check (lines 156-158). After an edit
  has started a callback, a reload through `gameUpdate` leaves two scheduled
  and only the newer one held (`Scenarios.RecoverWhileRunningLeaks`). The
  older callback is never cleared: while no handle is held it skips the
  expiry branch (line 163) and drives the ticker below zero
  (`Countdown.OrphanRunsPastZero`); when it runs while the newer handle is
  held, it takes the expiry branch, clears the newer callback and keeps
  running itself (`Countdown.Fire`).
- The level setter checks only an upper bound (line 81): a negative level
  is taken and persisted (`Game.GameModel.SetLevel`).
- `dispose` removes "level" (line 233) but keeps the level field, the fine
  tick and the ticker in memory (`Game.GameModel.Dispose`,
  `Scenarios.DisposeKeepsChallenge`).
- Recovery reads the full duration from the key "timer" (line 135), which no
  line of the engine writes. `gameStart` persists the duration under
  "gameTimer" (line 114), and recovery reads that key as the remaining time
  (line 129). A reload therefore resumes with the full duration on the
  clock, while the session that wrote it shows 0 (`Scenarios.RecoverAfterStart`).
- `gameStart` writes a score of 0 to the store (line 115) but does not
  reset the score field (`Scenarios.StartKeepsScore`).
- The expiry branch zeroes the level through the setter, so "level" is
  persisted as "0" beside "score" (lines 163-173, `Game.GameModel.Fire`).
  It does not mark the session finished (`Scenarios.ExpireAfterEdit`).

## Left out

- MobX (`makeAutoObservable`, `runInAction`) and Inversify injection are left out: they affect neither the state nor the store.
- The getters (lines 40-78) are left out: the model reads the fields directly.
- Real time and the 200 ms period are left out. A run of the callback is the method `Fire`, which may be called while at least one callback is scheduled. Which of several scheduled callbacks runs is not distinguished.
- `LocalStorageRepository` is not part of this model. The store is a map from the nine keys the session uses to strings. A number passed to `setKey` is assumed to be stored as its decimal text. Other keys of the browser store are not represented.
- `Number(v)` accepts more than optional-minus-and-digits text (whitespace, a decimal point, an exponent, "+", hexadecimal, "Infinity"). Such text reads as 0 in the model. Durations, scores and levels are integers; fractional values and `Math.floor` on them are not modelled.
- `_fullTime` is read without `Number()` (line 135). The model reads it with the same coercion as the other numbers. What `getKey` returns for text that is not a number is not part of this model.
- A challenge configuration is modelled by its name only; the rest of its payload plays no part in the session.
- `/^true$/i` is modelled directly as a four-letter comparison in either ASCII case, not through a regular-expression engine.
- Storage.IsTrueFromString: its own contract states only the length of an accepted value. The full characterization is the lemma `Storage.IsTrueFromStringLower`, kept separate so that methods reading flags do not carry it.
- Game.GameModel.Dispose: the seven `removeKey` calls are written as one set difference. The store they leave is the same.
- Game.GameModel.RestoreSession: it reads every key from the store as it was on entry. The level setter writes only "level", so the values read are the same as in the source's order.
