# Whack-A-Prof: the round state machine, spawn engine and leaderboard

Whack-A-Prof is a browser whack-a-mole game. A round runs for a fixed number of
seconds. Moles appear in random free holes of a `height × width` grid. Whacking
a mole is worth 10 points. Clicking anything else costs 5 points, and so does
letting a mole expire, but the score never drops below zero. A round can be
paused and resumed. When it ends, its score goes onto a leaderboard that keeps
the ten highest scores.

This project models the `Game` class of `Whack-A-Prof/script.js`, the board's
click dispatcher and the leaderboard rule of `saveHighScore`, and proves
properties about them.

- `leaderboard.dfy` (module `Leaderboard`): `saveHighScore` as a pure function
  on the stored list. A score that is not positive is discarded. Otherwise the
  score is appended, the list is sorted highest first, and the first
  `MAX_HIGH_SCORES` (10) entries are kept. The module proves that the result:
  - is in descending order;
  - has the right length;
  - is drawn from the old entries and the new score;
  - keeps the top scores (nothing dropped is higher than anything kept, and
    nothing is dropped while there is room).

  It also proves that every descending arrangement of the same integers is the
  same list, so the choice of sorting algorithm does not matter. A further
  lemma shows that repeated saves fill the board up to its capacity.
- `holes.dfy` (module `Holes`): the scan at the start of `_spawnMole`. A loop
  method is proved against a specification function `FreeHoles`. The list
  holds exactly the grid holes without a mole, in increasing order, and it is
  empty exactly when the board is full.
- `game.dfy` (module `WhackAProf`): the `Game` class. Its fields are:
  - `score`, `timeLeft`, `activeMoles`, `running`, `paused`;
  - `countdownArmed` and `spawnArmed`, which stand for the two timer handles;
  - `pendingExpiries`, the multiset of holes whose expiry timeout is still to
    fire;
  - `highScores`, the stored leaderboard.

  Timer firings become methods the environment calls:
  - `Tick`, only while the countdown is armed;
  - `SpawnFire(choice)`, only while the spawn timeout is armed; `choice` is the
    position among the free holes that `Math.random` would pick;
  - `ExpireFire(hole)`, for any pending expiry.

  The expiry timeouts are never stored in a handle, so `stop`, `reset` and
  pausing never cancel them. Only the check at the top of the callback decides
  whether a firing acts, and the model keeps that check as written. The object
  invariant `Valid()` holds after every operation. It says:
  - the score is non-negative and a multiple of 5;
  - a paused game is running;
  - both timers are armed exactly while the game is running and not paused;
  - a running round has time left;
  - a game that is not running shows no moles;
  - every active mole and every pending expiry is a hole of the grid.
- `scenarios.dfy` (module `Scenarios`): clients that drive whole rounds through
  the public operations. They cover:
  - pause then resume;
  - stop twice;
  - a round of misses only;
  - a whack;
  - an expiry;
  - start–stop–start;
  - the two consequences of the uncancelled expiry timeouts: a stale expiry
    removes a newer mole in the same hole, and a mole whose expiry fired during
    a pause stays on the board.

Where the comments in the code and the code itself disagree, the model follows
the code:
- The comment in the expiry callback (`Whack-A-Prof/script.js:484-485`) says a
  mole is removed only if it is "still supposed to be active (wasn't whacked)".
  The callback tests only whether the hole is active. The timeout is never
  stored, so `stop`, `reset` and `togglePause` do not cancel it
  (`Whack-A-Prof/script.js:483-495`, `522-527`). As a result, the expiry of a
  whacked mole removes a newer mole that has since appeared in the same hole,
  and `StaleExpiryHitsNewMole` shows this happening in the model.
- `handleWhack` (`Whack-A-Prof/script.js:426-433`) adds 10 points and deletes
  the index whether or not a mole is shown there. Only the click dispatcher
  (`Whack-A-Prof/script.js:118-135`) checks for a mole first. `HandleWhack`
  keeps this: it has no precondition on the hole.
- A game that has not started and a game that has ended are the same state:
  both flags `gameRunning` and `gamePaused` are false. The model keeps the two
  flags and does not add separate phases.

## Model

| member | source | states |
|---|---|---|
| `Leaderboard.SaveHighScore` | Whack-A-Prof/script.js:27-36 | a score ≤ 0 leaves the stored list unchanged; otherwise the new list is in descending order and has min(old length + 1, 10) entries |
| `Leaderboard.SaveSplits` | Whack-A-Prof/script.js:35-36 | for a positive score the new list is a prefix of the sorted list, and the kept prefix and the dropped rest together hold exactly the old entries and the new score |
| `Leaderboard.SaveDrawsFromOldAndNew` | Whack-A-Prof/script.js:33-36 | the new list holds only old entries and the new score; nothing is dropped while the old list has fewer than 10 entries |
| `Leaderboard.SaveKeepsTopScores` | Whack-A-Prof/script.js:35-36 | every dropped score is ≤ every kept score |
| `Leaderboard.SaveAll` | Whack-A-Prof/script.js:27-36 | after any number of saves the list has at most 10 entries (or its stored length, if storage held more); saving only scores ≤ 0 leaves it unchanged |
| `Leaderboard.SaveAllFills` | Whack-A-Prof/script.js:27-36 | saving n ≥ 1 positive scores one after another leaves a descending list of min(old length + n, 10) entries |
| `Leaderboard.SortDescending` | Whack-A-Prof/script.js:35 | the result is in descending order and is a permutation of the input |
| `Leaderboard.Insert` | Whack-A-Prof/script.js:35 | inserting into a descending list keeps it descending and adds exactly the one element |
| `Leaderboard.DescendingUnique` | Whack-A-Prof/script.js:35 | two descending lists with the same elements are equal, so any correct descending sort gives the same board |
| `Leaderboard.Take` | Whack-A-Prof/script.js:36 | `slice(0, n)`: the result is the prefix of length min(length, n) |
| `Holes.FreeHoles` | Whack-A-Prof/script.js:467-473 | the free list has at most one entry per grid hole |
| `Holes.AvailableHoles` | Whack-A-Prof/script.js:467-473 | the scan returns exactly the holes below `total` that are not active, in increasing order |
| `Holes.FreeHolesMembers` | Whack-A-Prof/script.js:469-473 | a hole is in the free list iff it is in the grid and holds no mole |
| `Holes.FreeHolesIncreasing` | Whack-A-Prof/script.js:469-473 | the free list is strictly increasing, so no hole appears twice |
| `Holes.FreeHolesEmpty` | Whack-A-Prof/script.js:475 | the free list is empty iff every grid hole holds a mole |
| `Holes.FreeHolesOfEmptyBoard` | Whack-A-Prof/script.js:469-473 | on an empty board the free list is 0, 1, …, n−1 |
| `WhackAProf.Config.HoleCount` | Whack-A-Prof/script.js:467 | `height * width`: not negative when both are not negative, and 0 when either is 0 |
| `WhackAProf.AfterMiss` | Whack-A-Prof/script.js:440-441 | the score after a miss: never negative, never above the old score, exactly 5 less when the old score is at least 5, and still a multiple of 5 |
| `WhackAProf.Game.Consistent` | Whack-A-Prof/script.js:325-331 | the state the methods keep: score ≥ 0 and a multiple of 5; paused only while running; both timers armed exactly while running and not paused; moles only during a round and only in grid holes; pending expiries only in grid holes. A non-empty board therefore means a running round on a grid with holes |
| `WhackAProf.Game.Valid` | Whack-A-Prof/script.js:339-458 | `Consistent` plus time left during a round. A stopped game shows no moles and has no timer armed; a running game has time left and both timers armed exactly when it is not paused |
| `WhackAProf.Game.constructor` | Whack-A-Prof/script.js:318-331 | a new game is in the reset state with no pending timers and holds the loaded leaderboard |
| `WhackAProf.Game.ClearTimers` | Whack-A-Prof/script.js:522-527 | both the countdown and the spawn timer are disarmed |
| `WhackAProf.Game.StartTimer` | Whack-A-Prof/script.js:514-520 | the countdown is armed |
| `WhackAProf.Game.ScheduleNextSpawn` | Whack-A-Prof/script.js:499-512 | the spawn timer is armed if the game is running and not paused, and left as it was otherwise |
| `WhackAProf.Game.Reset` | Whack-A-Prof/script.js:386-402 | score 0, full time, no moles, not running, not paused, timers disarmed; pending expiries and leaderboard untouched |
| `WhackAProf.Game.Start` | Whack-A-Prof/script.js:339-355 | no change while running; otherwise running, not paused, score 0, full time, no moles, both timers armed |
| `WhackAProf.Game.Stop` | Whack-A-Prof/script.js:361-381 | no change unless running or paused; otherwise not running, not paused, no moles, timers disarmed, score and time kept, and the leaderboard is `saveHighScore` applied once to the final score |
| `WhackAProf.Game.SubmitScore` | Whack-A-Prof/script.js:376 | the stored leaderboard becomes `saveHighScore` of the current score |
| `WhackAProf.Game.TogglePause` | Whack-A-Prof/script.js:404-419 | no change unless running; otherwise only `paused` flips and both timers follow it; score, time, moles and leaderboard kept |
| `WhackAProf.Game.HandleWhack` | Whack-A-Prof/script.js:426-433 | score grows by exactly 10 and the hole leaves the active set |
| `WhackAProf.Game.HandleMiss` | Whack-A-Prof/script.js:439-445 | score drops by 5, floored at 0; the invariant keeps the score ≥ 0 |
| `WhackAProf.Game.Click` | Whack-A-Prof/script.js:118-135 | no change unless running and not paused; a click on a hole showing a mole is a whack, any other click is a miss |
| `WhackAProf.Game.Tick` | Whack-A-Prof/script.js:449-458 | no change while paused; otherwise one second less, and at zero the round stops with the stop effects |
| `WhackAProf.Game.SpawnMole` | Whack-A-Prof/script.js:465-497 | on a full board nothing changes; otherwise the chosen free hole joins the active moles and gets a pending expiry |
| `WhackAProf.Game.SpawnFire` | Whack-A-Prof/script.js:508-511 | the new mole is in a grid hole that had none; the active set grows by exactly one (unchanged on a full board); the next spawn is re-armed |
| `WhackAProf.Game.ExpireFire` | Whack-A-Prof/script.js:483-495 | the timeout is used up; only when running, not paused and the hole is active is the miss penalty applied and the hole removed, otherwise nothing else changes |
| `Scenarios.PauseResume` | Whack-A-Prof/script.js:404-419 | pausing and resuming keeps score, time, moles and leaderboard and re-arms both timers |
| `Scenarios.StopTwice` | Whack-A-Prof/script.js:361-381 | a second stop leaves every field as the first stop left it; the game ends stopped with no moles and no timers, score, time and pending expiries kept, and the final score reaches the leaderboard once |
| `Scenarios.OnlyMisses` | Whack-A-Prof/script.js:439-458 | five misses from zero leave the score at 0; the countdown ends the round; a zero score is not saved |
| `Scenarios.WhackedRound` | Whack-A-Prof/script.js:118-135 | a fresh game started, a mole spawned in hole h and whacked: 10 points, an empty board, the mole's expiry still pending, and the next spawn armed |
| `Scenarios.WhackOnce` | Whack-A-Prof/script.js:426-433 | a spawned mole in hole 3, once whacked, gives 10 points and frees hole 3 |
| `Scenarios.ExpireOnce` | Whack-A-Prof/script.js:483-495 | a mole left to expire costs 5 points and frees its hole without a click |
| `Scenarios.Restart` | Whack-A-Prof/script.js:339-402 | after start, stop and start: score 0, 30 seconds, no moles, and the first round's 10 on the leaderboard |
| `Scenarios.StaleExpiryHitsNewMole` | Whack-A-Prof/script.js:483-495 | the expiry of a whacked mole removes a newer mole in the same hole with a penalty |
| `Scenarios.PausedMoleOutlivesExpiry` | Whack-A-Prof/script.js:404-495 | a mole whose expiry fires during a pause stays on the board after resuming, with no expiry left |

## Left out

- The `UI` object (`Whack-A-Prof/script.js:46-314`) is left out: rendering, screen switching, button labels, the end-game card and the score and timer displays. Its click dispatcher is modelled as `Click`. The DOM `mole` class mirrors `activeMoles`, so "clicked element has `mole` and `hole`" is stated as "a hole in `activeMoles`".
- The start/stop button handler (`Whack-A-Prof/script.js:99-106`) is UI wiring that calls `stop` or `start`. The `isRunning` and `isPaused` getters (`Whack-A-Prof/script.js:529-535`) only read `running` and `paused`.
- `scaleBoard` is left out: it is floating-point layout arithmetic.
- `getHighScores` is left out, along with `localStorage` and JSON parsing and printing. The stored leaderboard is a `seq<int>` given to the constructor and held in `highScores`. Corrupt storage and write failures are not modelled.
- `SaveHighScore`: the `typeof`/`isNaN` test is not modelled, because scores are integers here and only the `<= 0` test remains.
- Durations are left out: the 1000 ms tick, `characterDuration` and the random spawn delay. The environment may fire any armed timer or pending expiry in any order. The model therefore allows more orders than real time does; for example, an expiry may fire before its 2000 ms are up.
- `Math.random` is left out: `SpawnFire` takes the chosen position among the free holes as a parameter.
- `Config`: only `availableTime`, `height` and `width` are modelled. `WellFormed` asks for `availableTime > 0`; the game is built only with 30.
- The root `script.js` is an earlier DOM-only variant and is not part of this model.
