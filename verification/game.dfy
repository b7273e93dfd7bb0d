/** The round state machine of Whack-A-Prof: the `Game` class with its score,
    countdown, set of active moles, running/paused flags and timers.

    Timers are modelled by what they leave behind in the state:
    - the countdown interval and the spawn timeout are the two handles that
      `_clearTimers` cancels; each becomes a flag saying whether it is armed,
      and its firing becomes a method the environment calls (Tick, SpawnFire)
      only while the flag is set;
    - the expiry timeout of a spawned mole is never stored and never cancelled;
      every one of them still to fire is an entry of `pendingExpiries`, and its
      firing is ExpireFire(hole). Only the guard inside the callback decides
      whether it still acts. */
module WhackAProf {
  import opened Holes
  import opened Leaderboard

  /** The part of `config` the round logic reads. */
  datatype Config = Config(availableTime: int, height: int, width: int)
  {
    /** A round lasts at least one tick. */
    predicate WellFormed() {
      availableTime > 0
    }

    /** Number of holes on the board (`height * width`); a grid with no
        negative side has no negative hole count. */
    function HoleCount(): (n: int)
      ensures height >= 0 && width >= 0 ==> n >= 0
      ensures height == 0 || width == 0 ==> n == 0
    {
      height * width
    }
  }

  /** The configuration the game is built with. */
  const DEFAULT_CONFIG: Config := Config(30, 4, 4)

  /** Points for whacking a mole. */
  const WHACK_POINTS: int := 10
  /** Points lost for a miss or an expired mole. */
  const MISS_PENALTY: int := 5

  /** Score after one miss: the penalty, floored at zero. It is never
      negative, never above a non-negative score, and it keeps the score a
      multiple of the penalty. */
  function AfterMiss(score: int): (r: int)
    ensures r >= 0
    ensures score >= 0 ==> r <= score
    ensures score >= MISS_PENALTY ==> r == score - MISS_PENALTY
    ensures score % MISS_PENALTY == 0 ==> r % MISS_PENALTY == 0
  {
    if score - MISS_PENALTY < 0 then 0 else score - MISS_PENALTY
  }

  /** What a click on the board lands on: a hole, or anything else in the play area. */
  datatype ClickTarget = Hole(index: int) | Elsewhere

  class Game {
    const config: Config

    var score: int
    var timeLeft: int
    /** Holes showing a mole; the `mole` CSS class of the holes mirrors this set. */
    var activeMoles: set<int>
    var running: bool
    var paused: bool
    /** The countdown interval (`countdownIntervalId`) is set. */
    var countdownArmed: bool
    /** The next spawn timeout (`spawnTimeoutId`) is set. */
    var spawnArmed: bool
    /** Holes of the expiry timeouts that have not fired yet, one entry per spawn. */
    var pendingExpiries: multiset<int>
    /** The stored leaderboard that `saveHighScore` reads and rewrites. */
    var highScores: seq<int>

    /** Everything the methods keep, except that a running round has time left. */
    ghost predicate Consistent()
      reads this
      ensures Consistent() && activeMoles != {} ==> running && config.HoleCount() > 0
    {
      config.WellFormed() &&
      score >= 0 && score % MISS_PENALTY == 0 &&
      0 <= timeLeft <= config.availableTime &&
      (paused ==> running) &&
      countdownArmed == (running && !paused) &&
      spawnArmed == (running && !paused) &&
      (!running ==> activeMoles == {}) &&
      (forall h :: h in activeMoles ==> 0 <= h < config.HoleCount()) &&
      (forall h :: h in pendingExpiries ==> 0 <= h < config.HoleCount())
    }

    /** The invariant of the round state machine. */
    ghost predicate Valid()
      reads this
      ensures Valid() && !running ==> activeMoles == {} && !paused && !countdownArmed && !spawnArmed
      ensures Valid() && running ==> timeLeft > 0 && countdownArmed == spawnArmed == !paused
    {
      Consistent() && (running ==> timeLeft > 0)
    }

    /** `new Game(ui, config)`: the fields start out as `reset()` leaves them;
        `stored` is the leaderboard found in storage. */
    constructor (config: Config, stored: seq<int>)
      requires config.WellFormed()
      ensures Valid()
      ensures this.config == config && highScores == stored
      ensures score == 0 && timeLeft == config.availableTime && activeMoles == {}
      ensures !running && !paused && !countdownArmed && !spawnArmed
      ensures pendingExpiries == multiset{}
    {
      this.config := config;
      score := 0;
      timeLeft := config.availableTime;
      activeMoles := {};
      running, paused := false, false;
      countdownArmed, spawnArmed := false, false;
      pendingExpiries := multiset{};
      highScores := stored;
    }

    /** `_clearTimers`: cancels the countdown and the next spawn. */
    method ClearTimers()
      modifies this`countdownArmed, this`spawnArmed
      ensures !countdownArmed && !spawnArmed
    {
      countdownArmed, spawnArmed := false, false;
    }

    /** `_startTimer`: (re)arms the countdown. */
    method StartTimer()
      modifies this`countdownArmed
      ensures countdownArmed
    {
      countdownArmed := true;
    }

    /** `_scheduleNextSpawn`: arms the next spawn, but only in a running,
        unpaused round; otherwise the spawn timer is left as it is. */
    method ScheduleNextSpawn()
      modifies this`spawnArmed
      ensures spawnArmed == (old(spawnArmed) || (running && !paused))
    {
      if !running || paused {
        return;
      }
      spawnArmed := true;
    }

    /** `reset`: back to the initial state without touching the leaderboard.
        Expiry timeouts already scheduled are not cancelled. */
    method Reset()
      requires Consistent()
      modifies this
      ensures Valid()
      ensures score == 0 && timeLeft == config.availableTime && activeMoles == {}
      ensures !running && !paused && !countdownArmed && !spawnArmed
      ensures pendingExpiries == old(pendingExpiries) && highScores == old(highScores)
    {
      score := 0;
      timeLeft := config.availableTime;
      activeMoles := {};
      running := false;
      paused := false;
      ClearTimers();
    }

    /** `start`: ignored while a round runs; otherwise a fresh round starts
        with both timers armed. */
    method Start()
      requires Valid()
      modifies this
      ensures Valid()
      ensures old(running) ==> unchanged(this)
      ensures !old(running) ==>
                running && !paused && countdownArmed && spawnArmed &&
                score == 0 && timeLeft == config.availableTime && activeMoles == {} &&
                pendingExpiries == old(pendingExpiries) && highScores == old(highScores)
    {
      if running {
        return;
      }
      Reset();
      running := true;
      paused := false;
      timeLeft := config.availableTime;
      ScheduleNextSpawn();
      StartTimer();
    }

    /** `stop`: ignored unless a round is running or paused; otherwise the
        round ends, the board is cleared, and the final score is handed to
        `saveHighScore` once. */
    method Stop()
      requires Consistent()
      modifies this
      ensures Valid()
      ensures !old(running) && !old(paused) ==> unchanged(this)
      ensures old(running) || old(paused) ==>
                !running && !paused && !countdownArmed && !spawnArmed && activeMoles == {} &&
                score == old(score) && timeLeft == old(timeLeft) &&
                pendingExpiries == old(pendingExpiries) &&
                highScores == SaveHighScore(old(highScores), old(score))
    {
      if !running && !paused {
        return;
      }
      running := false;
      paused := false;
      ClearTimers();
      activeMoles := {};
      SubmitScore();
    }

    /** `saveHighScore(this.score)`: the stored leaderboard takes the score. */
    method SubmitScore()
      modifies this`highScores
      ensures highScores == SaveHighScore(old(highScores), score)
    {
      highScores := SaveHighScore(highScores, score);
    }

    /** `togglePause`: ignored unless running; otherwise flips `paused`,
        cancelling both timers on pause and re-arming both on resume. Score,
        time and moles are kept. */
    method TogglePause()
      requires Valid()
      modifies this
      ensures Valid()
      ensures !old(running) ==> unchanged(this)
      ensures old(running) ==>
                running && paused == !old(paused) &&
                countdownArmed == !paused && spawnArmed == !paused &&
                score == old(score) && timeLeft == old(timeLeft) &&
                activeMoles == old(activeMoles) && pendingExpiries == old(pendingExpiries) &&
                highScores == old(highScores)
    {
      if !running {
        return;
      }
      paused := !paused;
      if paused {
        ClearTimers();
      } else {
        StartTimer();
        ScheduleNextSpawn();
      }
    }

    /** `handleWhack`: ten points and the mole in `index` disappears. */
    method HandleWhack(index: int)
      requires Valid()
      modifies this`score, this`activeMoles
      ensures Valid()
      ensures score == old(score) + WHACK_POINTS
      ensures activeMoles == old(activeMoles) - {index}
    {
      score := score + WHACK_POINTS;
      activeMoles := activeMoles - {index};
    }

    /** `handleMiss`: five points off, but never below zero. */
    method HandleMiss()
      requires Valid()
      modifies this`score
      ensures Valid()
      ensures score == AfterMiss(old(score))
      ensures old(score) >= MISS_PENALTY ==> score == old(score) - MISS_PENALTY
      ensures old(score) < MISS_PENALTY ==> score == 0
    {
      score := score - MISS_PENALTY;
      if score < 0 {
        score := 0;
      }
    }

    /** The board's click listener: nothing happens unless the round runs
        unpaused; a click on a hole showing a mole is a whack, any other
        click a miss. */
    method Click(target: ClickTarget)
      requires Valid()
      modifies this`score, this`activeMoles
      ensures Valid()
      ensures !old(running) || old(paused) ==> unchanged(this)
      ensures old(running) && !old(paused) ==>
                if target.Hole? && target.index in old(activeMoles) then
                  score == old(score) + WHACK_POINTS && activeMoles == old(activeMoles) - {target.index}
                else
                  score == AfterMiss(old(score)) && activeMoles == old(activeMoles)
    {
      if !running || paused {
        return;
      }
      if target.Hole? && target.index in activeMoles {
        HandleWhack(target.index);
      } else {
        HandleMiss();
      }
    }

    /** The countdown interval fires (`_tick`): one second less, and the round
        ends when the time is up. The interval is armed only while the game is
        running and not paused (`Valid()`), so the paused check at the
        top of `_tick` never takes effect here: the `old(paused)` clause below
        holds vacuously and is kept only to mirror that guard. */
    method Tick()
      requires Valid() && countdownArmed
      modifies this
      ensures Valid()
      ensures old(paused) ==> unchanged(this)
      ensures !old(paused) ==> timeLeft == old(timeLeft) - 1 && score == old(score)
      ensures !old(paused) && timeLeft > 0 ==>
                running && countdownArmed && spawnArmed &&
                activeMoles == old(activeMoles) && highScores == old(highScores)
      ensures !old(paused) && timeLeft <= 0 ==>
                !running && !paused && !countdownArmed && !spawnArmed && activeMoles == {} &&
                highScores == SaveHighScore(old(highScores), old(score))
      ensures pendingExpiries == old(pendingExpiries)
    {
      if paused {
        return;
      }
      timeLeft := timeLeft - 1;
      if timeLeft <= 0 {
        Stop();
      }
    }

    /** `_spawnMole`: picks the free hole at position `choice` of the scan
        (the position `Math.random` would give), shows a mole there and
        schedules its expiry; on a full board nothing happens. */
    method SpawnMole(choice: nat)
      requires var free := FreeHoles(activeMoles, config.HoleCount()); free == [] || choice < |free|
      modifies this`activeMoles, this`pendingExpiries
      ensures var free := FreeHoles(old(activeMoles), config.HoleCount());
              if free == [] then
                activeMoles == old(activeMoles) && pendingExpiries == old(pendingExpiries)
              else
                activeMoles == old(activeMoles) + {free[choice]} &&
                pendingExpiries == old(pendingExpiries) + multiset{free[choice]}
    {
      var free := AvailableHoles(activeMoles, config.HoleCount());
      if |free| > 0 {
        var holeIndex := free[choice];
        activeMoles := activeMoles + {holeIndex};
        pendingExpiries := pendingExpiries + multiset{holeIndex};
      }
    }

    /** The spawn timeout fires: one mole is spawned and the next spawn is
        scheduled. The new mole is in a grid hole that had none, so the set
        of active moles grows by exactly one; on a full board it is unchanged. */
    method SpawnFire(choice: nat)
      requires Valid() && spawnArmed
      requires var free := FreeHoles(activeMoles, config.HoleCount()); free == [] || choice < |free|
      modifies this
      ensures Valid()
      ensures var free := FreeHoles(old(activeMoles), config.HoleCount());
              if free == [] then
                activeMoles == old(activeMoles) && pendingExpiries == old(pendingExpiries)
              else
                var hole := free[choice];
                0 <= hole < config.HoleCount() && hole !in old(activeMoles) &&
                activeMoles == old(activeMoles) + {hole} &&
                |activeMoles| == |old(activeMoles)| + 1 &&
                pendingExpiries == old(pendingExpiries) + multiset{hole}
      ensures running && !paused && countdownArmed && spawnArmed
      ensures score == old(score) && timeLeft == old(timeLeft) && highScores == old(highScores)
    {
      FreeHolesMembers(activeMoles, config.HoleCount());
      spawnArmed := false;
      SpawnMole(choice);
      ScheduleNextSpawn();
    }

    /** The expiry timeout of a mole in `hole` fires. Only if the round runs
        unpaused and `hole` still shows a mole is the miss penalty applied
        and the mole removed; in every other case only the timeout is used up. */
    method ExpireFire(hole: int)
      requires Valid() && hole in pendingExpiries
      modifies this
      ensures Valid()
      ensures pendingExpiries == old(pendingExpiries) - multiset{hole}
      ensures running == old(running) && paused == old(paused)
      ensures countdownArmed == old(countdownArmed) && spawnArmed == old(spawnArmed)
      ensures timeLeft == old(timeLeft) && highScores == old(highScores)
      ensures old(running) && !old(paused) && hole in old(activeMoles) ==>
                score == AfterMiss(old(score)) && activeMoles == old(activeMoles) - {hole}
      ensures !(old(running) && !old(paused) && hole in old(activeMoles)) ==>
                score == old(score) && activeMoles == old(activeMoles)
    {
      pendingExpiries := pendingExpiries - multiset{hole};
      if running && !paused && hole in activeMoles {
        HandleMiss();
        activeMoles := activeMoles - {hole};
      }
    }
  }
}
