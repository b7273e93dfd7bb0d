/** Clients of the `Game` class: whole rounds driven through its public
    operations and timer firings, with what the contracts alone let a caller
    conclude about them. */
module Scenarios {
  import opened Holes
  import opened Leaderboard
  import opened WhackAProf

  /** Pausing and resuming leaves score, time and moles as they were and
      re-arms both timers. */
  method PauseResume(g: Game)
    requires g.Valid() && g.running && !g.paused
    modifies g
    ensures g.Valid() && g.running && !g.paused && g.countdownArmed && g.spawnArmed
    ensures g.score == old(g.score) && g.timeLeft == old(g.timeLeft)
    ensures g.activeMoles == old(g.activeMoles) && g.highScores == old(g.highScores)
  {
    g.TogglePause();
    g.TogglePause();
  }

  /** A second `stop` changes nothing: every field is as the first `stop`
      left it, and the final score reaches the leaderboard once. */
  method StopTwice(g: Game)
    requires g.Valid()
    modifies g
    ensures g.Valid() && !g.running && !g.paused && g.activeMoles == {}
    ensures !g.countdownArmed && !g.spawnArmed
    ensures g.score == old(g.score) && g.timeLeft == old(g.timeLeft)
    ensures g.pendingExpiries == old(g.pendingExpiries)
    ensures g.highScores == if old(g.running) then SaveHighScore(old(g.highScores), old(g.score))
                            else old(g.highScores)
  {
    g.Stop();
    ghost var score, timeLeft, moles := g.score, g.timeLeft, g.activeMoles;
    ghost var running, paused := g.running, g.paused;
    ghost var countdown, spawn := g.countdownArmed, g.spawnArmed;
    ghost var pending, board := g.pendingExpiries, g.highScores;
    g.Stop();
    assert g.score == score && g.timeLeft == timeLeft && g.activeMoles == moles;
    assert g.running == running && g.paused == paused;
    assert g.countdownArmed == countdown && g.spawnArmed == spawn;
    assert g.pendingExpiries == pending && g.highScores == board;
  }

  /** Only misses, then the countdown runs out: the score stays at zero, the
      round ends, and the leaderboard is not written. */
  method OnlyMisses() returns (finalScore: int, board: seq<int>, stillRunning: bool)
    ensures finalScore == 0 && board == [] && !stillRunning
  {
    var g := new Game(DEFAULT_CONFIG, []);
    g.Start();
    var k := 0;
    while k < 5
      invariant 0 <= k <= 5
      invariant g.Valid() && g.running && !g.paused
      invariant g.score == 0 && g.highScores == []
    {
      g.Click(Elsewhere);
      k := k + 1;
    }
    while g.running
      invariant g.Valid() && !g.paused
      invariant g.score == 0 && g.highScores == []
      decreases g.timeLeft
    {
      g.Tick();
    }
    return g.score, g.highScores, g.running;
  }

  /** A fresh game started, a mole spawned in hole `h` and whacked: ten
      points, an empty board, and the mole's expiry still pending. */
  method WhackedRound(h: nat) returns (g: Game)
    requires h < 16
    ensures fresh(g) && g.Valid() && g.config == DEFAULT_CONFIG
    ensures g.running && !g.paused && g.spawnArmed
    ensures g.score == 10 && g.activeMoles == {} && g.highScores == []
    ensures g.pendingExpiries == multiset{h}
  {
    g := new Game(DEFAULT_CONFIG, []);
    g.Start();
    FreeHolesOfEmptyBoard(16);
    assert g.config.HoleCount() == 16 && FreeHoles({}, 16)[h] == h;
    g.SpawnFire(h);
    assert g.activeMoles == {h};
    g.Click(Hole(h));
  }

  /** A mole spawned in hole 3 and whacked: ten points, and hole 3 is free
      right away. */
  method WhackOnce() returns (finalScore: int, occupied: bool)
    ensures finalScore == 10 && !occupied
  {
    var g := WhackedRound(3);
    return g.score, 3 in g.activeMoles;
  }

  /** A mole in hole 5 left alone until its expiry fires: five points off and
      hole 5 free, without any click. */
  method ExpireOnce() returns (finalScore: int, occupied: bool)
    ensures finalScore == 5 && !occupied
  {
    var g := WhackedRound(3);
    FreeHolesOfEmptyBoard(16);
    g.SpawnFire(5);
    assert 5 in g.activeMoles && 5 in g.pendingExpiries;
    g.ExpireFire(5);
    return g.score, 5 in g.activeMoles;
  }

  /** start, stop, start: the second round starts from zero with the full
      time and an empty board; the first round's score is on the leaderboard. */
  method Restart() returns (finalScore: int, time: int, moles: set<int>, board: seq<int>)
    ensures finalScore == 0 && time == 30 && moles == {} && board == [10]
  {
    var g := WhackedRound(3);
    FreeHolesOfEmptyBoard(16);
    g.SpawnFire(7);
    g.Stop();
    assert g.highScores == [10] by {
      assert SortDescending([10]) == Insert(10, SortDescending([])) == [10];
    }
    g.Start();
    return g.score, g.timeLeft, g.activeMoles, g.highScores;
  }

  /** The expiry timeout of a whacked mole is still pending when a new mole
      appears in the same hole, and it removes the new mole with a penalty
      although the new mole's own timeout has not fired. */
  method StaleExpiryHitsNewMole() returns (finalScore: int, occupied: bool, pending: multiset<int>)
    ensures finalScore == 5 && !occupied && pending == multiset{0}
  {
    var g := WhackedRound(0);
    FreeHolesOfEmptyBoard(16);
    assert g.config.HoleCount() == 16 && FreeHoles({}, 16)[0] == 0;
    g.SpawnFire(0);
    assert g.activeMoles == {0} && g.pendingExpiries == multiset{0, 0};
    g.ExpireFire(0);
    return g.score, 0 in g.activeMoles, g.pendingExpiries;
  }

  /** A mole whose expiry fires during a pause is never removed by time: after
      resuming it is still shown and no expiry is left for it. */
  method PausedMoleOutlivesExpiry() returns (occupied: bool, pending: multiset<int>, finalScore: int)
    ensures occupied && pending == multiset{} && finalScore == 0
  {
    var g := new Game(DEFAULT_CONFIG, []);
    g.Start();
    FreeHolesOfEmptyBoard(16);
    g.SpawnFire(0);
    g.TogglePause();
    g.ExpireFire(0);
    g.TogglePause();
    return 0 in g.activeMoles, g.pendingExpiries, g.score;
  }
}
