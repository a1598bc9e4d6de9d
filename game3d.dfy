// The 3D game controller: a score and a pause flag, with the engine's global
// time scale as a field. No operation ever raises the score.

module Game3D {
  class Game3DController {
    var gameScore: int
    var isGamePaused: bool
    /** The engine's `Time.timeScale`. */
    var globalTimeScale: real

    /** Pausing freezes time; no operation sets the score to anything but 0. */
    predicate Valid()
      reads this
    {
      gameScore == 0 && (isGamePaused ==> globalTimeScale == 0.0)
    }

    /** Start: a fresh, unpaused game with no score; the time scale is whatever the engine had. */
    constructor (timeScale: real)
      ensures Valid()
      ensures gameScore == 0 && !isGamePaused && globalTimeScale == timeScale
    {
      gameScore := 0;
      isGamePaused := false;
      globalTimeScale := timeScale;
    }

    /** GameScore. */
    function GameScore(): (r: int)
      reads this
      requires Valid()
      ensures r == 0
    {
      gameScore
    }

    /** StartGame resets the score and leaves the pause flag and time scale alone. */
    method StartGame()
      requires Valid()
      modifies this`gameScore
      ensures Valid() && gameScore == 0
    {
      gameScore := 0;
    }

    /** PauseGame freezes time, unless the game is paused already. */
    method PauseGame()
      requires Valid()
      modifies this`isGamePaused, this`globalTimeScale
      ensures Valid()
      ensures isGamePaused
      ensures !old(isGamePaused) ==> globalTimeScale == 0.0
      ensures old(isGamePaused) ==> globalTimeScale == old(globalTimeScale)
    {
      if !isGamePaused {
        isGamePaused := true;
        globalTimeScale := 0.0;
      }
    }

    /** ResumeGame restores normal time, unless the game is not paused. */
    method ResumeGame()
      requires Valid()
      modifies this`isGamePaused, this`globalTimeScale
      ensures Valid()
      ensures !isGamePaused
      ensures old(isGamePaused) ==> globalTimeScale == 1.0
      ensures !old(isGamePaused) ==> globalTimeScale == old(globalTimeScale)
    {
      if isGamePaused {
        isGamePaused := false;
        globalTimeScale := 1.0;
      }
    }

    /** EndGame reports the final score and changes nothing. */
    method EndGame() returns (finalScore: int)
      requires Valid()
      ensures finalScore == gameScore == 0
    {
      finalScore := gameScore;
    }

    /** GetGameScore reports the current score and changes nothing. */
    method GetGameScore() returns (shown: int)
      requires Valid()
      ensures shown == gameScore == 0
    {
      shown := gameScore;
    }
  }

  /**
   * Pausing and resuming brings time back to normal speed, not to the scale
   * it had before the pause.
   */
  method PauseThenResume(g: Game3DController)
    requires g.Valid() && !g.isGamePaused
    modifies g
    ensures g.Valid() && !g.isGamePaused && g.globalTimeScale == 1.0 && g.gameScore == 0
  {
    g.PauseGame();
    g.ResumeGame();
  }

  /** A second pause changes nothing. */
  method PauseTwice(g: Game3DController)
    requires g.Valid()
    modifies g
    ensures g.Valid() && g.isGamePaused && g.globalTimeScale == 0.0
  {
    g.PauseGame();
    g.PauseGame();
  }
}
