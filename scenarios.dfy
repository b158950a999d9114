/** Whole sessions driven through the handlers' contracts alone. */
module Scenarios {
  import opened JsValues
  import opened Storage
  import opened Timer
  import opened Game
  import IntMath

  /** A restart on an empty store, then the four tiles of level 0 clicked in
      order: three correct clicks, then the level is complete, the level
      and the best level are 1, and no progress is left saved. */
  method PlayFirstLevel(now: int) returns (outcomes: seq<ClickOutcome>, level: int, best: int, saved: Progress)
    ensures outcomes == [Correct, Correct, Correct, LevelComplete]
    ensures level == 1 && best == 1
    ensures saved == Progress(None, 0.0)
  {
    var game := new Session(map[]);
    var shown := game.StartGame(true, now);
    outcomes := ClickFourInOrder(game);
    level, best := game.level, game.bestLevel;
    saved := LoadProgress(game.store);
  }

  /** The four tiles of a 4-tile level clicked in order from cursor 0. */
  method ClickFourInOrder(game: Session) returns (outcomes: seq<ClickOutcome>)
    requires game.Valid() && !game.isPlayingSequence
    requires game.userIndex == 0 && |game.sequence| == 4
    modifies game`userIndex, game`store, game`level, game`bestLevel, game`isPlayingSequence
    ensures outcomes == [Correct, Correct, Correct, LevelComplete]
    ensures game.level == old(game.level) + 1
    ensures game.bestLevel == IntMath.Max(old(game.bestLevel), game.level)
    ensures LoadProgress(game.store) == Progress(None, 0.0)
  {
    var tiles := game.sequence;
    var first := game.OnTileClick(tiles[0]);
    var second := game.OnTileClick(tiles[1]);
    var third := game.OnTileClick(tiles[2]);
    var last := game.OnTileClick(tiles[3]);
    outcomes := [first, second, third, last];
  }

  /** A wrong click at cursor 2 of a fresh level-0 sequence: the cursor goes
      back to 0, the same four tiles are replayed from the start, and the
      sequence is not regenerated. */
  method WrongClickMidLevel(now: int) returns (outcome: ClickOutcome, tiles: seq<int>, after: seq<int>, cursor: nat)
    ensures |tiles| == 4 && after == tiles
    ensures outcome == Wrong(tiles) && cursor == 0
  {
    var game := new Session(map[]);
    var shown := game.StartGame(true, now);
    tiles := game.sequence;
    assert forall k :: 0 <= k < 4 ==> 0 <= tiles[k] < game.tileCount;
    var o := game.OnTileClick(tiles[0]);
    o := game.OnTileClick(tiles[1]);
    assert game.userIndex == 2;
    outcome := game.OnTileClick(tiles[3]);
    after, cursor := game.sequence, game.userIndex;
  }

  /** Pressing Start on a store with no saved timer (a first visit): the
      timer keys read as 0, so at any time after the epoch the restored time
      is 0 and the game is over before a level starts. */
  method StartOnEmptyStore(now: int) returns (over: bool, shown: seq<int>, left: real)
    requires now >= 0
    ensures over && shown == [] && left == 0.0
  {
    var game := new Session(map[]);
    NoSavedTimerRestoresZero(map[], now);
    shown := game.StartGame(false, now);
    over := game.isPlayingSequence && !game.timerRunning;
    left := game.timeLeft;
  }
}
