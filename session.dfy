/** The game session: the module-level state of the game (level, best level,
    sequence, cursor, time left, the input-blocking flag, the grid size, the
    interval and the storage) as the fields of one object, and the event
    handlers as its methods. Every handler runs as one atomic step; the
    deferred `startLevel` after a completed level is a separate step that
    the caller runs next. */
module Game {
  import opened JsValues
  import opened Storage
  import opened Timer
  import opened Grid
  import opened SequenceGen
  import IntMath

  /** What a tile click did. A wrong click carries the replayed tiles. */
  datatype ClickOutcome = Ignored | Correct | LevelComplete | Wrong(replayed: seq<int>)

  /** `localStorage.setItem("memoryRectangles_currentLevel", level)`. */
  function RecordLevel(st: Store, level: int): (st': Store)
    ensures StoredCounter(Get(st', CurrentLevelKey)) == Finite(level as real)
    ensures forall k :: k != CurrentLevelKey ==> Get(st', k) == Get(st, k)
  {
    st[CurrentLevelKey := NumberText(level as real)]
  }

  /** The storage writes of `levelUp`: the new level, the best level when it
      is exceeded, and the saved sequence and cursor removed. */
  function AfterLevelUp(st: Store, level: int, bestBefore: int): (st': Store)
    ensures LoadProgress(st') == Progress(None, 0.0)
    ensures Get(st', TimeLeftKey) == Get(st, TimeLeftKey) && Get(st', LastSavedTimeKey) == Get(st, LastSavedTimeKey)
  {
    var recorded := RecordLevel(st, level);
    ClearProgress(if level > bestBefore then recorded[BestLevelKey := NumberText(level as real)] else recorded)
  }

  /** The storage writes of a forced restart: level 0, no saved progress,
      no saved timer. */
  function ForcedReset(st: Store): (st': Store)
    ensures LoadProgress(st') == Progress(None, 0.0)
    ensures StoredCounter(Get(st', CurrentLevelKey)) == Finite(0.0)
    ensures TimeLeftKey !in st' && LastSavedTimeKey !in st'
    ensures Get(st', BestLevelKey) == Get(st, BestLevelKey)
  {
    ClearTimer(ClearProgress(RecordLevel(st, 0)))
  }

  /** What `startLevel` does, from the storage `before` it runs: it records
      the level, builds the grid, and either resumes a save that passes the
      resume test (playing from the saved cursor on) or clears the save,
      generates and saves a fresh sequence and plays all of it. */
  ghost predicate LevelStarted(before: Store, level: int, tileCount: nat, sequence: seq<int>,
                               userIndex: nat, after: Store, revealed: seq<int>)
  {
    var st := RecordLevel(before, level);
    var p := LoadProgress(st);
    && tileCount == TileCount(level)
    && if Resumable(p, tileCount) then
         && sequence == RestoredSequence(p, tileCount)
         && userIndex == RestoredIndex(p, tileCount)
         && after == st
         && revealed == sequence[userIndex..]
       else
         && FreshSequence(sequence, tileCount, level)
         && userIndex == 0
         && after == SaveProgress(ClearProgress(st), sequence, 0)
         && revealed == sequence
  }

  class Session {
    var level: int
    var bestLevel: int
    var sequence: seq<int>
    var userIndex: nat
    var timeLeft: real
    /** Input is ignored while this is set: during playback and after game over. */
    var isPlayingSequence: bool
    /** `tiles.length`: the size of the grid the last `StartLevel` built. */
    var tileCount: nat
    /** Whether the one-second interval is set. */
    var timerRunning: bool
    var store: Store

    /** The cursor stays within the sequence, and every entry of the
        sequence is a tile of the current grid. */
    ghost predicate Valid()
      reads this
    {
      userIndex <= |sequence| && forall k :: 0 <= k < |sequence| ==> 0 <= sequence[k] < tileCount
    }

    /** Page load: the level and the best level are read from storage with
        `Number(x) || 0`, so a missing or non-numeric value starts at 0. */
    constructor (initial: Store)
      requires DecodesToInteger(Get(initial, CurrentLevelKey))
      requires DecodesToInteger(Get(initial, BestLevelKey))
      ensures Valid()
      ensures level as real == StoredCounter(Get(initial, CurrentLevelKey)).value
      ensures bestLevel as real == StoredCounter(Get(initial, BestLevelKey)).value
      ensures sequence == [] && userIndex == 0 && timeLeft == TOTAL_TIME
      ensures !isPlayingSequence && tileCount == 0 && !timerRunning && store == initial
    {
      level := StoredCounter(Get(initial, CurrentLevelKey)).value.Floor;
      bestLevel := StoredCounter(Get(initial, BestLevelKey)).value.Floor;
      sequence := [];
      userIndex := 0;
      timeLeft := TOTAL_TIME;
      isPlayingSequence := false;
      tileCount := 0;
      timerRunning := false;
      store := initial;
    }

    /** `generateSequence`: a fresh sequence for the current level and grid,
        the cursor reset, and both saved. */
    method GenerateSequence()
      modifies this`sequence, this`userIndex, this`store
      ensures Valid()
      ensures FreshSequence(sequence, tileCount, level)
      ensures userIndex == 0
      ensures store == SaveProgress(old(store), sequence, 0)
      ensures ProgressConsistent(store)
    {
      sequence := SequenceGen.GenerateSequence(tileCount, level);
      userIndex := 0;
      store := SaveProgress(store, sequence, userIndex);
      SaveKeepsConsistent(old(store), sequence, 0);
    }

    /** `playSequence(startFrom)`: input is blocked while the tiles from
        `startFrom` on are shown one by one, and unblocked afterwards. */
    method PlaySequence(startFrom: nat) returns (revealed: seq<int>)
      requires Valid() && startFrom <= |sequence|
      modifies this`isPlayingSequence
      ensures !isPlayingSequence
      ensures revealed == sequence[startFrom..]
      ensures forall k :: 0 <= k < |revealed| ==> 0 <= revealed[k] < tileCount
    {
      isPlayingSequence := true;
      revealed := [];
      var i := startFrom;
      while i < |sequence|
        invariant startFrom <= i <= |sequence|
        invariant revealed == sequence[startFrom..i]
      {
        revealed := revealed + [sequence[i]];
        i := i + 1;
      }
      isPlayingSequence := false;
    }

    /** `onTileClick(index)`. Ignored during playback and after game over. A
        click on the expected tile advances the cursor by one and saves it,
        and completes the level when the cursor reaches the end. Any other
        click resets the cursor to 0, saves it and replays the whole,
        unchanged sequence. */
    method OnTileClick(index: int) returns (outcome: ClickOutcome)
      requires Valid() && 0 <= index < tileCount
      modifies this`userIndex, this`store, this`level, this`bestLevel, this`isPlayingSequence
      ensures Valid()
      ensures old(isPlayingSequence) ==>
                && outcome == Ignored && isPlayingSequence
                && userIndex == old(userIndex) && store == old(store)
                && level == old(level) && bestLevel == old(bestLevel)
      ensures !old(isPlayingSequence) && old(userIndex) < |sequence| && index == sequence[old(userIndex)] ==>
                && !isPlayingSequence
                && if old(userIndex) + 1 < |sequence| then
                     && outcome == Correct
                     && userIndex == old(userIndex) + 1
                     && store == SaveProgress(old(store), sequence, userIndex)
                     && level == old(level) && bestLevel == old(bestLevel)
                   else
                     && outcome == LevelComplete
                     && level == old(level) + 1
                     && bestLevel == IntMath.Max(old(bestLevel), level)
                     && userIndex == 0
                     && store == AfterLevelUp(SaveProgress(old(store), sequence, |sequence|), level, old(bestLevel))
      ensures !old(isPlayingSequence) && !(old(userIndex) < |sequence| && index == sequence[old(userIndex)]) ==>
                && outcome == Wrong(sequence) && !isPlayingSequence
                && userIndex == 0 && store == SaveProgress(old(store), sequence, 0)
                && level == old(level) && bestLevel == old(bestLevel)
      ensures !old(isPlayingSequence) ==> ProgressConsistent(store)
      ensures ProgressConsistent(old(store)) ==> ProgressConsistent(store)
    {
      if isPlayingSequence {
        return Ignored;
      }
      if userIndex < |sequence| && index == sequence[userIndex] {
        userIndex := userIndex + 1;
        store := SaveProgress(store, sequence, userIndex);
        if userIndex == |sequence| {
          LevelUp();
          outcome := LevelComplete;
        } else {
          SaveKeepsConsistent(old(store), sequence, userIndex);
          outcome := Correct;
        }
      } else {
        userIndex := 0;
        store := SaveProgress(store, sequence, userIndex);
        SaveKeepsConsistent(old(store), sequence, 0);
        var replayed := PlaySequence(0);
        outcome := Wrong(replayed);
      }
    }

    /** `levelUp`: one level up, the best level kept as a running maximum,
        the saved progress cleared and the cursor reset. The sequence and the
        grid stay as they are until the next `StartLevel`. */
    method LevelUp()
      requires Valid()
      modifies this`level, this`bestLevel, this`store, this`userIndex
      ensures Valid()
      ensures level == old(level) + 1
      ensures bestLevel == IntMath.Max(old(bestLevel), level) && bestLevel >= old(bestLevel)
      ensures userIndex == 0
      ensures store == AfterLevelUp(old(store), level, old(bestLevel))
      ensures ProgressConsistent(store)
    {
      level := level + 1;
      store := RecordLevel(store, level);
      if level > bestLevel {
        bestLevel := level;
        store := store[BestLevelKey := NumberText(bestLevel as real)];
      }
      store := ClearProgress(store);
      userIndex := 0;
    }

    /** `startLevel`, with the playback it starts. */
    method StartLevel() returns (revealed: seq<int>)
      modifies this`store, this`tileCount, this`sequence, this`userIndex, this`isPlayingSequence
      ensures Valid() && !isPlayingSequence
      ensures LevelStarted(old(store), level, tileCount, sequence, userIndex, store, revealed)
      ensures ProgressConsistent(store)
    {
      store := RecordLevel(store, level);
      tileCount := TileCount(level);
      var stored := LoadProgress(store);
      if Resumable(stored, tileCount) {
        sequence := RestoredSequence(stored, tileCount);
        userIndex := RestoredIndex(stored, tileCount);
        revealed := PlaySequence(userIndex);
      } else {
        store := ClearProgress(store);
        GenerateSequence();
        revealed := PlaySequence(0);
      }
    }

    /** `endGame`: the interval is cleared, input is blocked for good and the
        saved timer is removed. */
    method EndGame()
      modifies this`timerRunning, this`isPlayingSequence, this`store
      ensures !timerRunning && isPlayingSequence
      ensures store == ClearTimer(old(store))
      ensures ProgressConsistent(store) <==> ProgressConsistent(old(store))
    {
      timerRunning := false;
      isPlayingSequence := true;
      store := ClearTimer(store);
      ConsistencyIgnoresOtherKeys(old(store), store);
    }

    /** One firing of the one-second interval at wall-clock time `now`: one
        second less, saved with its timestamp, and game over once no time is
        left (which also removes what was just saved). */
    method Tick(now: int)
      requires timerRunning
      modifies this`timeLeft, this`store, this`timerRunning, this`isPlayingSequence
      ensures timeLeft == old(timeLeft) - 1.0
      ensures timeLeft > 0.0 ==>
                store == SaveTimer(old(store), timeLeft, now) && timerRunning
                && isPlayingSequence == old(isPlayingSequence)
      ensures timeLeft <= 0.0 ==>
                store == ClearTimer(old(store)) && !timerRunning && isPlayingSequence
      ensures ProgressConsistent(store) <==> ProgressConsistent(old(store))
    {
      timeLeft := timeLeft - 1.0;
      store := SaveTimer(store, timeLeft, now);
      ConsistencyIgnoresOtherKeys(old(store), store);
      if timeLeft <= 0.0 {
        ghost var saved := store;
        EndGame();
        assert store == ClearTimer(old(store)) by {
          assert store == ClearTimer(saved);
        }
      }
    }

    /** `startGame(forceNew)` at wall-clock time `now`. A forced start resets
        the level to 0, the saved progress and the timer, so the first level
        always starts fresh. Otherwise the time left is restored from storage,
        and if none is left the game ends without starting a level. */
    method StartGame(forceNew: bool, now: int) returns (revealed: seq<int>)
      requires Valid()
      modifies this`level, this`userIndex, this`timeLeft, this`store, this`timerRunning,
               this`isPlayingSequence, this`sequence, this`tileCount
      ensures Valid()
      ensures forceNew ==>
                && level == 0 && timeLeft == TOTAL_TIME && timerRunning && !isPlayingSequence
                && tileCount == 4 && |sequence| == 4 && DistinctTiles(sequence, 4)
                && userIndex == 0 && revealed == sequence
                && store == SaveProgress(RecordLevel(ForcedReset(old(store)), 0), sequence, 0)
      ensures !forceNew && RestoreTimerState(old(store), now) == 0.0 ==>
                && timeLeft == 0.0 && !timerRunning && isPlayingSequence
                && store == ClearTimer(old(store)) && revealed == []
                && level == old(level) && sequence == old(sequence)
                && userIndex == old(userIndex) && tileCount == old(tileCount)
      ensures !forceNew && RestoreTimerState(old(store), now) > 0.0 ==>
                && timeLeft == RestoreTimerState(old(store), now)
                && timerRunning && !isPlayingSequence && level == old(level)
                && LevelStarted(old(store), level, tileCount, sequence, userIndex, store, revealed)
      ensures timerRunning ==> ProgressConsistent(store)
      ensures ProgressConsistent(old(store)) ==> ProgressConsistent(store)
    {
      if forceNew {
        level := 0;
        store := ForcedReset(store);
        userIndex := 0;
        timeLeft := TOTAL_TIME;
      } else {
        timeLeft := RestoreTimerState(store, now);
        if timeLeft <= 0.0 {
          EndGame();
          return [];
        }
      }
      timerRunning := true;
      ghost var before := store;
      revealed := StartLevel();
      if forceNew {
        ForcedStartIsFresh(before);
        assert RecordLevel(ClearProgress(RecordLevel(before, 0)), 0) == RecordLevel(ForcedReset(old(store)), 0);
      }
    }
  }

  /** The level-0 write of `startLevel` after a forced restart writes what
      the restart already wrote, so the level starts from the reset store,
      in which no progress is saved. */
  lemma ForcedStartIsFresh(st: Store)
    ensures RecordLevel(ForcedReset(st), 0) == ForcedReset(st)
  {
  }

  /** Resuming what the game saved mid-level: the saved sequence and cursor
      come back unchanged, and playback shows only the tiles from the cursor
      on, provided the entries fit the grid of the level being started. */
  lemma ResumeRestoresSave(st: Store, s: seq<int>, i: int, level: int, tileCount: nat,
                                              sequence: seq<int>, userIndex: nat, after: Store, revealed: seq<int>)
    requires 0 <= i < |s| && forall k :: 0 <= k < |s| ==> 0 <= s[k] < TileCount(level)
    requires LevelStarted(SaveProgress(st, s, i), level, tileCount, sequence, userIndex, after, revealed)
    ensures sequence == s && userIndex == i && revealed == s[i..]
  {
    var saved := SaveProgress(st, s, i);
    LoadIgnoresOtherKeys(saved, CurrentLevelKey, NumberText(level as real));
    SaveLoadRoundTrip(st, s, i, tileCount);
  }

  /** A completed level whose cursor was saved at the end of the sequence
      is never resumed: the next start generates a fresh sequence. */
  lemma CompletedLevelStartsFresh(st: Store, s: seq<int>, level: int, tileCount: nat,
                                                     sequence: seq<int>, userIndex: nat, after: Store, revealed: seq<int>)
    requires LevelStarted(SaveProgress(st, s, |s|), level, tileCount, sequence, userIndex, after, revealed)
    ensures FreshSequence(sequence, tileCount, level) && userIndex == 0 && revealed == sequence
  {
    LoadIgnoresOtherKeys(SaveProgress(st, s, |s|), CurrentLevelKey, NumberText(level as real));
    CompletedSaveNeverResumes(st, s, tileCount);
  }

  /** The level started right after `levelUp` is fresh, as long as nothing
      was saved in between. */
  lemma LevelUpThenStartIsFresh(st: Store, level: int, bestBefore: int, tileCount: nat,
                                                   sequence: seq<int>, userIndex: nat, after: Store, revealed: seq<int>)
    requires LevelStarted(AfterLevelUp(st, level, bestBefore), level, tileCount, sequence, userIndex, after, revealed)
    ensures FreshSequence(sequence, tileCount, level) && userIndex == 0 && revealed == sequence
  {
    var up := AfterLevelUp(st, level, bestBefore);
    assert Get(RecordLevel(up, level), SequenceKey) == None;
    assert Get(RecordLevel(up, level), UserIndexKey) == None;
  }

  /** Input is not blocked between `levelUp` and the deferred `startLevel`.
      A click there on the first tile of the finished sequence counts as
      correct and saves that sequence with cursor 1, and the next level then
      resumes the previous level's sequence instead of a fresh one. */
  lemma StaleClickResumesPreviousSequence(st: Store, s: seq<int>, level: int, bestBefore: int,
                                                             tileCount: nat, sequence: seq<int>, userIndex: nat,
                                                             after: Store, revealed: seq<int>)
    requires 0 <= level && 2 <= |s|
    requires forall k :: 0 <= k < |s| ==> 0 <= s[k] < TileCount(level)
    requires LevelStarted(SaveProgress(AfterLevelUp(st, level + 1, bestBefore), s, 1), level + 1,
                          tileCount, sequence, userIndex, after, revealed)
    ensures sequence == s && userIndex == 1 && revealed == s[1..]
  {
    TileCountMonotone(level, level + 1);
    ResumeRestoresSave(AfterLevelUp(st, level + 1, bestBefore), s, 1, level + 1, tileCount,
                       sequence, userIndex, after, revealed);
  }

  /** On every real level a fresh sequence holds `min(tiles, 4 + 2 * level)`
      tiles, at least four: a fresh save is always resumable from cursor 0. */
  lemma FreshSequenceLength(level: int)
    requires level >= 0
    ensures SequenceLength(TileCount(level), level) == IntMath.Min(TileCount(level), 4 + 2 * level)
    ensures SequenceLength(TileCount(level), level) >= 4
  {
    SequenceLengthOfLevel(TileCount(level), level);
  }

  /** After `levelUp` the stored level is the new one, and the stored best
      level is the new one whenever it was exceeded. */
  lemma LevelUpRecordsLevels(st: Store, level: int, bestBefore: int)
    ensures StoredCounter(Get(AfterLevelUp(st, level, bestBefore), CurrentLevelKey)) == Finite(level as real)
    ensures level > bestBefore ==>
              StoredCounter(Get(AfterLevelUp(st, level, bestBefore), BestLevelKey)) == Finite(level as real)
    ensures level <= bestBefore ==>
              Get(AfterLevelUp(st, level, bestBefore), BestLevelKey) == Get(st, BestLevelKey)
  {
    var recorded := RecordLevel(st, level);
    assert Get(AfterLevelUp(st, level, bestBefore), CurrentLevelKey) == Some(NumberText(level as real));
    if level > bestBefore {
      assert Get(AfterLevelUp(st, level, bestBefore), BestLevelKey) == Some(NumberText(level as real));
    } else {
      assert Get(AfterLevelUp(st, level, bestBefore), BestLevelKey) == Get(recorded, BestLevelKey);
    }
  }
}
