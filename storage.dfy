/** The game's persisted state: the storage keys, saving, loading and
    clearing the in-progress sequence and cursor, and the test that decides
    whether a stored level can be resumed. */
module Storage {
  import opened JsValues

  /** The six storage keys (`memoryRectangles_sequence`, `…_userIndex`,
      `…_currentLevel`, `…_bestLevel`, `…_timeLeft`, `…_lastSavedTime`). */
  datatype Key =
    | SequenceKey
    | UserIndexKey
    | CurrentLevelKey
    | BestLevelKey
    | TimeLeftKey
    | LastSavedTimeKey

  /** The browser's key/value storage. */
  type Store = map<Key, Text>

  /** `localStorage.getItem(k)`, `None` standing for `null`. */
  function Get(st: Store, k: Key): Option<Text> {
    if k in st then Some(st[k]) else None
  }

  /** `saveGameProgress`: a non-empty sequence is stored as JSON and an empty
      one removes its key; the cursor is stored in every case. */
  function SaveProgress(st: Store, sequence: seq<int>, userIndex: int): (st': Store)
    ensures forall k :: k != SequenceKey && k != UserIndexKey ==> Get(st', k) == Get(st, k)
  {
    var withSequence := if |sequence| > 0 then st[SequenceKey := ArrayText(sequence)] else st - {SequenceKey};
    withSequence[UserIndexKey := NumberText(userIndex as real)]
  }

  /** `clearSavedProgress`: removes the sequence and the cursor. */
  function ClearProgress(st: Store): (st': Store)
    ensures SequenceKey !in st' && UserIndexKey !in st'
    ensures forall k :: k != SequenceKey && k != UserIndexKey ==> Get(st', k) == Get(st, k)
  {
    st - {SequenceKey, UserIndexKey}
  }

  /** What `loadGameProgress` returns: the stored array (if the stored value
      parses to one) and the stored cursor as a finite number. */
  datatype Progress = Progress(sequence: Option<seq<Json>>, userIndex: real)

  /** `JSON.parse` is only attempted on a truthy (non-empty) stored string. */
  predicate ParseThrows(raw: Option<Text>) {
    raw.Some? && raw.value.nonEmpty && raw.value.json.None?
  }

  /** `loadGameProgress`. A parse failure lands in the catch block, which
      returns the defaults for both fields, whatever the cursor key holds. */
  function LoadProgress(st: Store): (p: Progress)
    ensures ParseThrows(Get(st, SequenceKey)) ==> p == Progress(None, 0.0)
    ensures SequenceKey !in st ==> p.sequence == None
    ensures UserIndexKey !in st ==> p.userIndex == 0.0
    ensures !ParseThrows(Get(st, SequenceKey)) && NumberOf(Get(st, UserIndexKey)).Finite? ==>
              p.userIndex == NumberOf(Get(st, UserIndexKey)).value
  {
    var raw := Get(st, SequenceKey);
    if ParseThrows(raw) then
      Progress(None, 0.0)
    else
      var parsed := if raw.Some? && raw.value.nonEmpty then raw.value.json.value else JOther;
      var idx := NumberOf(Get(st, UserIndexKey));
      Progress(if parsed.JArray? then Some(parsed.elems) else None,
               if idx.Finite? then idx.value else 0.0)
  }

  /** One stored entry accepted by the resume test:
      `Number.isInteger(i) && i >= 0 && i < tileCount`. */
  predicate IsTileIndex(j: Json, tileCount: int) {
    j.JNumber? && IsIntegral(j.x) && 0.0 <= j.x < tileCount as real
  }

  /** The resume test of `startLevel`: a stored array whose every entry is a
      tile index, and an integer cursor strictly inside it. */
  predicate Resumable(p: Progress, tileCount: int)
    ensures Resumable(p, tileCount) ==>
              p.sequence.Some? && |p.sequence.value| > 0
              && IsTileIndex(p.sequence.value[0], tileCount) && tileCount > 0
  {
    p.sequence.Some?
    && (forall k :: 0 <= k < |p.sequence.value| ==> IsTileIndex(p.sequence.value[k], tileCount))
    && IsIntegral(p.userIndex)
    && 0.0 <= p.userIndex < |p.sequence.value| as real
  }

  /** The sequence restored from a resumable save: the stored numbers, in
      order, as tile indices. */
  function RestoredSequence(p: Progress, tileCount: int): (s: seq<int>)
    requires Resumable(p, tileCount)
    ensures |s| == |p.sequence.value|
    ensures forall k :: 0 <= k < |s| ==> 0 <= s[k] < tileCount && s[k] as real == p.sequence.value[k].x
  {
    seq(|p.sequence.value|, k requires 0 <= k < |p.sequence.value| => p.sequence.value[k].x.Floor)
  }

  /** The cursor restored from a resumable save. */
  function RestoredIndex(p: Progress, tileCount: int): (i: nat)
    requires Resumable(p, tileCount)
    ensures i < |RestoredSequence(p, tileCount)| && i as real == p.userIndex
  {
    p.userIndex.Floor
  }

  /** The start-up hint "Press Start to continue": a looser test than
      `Resumable` (no check of the entries, nor that the cursor is an integer). */
  predicate ShowsResumeHint(p: Progress)
    ensures ShowsResumeHint(p) ==> p.sequence.Some? && p.userIndex < |p.sequence.value| as real
    ensures p.sequence.Some? && p.sequence.value == [] ==> !ShowsResumeHint(p)
  {
    p.sequence.Some? && |p.sequence.value| > 0 && 0.0 <= p.userIndex < |p.sequence.value| as real
  }

  /** The invariant the game keeps on its saved progress: either no
      sequence is stored, or the stored cursor is an integer strictly inside
      the stored array. */
  predicate ProgressConsistent(st: Store) {
    var p := LoadProgress(st);
    p.sequence.None? || (IsIntegral(p.userIndex) && 0.0 <= p.userIndex < |p.sequence.value| as real)
  }

  /** `saveGameProgress` leaves the progress consistent exactly when it saves
      an empty sequence or a cursor strictly inside it. */
  lemma SaveKeepsConsistent(st: Store, s: seq<int>, i: int)
    ensures ProgressConsistent(SaveProgress(st, s, i)) <==> |s| == 0 || 0 <= i < |s|
  {
    var p := LoadProgress(SaveProgress(st, s, i));
    assert p.userIndex == i as real;
    if |s| > 0 {
      assert p.sequence == Some(Encode(s));
    } else {
      assert p.sequence == None;
    }
  }

  /** Writes to keys other than the sequence and the cursor (the level keys
      and the timer keys) keep the progress consistent. */
  lemma ConsistencyIgnoresOtherKeys(st: Store, st': Store)
    requires Get(st', SequenceKey) == Get(st, SequenceKey)
    requires Get(st', UserIndexKey) == Get(st, UserIndexKey)
    ensures LoadProgress(st') == LoadProgress(st)
    ensures ProgressConsistent(st') <==> ProgressConsistent(st)
  {
  }

  /** Reading back what `saveGameProgress` wrote: the save is resumed exactly
      when the cursor lies strictly inside a sequence of tile indices, and
      then the restored sequence and cursor are the saved ones. */
  lemma SaveLoadRoundTrip(st: Store, s: seq<int>, i: int, tileCount: int)
    ensures Resumable(LoadProgress(SaveProgress(st, s, i)), tileCount)
            <==> 0 <= i < |s| && forall k :: 0 <= k < |s| ==> 0 <= s[k] < tileCount
    ensures Resumable(LoadProgress(SaveProgress(st, s, i)), tileCount) ==>
              RestoredSequence(LoadProgress(SaveProgress(st, s, i)), tileCount) == s
              && RestoredIndex(LoadProgress(SaveProgress(st, s, i)), tileCount) == i
  {
    var p := LoadProgress(SaveProgress(st, s, i));
    assert p.userIndex == i as real;
    if |s| > 0 {
      assert p.sequence == Some(Encode(s));
      if Resumable(p, tileCount) {
        var r := RestoredSequence(p, tileCount);
        assert forall k :: 0 <= k < |s| ==> r[k] == s[k] by {
          forall k | 0 <= k < |s| ensures r[k] == s[k] {
            assert r[k] as real == Encode(s)[k].x;
          }
        }
      }
      if 0 <= i < |s| && forall k :: 0 <= k < |s| ==> 0 <= s[k] < tileCount {
        forall k | 0 <= k < |s| ensures IsTileIndex(p.sequence.value[k], tileCount) {
          assert p.sequence.value[k] == JNumber(s[k] as real);
        }
      }
    } else {
      assert p.sequence == None;
    }
  }

  /** After `clearSavedProgress` nothing is resumable, whatever the grid. */
  lemma ClearedProgressNeverResumes(st: Store, tileCount: int)
    ensures LoadProgress(ClearProgress(st)) == Progress(None, 0.0)
    ensures !Resumable(LoadProgress(ClearProgress(st)), tileCount)
  {
  }

  /** A completed level saved with `userIndex == sequence.length`, and an
      empty sequence, are never resumed. */
  lemma CompletedSaveNeverResumes(st: Store, s: seq<int>, tileCount: int)
    ensures !Resumable(LoadProgress(SaveProgress(st, s, |s|)), tileCount)
    ensures !Resumable(LoadProgress(SaveProgress(st, [], 0)), tileCount)
  {
    SaveLoadRoundTrip(st, s, |s|, tileCount);
    SaveLoadRoundTrip(st, [], 0, tileCount);
  }

  /** Writing any key other than the sequence and the cursor does not change
      what `loadGameProgress` reads. */
  lemma LoadIgnoresOtherKeys(st: Store, k: Key, t: Text)
    requires k != SequenceKey && k != UserIndexKey
    ensures LoadProgress(st[k := t]) == LoadProgress(st)
    ensures LoadProgress(st - {k}) == LoadProgress(st)
  {
    assert Get(st[k := t], SequenceKey) == Get(st, SequenceKey);
    assert Get(st[k := t], UserIndexKey) == Get(st, UserIndexKey);
    assert Get(st - {k}, SequenceKey) == Get(st, SequenceKey);
    assert Get(st - {k}, UserIndexKey) == Get(st, UserIndexKey);
  }

  /** Whenever `startLevel` would resume, the start-up screen offers to
      continue; the converse does not hold. */
  lemma ResumableShowsHint(p: Progress, tileCount: int)
    requires Resumable(p, tileCount)
    ensures ShowsResumeHint(p)
  {
  }
}
