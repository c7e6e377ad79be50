/**
 * The storage layer of the LLM Puzzle Break extension (`Memory` in memory.js):
 * the API key in the synced storage area, and the puzzle question history and
 * the score in the session storage area.
 *
 * Each storage area is a map owned by the `Memory` object. A flag per area
 * says whether the area currently answers; when it does not, every read
 * rejects and yields the default the source falls back to, and every write
 * rejects and changes nothing (the source catches and logs both).
 */
module MemoryStore {
  import opened Runtime

  const ApiKeyKey := "llmPuzzleApiKey"
  const PuzzleHistoryKey := "llmPuzzleQuestionHistory"
  const ScoreKey := "llmPuzzleScore"
  const MaxPuzzleHistory: nat := 5

  /** A stored value: a string, a list of strings, or a number. */
  datatype Value = Text(text: string) | Texts(items: seq<string>) | Number(n: int)

  /** The last `n` entries of `s` (`s.slice(-n)`, for n > 0). */
  function KeepLast(s: seq<string>, n: nat): seq<string>
  {
    if |s| <= n then s else s[|s| - n..]
  }

  /**
   * The history after `addPuzzleQuestionToHistory(question)`: a falsy or
   * already recorded question changes nothing; a new one is appended and only
   * the last five entries are kept.
   */
  function AddQuestion(history: seq<string>, question: string): seq<string>
  {
    if question == "" || question in history then history
    else KeepLast(history + [question], MaxPuzzleHistory)
  }

  /** A new question ends the history, which then holds at most five entries. */
  lemma AddNewQuestion(history: seq<string>, question: string)
    requires question != "" && question !in history
    ensures var after := AddQuestion(history, question);
      && 1 <= |after| <= MaxPuzzleHistory
      && after[|after| - 1] == question
      && after == (history + [question])[|history| + 1 - |after|..]
  {
  }

  /**
   * Adding keeps the retained entries in their order and drops only the
   * oldest: the result is the newest part of the old history, followed by the
   * new question if there was one.
   */
  lemma AddQuestionDropsOnlyOldest(history: seq<string>, question: string)
    requires |history| <= MaxPuzzleHistory
    ensures var after := AddQuestion(history, question);
      && |after| <= MaxPuzzleHistory
      && (after == history || (exists k :: 0 <= k <= |history| && after == history[k..] + [question]))
  {
    var after := AddQuestion(history, question);
    if after != history {
      var k := |history| + 1 - |after|;
      assert after == history[k..] + [question];
    }
  }

  /** An empty or already recorded question leaves the history as it is; it does not move to the end. */
  lemma AddKnownQuestion(history: seq<string>, question: string)
    requires question == "" || question in history
    ensures AddQuestion(history, question) == history
  {
  }

  /** The shape of each storage key: which kind of value it holds, and the history bound. */
  ghost predicate WellFormed(sync: map<string, Value>, session: map<string, Value>)
  {
    && (ApiKeyKey in sync ==> sync[ApiKeyKey].Text?)
    && (PuzzleHistoryKey in session ==> session[PuzzleHistoryKey].Texts?
                                        && |session[PuzzleHistoryKey].items| <= MaxPuzzleHistory)
    && (ScoreKey in session ==> session[ScoreKey].Number?)
  }

  class Memory {
    var sync: map<string, Value>
    var session: map<string, Value>
    var syncAvailable: bool
    var sessionAvailable: bool

    ghost predicate Valid()
      reads this
    {
      WellFormed(sync, session)
    }

    constructor (sync: map<string, Value>, session: map<string, Value>, syncAvailable: bool, sessionAvailable: bool)
      requires WellFormed(sync, session)
      ensures Valid()
      ensures this.sync == sync && this.session == session
      ensures this.syncAvailable == syncAvailable && this.sessionAvailable == sessionAvailable
    {
      this.sync := sync;
      this.session := session;
      this.syncAvailable := syncAvailable;
      this.sessionAvailable := sessionAvailable;
    }

    /** What `getApiKey` reads: the stored key, or `null` when it is absent, empty or unreadable. */
    ghost function ReadApiKey(): Option<string>
      reads this
      requires Valid()
    {
      if syncAvailable && ApiKeyKey in sync && sync[ApiKeyKey].text != "" then Some(sync[ApiKeyKey].text) else None
    }

    /** What `getPuzzleQuestionHistory` reads: the stored list, or [] when absent or unreadable. */
    ghost function ReadHistory(): seq<string>
      reads this
      requires Valid()
    {
      if sessionAvailable && PuzzleHistoryKey in session then session[PuzzleHistoryKey].items else []
    }

    /** What `getScore` reads: the stored number, or 0 when absent or unreadable. */
    ghost function ReadScore(): int
      reads this
      requires Valid()
    {
      if sessionAvailable && ScoreKey in session then session[ScoreKey].n else 0
    }

    /** `getApiKey()` */
    method GetApiKey() returns (key: Option<string>)
      requires Valid()
      ensures key == ReadApiKey()
      ensures key.Some? ==> key.value != "" && syncAvailable && sync[ApiKeyKey] == Text(key.value)
      ensures key.None? <==> !syncAvailable || ApiKeyKey !in sync || sync[ApiKeyKey] == Text("")
    {
      if !syncAvailable {
        return None;
      }
      key := if ApiKeyKey in sync && sync[ApiKeyKey].text != "" then Some(sync[ApiKeyKey].text) else None;
    }

    /** `getPuzzleQuestionHistory()` */
    method GetPuzzleQuestionHistory() returns (history: seq<string>)
      requires Valid()
      ensures history == ReadHistory()
      ensures |history| <= MaxPuzzleHistory
      ensures !sessionAvailable || PuzzleHistoryKey !in session ==> history == []
      ensures sessionAvailable && PuzzleHistoryKey in session ==> session[PuzzleHistoryKey] == Texts(history)
    {
      if !sessionAvailable {
        return [];
      }
      history := if PuzzleHistoryKey in session then session[PuzzleHistoryKey].items else [];
    }

    /** `getScore()` */
    method GetScore() returns (score: int)
      requires Valid()
      ensures score == ReadScore()
      ensures !sessionAvailable || ScoreKey !in session ==> score == 0
      ensures sessionAvailable && ScoreKey in session ==> session[ScoreKey] == Number(score)
    {
      if !sessionAvailable {
        return 0;
      }
      score := if ScoreKey in session then session[ScoreKey].n else 0;
    }

    /** `addPuzzleQuestionToHistory(questionText)` */
    method AddPuzzleQuestionToHistory(questionText: string)
      requires Valid()
      modifies this
      ensures Valid()
      ensures sync == old(sync) && syncAvailable == old(syncAvailable) && sessionAvailable == old(sessionAvailable)
      ensures session - {PuzzleHistoryKey} == old(session) - {PuzzleHistoryKey}
      ensures ReadHistory() == if sessionAvailable then AddQuestion(old(ReadHistory()), questionText) else []
      ensures questionText == "" || questionText in old(ReadHistory()) ==> session == old(session)
      ensures !sessionAvailable ==> session == old(session)
    {
      if questionText == "" {
        return;
      }
      var history := GetPuzzleQuestionHistory();
      if questionText !in history {
        history := history + [questionText];
        var updatedHistory := KeepLast(history, MaxPuzzleHistory);
        if sessionAvailable {
          session := session[PuzzleHistoryKey := Texts(updatedHistory)];
        }
      }
    }

    /** `setScore(score)` */
    method SetScore(score: int)
      requires Valid()
      modifies this
      ensures Valid()
      ensures sync == old(sync) && syncAvailable == old(syncAvailable) && sessionAvailable == old(sessionAvailable)
      ensures session == if sessionAvailable then old(session)[ScoreKey := Number(score)] else old(session)
      ensures sessionAvailable ==> ReadScore() == score
    {
      if sessionAvailable {
        session := session[ScoreKey := Number(score)];
      }
    }

    /** `incrementScore()`: read, add one, write, and return the incremented value. */
    method IncrementScore() returns (newScore: int)
      requires Valid()
      modifies this
      ensures Valid()
      ensures newScore == old(ReadScore()) + 1
      ensures sync == old(sync) && syncAvailable == old(syncAvailable) && sessionAvailable == old(sessionAvailable)
      ensures session == if sessionAvailable then old(session)[ScoreKey := Number(newScore)] else old(session)
      ensures ReadHistory() == old(ReadHistory())
      ensures sessionAvailable ==> ReadScore() == newScore
    {
      var currentScore := GetScore();
      currentScore := currentScore + 1;
      SetScore(currentScore);
      newScore := currentScore;
    }

    /** `chrome.storage.session.remove(keys)` */
    method RemoveSessionKeys(keys: set<string>)
      requires Valid()
      modifies this
      ensures Valid()
      ensures sync == old(sync) && syncAvailable == old(syncAvailable) && sessionAvailable == old(sessionAvailable)
      ensures session == if sessionAvailable then old(session) - keys else old(session)
    {
      if sessionAvailable {
        session := session - keys;
      }
    }
  }
}
