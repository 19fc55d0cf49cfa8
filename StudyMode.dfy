/**
 * The study screen: the client's own SM-2 variant (`calculateNextReview`)
 * and the session state that `handleAnswer` and `finishSession` drive.
 * React state is a class whose fields are the component's state variables;
 * each handler is a method specified by a function on the whole state.
 * Times are integer milliseconds, ease factors integer hundredths.
 */
module StudyMode {
  import opened Wrappers
  import opened Seqs
  import opened Sm2

  datatype Difficulty = Easy | Medium | Hard

  datatype Flashcard = Flashcard(
    id: string,
    question: string,
    answer: string,
    difficulty: Difficulty,
    category: string,
    nextReview: int,
    /** Days until the next review. */
    interval: int,
    repetitions: int,
    /** The ease factor, in hundredths. */
    efactor: int)

  /**
   * The card after an answer of the given quality at time `now`. Unlike the
   * server, the branch is on the repetition count and the interval is scaled
   * by the ease factor from before this answer.
   */
  function CalculateNextReview(card: Flashcard, quality: int, now: int): (r: Flashcard)
    ensures quality < 3 ==> r.repetitions == 0 && r.interval == 1
    ensures quality >= 3 ==> r.repetitions == card.repetitions + 1
    ensures quality >= 3 && card.repetitions == 0 ==> r.interval == 1
    ensures quality >= 3 && card.repetitions == 1 ==> r.interval == 6
    ensures quality >= 3 && card.repetitions != 0 && card.repetitions != 1 ==>
      100 * r.interval - 50 <= card.interval * card.efactor < 100 * r.interval + 50
    ensures r.efactor >= MinEase
    ensures card.efactor + EaseDelta(quality) >= MinEase ==> r.efactor == card.efactor + EaseDelta(quality)
    ensures card.efactor + EaseDelta(quality) < MinEase ==> r.efactor == MinEase
    ensures r.nextReview == now + r.interval * DayMs
    ensures r.id == card.id && r.question == card.question && r.answer == card.answer
    ensures r.difficulty == card.difficulty && r.category == card.category
  {
    var interval :=
      if quality < 3 then 1
      else if card.repetitions == 0 then 1
      else if card.repetitions == 1 then 6
      else ScaleInterval(card.interval, card.efactor);
    var repetitions := if quality >= 3 then card.repetitions + 1 else 0;
    var efactor := FlooredEase(card.efactor, quality);
    card.(interval := interval, repetitions := repetitions, efactor := efactor, nextReview := now + interval * DayMs)
  }

  /** Three perfect answers on a new card: intervals 1, 6 and 16 days, ease factor 2.8. */
  lemma ThreePerfectAnswers(card: Flashcard, now: int)
    requires card.repetitions == 0 && card.interval == 1 && card.efactor == DefaultEase
    ensures var c1 := CalculateNextReview(card, 5, now);
            var c2 := CalculateNextReview(c1, 5, now);
            var c3 := CalculateNextReview(c2, 5, now);
            c1.interval == 1 && c2.interval == 6 && c3.interval == 16 && c3.efactor == 280 && c3.repetitions == 3
  {
  }

  /** A failed answer undoes all progress in repetitions and interval, whatever came before. */
  lemma FailureResets(card: Flashcard, other: Flashcard, quality: int, now: int)
    requires quality < 3
    requires other.id == card.id && other.efactor == card.efactor
    ensures CalculateNextReview(card, quality, now) == CalculateNextReview(other, quality, now).(
      question := card.question, answer := card.answer, difficulty := card.difficulty, category := card.category)
  {
  }

  /** The scheduling fields of every card in the deck: ease factor at least 1.3, interval at least a day. */
  predicate ValidSchedule(card: Flashcard)
  {
    card.efactor >= MinEase && card.interval >= 1 && card.repetitions >= 0
  }

  /** An answer keeps the scheduling fields valid, and once a card has two repetitions a pass never shortens its interval. */
  lemma ReviewKeepsSchedule(card: Flashcard, quality: int, now: int)
    requires ValidSchedule(card)
    ensures ValidSchedule(CalculateNextReview(card, quality, now))
    ensures quality >= 3 && card.repetitions >= 2 ==> CalculateNextReview(card, quality, now).interval >= card.interval
  {
    ScaleIntervalPositive(card.interval, card.efactor);
  }

  /** `prev.map(card => card.id === id ? updated : card)`. */
  function Reschedule(cards: seq<Flashcard>, id: string, updated: Flashcard): (r: seq<Flashcard>)
    ensures |r| == |cards|
    ensures forall i :: 0 <= i < |cards| && cards[i].id == id ==> r[i] == updated
    ensures forall i :: 0 <= i < |cards| && cards[i].id != id ==> r[i] == cards[i]
  {
    Map(cards, (c: Flashcard) => if c.id == id then updated else c)
  }

  predicate IsDue(now: int, card: Flashcard)
  {
    card.nextReview <= now
  }

  /** `cards.filter(card => card.nextReview <= new Date())`. */
  function DueCards(cards: seq<Flashcard>, now: int): (r: seq<Flashcard>)
    ensures |r| <= |cards|
    ensures forall c :: c in r ==> c.nextReview <= now
  {
    Filter(cards, c => IsDue(now, c))
  }

  /** The due list holds exactly the cards of the deck whose review time has come, in deck order. */
  lemma DueCardsExactly(cards: seq<Flashcard>, now: int, c: Flashcard)
    ensures c in DueCards(cards, now) <==> c in cards && c.nextReview <= now
    ensures IsSubsequence(DueCards(cards, now), cards)
  {
    FilterMembership(cards, c => IsDue(now, c), c);
    FilterIsSubsequence(cards, c => IsDue(now, c));
  }

  // ---------------------------------------------------------------------------
  // The session

  datatype SessionType = Spaced | ByCategory | All
  datatype View = Overview | Categories | InSession | Results

  datatype StudySession = StudySession(totalCards: nat, correctAnswers: nat, kind: SessionType)

  datatype SessionResults = SessionResults(correct: nat, total: nat, cardsReviewed: seq<Flashcard>)

  /** The component's state variables (the start time, the time spent and the category list are left out). */
  datatype StudyState = StudyState(
    view: View,
    flashcards: seq<Flashcard>,
    dueCards: seq<Flashcard>,
    sessionCards: seq<Flashcard>,
    currentCardIndex: nat,
    showAnswer: bool,
    session: Option<StudySession>,
    results: Option<SessionResults>)

  /** While a session exists, the current index points at one of its cards. */
  predicate ValidState(st: StudyState)
  {
    st.session.Some? ==> st.currentCardIndex < |st.sessionCards|
  }

  /** `startReviewSession`: a spaced session over the due cards, or nothing when none is due. */
  function ReviewStarted(st: StudyState): (r: StudyState)
    ensures ValidState(r) <== ValidState(st)
    ensures st.dueCards == [] ==> r == st
    ensures st.dueCards != [] ==>
      (r.view == InSession && r.sessionCards == st.dueCards && r.currentCardIndex == 0
       && r.session == Some(StudySession(|st.dueCards|, 0, Spaced)) && r.flashcards == st.flashcards)
  {
    if st.dueCards == [] then st
    else st.(session := Some(StudySession(|st.dueCards|, 0, Spaced)), sessionCards := st.dueCards,
             currentCardIndex := 0, showAnswer := false, view := InSession)
  }

  /**
   * What `finishSession` queues: the results and, for a spaced session, the
   * new due list, both taken from the state `seen` the handler was created
   * with, applied on top of the state `st` that earlier updates produced.
   */
  function FinishedFrom(st: StudyState, seen: StudyState, now: int): (r: StudyState)
    ensures seen.session.None? ==> r == st
    ensures seen.session.Some? ==>
      (r.view == Results
       && r.results == Some(SessionResults(seen.session.value.correctAnswers, seen.session.value.totalCards, seen.sessionCards)))
    ensures seen.session.Some? && seen.session.value.kind == Spaced ==> r.dueCards == DueCards(seen.flashcards, now)
    ensures seen.session.Some? && seen.session.value.kind != Spaced ==> r.dueCards == st.dueCards
    ensures r.flashcards == st.flashcards && r.session == st.session && r.currentCardIndex == st.currentCardIndex
  {
    if seen.session.None? then st
    else
      var s := seen.session.value;
      st.(results := Some(SessionResults(s.correctAnswers, s.totalCards, seen.sessionCards)),
          dueCards := if s.kind == Spaced then DueCards(seen.flashcards, now) else st.dueCards,
          view := Results)
  }

  /** `finishSession` run on the current state: results and due list as they stand. */
  function Finished(st: StudyState, now: int): (r: StudyState)
    ensures st.session.None? ==> r == st
    ensures st.session.Some? ==>
      (r.view == Results
       && r.results == Some(SessionResults(st.session.value.correctAnswers, st.session.value.totalCards, st.sessionCards)))
    ensures st.session.Some? && st.session.value.kind == Spaced ==> r.dueCards == DueCards(st.flashcards, now)
    ensures r.flashcards == st.flashcards && r.session == st.session && r.currentCardIndex == st.currentCardIndex
  {
    FinishedFrom(st, st, now)
  }

  /** The two updates `handleAnswer` makes before moving on: the rescheduled card and the correct-answer count. */
  function Answered(st: StudyState, quality: int, now: int): (r: StudyState)
    requires ValidState(st) && st.session.Some?
    ensures ValidState(r)
  {
    var s := st.session.value;
    var current := st.sessionCards[st.currentCardIndex];
    var cards := if s.kind == Spaced then Reschedule(st.flashcards, current.id, CalculateNextReview(current, quality, now))
                 else st.flashcards;
    st.(flashcards := cards, session := Some(s.(correctAnswers := s.correctAnswers + if quality >= 3 then 1 else 0)))
  }

  /**
   * `handleAnswer(quality)` as written: on the last card, `finishSession`
   * still sees the state from before this answer, so the results and the
   * due list miss the answer just given.
   */
  function AnswerAsWritten(st: StudyState, quality: int, now: int): (r: StudyState)
    requires ValidState(st)
    ensures ValidState(r)
  {
    if st.session.None? then st
    else
      var next := Answered(st, quality, now);
      if st.currentCardIndex < |st.sessionCards| - 1 then next.(currentCardIndex := st.currentCardIndex + 1, showAnswer := false)
      else FinishedFrom(next, st, now)
  }

  /** `handleAnswer(quality)` with the session finished on the updated state. */
  function Answer(st: StudyState, quality: int, now: int): (r: StudyState)
    requires ValidState(st)
    ensures ValidState(r)
    ensures st.session.None? ==> r == st
    ensures st.session.Some? ==> r.session == Some(st.session.value.(
      correctAnswers := st.session.value.correctAnswers + if quality >= 3 then 1 else 0))
    ensures st.session.Some? && st.session.value.kind != Spaced ==> r.flashcards == st.flashcards
    ensures st.session.Some? && st.session.value.kind == Spaced ==>
      var current := st.sessionCards[st.currentCardIndex];
      r.flashcards == Reschedule(st.flashcards, current.id, CalculateNextReview(current, quality, now))
    ensures st.session.Some? && st.currentCardIndex < |st.sessionCards| - 1 ==>
      r.currentCardIndex == st.currentCardIndex + 1 && !r.showAnswer && r.view == st.view && r.results == st.results
    ensures st.session.Some? && st.currentCardIndex == |st.sessionCards| - 1 ==>
      (r.currentCardIndex == st.currentCardIndex && r.view == Results
       && r.results == Some(SessionResults(r.session.value.correctAnswers, st.session.value.totalCards, st.sessionCards)))
  {
    if st.session.None? then st
    else
      var next := Answered(st, quality, now);
      if st.currentCardIndex < |st.sessionCards| - 1 then next.(currentCardIndex := st.currentCardIndex + 1, showAnswer := false)
      else Finished(next, now)
  }

  /** How many of the qualities count as correct (3 or more). */
  function CountCorrect(qualities: seq<int>): nat
  {
    if qualities == [] then 0 else (if qualities[0] >= 3 then 1 else 0) + CountCorrect(qualities[1..])
  }

  /** Answering the remaining cards of a session with the given qualities, one answer per card. */
  function AnswerAll(st: StudyState, qualities: seq<int>, now: int): (r: StudyState)
    requires ValidState(st)
    ensures ValidState(r)
    decreases |qualities|
  {
    if qualities == [] then st else AnswerAll(Answer(st, qualities[0], now), qualities[1..], now)
  }

  function AnswerAllAsWritten(st: StudyState, qualities: seq<int>, now: int): (r: StudyState)
    requires ValidState(st)
    ensures ValidState(r)
    decreases |qualities|
  {
    if qualities == [] then st else AnswerAllAsWritten(AnswerAsWritten(st, qualities[0], now), qualities[1..], now)
  }

  /** A state in the middle of a session, on card i of n. */
  predicate InSessionAt(st: StudyState)
  {
    ValidState(st) && st.session.Some? && st.view == InSession
  }

  /**
   * Answering every remaining card ends the session with results that count
   * every correct answer, and for a spaced session a due list drawn from the
   * rescheduled deck.
   */
  lemma {:induction false} SessionCountsEveryAnswer(st: StudyState, qualities: seq<int>, now: int)
    requires InSessionAt(st)
    requires |qualities| == |st.sessionCards| - st.currentCardIndex
    ensures var r := AnswerAll(st, qualities, now);
      r.view == Results
      && r.results == Some(SessionResults(st.session.value.correctAnswers + CountCorrect(qualities),
                                          st.session.value.totalCards, st.sessionCards))
      && (st.session.value.kind == Spaced ==> r.dueCards == DueCards(r.flashcards, now))
    decreases |qualities|
  {
    var next := Answer(st, qualities[0], now);
    if |qualities| > 1 {
      assert InSessionAt(next);
      SessionCountsEveryAnswer(next, qualities[1..], now);
      assert next.session.value.totalCards == st.session.value.totalCards;
      assert next.sessionCards == st.sessionCards;
    } else {
      assert qualities[1..] == [];
    }
  }

  /**
   * As written, the results of a session count every correct answer but the
   * last one, and a spaced session's due list is drawn from the deck as it
   * was before the last card was rescheduled.
   */
  lemma {:induction false} SessionAsWrittenMissesLastAnswer(st: StudyState, qualities: seq<int>, now: int)
    requires InSessionAt(st)
    requires |qualities| == |st.sessionCards| - st.currentCardIndex
    ensures var r := AnswerAllAsWritten(st, qualities, now);
      var last := qualities[|qualities| - 1];
      r.view == Results
      && r.results.Some?
      && r.results.value.correct + (if last >= 3 then 1 else 0) == st.session.value.correctAnswers + CountCorrect(qualities)
    decreases |qualities|
  {
    var next := AnswerAsWritten(st, qualities[0], now);
    if |qualities| > 1 {
      assert InSessionAt(next);
      SessionAsWrittenMissesLastAnswer(next, qualities[1..], now);
      assert qualities[1..][|qualities[1..]| - 1] == qualities[|qualities| - 1];
    }
  }

  /**
   * A one-card spaced session answered correctly: as written the results
   * report no correct answers and the rescheduled card is still listed as
   * due; finished on the updated state, the count is 1 and nothing is due.
   */
  lemma StaleFinishCounterexample(now: int)
    ensures var card := Flashcard("1", "Q", "A", Medium, "C", now, 1, 0, DefaultEase);
      var st := StudyState(InSession, [card], [card], [card], 0, true, Some(StudySession(1, 0, Spaced)), None);
      var asWritten := AnswerAsWritten(st, 5, now);
      var intended := Answer(st, 5, now);
      asWritten.results.value.correct == 0 && asWritten.dueCards == [card]
      && intended.results.value.correct == 1 && intended.dueCards == []
  {
    var card := Flashcard("1", "Q", "A", Medium, "C", now, 1, 0, DefaultEase);
    var updated := CalculateNextReview(card, 5, now);
    assert updated.nextReview == now + DayMs;
    assert Reschedule([card], "1", updated) == [updated];
    assert DueCards([card], now) == [card];
    assert DueCards([updated], now) == [];
  }

  /** The study screen's state, updated in place by its handlers. */
  class StudyScreen {
    var view: View
    var flashcards: seq<Flashcard>
    var dueCards: seq<Flashcard>
    var sessionCards: seq<Flashcard>
    var currentCardIndex: nat
    var showAnswer: bool
    var session: Option<StudySession>
    var results: Option<SessionResults>

    function State(): StudyState
      reads this
    {
      StudyState(view, flashcards, dueCards, sessionCards, currentCardIndex, showAnswer, session, results)
    }

    predicate Valid()
      reads this
    {
      ValidState(State())
    }

    /** The mount effect: the deck is loaded and the due list drawn from it. */
    constructor (cards: seq<Flashcard>, now: int)
      ensures Valid()
      ensures State() == StudyState(Overview, cards, DueCards(cards, now), [], 0, false, None, None)
    {
      view := Overview;
      flashcards := cards;
      dueCards := DueCards(cards, now);
      sessionCards := [];
      currentCardIndex := 0;
      showAnswer := false;
      session := None;
      results := None;
    }

    method StartReviewSession()
      requires Valid()
      modifies this
      ensures Valid()
      ensures State() == ReviewStarted(old(State()))
    {
      if |dueCards| == 0 {
        return;
      }
      session := Some(StudySession(|dueCards|, 0, Spaced));
      sessionCards := dueCards;
      currentCardIndex := 0;
      showAnswer := false;
      view := InSession;
    }

    method FinishSession(now: int)
      requires Valid()
      modifies this
      ensures Valid()
      ensures State() == Finished(old(State()), now)
    {
      if session.None? {
        return;
      }
      var s := session.value;
      results := Some(SessionResults(s.correctAnswers, s.totalCards, sessionCards));
      if s.kind == Spaced {
        dueCards := DueCards(flashcards, now);
      }
      view := Results;
    }

    method HandleAnswer(quality: int, now: int)
      requires Valid()
      modifies this
      ensures Valid()
      ensures State() == Answer(old(State()), quality, now)
    {
      if session.None? {
        return;
      }
      var s := session.value;
      var currentCard := sessionCards[currentCardIndex];
      if s.kind == Spaced {
        var updatedCard := CalculateNextReview(currentCard, quality, now);
        flashcards := Reschedule(flashcards, currentCard.id, updatedCard);
      }
      var isCorrect := quality >= 3;
      session := Some(s.(correctAnswers := s.correctAnswers + if isCorrect then 1 else 0));
      if currentCardIndex < |sessionCards| - 1 {
        currentCardIndex := currentCardIndex + 1;
        showAnswer := false;
      } else {
        FinishSession(now);
      }
    }

    /**
     * `handleAnswer(quality)` as the component runs it: on the last card,
     * `finishSession` reads the session and the cards captured before this
     * answer.
     */
    method HandleAnswerAsWritten(quality: int, now: int)
      requires Valid()
      modifies this
      ensures Valid()
      ensures State() == AnswerAsWritten(old(State()), quality, now)
    {
      if session.None? {
        return;
      }
      var s := session.value;
      var seenFlashcards := flashcards;
      var currentCard := sessionCards[currentCardIndex];
      if s.kind == Spaced {
        var updatedCard := CalculateNextReview(currentCard, quality, now);
        flashcards := Reschedule(flashcards, currentCard.id, updatedCard);
      }
      var isCorrect := quality >= 3;
      session := Some(s.(correctAnswers := s.correctAnswers + if isCorrect then 1 else 0));
      if currentCardIndex < |sessionCards| - 1 {
        currentCardIndex := currentCardIndex + 1;
        showAnswer := false;
      } else {
        results := Some(SessionResults(s.correctAnswers, s.totalCards, sessionCards));
        if s.kind == Spaced {
          dueCards := DueCards(seenFlashcards, now);
        }
        view := Results;
      }
    }
  }
}
