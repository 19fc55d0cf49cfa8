/**
 * The server's study bookkeeping: the SM-2 update a review applies to a
 * stored card, the daily streak kept on the user record, the due-card
 * filter and the mastery buckets. Dates are integer milliseconds (cards)
 * or integer day numbers (the user's study days).
 */
module Scheduler {
  import opened Wrappers
  import opened Sm2

  /** `x || d` on a numeric field: a missing or zero value reads as d. */
  function OrDefault(x: int, d: int): int
  {
    if x == 0 then d else x
  }

  /** The new ease factor: a missing factor reads as 2.5, then the SM-2 change, floored at 1.3, pass or fail. */
  function NextEaseFactor(easeFactor: int, quality: int): (r: int)
    ensures r >= MinEase
    ensures easeFactor != 0 && easeFactor + EaseDelta(quality) >= MinEase ==> r == easeFactor + EaseDelta(quality)
    ensures easeFactor != 0 && easeFactor + EaseDelta(quality) < MinEase ==> r == MinEase
    ensures easeFactor == 0 ==> r == FlooredEase(DefaultEase, quality)
  {
    FlooredEase(OrDefault(easeFactor, DefaultEase), quality)
  }

  /** The new interval in days: 1 after a failed answer, 6 after an interval of 1, else the old one scaled by the new factor. */
  function NextInterval(interval: int, newEase: int, quality: int): (r: int)
    ensures quality < 3 ==> r == 1
    ensures quality >= 3 && (interval == 0 || interval == 1) ==> r == 6
    ensures quality >= 3 && interval != 0 && interval != 1 ==> 100 * r - 50 <= interval * newEase < 100 * r + 50
  {
    var oldInterval := OrDefault(interval, 1);
    if quality < 3 then 1
    else if oldInterval == 1 then 6
    else ScaleInterval(oldInterval, newEase)
  }

  /** A passed review lengthens every interval of two days or more, and no review leaves an interval below one day. */
  lemma NextIntervalGrows(interval: int, newEase: int, quality: int)
    requires interval >= 0 && newEase >= MinEase
    ensures NextInterval(interval, newEase, quality) >= 1
    ensures quality >= 3 && interval >= 2 ==> NextInterval(interval, newEase, quality) > interval
  {
    if quality >= 3 && interval >= 2 {
      ScaleIntervalGrows(interval, newEase);
    }
  }

  /** A stored card, as the server keeps it under `card:<id>`. */
  class CardRecord {
    var front: string
    var back: string
    /** The ease factor, in hundredths. */
    var easeFactor: int
    /** Days until the next review. */
    var interval: int
    var nextReview: int
    var reviews: int
    var lastReviewed: Option<int>

    /** The scheduling fields every card the server stores satisfies. */
    predicate Valid()
      reads this
    {
      easeFactor >= MinEase && interval >= 1 && reviews >= 0
    }

    /** A new card: due now, interval 1, ease factor 2.5, no reviews. */
    constructor (front: string, back: string, now: int)
      ensures Valid()
      ensures this.front == front && this.back == back
      ensures easeFactor == DefaultEase && interval == 1 && nextReview == now && reviews == 0
      ensures lastReviewed == None
    {
      this.front := front;
      this.back := back;
      easeFactor := DefaultEase;
      interval := 1;
      nextReview := now;
      reviews := 0;
      lastReviewed := None;
    }

    /** Records one answer of the given quality at time `now` and returns the new interval. */
    method RecordReview(quality: int, now: int) returns (nextInterval: int)
      modifies this
      ensures easeFactor == NextEaseFactor(old(easeFactor), quality)
      ensures nextInterval == NextInterval(old(interval), easeFactor, quality)
      ensures interval == nextInterval
      ensures nextReview == now + nextInterval * DayMs
      ensures reviews == old(reviews) + 1
      ensures lastReviewed == Some(now)
      ensures front == old(front) && back == old(back)
      ensures old(Valid()) ==> Valid()
    {
      var oldEaseFactor := OrDefault(easeFactor, DefaultEase);
      var oldInterval := OrDefault(interval, 1);

      var newEaseFactor := oldEaseFactor + EaseDelta(quality);
      if newEaseFactor < MinEase {
        newEaseFactor := MinEase;
      }

      var newInterval;
      if quality < 3 {
        newInterval := 1;
      } else if oldInterval == 1 {
        newInterval := 6;
      } else {
        newInterval := ScaleInterval(oldInterval, newEaseFactor);
      }
      if old(Valid()) {
        NextIntervalGrows(old(interval), newEaseFactor, quality);
      }

      easeFactor := newEaseFactor;
      interval := newInterval;
      nextReview := now + newInterval * DayMs;
      reviews := reviews + 1;
      lastReviewed := Some(now);
      nextInterval := newInterval;
    }
  }

  /** Three perfect answers on a new card: the intervals are 6, 16 and 45 days and the ease factor climbs to 2.8. */
  lemma ThreePerfectReviews()
    ensures NextEaseFactor(DefaultEase, 5) == 260 && NextInterval(1, 260, 5) == 6
    ensures NextEaseFactor(260, 5) == 270 && NextInterval(6, 270, 5) == 16
    ensures NextEaseFactor(270, 5) == 280 && NextInterval(16, 280, 5) == 45
  {
  }

  // ---------------------------------------------------------------------------
  // The daily streak

  /** The study fields of a user record; the last study day is a day number, absent before the first review. */
  datatype StudyStats = StudyStats(streak: int, cardsStudiedToday: int, lastStudyDate: Option<int>)

  /** A user record as sign-up creates it. */
  const NewUser := StudyStats(0, 0, None)

  /** The stats after one review on day `today`. */
  function StudyOn(s: StudyStats, today: int): (r: StudyStats)
    ensures r.lastStudyDate == Some(today)
    ensures s.lastStudyDate == Some(today) ==> r.streak == s.streak && r.cardsStudiedToday == s.cardsStudiedToday + 1
    ensures s.lastStudyDate == Some(today - 1) ==> r.streak == s.streak + 1 && r.cardsStudiedToday == 1
    ensures s.lastStudyDate != Some(today) && s.lastStudyDate != Some(today - 1) ==> r.streak == 1 && r.cardsStudiedToday == 1
  {
    if s.lastStudyDate == Some(today) then s.(cardsStudiedToday := s.cardsStudiedToday + 1)
    else if s.lastStudyDate == Some(today - 1) then StudyStats(s.streak + 1, 1, Some(today))
    else StudyStats(1, 1, Some(today))
  }

  /** The user record the server updates after each review. */
  class UserRecord {
    var streak: int
    var cardsStudiedToday: int
    var lastStudyDate: Option<int>

    function Stats(): StudyStats
      reads this
    {
      StudyStats(streak, cardsStudiedToday, lastStudyDate)
    }

    constructor ()
      ensures Stats() == NewUser
    {
      streak := 0;
      cardsStudiedToday := 0;
      lastStudyDate := None;
    }

    /** Counts one more card studied on day `today` and moves the streak on when the day is new. */
    method RecordStudyDay(today: int)
      modifies this
      ensures Stats() == StudyOn(old(Stats()), today)
    {
      cardsStudiedToday := cardsStudiedToday + 1;
      var lastStudy := lastStudyDate;
      if lastStudy != Some(today) {
        if lastStudy == Some(today - 1) {
          streak := streak + 1;
        } else {
          streak := 1;
        }
        lastStudyDate := Some(today);
        cardsStudiedToday := 1;
      }
    }
  }

  /** The stats of a new user after one review on each of `days`, in order. */
  function StudyDays(days: seq<int>): StudyStats
  {
    if days == [] then NewUser else StudyOn(StudyDays(days[..|days| - 1]), days[|days| - 1])
  }

  /** Each day is the same as or later than the one before it. */
  predicate NonDecreasing(days: seq<int>)
  {
    |days| <= 1 || (days[|days| - 2] <= days[|days| - 1] && NonDecreasing(days[..|days| - 1]))
  }

  /**
   * days[i..] is the longest stretch of days without a day missed: no two
   * neighbours in it are more than a day apart, and the day before it (if
   * any) is at least two days earlier than days[i].
   */
  predicate RunStartsAt(days: seq<int>, i: int)
  {
    0 <= i < |days|
    && if i == |days| - 1 then i == 0 || days[i] - days[i - 1] >= 2
       else days[|days| - 1] - days[|days| - 2] <= 1 && RunStartsAt(days[..|days| - 1], i)
  }

  /** How many of `days` are day d. */
  function Occurrences(days: seq<int>, d: int): nat
  {
    if days == [] then 0 else Occurrences(days[..|days| - 1], d) + (if days[|days| - 1] == d then 1 else 0)
  }

  lemma {:induction false} NoOccurrencesAfter(days: seq<int>, d: int)
    requires NonDecreasing(days)
    requires days != [] ==> days[|days| - 1] < d
    ensures Occurrences(days, d) == 0
  {
    if days != [] {
      var prefix := days[..|days| - 1];
      if prefix != [] {
        assert prefix[|prefix| - 1] == days[|days| - 2];
      }
      assert NonDecreasing(prefix);
      NoOccurrencesAfter(prefix, d);
    }
  }

  /**
   * Reviewing on a non-decreasing sequence of days: the streak is the number
   * of calendar days in the last stretch without a missed day, and the count
   * for today is the number of reviews on the last day.
   */
  lemma {:induction false} StreakCountsConsecutiveDays(days: seq<int>, i: int)
    requires NonDecreasing(days)
    requires RunStartsAt(days, i)
    ensures StudyDays(days).lastStudyDate == Some(days[|days| - 1])
    ensures StudyDays(days).streak == days[|days| - 1] - days[i] + 1
    ensures StudyDays(days).cardsStudiedToday == Occurrences(days, days[|days| - 1])
  {
    var n := |days|;
    var prefix := days[..n - 1];
    var today := days[n - 1];
    if n == 1 {
      assert prefix == [];
    } else {
      RunPrefix(days, i);
      var yesterday := days[n - 2];
      assert prefix[n - 2] == yesterday;
      var before := StudyDays(prefix);
      assert StudyDays(days) == StudyOn(before, today);
      assert Occurrences(days, today) == Occurrences(prefix, today) + 1;
      if i == n - 1 {
        StreakCountsConsecutiveDays(prefix, n - 2 - LastRunLength(prefix));
        NoOccurrencesAfter(prefix, today);
        StudyOnLater(before, yesterday, today);
        assert StudyDays(days) == StudyStats(1, 1, Some(today));
      } else {
        StreakCountsConsecutiveDays(prefix, i);
        StudyOnLater(before, yesterday, today);
        if today == yesterday {
          assert StudyDays(days) == StudyStats(before.streak, before.cardsStudiedToday + 1, Some(today));
        } else {
          NoOccurrencesAfter(prefix, today);
          assert StudyDays(days) == StudyStats(before.streak + 1, 1, Some(today));
        }
      }
    }
  }

  /** A review on the last study day, the day after it, or later. */
  lemma StudyOnLater(s: StudyStats, last: int, today: int)
    requires s.lastStudyDate == Some(last) && last <= today
    ensures today == last ==> StudyOn(s, today) == StudyStats(s.streak, s.cardsStudiedToday + 1, Some(today))
    ensures today == last + 1 ==> StudyOn(s, today) == StudyStats(s.streak + 1, 1, Some(today))
    ensures today >= last + 2 ==> StudyOn(s, today) == StudyStats(1, 1, Some(today))
  {
  }

  /** Dropping the last day keeps the order, and keeps the stretch unless the last day began it. */
  lemma RunPrefix(days: seq<int>, i: int)
    requires NonDecreasing(days) && RunStartsAt(days, i) && |days| >= 2
    ensures NonDecreasing(days[..|days| - 1])
    ensures days[|days| - 2] <= days[|days| - 1]
    ensures i < |days| - 1 ==> RunStartsAt(days[..|days| - 1], i) && days[|days| - 1] - days[|days| - 2] <= 1
    ensures i == |days| - 1 ==> days[|days| - 1] - days[|days| - 2] >= 2
  {
    var prefix := days[..|days| - 1];
    assert forall j :: 0 <= j < |prefix| ==> prefix[j] == days[j];
  }

  /** How far back from the last day the current stretch reaches, in positions: days[|days| - 1 - k..] is the stretch. */
  function LastRunLength(days: seq<int>): (k: nat)
    requires days != []
    ensures k < |days|
    ensures RunStartsAt(days, |days| - 1 - k)
  {
    if |days| == 1 || days[|days| - 1] - days[|days| - 2] >= 2 then 0
    else
      var k := LastRunLength(days[..|days| - 1]);
      assert days[..|days| - 1][|days| - 2 - k] == days[|days| - 2 - k];
      k + 1
  }

  // ---------------------------------------------------------------------------
  // Due cards and mastery

  /** `allCards.filter(card => card && new Date(card.next_review) <= now)`; a missing card is null. */
  function DueCards(cards: seq<CardRecord?>, now: int): (r: seq<CardRecord>)
    reads set c | c in cards && c != null
    ensures |r| <= |cards|
    ensures forall c :: c in r ==> c in cards && c.nextReview <= now
  {
    if cards == [] then []
    else
      var rest := DueCards(cards[1..], now);
      if cards[0] != null && cards[0].nextReview <= now then [cards[0]] + rest else rest
  }

  /** A card is due exactly when it is present and its next review is not later than now. */
  lemma {:induction false} DueCardsMembership(cards: seq<CardRecord?>, now: int, c: CardRecord)
    ensures c in DueCards(cards, now) <==> c in cards && c.nextReview <= now
  {
    if cards != [] {
      DueCardsMembership(cards[1..], now, c);
      assert cards == [cards[0]] + cards[1..];
    }
  }

  /** The mastery buckets of the analytics endpoint. */
  datatype Mastery = Mastery(beginner: nat, intermediate: nat, advanced: nat)

  /** How many of the cards have at most two reviews. */
  function Beginner(cards: seq<CardRecord>): nat
    reads set c | c in cards
  {
    if cards == [] then 0 else (if cards[0].reviews <= 2 then 1 else 0) + Beginner(cards[1..])
  }

  /** How many of the cards have three to five reviews. */
  function Intermediate(cards: seq<CardRecord>): nat
    reads set c | c in cards
  {
    if cards == [] then 0 else (if 2 < cards[0].reviews <= 5 then 1 else 0) + Intermediate(cards[1..])
  }

  /** How many of the cards have more than five reviews. */
  function Advanced(cards: seq<CardRecord>): nat
    reads set c | c in cards
  {
    if cards == [] then 0 else (if cards[0].reviews > 5 then 1 else 0) + Advanced(cards[1..])
  }

  /** Every card falls in exactly one bucket. */
  lemma {:induction false} MasteryPartition(cards: seq<CardRecord>)
    ensures Beginner(cards) + Intermediate(cards) + Advanced(cards) == |cards|
  {
    if cards != [] {
      MasteryPartition(cards[1..]);
    }
  }

  /** The three counts of `masteryLevels`; together they count every card once. */
  function MasteryLevels(cards: seq<CardRecord>): (m: Mastery)
    reads set c | c in cards
    ensures m.beginner + m.intermediate + m.advanced == |cards|
    ensures forall c :: c in cards && c.reviews <= 2 ==> m.beginner > 0
    ensures forall c :: c in cards && 2 < c.reviews <= 5 ==> m.intermediate > 0
    ensures forall c :: c in cards && c.reviews > 5 ==> m.advanced > 0
  {
    MasteryPartition(cards);
    BucketsNonEmpty(cards);
    Mastery(Beginner(cards), Intermediate(cards), Advanced(cards))
  }

  lemma {:induction false} BucketsNonEmpty(cards: seq<CardRecord>)
    ensures forall c :: c in cards && c.reviews <= 2 ==> Beginner(cards) > 0
    ensures forall c :: c in cards && 2 < c.reviews <= 5 ==> Intermediate(cards) > 0
    ensures forall c :: c in cards && c.reviews > 5 ==> Advanced(cards) > 0
  {
    if cards != [] {
      BucketsNonEmpty(cards[1..]);
      assert forall c :: c in cards ==> c == cards[0] || c in cards[1..];
    }
  }
}
