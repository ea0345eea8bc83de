// Grading, the daily due list, and how long a card takes through the levels.

module Study {
  import opened SyncTypes
  import opened Schedule

  const MASTERED: int := 8

  /** A card's progress; review dates are calendar days. */
  datatype Progress = Progress(level: int, reviewed: Option<int>)

  function GradeCard(level: int, isCorrect: bool, today: int): Progress {
    Progress(if isCorrect then level + 1 else 1, Some(today))
  }

  predicate IsDue(card: Progress, todayLevels: seq<int>, today: int) {
    card.level in todayLevels && (card.reviewed.None? || card.reviewed.value < today)
  }

  function SelectDueCards(cards: seq<Progress>, todayLevels: seq<int>, today: int): seq<Progress> {
    if cards == [] then []
    else SelectDueCards(cards[..|cards| - 1], todayLevels, today)
         + (if IsDue(cards[|cards| - 1], todayLevels, today) then [cards[|cards| - 1]] else [])
  }

  /** The list holds exactly the due cards, each as often as it occurs. */
  lemma {:induction false} SelectedAreDue(cards: seq<Progress>, todayLevels: seq<int>, today: int, card: Progress)
    ensures multiset(SelectDueCards(cards, todayLevels, today))[card]
         == if IsDue(card, todayLevels, today) then multiset(cards)[card] else 0
  {
    if cards != [] {
      var n := |cards| - 1;
      SelectedAreDue(cards[..n], todayLevels, today, card);
      assert cards == cards[..n] + [cards[n]];
    }
  }

  /** A graded card goes up by one level or back to the first, stays within levels 1 to 8, and is not due again
      that day, whatever the answer. */
  lemma GradedOncePerDay(cards: seq<Progress>, todayLevels: seq<int>, levels: seq<int>, today: int, i: nat, isCorrect: bool)
    requires i < |cards| && IsDue(cards[i], todayLevels, today)
    requires forall l :: l in todayLevels ==> 1 <= l <= 7
    ensures var graded := GradeCard(cards[i].level, isCorrect, today);
      && graded !in SelectDueCards(cards[i := graded], levels, today)
      && 1 <= graded.level <= MASTERED
      && (isCorrect ==> graded.level - cards[i].level == 1)
      && (!isCorrect ==> forall l :: l in todayLevels ==> graded.level <= l)
  {
    var graded := GradeCard(cards[i].level, isCorrect, today);
    SelectedAreDue(cards[i := graded], levels, today, graded);
  }

  /** The table never asks for a level outside 1 to 7. */
  lemma TodayLevelsInRange(index: nat)
    requires index < 64
    ensures forall l :: l in LevelsOn(index) ==> 1 <= l <= 7
  {
    forall l | l in LevelsOn(index) ensures 1 <= l <= 7 {
      TableRule(index, l);
    }
  }

  // ----- answering correctly on every due day -----

  /** One day: the card is answered correctly if it is due. */
  function StudyDay(card: Progress, pivot: int, day: int): Progress {
    if Reviews(pivot, day, card.level) && (card.reviewed.None? || card.reviewed.value < day)
    then GradeCard(card.level, true, day) else card
  }

  lemma StudyDayIsDue(card: Progress, pivot: int, day: int)
    ensures StudyDay(card, pivot, day) == if IsDue(card, LevelsOn((day - pivot) % 64), day) then GradeCard(card.level, true, day) else card
  {
    ReviewsByTable(pivot, day, card.level);
  }

  /** The card after `n` days from `from` on. */
  function After(card: Progress, pivot: int, from: int, n: nat): Progress {
    if n == 0 then card else StudyDay(After(card, pivot, from, n - 1), pivot, from + n - 1)
  }

  predicate Fresh(card: Progress, day: int) { card.reviewed.None? || card.reviewed.value < day }

  lemma {:induction false} AfterAdds(card: Progress, pivot: int, from: int, a: nat, b: nat)
    ensures After(card, pivot, from, a + b) == After(After(card, pivot, from, a), pivot, from + a, b)
  {
    if b > 0 {
      AfterAdds(card, pivot, from, a, b - 1);
    }
  }

  lemma {:induction false} Waits(card: Progress, pivot: int, from: int, n: nat)
    requires forall d :: from <= d < from + n ==> !Reviews(pivot, d, card.level)
    ensures After(card, pivot, from, n) == card
  {
    if n > 0 {
      Waits(card, pivot, from, n - 1);
    }
  }

  /** Waiting for the level's next day and answering: one level up. */
  lemma Climbs(card: Progress, pivot: int, from: int, n: nat)
    requires Fresh(card, from) && Reviews(pivot, from + n, card.level)
    requires forall d :: from <= d < from + n ==> !Reviews(pivot, d, card.level)
    ensures After(card, pivot, from, n + 1) == Progress(card.level + 1, Some(from + n))
  {
    Waits(card, pivot, from, n);
  }

  // ----- the way through the cycle -----

  /** Level by level: the day of the cycle (or of the next one) on which a card that reached the level by
      day `q` is answered. */
  function AnswerDay(level: int, q: nat): nat {
    match level
    case 1 => q
    case 2 => if q % 2 == 1 then q else q + 1
    case 3 => q + (if q % 4 == 0 then 2 else if q % 4 == 1 then 1 else if q % 4 == 2 then 0 else 3)
    case 4 => if q <= 4 then 4 else if q <= 13 then 13 else if q <= 20 then 20 else if q <= 29 then 29
              else if q <= 36 then 36 else if q <= 45 then 45 else if q <= 52 then 52 else if q <= 61 then 61 else 68
    case 5 => if q <= 12 then 12 else if q <= 28 then 28 else if q <= 44 then 44 else if q <= 60 then 60 else 76
    case 6 => if q <= 24 then 24 else if q <= 59 then 59 else 88
    case _ => if q <= 56 then 56 else 120
  }

  /** The latest day on which a card can reach a level. */
  function Latest(level: int): nat {
    match level
    case 1 => 63 case 2 => 64 case 3 => 66 case 4 => 67 case 5 => 69 case 6 => 77 case _ => 89
  }

  lemma AnswerDayIsNext(level: int, q: nat, x: nat)
    requires 1 <= level <= 7 && q <= Latest(level)
    ensures q <= AnswerDay(level, q) < 128 && Rule(Wrap(AnswerDay(level, q)), level)
    ensures level < 7 ==> AnswerDay(level, q) + 1 <= Latest(level + 1)
    ensures q <= x < AnswerDay(level, q) ==> !Rule(Wrap(x), level)
  {
    if level <= 3 {
      AnswersShort(level, q, x);
    } else if level == 4 {
      AnswersAtFour(q, x);
    }
  }

  lemma AnswersShort(level: int, q: nat, x: nat)
    requires 1 <= level <= 3 && q <= Latest(level)
    ensures q <= AnswerDay(level, q) < 128 && Rule(Wrap(AnswerDay(level, q)), level)
    ensures AnswerDay(level, q) + 1 <= Latest(level + 1)
    ensures q <= x < AnswerDay(level, q) ==> !Rule(Wrap(x), level)
  {
    if level == 2 {
    } else if level == 3 {
    }
  }

  lemma AnswersAtFour(q: nat, x: nat)
    requires q <= Latest(4)
    ensures q <= AnswerDay(4, q) < 128 && Rule(Wrap(AnswerDay(4, q)), 4)
    ensures AnswerDay(4, q) + 1 <= Latest(5)
    ensures q <= x < AnswerDay(4, q) ==> !Rule(Wrap(x), 4)
  {
  }

  /** One level further on the way: `base` is the first day of a cycle. */
  lemma OneLevel(card: Progress, pivot: int, base: int, q: nat)
    requires 1 <= card.level <= 7 && (base - pivot) % 64 == 0 && Fresh(card, base + q) && q <= Latest(card.level)
    ensures var d := AnswerDay(card.level, q);
      && d >= q && After(card, pivot, base + q, d - q) == card
      && After(card, pivot, base + q, d - q + 1) == Progress(card.level + 1, Some(base + d))
  {
    var d := AnswerDay(card.level, q);
    AnswerDayIsNext(card.level, q, q);
    InCycle(pivot, base, d);
    forall x | base + q <= x < base + d ensures !Reviews(pivot, x, card.level) {
      AnswerDayIsNext(card.level, q, x - base);
      InCycle(pivot, base, x - base);
    }
    assert base + q + (d - q) == base + d;
    Waits(card, pivot, base + q, d - q);
    Climbs(card, pivot, base + q, d - q);
  }

  lemma InCycle(pivot: int, base: int, x: nat)
    requires (base - pivot) % 64 == 0 && x < 128
    ensures (base + x - pivot) % 64 == Wrap(x)
  {
  }

  /** The last day by which a level must be reached for the way to end within the cycle. */
  function Early(level: int): nat {
    match level
    case 1 => 0 case 2 => 1 case 3 => 2 case 4 => 4 case 5 => 12 case 6 => 24 case _ => 56
  }

  /** The day of the last answer: day 56 of the cycle, or of the next one. */
  function LastAnswer(level: int, q: nat): nat {
    if q <= Early(level) then 56 else 120
  }

  lemma SameEnd(level: int, q: nat)
    requires 1 <= level <= 6 && q <= Latest(level)
    ensures LastAnswer(level, q) == LastAnswer(level + 1, AnswerDay(level, q) + 1)
    ensures AnswerDay(level, q) < LastAnswer(level, q)
  {
  }

  /** At level 7 until the last answer, mastered with it. */
  ghost predicate Ends(card: Progress, pivot: int, base: int, q: nat, e: nat) {
    && e >= q && After(card, pivot, base + q, e - q).level == 7
    && After(card, pivot, base + q, e - q + 1).level == MASTERED
  }

  /** Two parts of the way make one. */
  lemma Continues(card: Progress, next: Progress, pivot: int, base: int, q: nat, d: nat, e: nat)
    requires q <= d < e && After(card, pivot, base + q, d - q + 1) == next && Ends(next, pivot, base, d + 1, e)
    ensures Ends(card, pivot, base, q, e)
  {
    AfterAdds(card, pivot, base + q, d - q + 1, e - (d + 1));
    AfterAdds(card, pivot, base + q, d - q + 1, e - (d + 1) + 1);
    assert base + q + (d - q + 1) == base + (d + 1);
    assert d - q + 1 + (e - (d + 1)) == e - q;
    assert d - q + 1 + (e - (d + 1) + 1) == e - q + 1;
  }

  lemma LastLevel(card: Progress, pivot: int, base: int, q: nat)
    requires card.level == 7 && (base - pivot) % 64 == 0 && Fresh(card, base + q) && q <= Latest(7)
    ensures Ends(card, pivot, base, q, LastAnswer(7, q))
  {
    OneLevel(card, pivot, base, q);
  }

  /** From any level, the remaining levels follow one another. */
  lemma {:induction false} Journey(card: Progress, pivot: int, base: int, q: nat)
    requires 1 <= card.level <= 7 && (base - pivot) % 64 == 0 && Fresh(card, base + q) && q <= Latest(card.level)
    ensures Ends(card, pivot, base, q, LastAnswer(card.level, q))
    decreases 8 - card.level
  {
    if card.level == 7 {
      LastLevel(card, pivot, base, q);
    } else {
      var d := AnswerDay(card.level, q);
      var next := Progress(card.level + 1, Some(base + d));
      OneLevel(card, pivot, base, q);
      assert d + 1 <= Latest(next.level) by { AnswerDayIsNext(card.level, q, q); }
      Journey(next, pivot, base, d + 1);
      SameEnd(card.level, q);
      Continues(card, next, pivot, base, q, d, LastAnswer(card.level, q));
    }
  }

  lemma {:induction false} NeverFallsBack(card: Progress, pivot: int, from: int, a: nat, b: nat)
    requires a <= b
    ensures After(card, pivot, from, a).level <= After(card, pivot, from, b).level
    decreases b
  {
    if a < b {
      NeverFallsBack(card, pivot, from, a, b - 1);
    }
  }

  lemma {:induction false} StaysMastered(card: Progress, pivot: int, from: int, a: nat, b: nat)
    requires a <= b && After(card, pivot, from, a).level == MASTERED
    ensures After(card, pivot, from, b).level == MASTERED
    decreases b
  {
    if a < b {
      StaysMastered(card, pivot, from, a, b - 1);
    }
  }

  /** Days of correct answers a new card needs, starting today, by the day of the cycle. */
  function DaysToMaster(r: int): int { if r == 0 then 57 else 121 - r }

  /** A level-1 card answered correctly on every due day is mastered after exactly that many days, never
      sooner, and stays so; from the worst starting day that is 120 days. */
  lemma MasteredAfterExactly(card: Progress, pivot: int, from: int, n: nat)
    requires card.level == 1 && Fresh(card, from)
    ensures After(card, pivot, from, n).level == MASTERED <==> n >= DaysToMaster((from - pivot) % 64)
    ensures 57 <= DaysToMaster((from - pivot) % 64) <= 120
  {
    var r: nat := (from - pivot) % 64;
    var base := from - r;
    assert base + r == from && (base - pivot) % 64 == 0;
    Journey(card, pivot, base, r);
    EndDecides(card, pivot, from, DaysToMaster(r), n);
  }

  lemma EndDecides(card: Progress, pivot: int, from: int, days: nat, n: nat)
    requires days >= 1 && After(card, pivot, from, days - 1).level == 7 && After(card, pivot, from, days).level == MASTERED
    ensures After(card, pivot, from, n).level == MASTERED <==> n >= days
  {
    if n >= days {
      StaysMastered(card, pivot, from, days, n);
    } else {
      NeverFallsBack(card, pivot, from, n, days - 1);
    }
  }
}
