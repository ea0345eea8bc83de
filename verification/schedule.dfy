// The review schedule: which levels are studied on which day of a 64-day cycle.

module Schedule {
  import opened SyncTypes

  const CYCLE: nat := 64

  /** The table: levels studied on each day of the cycle. */
  function LevelsOn(i: nat): seq<int>
    requires i < CYCLE
  {
    match i
    case 0 => [1] case 1 => [2, 1] case 2 => [3, 1] case 3 => [2, 1]
    case 4 => [4, 1] case 5 => [2, 1] case 6 => [3, 1] case 7 => [2, 1]
    case 8 => [1] case 9 => [2, 1] case 10 => [3, 1] case 11 => [2, 1]
    case 12 => [5, 1] case 13 => [4, 2, 1] case 14 => [3, 1] case 15 => [2, 1]
    case 16 => [1] case 17 => [2, 1] case 18 => [3, 1] case 19 => [2, 1]
    case 20 => [4, 1] case 21 => [2, 1] case 22 => [3, 1] case 23 => [2, 1]
    case 24 => [6, 1] case 25 => [2, 1] case 26 => [3, 1] case 27 => [2, 1]
    case 28 => [5, 1] case 29 => [4, 2, 1] case 30 => [3, 1] case 31 => [2, 1]
    case 32 => [1] case 33 => [2, 1] case 34 => [3, 1] case 35 => [2, 1]
    case 36 => [4, 1] case 37 => [2, 1] case 38 => [3, 1] case 39 => [2, 1]
    case 40 => [1] case 41 => [2, 1] case 42 => [3, 1] case 43 => [2, 1]
    case 44 => [5, 1] case 45 => [4, 2, 1] case 46 => [3, 1] case 47 => [2, 1]
    case 48 => [1] case 49 => [2, 1] case 50 => [3, 1] case 51 => [2, 1]
    case 52 => [4, 1] case 53 => [2, 1] case 54 => [3, 1] case 55 => [2, 1]
    case 56 => [7, 1] case 57 => [2, 1] case 58 => [3, 1] case 59 => [6, 2, 1]
    case 60 => [5, 1] case 61 => [4, 2, 1] case 62 => [3, 1] case 63 => [2, 1]
  }

  /** The same by rule. */
  predicate Rule(i: int, level: int) {
    match level
    case 1 => true
    case 2 => i % 2 == 1
    case 3 => i % 4 == 2
    case 4 => i == 4 || i == 13 || i == 20 || i == 29 || i == 36 || i == 45 || i == 52 || i == 61
    case 5 => i == 12 || i == 28 || i == 44 || i == 60
    case 6 => i == 24 || i == 59
    case 7 => i == 56
    case _ => false
  }

  lemma TableRule(i: nat, level: int)
    requires i < CYCLE
    ensures level in LevelsOn(i) <==> Rule(i, level)
  {
  }

  // ----- calendar days -----

  const DAY_MS: int := 86_400_000

  /** The timestamp at which a calendar day begins in local time. */
  type Midnights = int -> int

  /** `Math.round` of a quotient: halves go up. */
  function RoundDays(ms: int): int { (2 * ms + 86_400_000) / 172_800_000 }

  /** The language's remainder: its sign is that of the dividend. */
  function Remainder(a: int, b: nat): int
    requires b > 0
  {
    if a >= 0 then a % b else -((-a) % b)
  }

  lemma ModIs(a: int, k: int, r: int)
    requires a == 64 * k + r && 0 <= r < 64
    ensures a % 64 == r
  {
  }

  /** Twice-corrected remainders are the mathematical ones. */
  lemma CycleOfDays(days: int)
    ensures Remainder(Remainder(days, 64) + 64, 64) == days % 64
  {
    if days >= 0 {
      ModIs(days % 64 + 64, 1, days % 64);
    } else {
      var n := -days;
      var r := n % 64;
      var k := n / 64;
      assert n == 64 * k + r;
      if r == 0 {
        ModIs(days, -k, 0);
      } else {
        ModIs(days, -k - 1, 64 - r);
        ModIs(-r + 64, 0, 64 - r);
      }
    }
  }

  function GetCycleDay(midnight: Midnights, pivot: int, date: int): nat {
    var days := RoundDays(midnight(date) - midnight(pivot));
    Remainder(Remainder(days, 64) + 64, 64)
  }

  /** How far a local midnight is off the plain count of days. */
  function Shift(midnight: Midnights, day: int): int { midnight(day) - day * DAY_MS }

  /** Rounding finds the number of days exactly as long as the shift stays within half a day. */
  lemma RoundingExactIff(days: int, shift: int)
    ensures RoundDays(days * DAY_MS + shift) == days <==> -DAY_MS <= 2 * shift < DAY_MS
  {
    var n := 2 * (days * DAY_MS + shift) + 86_400_000;
    assert n == 172_800_000 * days + (2 * shift + 86_400_000);
    var q := n / 172_800_000;
    assert 172_800_000 * q <= n < 172_800_000 * q + 172_800_000;
  }

  ghost predicate WithinHalfDay(midnight: Midnights, pivot: int, date: int) {
    -DAY_MS <= 2 * (Shift(midnight, date) - Shift(midnight, pivot)) < DAY_MS
  }

  /** Under any local-time shift below half a day, the cycle day counts whole calendar days from the
      pivot, for dates before it as well. */
  lemma CycleDayCounts(midnight: Midnights, pivot: int, date: int)
    requires WithinHalfDay(midnight, pivot, date)
    ensures GetCycleDay(midnight, pivot, date) == (date - pivot) % 64
  {
    RoundingExactIff(date - pivot, Shift(midnight, date) - Shift(midnight, pivot));
    CycleOfDays(date - pivot);
    assert midnight(date) - midnight(pivot)
        == (date - pivot) * DAY_MS + (Shift(midnight, date) - Shift(midnight, pivot));
  }

  // ----- how often and how soon -----

  /** The level is studied on the day. */
  predicate Reviews(pivot: int, day: int, level: int) {
    Rule((day - pivot) % 64, level)
  }

  lemma ReviewsByTable(pivot: int, day: int, level: int)
    ensures Reviews(pivot, day, level) <==> level in LevelsOn((day - pivot) % 64)
  {
    TableRule((day - pivot) % 64, level);
  }

  /** On how many of `n` consecutive days a level is studied. */
  function Count(pivot: int, from: int, n: nat, level: int): nat {
    if n == 0 then 0 else Count(pivot, from, n - 1, level) + (if Reviews(pivot, from + n - 1, level) then 1 else 0)
  }

  lemma {:induction false} CountFirst(pivot: int, from: int, n: nat, level: int)
    ensures Count(pivot, from, n + 1, level) == (if Reviews(pivot, from, level) then 1 else 0) + Count(pivot, from + 1, n, level)
  {
    if n > 0 {
      CountFirst(pivot, from, n - 1, level);
    }
  }

  /** Moving a whole cycle's window by a day changes nothing. */
  lemma WindowSlides(pivot: int, from: int, level: int)
    ensures Count(pivot, from, CYCLE, level) == Count(pivot, from + 1, CYCLE, level)
  {
    CountFirst(pivot, from, CYCLE - 1, level);
    assert (from + 64 - pivot) % 64 == (from - pivot) % 64;
  }

  function Bit(b: bool): nat { if b then 1 else 0 }

  /** Studied days among the first `n` of the cycle. */
  function Studied(n: nat, level: int): nat {
    match level
    case 1 => n
    case 2 => n / 2
    case 3 => (n + 1) / 4
    case 4 => Bit(n > 4) + Bit(n > 13) + Bit(n > 20) + Bit(n > 29) + Bit(n > 36) + Bit(n > 45) + Bit(n > 52) + Bit(n > 61)
    case 5 => Bit(n > 12) + Bit(n > 28) + Bit(n > 44) + Bit(n > 60)
    case 6 => Bit(n > 24) + Bit(n > 59)
    case 7 => Bit(n > 56)
    case _ => 0
  }

  lemma StudiedGrows(n: nat, level: int)
    requires 1 <= n <= CYCLE
    ensures Studied(n, level) == Studied(n - 1, level) + Bit(Rule(n - 1, level))
  {
    if level == 2 {
      EveryOther(n);
    } else if level == 3 {
      EveryFourth(n);
    }
  }

  lemma EveryOther(n: nat)
    requires 1 <= n
    ensures n / 2 == (n - 1) / 2 + Bit(Rule(n - 1, 2))
  {
  }

  lemma EveryFourth(n: nat)
    requires 1 <= n
    ensures (n + 1) / 4 == n / 4 + Bit(Rule(n - 1, 3))
  {
  }

  lemma CountGrows(pivot: int, n: nat, level: int)
    requires 1 <= n <= CYCLE
    ensures Count(pivot, pivot, n, level) == Count(pivot, pivot, n - 1, level) + Bit(Rule(n - 1, level))
  {
    assert (pivot + n - 1 - pivot) % 64 == n - 1;
  }

  lemma {:induction false} CountFromPivot(pivot: int, n: nat, level: int)
    requires n <= CYCLE
    ensures Count(pivot, pivot, n, level) == Studied(n, level)
  {
    if n > 0 {
      CountFromPivot(pivot, n - 1, level);
      CountGrows(pivot, n, level);
      StudiedGrows(n, level);
    }
  }

  function Power2(n: nat): nat { if n == 0 then 1 else 2 * Power2(n - 1) }

  /** For every pivot, any 64 consecutive days study level L exactly 2^(7-L) times. */
  lemma {:induction false} EveryCycleAlike(pivot: int, from: int, level: int)
    requires 1 <= level <= 7
    ensures Count(pivot, from, CYCLE, level) == Power2(7 - level)
    decreases if from >= pivot then from - pivot else pivot - from
  {
    if from == pivot {
      CountFromPivot(pivot, CYCLE, level);
      assert Power2(2) == 4 && Power2(4) == 16 && Power2(6) == 64;
    } else if from > pivot {
      EveryCycleAlike(pivot, from - 1, level);
      WindowSlides(pivot, from - 1, level);
    } else {
      EveryCycleAlike(pivot, from + 1, level);
      WindowSlides(pivot, from, level);
    }
  }

  /** The longest wait for a level's next day. */
  function LongestWait(level: int): nat
    requires 1 <= level <= 7
  {
    match level
    case 1 => 1 case 2 => 2 case 3 => 4 case 4 => 9 case 5 => 16 case 6 => 35 case _ => 64
  }

  /** Days from position `c` of the cycle to the level's next day after it. */
  function WaitFrom(c: int, level: int): int {
    match level
    case 1 => 1
    case 2 => 1 + c % 2
    case 3 => 4 - (c + 2) % 4
    case 4 => (if c < 4 then 4 else if c < 13 then 13 else if c < 20 then 20 else if c < 29 then 29
               else if c < 36 then 36 else if c < 45 then 45 else if c < 52 then 52 else if c < 61 then 61 else 68) - c
    case 5 => (if c < 12 then 12 else if c < 28 then 28 else if c < 44 then 44 else if c < 60 then 60 else 76) - c
    case 6 => (if c < 24 then 24 else if c < 59 then 59 else 88) - c
    case _ => (if c < 56 then 56 else 120) - c
  }

  /** Positions of the cycle up to one turn further. */
  function Wrap(n: nat): nat { if n >= 64 then n - 64 else n }

  lemma WaitReaches(c: nat, level: int)
    requires c < 64 && 1 <= level <= 7
    ensures 1 <= WaitFrom(c, level) <= LongestWait(level)
    ensures Rule(Wrap(c + WaitFrom(c, level)), level)
  {
    if level == 2 || level == 3 {
    } else if level == 4 {
    } else {
    }
  }

  lemma WaitSkips(c: nat, level: int, o: nat)
    requires c < 64 && 1 <= level <= 7 && 1 <= o < WaitFrom(c, level)
    ensures !Rule(Wrap(c + o), level)
  {
    if level == 2 || level == 3 {
    } else if level == 4 {
    } else {
    }
  }

  lemma PositionAfter(pivot: int, from: int, o: nat)
    requires o <= 64
    ensures (from + o - pivot) % 64 == Wrap((from - pivot) % 64 + o)
  {
  }

  /** The wait is over on a day that studies the level, no earlier, and never takes longer than the
      longest wait. */
  lemma WaitIsExact(pivot: int, from: int, level: int, o: nat)
    requires 1 <= level <= 7
    ensures var wait := WaitFrom((from - pivot) % 64, level);
      && 1 <= wait <= LongestWait(level) && Reviews(pivot, from + wait, level)
      && (1 <= o < wait ==> !Reviews(pivot, from + o, level))
  {
    var c := (from - pivot) % 64;
    WaitReaches(c, level);
    PositionAfter(pivot, from, WaitFrom(c, level));
    if 1 <= o < WaitFrom(c, level) {
      WaitSkips(c, level, o);
      PositionAfter(pivot, from, o);
    }
  }

  /** Each of the longest waits occurs. */
  lemma LongestWaitsOccur()
    ensures WaitFrom(0, 1) == 1 && WaitFrom(1, 2) == 2 && WaitFrom(2, 3) == 4 && WaitFrom(4, 4) == 9
    ensures WaitFrom(12, 5) == 16 && WaitFrom(24, 6) == 35 && WaitFrom(56, 7) == 64
  {
  }

  method IsStudied(index: nat, level: int) returns (b: bool)
    requires index < 64
    ensures b <==> Rule(index, level)
  {
    TableRule(index, level);
    b := level in LevelsOn(index);
  }

  /** The search for the next day of a level, starting today or tomorrow: the first such day; none for a
      level outside the schedule. */
  method GetNextReviewDate(midnight: Midnights, from: int, level: int, pivot: int, includeToday: bool) returns (day: Option<int>)
    requires WithinHalfDay(midnight, pivot, from)
    ensures day.Some? <==> 1 <= level <= 7
    ensures day.Some? ==> Reviews(pivot, day.value, level) && from + (if includeToday then 0 else 1) <= day.value
    ensures day.Some? ==> forall d :: from + (if includeToday then 0 else 1) <= d < day.value ==> !Reviews(pivot, d, level)
    ensures day.Some? ==> day.value <= from + LongestWait(level)
  {
    var cycleDay := GetCycleDay(midnight, pivot, from);
    CycleDayCounts(midnight, pivot, from);
    var minOffset := if includeToday then 0 else 1;
    for offset := minOffset to minOffset + CYCLE
      invariant forall d :: from + minOffset <= d < from + offset ==> !Reviews(pivot, d, level)
    {
      PositionAfter(pivot, from, offset);
      var found := IsStudied((cycleDay + offset) % 64, level);
      if found {
        NotLater(pivot, from, level, offset);
        return Some(from + offset);
      }
    }
    NoDayLeft(pivot, from, level, minOffset);
    return None;
  }

  /** The first day found is within the longest wait. */
  lemma NotLater(pivot: int, from: int, level: int, offset: nat)
    requires Reviews(pivot, from + offset, level) && forall d :: from + 1 <= d < from + offset ==> !Reviews(pivot, d, level)
    ensures 1 <= level <= 7 && offset <= LongestWait(level)
  {
    WaitIsExact(pivot, from, level, 1);
  }

  /** A level of the schedule is studied at least once in any 64 days. */
  lemma NoDayLeft(pivot: int, from: int, level: int, minOffset: nat)
    requires minOffset <= 1
    requires forall d :: from + minOffset <= d < from + minOffset + 64 ==> !Reviews(pivot, d, level)
    ensures !(1 <= level <= 7)
  {
    if 1 <= level <= 7 {
      WaitIsExact(pivot, from + minOffset - 1, level, 1);
      assert false;
    }
  }
}
