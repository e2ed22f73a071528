/**
 * The part of the JavaScript `Date` arithmetic the calendar relies on,
 * after section 21.4.1 of ECMA-262: time values are integer milliseconds,
 * the day number of a time value is its floor by the length of a day, and
 * `new Date(y, m, d)` goes through MakeDay, which normalises a month index
 * outside 0..11 into the neighbouring years and a day past the end of a
 * month into the following months. Local time is taken as zone offset 0
 * (see README).
 */
module Calendario {

  /** msPerDay */
  const MsPorDia: int := 86400000

  predicate Bissexto(y: int) {
    y % 4 == 0 && (y % 100 != 0 || y % 400 == 0)
  }

  function DiasNoAno(y: int): (n: int)
    ensures n == 365 || n == 366
    ensures n == 366 <==> Bissexto(y)
  {
    if Bissexto(y) then 366 else 365
  }

  /** The length of month `mi` (0-based, as `getMonth` counts) in year `y`. */
  function DiasNoMes(y: int, mi: int): (n: int)
    requires 0 <= mi < 12
    ensures 28 <= n <= 31
    ensures mi == 1 ==> (n == 29 <==> Bissexto(y))
  {
    if mi == 1 then (if Bissexto(y) then 29 else 28)
    else if mi == 3 || mi == 5 || mi == 8 || mi == 10 then 30
    else 31
  }

  /** The days of a common year before the first of month `mi`. */
  function DiasAntesComum(mi: int): int
    requires 0 <= mi < 12
  {
    if mi == 0 then 0 else if mi == 1 then 31 else if mi == 2 then 59 else if mi == 3 then 90
    else if mi == 4 then 120 else if mi == 5 then 151 else if mi == 6 then 181 else if mi == 7 then 212
    else if mi == 8 then 243 else if mi == 9 then 273 else if mi == 10 then 304 else 334
  }

  /** The days of year `y` before the first of month `mi`. */
  function DiasAntesDoMes(y: int, mi: int): (n: int)
    requires 0 <= mi < 12
    ensures 0 <= n <= 335
  {
    DiasAntesComum(mi) + (if mi >= 2 && Bissexto(y) then 1 else 0)
  }

  /** Each month starts where the one before it ends. */
  lemma PassoDoMes(y: int, mi: int)
    requires 0 < mi < 12
    ensures DiasAntesDoMes(y, mi) == DiasAntesDoMes(y, mi - 1) + DiasNoMes(y, mi - 1)
  {
  }

  /** DayFromYear: the day number of 1 January of year `y`. */
  function DiaDoAno(y: int): int {
    365 * (y - 1970) + (y - 1969) / 4 - (y - 1901) / 100 + (y - 1601) / 400
  }

  /** MakeDay(y, m, d) for integral arguments: the day number `new Date(y, m, d)` falls on. */
  function FazerDia(y: int, m: int, d: int): int {
    var ym := y + m / 12;
    var mn := m % 12;
    DiaDoAno(ym) + DiasAntesDoMes(ym, mn) + d - 1
  }

  /** `new Date(y, m, d).getTime()`: local midnight of that day. */
  function MeiaNoite(y: int, m: int, d: int): int {
    FazerDia(y, m, d) * MsPorDia
  }

  /** Day(t): the day number of time value `t`. */
  function DiaDe(t: int): int {
    t / MsPorDia
  }

  /** WeekDay(t) by day number: 0 is Sunday (1 January 1970 was a Thursday). */
  function DiaDaSemana(dia: int): (w: int)
    ensures 0 <= w < 7
  {
    (dia + 4) % 7
  }

  /** `Math.ceil(x / d)` for an integer `x` and a positive `d`. */
  function Teto(x: int, d: int): (r: int)
    requires d > 0
    ensures (r - 1) * d < x <= r * d
  {
    -((-x) / d)
  }

  /**
   * `differenceInDays(a, b)` of date-fns: the whole days between the two
   * instants, truncated toward zero (without a daylight-saving shift).
   */
  function DiferencaEmDias(a: int, b: int): (r: int)
    ensures a >= b ==> r >= 0 && r * MsPorDia <= a - b < (r + 1) * MsPorDia
    ensures a < b ==> r <= 0 && (r - 1) * MsPorDia < a - b <= r * MsPorDia
  {
    if a >= b then (a - b) / MsPorDia else -((b - a) / MsPorDia)
  }

  /** `t` lies in local year `y`: `new Date(t).getFullYear() == y`. */
  predicate NoAno(t: int, y: int) {
    DiaDoAno(y) * MsPorDia <= t < DiaDoAno(y + 1) * MsPorDia
  }

  // ---------------------------------------------------------------------
  // Facts about the calendar
  // ---------------------------------------------------------------------

  lemma PassoDiv4(y: int)
    ensures (y - 1968) / 4 == (y - 1969) / 4 + (if y % 4 == 0 then 1 else 0)
  {
  }

  lemma PassoDiv100(y: int)
    ensures (y - 1900) / 100 == (y - 1901) / 100 + (if y % 100 == 0 then 1 else 0)
  {
  }

  lemma PassoDiv400(y: int)
    ensures (y - 1600) / 400 == (y - 1601) / 400 + (if y % 400 == 0 then 1 else 0)
  {
  }

  /** A multiple of 400 is a multiple of 100. */
  lemma Multiplo400(y: int)
    requires y % 400 == 0
    ensures y % 100 == 0
  {
    var k := y / 400;
    assert y == 100 * (4 * k);
  }

  /** A multiple of 100 is a multiple of 4. */
  lemma Multiplo100(y: int)
    requires y % 100 == 0
    ensures y % 4 == 0
  {
    var k := y / 100;
    assert y == 4 * (25 * k);
  }

  /** The step from one 1 January to the next, by the three correction terms. */
  lemma PassoDoAno(y: int)
    ensures DiaDoAno(y + 1) == DiaDoAno(y) + 365 + (if y % 4 == 0 then 1 else 0)
      - (if y % 100 == 0 then 1 else 0) + (if y % 400 == 0 then 1 else 0)
  {
    PassoDiv4(y);
    PassoDiv100(y);
    PassoDiv400(y);
    assert y + 1 - 1969 == y - 1968 && y + 1 - 1901 == y - 1900 && y + 1 - 1601 == y - 1600;
  }

  /** Consecutive years are as far apart as the first one is long. */
  lemma DiaDoAnoSeguinte(y: int)
    ensures DiaDoAno(y + 1) == DiaDoAno(y) + DiasNoAno(y)
  {
    PassoDoAno(y);
    if y % 400 == 0 {
      Multiplo400(y);
    }
    if y % 100 == 0 {
      Multiplo100(y);
    }
  }

  /** Every year is a non-empty range of days, so later years start later. */
  lemma {:induction false} DiaDoAnoCrescente(y: int, z: int)
    requires y < z
    ensures DiaDoAno(y) + 365 <= DiaDoAno(z)
    decreases z - y
  {
    DiaDoAnoSeguinte(y);
    if y + 1 < z {
      DiaDoAnoCrescente(y + 1, z);
    }
  }

  /** The year of an instant is unique. */
  lemma NoAnoUnico(t: int, y: int, z: int)
    requires NoAno(t, y) && NoAno(t, z)
    ensures y == z
  {
    if y < z {
      DiaDoAnoCrescente(y, z - 1);
      DiaDoAnoSeguinte(z - 1);
    } else if z < y {
      DiaDoAnoCrescente(z, y - 1);
      DiaDoAnoSeguinte(y - 1);
    }
  }

  /** The months of a year fill it exactly. */
  lemma DiasAntesDezembro(y: int)
    ensures DiasAntesDoMes(y, 11) + DiasNoMes(y, 11) == DiasNoAno(y)
  {
  }

  /** For a month index in 0..11 MakeDay adds no year. */
  lemma FazerDiaNoMes(y: int, mi: int, d: int)
    requires 0 <= mi < 12
    ensures FazerDia(y, mi, d) == DiaDoAno(y) + DiasAntesDoMes(y, mi) + d - 1
  {
    assert mi / 12 == 0 && mi % 12 == mi;
  }

  /** Month index 12 is January of the next year. */
  lemma FazerDiaDoze(y: int, d: int)
    ensures FazerDia(y, 12, d) == DiaDoAno(y + 1) + d - 1
  {
    assert 12 / 12 == 1 && 12 % 12 == 0;
  }

  /** A date whose month index is in 0..11 and day in 1..31 falls inside that year. */
  lemma FazerDiaNoAno(y: int, mi: int, d: int)
    requires 0 <= mi < 12 && 1 <= d <= 31
    ensures DiaDoAno(y) <= FazerDia(y, mi, d) < DiaDoAno(y + 1) + 31
  {
    DiaDoAnoSeguinte(y);
    FazerDiaNoMes(y, mi, d);
  }

  /**
   * MakeDay rolls an overflowing day into the following month:
   * day `d` of month `mi` is day `d - DiasNoMes` of month `mi + 1`.
   */
  lemma TransbordaMes(y: int, mi: int, d: int)
    requires 0 <= mi < 12
    ensures FazerDia(y, mi, d) == FazerDia(y, mi + 1, d - DiasNoMes(y, mi))
  {
    var n := DiasNoMes(y, mi);
    FazerDiaNoMes(y, mi, d);
    if mi == 11 {
      TransbordaDezembro(y, d);
    } else {
      FazerDiaNoMes(y, mi + 1, d - n);
      PassoDoMes(y, mi + 1);
    }
  }

  /** The December case: past 31 December comes January of the next year. */
  lemma TransbordaDezembro(y: int, d: int)
    ensures DiaDoAno(y) + DiasAntesDoMes(y, 11) + d - 1 == FazerDia(y, 12, d - 31)
  {
    FazerDiaDoze(y, d - 31);
    DiaDoAnoSeguinte(y);
    DiasAntesDezembro(y);
  }

  /** In a common year `new Date(y, 1, 29)` is 1 March. */
  lemma VinteENoveDeFevereiro(y: int)
    requires !Bissexto(y)
    ensures FazerDia(y, 1, 29) == FazerDia(y, 2, 1)
  {
    TransbordaMes(y, 1, 29);
  }

  /** In a leap year 29 February is its own day, the one before 1 March. */
  lemma VinteENoveDeFevereiroBissexto(y: int)
    requires Bissexto(y)
    ensures FazerDia(y, 1, 29) + 1 == FazerDia(y, 2, 1)
  {
    FazerDiaNoMes(y, 1, 29);
    FazerDiaNoMes(y, 2, 1);
  }

  /** The day number of local midnight is the day itself. */
  lemma DiaDaMeiaNoite(y: int, m: int, d: int)
    ensures DiaDe(MeiaNoite(y, m, d)) == FazerDia(y, m, d)
  {
  }

  /** Whole-day counts over non-negative gaps: the ceiling is 0 only for a zero gap. */
  lemma TetoZero(x: int, d: int)
    requires d > 0 && x >= 0
    ensures Teto(x, d) >= 0
    ensures Teto(x, d) == 0 <==> x == 0
  {
  }
}
