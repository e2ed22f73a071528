/**
 * The 6 x 7 month grid every calendar view draws: weeks start on Sunday,
 * the first row opens with the last days of the previous month and the
 * grid closes with the first days of the next one. Cell `i` is day
 * `InicioDaGrade + i`; `CelulaDe` names its month and its day of month.
 */
module Grade {
  import opened Calendario

  /** `new Date(ano, mi, 1).getDay()`: the weekday of the 1st (0 is Sunday). */
  function PrimeiroDiaSemana(ano: int, mi: int): (p: int)
    ensures 0 <= p < 7
  {
    DiaDaSemana(FazerDia(ano, mi, 1))
  }

  /** `startOfWeek(primeiro, { weekStartsOn: 0 })`: the Sunday on or before the 1st. */
  function InicioDaGrade(ano: int, mi: int): (d: int)
    ensures d <= FazerDia(ano, mi, 1) < d + 7
    ensures DiaDaSemana(d) == 0
  {
    var x := FazerDia(ano, mi, 1);
    DomingoAnterior(x);
    x - DiaDaSemana(x)
  }

  /** Going back by its weekday from any day lands on a Sunday. */
  lemma DomingoAnterior(x: int)
    ensures DiaDaSemana(x - DiaDaSemana(x)) == 0
  {
    var w := (x + 4) % 7;
    assert x + 4 == 7 * ((x + 4) / 7) + w;
    assert x - w + 4 == 7 * ((x + 4) / 7);
  }

  /** `new Date(ano, mi, 0).getDate()`: the length of the previous month. */
  function DiasMesAnterior(ano: int, mi: int): (n: int)
    requires 0 <= mi < 12
    ensures 28 <= n <= 31
  {
    if mi == 0 then DiasNoMes(ano - 1, 11) else DiasNoMes(ano, mi - 1)
  }

  /** Day `d` of a month is `d - 1` days after its 1st. */
  lemma DiasSeguidos(ano: int, mi: int, d: int)
    requires 0 <= mi < 12
    ensures FazerDia(ano, mi, d) == FazerDia(ano, mi, 1) + d - 1
  {
    assert mi / 12 == 0 && mi % 12 == mi;
  }

  /** Month -1 of a year is December of the year before. */
  lemma MesMenosUm(ano: int, d: int, anterior: int)
    requires anterior == ano - 1
    ensures FazerDia(ano, -1, d) == FazerDia(anterior, 11, d)
  {
    assert (-1) / 12 == -1 && (-1) % 12 == 11;
    assert 11 / 12 == 0 && 11 % 12 == 11;
  }

  /** Month 12 of a year is January of the year after. */
  lemma MesDoze(ano: int, d: int, seguinte: int)
    requires seguinte == ano + 1
    ensures FazerDia(ano, 12, d) == FazerDia(seguinte, 0, d)
  {
    assert 12 / 12 == 1 && 12 % 12 == 0;
    assert 0 / 12 == 0 && 0 % 12 == 0;
  }

  /** The day after the last day of month `mi` is the 1st of the next month. */
  lemma UltimoMaisUm(ano: int, mi: int, seguinte: int)
    requires 0 <= mi < 12 && seguinte == mi + 1
    ensures FazerDia(ano, mi, DiasNoMes(ano, mi)) + 1 == FazerDia(ano, seguinte, 1)
  {
    var n := DiasNoMes(ano, mi);
    TransbordaMes(ano, mi, n + 1);
    DiasSeguidos(ano, mi, n + 1);
    DiasSeguidos(ano, mi, n);
  }

  /** Day 0 of month `mi` is the last day of the month before it. */
  lemma DiaZeroEhUltimo(ano: int, mi: int)
    requires 0 <= mi < 12
    ensures FazerDia(ano, mi, 0) == FazerDia(ano, mi - 1, DiasMesAnterior(ano, mi))
    ensures FazerDia(ano, mi - 1, DiasMesAnterior(ano, mi)) + 1 == FazerDia(ano, mi, 1)
  {
    DiasSeguidos(ano, mi, 0);
    var m := DiasMesAnterior(ano, mi);
    var anterior := mi - 1;
    if mi == 0 {
      var a := ano - 1;
      MesMenosUm(ano, m, a);
      UltimoMaisUm(a, 11, 12);
      MesDoze(a, 1, ano);
    } else {
      UltimoMaisUm(ano, anterior, mi);
    }
  }

  /** Where a grid cell falls: in the previous, the current or the next month. */
  datatype Celula = Anterior(dia: int) | Atual(dia: int) | Seguinte(dia: int)

  /** The calendar date of cell `i` of the grid of month `mi`. */
  function CelulaDe(ano: int, mi: int, i: int): (c: Celula)
    requires 0 <= mi < 12 && 0 <= i < 42
    ensures c.Anterior? <==> i < PrimeiroDiaSemana(ano, mi)
    ensures c.Atual? <==> PrimeiroDiaSemana(ano, mi) <= i < PrimeiroDiaSemana(ano, mi) + DiasNoMes(ano, mi)
  {
    var p := PrimeiroDiaSemana(ano, mi);
    var n := DiasNoMes(ano, mi);
    if i < p then Anterior(DiasMesAnterior(ano, mi) - p + i + 1)
    else if i < p + n then Atual(i - p + 1)
    else Seguinte(i - p - n + 1)
  }

  /** The day number a cell stands for. */
  function DiaDaCelula(ano: int, mi: int, c: Celula): int {
    match c
    case Anterior(d) => FazerDia(ano, mi - 1, d)
    case Atual(d) => FazerDia(ano, mi, d)
    case Seguinte(d) => FazerDia(ano, mi + 1, d)
  }

  /**
   * Cell `i` is the `i`-th day from the grid's Sunday, and its day of month
   * is a real day of its month: the grid shows 42 consecutive days, the
   * current month's days in order and each exactly once.
   */
  lemma CelulaEhODia(ano: int, mi: int, i: int)
    requires 0 <= mi < 12 && 0 <= i < 42
    ensures DiaDaCelula(ano, mi, CelulaDe(ano, mi, i)) == InicioDaGrade(ano, mi) + i
    ensures CelulaDe(ano, mi, i).Anterior? ==> 1 <= CelulaDe(ano, mi, i).dia <= DiasMesAnterior(ano, mi)
    ensures CelulaDe(ano, mi, i).Atual? ==> 1 <= CelulaDe(ano, mi, i).dia <= DiasNoMes(ano, mi)
    ensures CelulaDe(ano, mi, i).Seguinte? ==> 1 <= CelulaDe(ano, mi, i).dia <= 14
  {
    var p := PrimeiroDiaSemana(ano, mi);
    var n := DiasNoMes(ano, mi);
    var c := CelulaDe(ano, mi, i);
    if i < p {
      DiaZeroEhUltimo(ano, mi);
      var m := DiasMesAnterior(ano, mi);
      if mi == 0 {
        MesMenosUm(ano, c.dia, ano - 1);
        MesMenosUm(ano, m, ano - 1);
        DiasSeguidos(ano - 1, 11, c.dia);
        DiasSeguidos(ano - 1, 11, m);
      } else {
        DiasSeguidos(ano, mi - 1, c.dia);
        DiasSeguidos(ano, mi - 1, m);
      }
    } else if i < p + n {
      DiasSeguidos(ano, mi, c.dia);
    } else {
      UltimoMaisUm(ano, mi, mi + 1);
      DiasSeguidos(ano, mi, n);
      if mi == 11 {
        MesDoze(ano, c.dia, ano + 1);
        MesDoze(ano, 1, ano + 1);
        DiasSeguidos(ano + 1, 0, c.dia);
      } else {
        DiasSeguidos(ano, mi + 1, c.dia);
      }
    }
  }
}
