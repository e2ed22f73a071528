/**
 * The "next occurrence" of a yearly (dia, mes) date, which four client
 * places compute in the same way: build `new Date(anoAtual, mes - 1, dia)`,
 * and when that instant lies before "today" take the same date a year
 * later. The days left are then `Math.ceil((proxima - agora) / msPerDay)`.
 *
 * The code compares with the current instant `agora`, so on the birthday
 * itself, any time after midnight, the occurrence moves to the next year
 * (see Findings in README). `ProximaOcorrenciaComoEscrita` keeps that
 * comparison, and the screens are built on it; `ProximaOcorrencia`
 * compares with the start of the current day, as evidently intended.
 */
module Recorrencia {
  import opened Calendario

  /** Local midnight of the day `t` falls in. */
  function InicioDoDia(t: int): (r: int)
    ensures r <= t < r + MsPorDia
    ensures DiaDe(r) == DiaDe(t)
  {
    DiaDe(t) * MsPorDia
  }

  /** `new Date(anoAtual, mes - 1, dia)` */
  function EsteAno(anoAtual: int, dia: int, mes: int): int {
    MeiaNoite(anoAtual, mes - 1, dia)
  }

  /** The instant lies in `anoAtual`, and the date has a month and a day of month in range. */
  predicate DataNoAno(agora: int, anoAtual: int, dia: int, mes: int) {
    NoAno(agora, anoAtual) && 1 <= mes <= 12 && 1 <= dia <= 31
  }

  /** Next year's date lies after every instant of the current year. */
  lemma AnoSeguinteDepois(agora: int, anoAtual: int, dia: int, mes: int)
    ensures DataNoAno(agora, anoAtual, dia, mes) ==> MeiaNoite(anoAtual + 1, mes - 1, dia) > agora
  {
    if DataNoAno(agora, anoAtual, dia, mes) {
      FazerDiaNoAno(anoAtual + 1, mes - 1, dia);
    }
  }

  /** A local midnight is the start of its own day. */
  lemma MeiaNoiteExata(y: int, m: int, d: int)
    ensures DiaDe(MeiaNoite(y, m, d)) * MsPorDia == MeiaNoite(y, m, d)
  {
    var x := FazerDia(y, m, d);
    assert x * MsPorDia / MsPorDia == x;
  }

  /**
   * From now to a later (or the current) midnight, rounding up the gap to
   * whole days counts calendar days; none are left only at that midnight.
   */
  lemma DiasAteMeiaNoite(t: int, agora: int)
    requires DiaDe(t) * MsPorDia == t && t >= agora
    ensures DiaDe(t) >= DiaDe(agora)
    ensures Teto(t - agora, MsPorDia) == DiaDe(t) - DiaDe(agora)
    ensures Teto(t - agora, MsPorDia) == 0 <==> t == agora
  {
    assert DiaDe(agora) * MsPorDia <= agora;
    TetoDias(DiaDe(t), agora);
  }

  // ---------------------------------------------------------------------
  // As written: `if (aniversarioEsteAno < hoje)`
  // ---------------------------------------------------------------------

  /**
   * The occurrence is a midnight, never before now; it is this year's date
   * exactly when that is not before now.
   */
  function ProximaOcorrenciaComoEscrita(agora: int, anoAtual: int, dia: int, mes: int): (r: int)
    ensures DiaDe(r) * MsPorDia == r
    ensures DataNoAno(agora, anoAtual, dia, mes) ==> r >= agora
    ensures DataNoAno(agora, anoAtual, dia, mes) ==>
      (r == EsteAno(anoAtual, dia, mes) <==> EsteAno(anoAtual, dia, mes) >= agora)
  {
    AnoSeguinteDepois(agora, anoAtual, dia, mes);
    MeiaNoiteExata(anoAtual, mes - 1, dia);
    MeiaNoiteExata(anoAtual + 1, mes - 1, dia);
    if EsteAno(anoAtual, dia, mes) < agora then MeiaNoite(anoAtual + 1, mes - 1, dia)
    else EsteAno(anoAtual, dia, mes)
  }

  /**
   * `diasParaAniversario` as written: the calendar days from today to the
   * occurrence the code picks (rounding up to a midnight counts whole days),
   * never negative, and 0 only when now is exactly that midnight.
   */
  function DiasComoEscrito(agora: int, anoAtual: int, dia: int, mes: int): (r: int)
    ensures DataNoAno(agora, anoAtual, dia, mes) ==>
      r == DiaDe(ProximaOcorrenciaComoEscrita(agora, anoAtual, dia, mes)) - DiaDe(agora)
    ensures DataNoAno(agora, anoAtual, dia, mes) ==> r >= 0
    ensures DataNoAno(agora, anoAtual, dia, mes) ==> (r == 0 <==> agora == EsteAno(anoAtual, dia, mes))
  {
    var t := ProximaOcorrenciaComoEscrita(agora, anoAtual, dia, mes);
    if DataNoAno(agora, anoAtual, dia, mes) then
      DiasAteMeiaNoite(t, agora);
      AnoSeguinteDepois(agora, anoAtual, dia, mes);
      Teto(t - agora, MsPorDia)
    else
      Teto(t - agora, MsPorDia)
  }

  /**
   * The discrepancy: a birthday on 10 June 2024, one millisecond after
   * midnight of that day, is placed on 10 June 2025, 365 days away.
   */
  lemma AniversarioHojeViraAnoQueVem()
    ensures ProximaOcorrenciaComoEscrita(MeiaNoite(2024, 5, 10) + 1, 2024, 10, 6) == MeiaNoite(2025, 5, 10)
    ensures DiasComoEscrito(MeiaNoite(2024, 5, 10) + 1, 2024, 10, 6) == 365
    ensures DiasPara(MeiaNoite(2024, 5, 10) + 1, 2024, 10, 6) == 0
  {
    DezDeJunho();
    var agora := 19884 * MsPorDia + 1;
    assert DiaDe(agora) == 19884;
    TetoDias(20249, agora);
    TetoDias(19884, agora);
  }

  /** The day numbers of 10 June 2024 and 10 June 2025. */
  lemma DezDeJunho()
    ensures FazerDia(2024, 5, 10) == 19884
    ensures FazerDia(2025, 5, 10) == 20249
  {
    assert DiaDoAno(2024) == 19723 by {}
    assert DiaDoAno(2025) == 20089 by {}
    assert DiasAntesDoMes(2024, 5) == 152 by {}
    assert DiasAntesDoMes(2025, 5) == 151 by {}
    assert 5 / 12 == 0 && 5 % 12 == 5;
  }

  // ---------------------------------------------------------------------
  // Corrected: compare with the start of the current day
  // ---------------------------------------------------------------------

  /**
   * This year's date unless it lies before today, otherwise next year's:
   * a midnight not before today's, this year's exactly when that is not
   * before today's midnight.
   */
  function ProximaOcorrencia(agora: int, anoAtual: int, dia: int, mes: int): (r: int)
    ensures DiaDe(r) * MsPorDia == r
    ensures DataNoAno(agora, anoAtual, dia, mes) ==> r >= InicioDoDia(agora)
    ensures DataNoAno(agora, anoAtual, dia, mes) ==>
      (r == EsteAno(anoAtual, dia, mes) <==> EsteAno(anoAtual, dia, mes) >= InicioDoDia(agora))
  {
    AnoSeguinteDepois(agora, anoAtual, dia, mes);
    MeiaNoiteExata(anoAtual, mes - 1, dia);
    MeiaNoiteExata(anoAtual + 1, mes - 1, dia);
    if EsteAno(anoAtual, dia, mes) < InicioDoDia(agora) then MeiaNoite(anoAtual + 1, mes - 1, dia)
    else EsteAno(anoAtual, dia, mes)
  }

  /**
   * `Math.ceil((proxima - agora) / msPerDay)` over the corrected occurrence:
   * the calendar days from today to it, never negative, and 0 exactly on
   * the day itself.
   */
  function DiasPara(agora: int, anoAtual: int, dia: int, mes: int): (r: int)
    ensures DataNoAno(agora, anoAtual, dia, mes) ==>
      r == DiaDe(ProximaOcorrencia(agora, anoAtual, dia, mes)) - DiaDe(agora)
    ensures DataNoAno(agora, anoAtual, dia, mes) ==> r >= 0
    ensures DataNoAno(agora, anoAtual, dia, mes) ==> (r == 0 <==> FazerDia(anoAtual, mes - 1, dia) == DiaDe(agora))
  {
    var t := ProximaOcorrencia(agora, anoAtual, dia, mes);
    if DataNoAno(agora, anoAtual, dia, mes) then
      assert DiaDe(t) >= DiaDe(agora) by {
        assert DiaDe(agora) * MsPorDia == InicioDoDia(agora);
      }
      TetoDias(DiaDe(t), agora);
      AnoSeguinteDepois(agora, anoAtual, dia, mes);
      MeiaNoiteExata(anoAtual, mes - 1, dia);
      Teto(t - agora, MsPorDia)
    else
      Teto(t - agora, MsPorDia)
  }

  /** Rounding up the gap to a later (or the current) midnight counts calendar days. */
  lemma TetoDias(d: int, agora: int)
    requires d >= DiaDe(agora)
    ensures Teto(d * MsPorDia - agora, MsPorDia) == d - DiaDe(agora)
  {
    var a := DiaDe(agora);
    var q := Teto(d * MsPorDia - agora, MsPorDia);
    assert a * MsPorDia <= agora < a * MsPorDia + MsPorDia;
    assert (q - 1) * MsPorDia < d * MsPorDia - agora <= q * MsPorDia;
    assert (q - 1) * MsPorDia < (d - a) * MsPorDia;
    assert (d - a - 1) * MsPorDia < q * MsPorDia;
  }

  /**
   * The corrected rule differs from the written one only on the birthday
   * itself after midnight: in every other case both pick the same instant.
   */
  lemma CorrecaoSoNoProprioDia(agora: int, anoAtual: int, dia: int, mes: int)
    requires NoAno(agora, anoAtual) && 1 <= mes <= 12 && 1 <= dia <= 31
    ensures ProximaOcorrencia(agora, anoAtual, dia, mes) != ProximaOcorrenciaComoEscrita(agora, anoAtual, dia, mes)
      <==> FazerDia(anoAtual, mes - 1, dia) == DiaDe(agora) && EsteAno(anoAtual, dia, mes) < agora
  {
    AnoSeguinteDepois(agora, anoAtual, dia, mes);
    var e := EsteAno(anoAtual, dia, mes);
    assert e == FazerDia(anoAtual, mes - 1, dia) * MsPorDia;
    assert DiaDe(e) == FazerDia(anoAtual, mes - 1, dia);
  }

  /**
   * A 29 February that the current year lacks rolls over to 1 March through
   * the Date constructor, in both the written and the corrected rule.
   */
  lemma VinteENoveViraPrimeiroDeMarco(agora: int, anoAtual: int)
    requires !Bissexto(anoAtual)
    ensures EsteAno(anoAtual, 29, 2) == MeiaNoite(anoAtual, 2, 1)
    ensures MeiaNoite(anoAtual, 2, 1) >= agora ==>
      ProximaOcorrenciaComoEscrita(agora, anoAtual, 29, 2) == MeiaNoite(anoAtual, 2, 1)
    ensures MeiaNoite(anoAtual, 2, 1) >= InicioDoDia(agora) ==>
      ProximaOcorrencia(agora, anoAtual, 29, 2) == MeiaNoite(anoAtual, 2, 1)
  {
    VinteENoveDeFevereiro(anoAtual);
  }
}
