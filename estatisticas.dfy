/**
 * The birthday statistics card (`EstatisticasAniversarios.tsx`): over the
 * users with a birth date, the total, the birthdays of this month and of
 * the next, those of the coming week, and the month with the most
 * birthdays.
 *
 * As written, the loop calls `parseISO`, which the file never imports, so
 * the first user with a birth date throws and the card keeps no statistics
 * (see Findings in README). `EstatisticasComoEscritas` models that;
 * `CarregarEstatisticas` computes what the loop evidently means to, with
 * `parseISO` available and every other line as written.
 */
module Estatisticas {
  import opened Util
  import opened Calendario
  import opened Recorrencia
  import opened Api

  datatype MesPopular = MesPopular(mes: int, quantidade: int, nome: string)

  datatype Resumo = Resumo(
    totalAniversariantes: int,
    aniversariosEsteMes: int,
    aniversariosProximoMes: int,
    aniversariosProximos7Dias: int,
    mesComMaisAniversarios: MesPopular)

  const NomesMeses: seq<string> := [
    "Janeiro", "Fevereiro", "Março", "Abril", "Maio", "Junho",
    "Julho", "Agosto", "Setembro", "Outubro", "Novembro", "Dezembro"]

  /** `mesAtual === 12 ? 1 : mesAtual + 1`: the month after, wrapping December to January. */
  function ProximoMes(mesAtual: int): (r: int)
    requires 1 <= mesAtual <= 12
    ensures 1 <= r <= 12
    ensures r == mesAtual % 12 + 1
  {
    if mesAtual == 12 then 1 else mesAtual + 1
  }

  /**
   * A birth date `parseISO` accepts: a real calendar day. Any other stored
   * text parses to an Invalid Date, whose `getMonth()` and `getDate()` are
   * NaN.
   */
  predicate DataValida(d: DataCivil) {
    1 <= d.mes <= 12 && 1 <= d.dia <= DiasNoMes(d.ano, d.mes - 1)
  }

  /** A user whose birth date parses to a real date. */
  function Legivel(): UsuarioPublico -> bool {
    (u: UsuarioPublico) => u.dataNascimento.Some? && DataValida(u.dataNascimento.value)
  }

  function TemData(): UsuarioPublico -> bool {
    (u: UsuarioPublico) => u.dataNascimento.Some?
  }

  /** `usuariosComAniversario` */
  function ComData(usuarios: seq<UsuarioPublico>): (r: seq<UsuarioPublico>)
    ensures forall k :: 0 <= k < |r| ==> r[k].dataNascimento.Some?
  {
    Filtrar(usuarios, TemData())
  }

  /**
   * The parsed month is `m`. An Invalid Date's month is NaN, equal to no
   * month.
   */
  function NoMes(m: int): UsuarioPublico -> bool {
    (u: UsuarioPublico) => u.dataNascimento.Some? && DataValida(u.dataNascimento.value) && u.dataNascimento.value.mes == m
  }

  /**
   * The next occurrence of the birth date, picked as the code does (this
   * year's unless it lies before now), is at most 7 days away. For an
   * Invalid Date the day count is NaN, and `NaN <= 7` is false.
   */
  function EmSeteDias(agora: int, anoAtual: int): UsuarioPublico -> bool {
    (u: UsuarioPublico) =>
      u.dataNascimento.Some? && DataValida(u.dataNascimento.value)
      && DiasComoEscrito(agora, anoAtual, u.dataNascimento.value.dia, u.dataNascimento.value.mes) <= 7
  }

  /**
   * A user counts in the week exactly when the occurrence the code picks
   * falls within 7 calendar days of today; on the birthday itself after
   * midnight that occurrence is next year's, so the user is not counted.
   */
  lemma EmSeteDiasSe(u: UsuarioPublico, agora: int, anoAtual: int)
    requires NoAno(agora, anoAtual)
    requires u.dataNascimento.Some? && DataValida(u.dataNascimento.value)
    ensures EmSeteDias(agora, anoAtual)(u) <==>
      DiaDe(ProximaOcorrenciaComoEscrita(agora, anoAtual, u.dataNascimento.value.dia, u.dataNascimento.value.mes))
        <= DiaDe(agora) + 7
  {
    var n := u.dataNascimento.value;
    assert n.dia <= 31;
  }

  // ---------------------------------------------------------------------
  // As written
  // ---------------------------------------------------------------------

  /**
   * The card as written: `None` (no statistics, after the `catch`) as soon
   * as one user has a birth date; otherwise all counts are 0 and January is
   * the most popular month.
   */
  function EstatisticasComoEscritas(usuarios: seq<UsuarioPublico>): (r: Option<Resumo>)
    ensures r.Some? <==> forall k :: 0 <= k < |usuarios| ==> usuarios[k].dataNascimento.None?
    ensures r.Some? ==> r.value.totalAniversariantes == |ComData(usuarios)|
  {
    FiltrarVazio(usuarios, TemData());
    if ComData(usuarios) != [] then None
    else Some(Resumo(0, 0, 0, 0, MesPopular(1, 0, "Janeiro")))
  }

  /**
   * The discrepancy: a single user born on 15 March 2000 leaves the card
   * without statistics, while that user is one birthday to count.
   */
  lemma ParseIsoNaoImportado(u: UsuarioPublico)
    requires u.dataNascimento == Some(DataCivil(2000, 3, 15))
    ensures EstatisticasComoEscritas([u]).None?
    ensures |ComData([u])| == 1 && Contar(ComData([u]), NoMes(3)) == 1
  {
    assert ComData([u]) == [u];
    assert Filtrar([u], NoMes(3)) == [u];
  }

  // ---------------------------------------------------------------------
  // Corrected
  // ---------------------------------------------------------------------

  /** The twelve month counters over `s`, January first. */
  function PorMes(s: seq<UsuarioPublico>): seq<nat> {
    seq(12, k requires 0 <= k < 12 => Contar(s, NoMes(k + 1)))
  }

  /**
   * One more user with a valid birth date adds one to the counter of its
   * month; one with an Invalid Date changes none of the twelve.
   */
  lemma PorMesPasso(s: seq<UsuarioPublico>, i: nat)
    requires i < |s| && s[i].dataNascimento.Some?
    ensures !DataValida(s[i].dataNascimento.value) ==> PorMes(s[..i + 1]) == PorMes(s[..i])
    ensures var idx := s[i].dataNascimento.value.mes - 1;
      DataValida(s[i].dataNascimento.value) ==>
      PorMes(s[..i + 1]) == PorMes(s[..i])[idx := PorMes(s[..i])[idx] + 1]
  {
    if !DataValida(s[i].dataNascimento.value) {
      forall k | 0 <= k < 12 ensures PorMes(s[..i + 1])[k] == PorMes(s[..i])[k] {
        ContarPasso(s, i, NoMes(k + 1));
      }
      return;
    }
    var idx := s[i].dataNascimento.value.mes - 1;
    var a, b := PorMes(s[..i]), PorMes(s[..i + 1]);
    forall k | 0 <= k < 12 ensures b[k] == a[idx := a[idx] + 1][k] {
      ContarPasso(s, i, NoMes(k + 1));
    }
  }

  /**
   * One more user adds one to each running count whose condition it meets;
   * a user with an Invalid Date meets none of them.
   */
  lemma ContagensPasso(s: seq<UsuarioPublico>, i: nat, mesAtual: int, proximoMes: int, agora: int, anoAtual: int)
    requires i < |s| && s[i].dataNascimento.Some?
    ensures var n := s[i].dataNascimento.value;
      Contar(s[..i + 1], NoMes(mesAtual))
        == Contar(s[..i], NoMes(mesAtual)) + (if DataValida(n) && n.mes == mesAtual then 1 else 0)
    ensures var n := s[i].dataNascimento.value;
      Contar(s[..i + 1], NoMes(proximoMes))
        == Contar(s[..i], NoMes(proximoMes)) + (if DataValida(n) && n.mes == proximoMes then 1 else 0)
    ensures var n := s[i].dataNascimento.value;
      Contar(s[..i + 1], EmSeteDias(agora, anoAtual))
        == Contar(s[..i], EmSeteDias(agora, anoAtual))
          + (if DataValida(n) && DiasComoEscrito(agora, anoAtual, n.dia, n.mes) <= 7 then 1 else 0)
  {
    ContarPasso(s, i, NoMes(mesAtual));
    ContarPasso(s, i, NoMes(proximoMes));
    ContarPasso(s, i, EmSeteDias(agora, anoAtual));
  }

  /**
   * The body of the `forEach` for one birth date: a valid date adds one to
   * its month's counter and to each running count whose test it passes;
   * an Invalid Date changes nothing.
   */
  method ContarUm(contador: array<int>, nascimento: DataCivil, mesAtual: int, proximoMes: int, agora: int, anoAtual: int,
                  esteMes: int, noProximo: int, emSete: int)
    returns (esteMes': int, noProximo': int, emSete': int)
    requires contador.Length == 12
    modifies contador
    ensures DataValida(nascimento) ==>
      contador[..] == old(contador[..])[nascimento.mes - 1 := old(contador[..])[nascimento.mes - 1] + 1]
    ensures !DataValida(nascimento) ==> contador[..] == old(contador[..])
    ensures esteMes' == esteMes + (if DataValida(nascimento) && nascimento.mes == mesAtual then 1 else 0)
    ensures noProximo' == noProximo + (if DataValida(nascimento) && nascimento.mes == proximoMes then 1 else 0)
    ensures emSete' == emSete
      + (if DataValida(nascimento) && DiasComoEscrito(agora, anoAtual, nascimento.dia, nascimento.mes) <= 7 then 1 else 0)
  {
    esteMes', noProximo', emSete' := esteMes, noProximo, emSete;
    if DataValida(nascimento) {
      var idx := nascimento.mes - 1;
      contador[idx] := contador[idx] + 1;
      if nascimento.mes == mesAtual {
        esteMes' := esteMes' + 1;
      }
      if nascimento.mes == proximoMes {
        noProximo' := noProximo' + 1;
      }
      if DiasComoEscrito(agora, anoAtual, nascimento.dia, nascimento.mes) <= 7 {
        emSete' := emSete' + 1;
      }
    }
  }

  /**
   * The `forEach` of `carregarEstatisticas` with `parseISO` available: the
   * twelve month counters (`contadorPorMes[m]` at index `m - 1`) and the
   * three running counts. A birth date that is not a calendar day parses
   * to an Invalid Date: its month is NaN, so it goes to a `contadorPorMes`
   * key outside 1..12 that the second loop never picks (`NaN > q` is
   * false), and every comparison with it is false.
   */
  method ContarAniversarios(comData: seq<UsuarioPublico>, mesAtual: int, proximoMes: int, agora: int, anoAtual: int)
    returns (contadores: seq<int>, esteMes: int, noProximo: int, emSete: int)
    requires forall k :: 0 <= k < |comData| ==> comData[k].dataNascimento.Some?
    ensures |contadores| == 12
    ensures forall m :: 1 <= m <= 12 ==> contadores[m - 1] == Contar(comData, NoMes(m))
    ensures forall k :: 0 <= k < 12 ==> contadores[k] >= 0
    ensures esteMes == Contar(comData, NoMes(mesAtual))
    ensures noProximo == Contar(comData, NoMes(proximoMes))
    ensures emSete == Contar(comData, EmSeteDias(agora, anoAtual))
  {
    var contador := new int[12](_ => 0);
    esteMes, noProximo, emSete := 0, 0, 0;
    var i := 0;
    assert comData[..0] == [];
    while i < |comData|
      invariant 0 <= i <= |comData|
      invariant contador[..] == PorMes(comData[..i])
      invariant esteMes == Contar(comData[..i], NoMes(mesAtual))
      invariant noProximo == Contar(comData[..i], NoMes(proximoMes))
      invariant emSete == Contar(comData[..i], EmSeteDias(agora, anoAtual))
    {
      PorMesPasso(comData, i);
      ContagensPasso(comData, i, mesAtual, proximoMes, agora, anoAtual);
      esteMes, noProximo, emSete :=
        ContarUm(contador, comData[i].dataNascimento.value, mesAtual, proximoMes, agora, anoAtual, esteMes, noProximo, emSete);
      i := i + 1;
    }
    assert comData[..i] == comData;
    contadores := contador[..];
    forall m | 1 <= m <= 12 ensures contadores[m - 1] == Contar(comData, NoMes(m)) {
      assert contadores[m - 1] == PorMes(comData)[m - 1];
    }
  }

  /**
   * The second loop: the first month whose counter exceeds every earlier
   * one (strict `>`), starting from January with 0.
   */
  method MesComMais(contadores: seq<int>) returns (melhor: MesPopular)
    requires |contadores| == 12
    requires forall k :: 0 <= k < 12 ==> contadores[k] >= 0
    ensures 1 <= melhor.mes <= 12 && melhor.nome == NomesMeses[melhor.mes - 1]
    ensures melhor.quantidade == contadores[melhor.mes - 1]
    ensures forall k :: 0 <= k < 12 ==> contadores[k] <= melhor.quantidade
    ensures forall k :: 0 <= k < melhor.mes - 1 ==> contadores[k] < melhor.quantidade
  {
    melhor := MesPopular(1, 0, "Janeiro");
    var m := 1;
    while m <= 12
      invariant 1 <= m <= 13
      invariant 1 <= melhor.mes <= 12 && melhor.nome == NomesMeses[melhor.mes - 1]
      invariant melhor.quantidade >= 0
      invariant forall k :: 0 <= k < m - 1 ==> contadores[k] <= melhor.quantidade
      invariant melhor.quantidade == 0 ==> melhor.mes == 1
      invariant melhor.quantidade > 0 ==> melhor.mes < m && contadores[melhor.mes - 1] == melhor.quantidade
      invariant forall k :: 0 <= k < melhor.mes - 1 ==> contadores[k] < melhor.quantidade
    {
      if contadores[m - 1] > melhor.quantidade {
        melhor := MesPopular(m, contadores[m - 1], NomesMeses[m - 1]);
      }
      m := m + 1;
    }
  }

  /**
   * `carregarEstatisticas` with `parseISO` available: the total, the
   * counts for this month, the next month and the coming week, and the
   * most popular month, all over the users with a birth date. A birth
   * date that is not a calendar day counts in the total only.
   */
  method CarregarEstatisticas(usuarios: seq<UsuarioPublico>, agora: int, anoAtual: int, mesAtual: int)
    returns (r: Resumo)
    requires 1 <= mesAtual <= 12
    ensures r.totalAniversariantes == |ComData(usuarios)|
    ensures r.aniversariosEsteMes == Contar(ComData(usuarios), NoMes(mesAtual))
    ensures r.aniversariosProximoMes == Contar(ComData(usuarios), NoMes(ProximoMes(mesAtual)))
    ensures r.aniversariosProximos7Dias == Contar(ComData(usuarios), EmSeteDias(agora, anoAtual))
    ensures 1 <= r.mesComMaisAniversarios.mes <= 12
    ensures r.mesComMaisAniversarios.nome == NomesMeses[r.mesComMaisAniversarios.mes - 1]
    ensures r.mesComMaisAniversarios.quantidade == Contar(ComData(usuarios), NoMes(r.mesComMaisAniversarios.mes))
    ensures forall m :: 1 <= m <= 12 ==> Contar(ComData(usuarios), NoMes(m)) <= r.mesComMaisAniversarios.quantidade
    ensures forall m :: 1 <= m < r.mesComMaisAniversarios.mes ==>
      Contar(ComData(usuarios), NoMes(m)) < r.mesComMaisAniversarios.quantidade
  {
    var comData := ComData(usuarios);
    var contadores, esteMes, noProximo, emSete := ContarAniversarios(comData, mesAtual, ProximoMes(mesAtual), agora, anoAtual);
    forall k | 0 <= k < 12 ensures contadores[k] == Contar(comData, NoMes(k + 1)) {
      assert contadores[(k + 1) - 1] == Contar(comData, NoMes(k + 1));
    }
    var melhor := MesComMais(contadores);
    forall m | 1 <= m <= 12 ensures Contar(comData, NoMes(m)) == contadores[m - 1] {
    }
    r := Resumo(|comData|, esteMes, noProximo, emSete, melhor);
  }

  /** The sum of the counters of months 1 to `m`. */
  function SomaMeses(s: seq<UsuarioPublico>, m: nat): nat {
    if m == 0 then 0 else SomaMeses(s, m - 1) + Contar(s, NoMes(m))
  }

  /** One more user adds one to exactly one of the first `m` month counters, if any. */
  lemma {:induction false} SomaMesesCabeca(u: UsuarioPublico, s: seq<UsuarioPublico>, m: nat)
    ensures SomaMeses([u] + s, m) == SomaMeses(s, m)
      + (if Legivel()(u) && 1 <= u.dataNascimento.value.mes <= m then 1 else 0)
  {
    if m > 0 {
      SomaMesesCabeca(u, s, m - 1);
      assert ([u] + s)[1..] == s;
    }
  }

  lemma {:induction false} SomaMesesVazia(m: nat)
    ensures SomaMeses([], m) == 0
  {
    if m > 0 {
      SomaMesesVazia(m - 1);
    }
  }

  /**
   * Every user with a valid birth date increments exactly one of the twelve
   * counters and every other user none, so the counters add up to the
   * number of valid birth dates: the total when all are valid, less than
   * it by one for each Invalid Date.
   */
  lemma {:induction false} ContadoresSomamTotal(s: seq<UsuarioPublico>)
    ensures SomaMeses(s, 12) == Contar(s, Legivel())
    ensures (forall k :: 0 <= k < |s| ==> Legivel()(s[k])) ==> SomaMeses(s, 12) == |s|
  {
    if s != [] {
      ContadoresSomamTotal(s[1..]);
      SomaMesesCabeca(s[0], s[1..], 12);
      assert [s[0]] + s[1..] == s;
    } else {
      SomaMesesVazia(12);
    }
    if forall k :: 0 <= k < |s| ==> Legivel()(s[k]) {
      FiltrarTodos(s, Legivel());
    }
  }

  /**
   * A birth date stored as 30 February 2000 is counted in the total but in
   * no month and not in the coming week.
   */
  lemma TrintaDeFevereiro(u: UsuarioPublico, agora: int, anoAtual: int)
    requires u.dataNascimento == Some(DataCivil(2000, 2, 30))
    ensures |ComData([u])| == 1
    ensures SomaMeses(ComData([u]), 12) == 0
    ensures Contar(ComData([u]), EmSeteDias(agora, anoAtual)) == 0
  {
    assert ComData([u]) == [u];
    assert !Legivel()(u);
    ContadoresSomamTotal([u]);
  }
}
