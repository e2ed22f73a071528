/**
 * `POST /pdf/calendario` (`server/routes/pdf.ts`): checks the request,
 * picks the list or the calendar view, names the file, and lays the month
 * grids out. The HTML text itself is not modelled; what is modelled is
 * which cells the grids emit and what each day cell holds.
 *
 * A day cell draws at most 3 events and 2 birthdays, but the code counts
 * the hidden items as `total - 5` (see Findings in README):
 * `MaisComoEscrito` keeps that count, and the cells below use it; `Mais`
 * is the number of items actually left out, as evidently intended.
 */
module RotaPdf {
  import opened Util
  import opened Calendario
  import opened Ordenacao
  import opened Api
  import opened Grade

  /** The body fields the route reads; `tipo` and `formato` may be absent. */
  datatype Pedido = Pedido(tipo: Option<string>, formato: Option<string>, mes: Option<int>, ano: int)

  datatype Visao = Lista | CalendarioMensal | CalendarioAnual

  /** The answer: 400, or the chosen view and the file name. */
  datatype Saida = DadosInvalidos | Html(visao: Visao, nomeArquivo: string)

  /** JavaScript truthiness of an optional string. */
  predicate Informado(s: Option<string>) {
    s.Some? && s.value != ""
  }

  /** `String(mes)`, which is "undefined" for a missing month. */
  function MesTexto(mes: Option<int>): string {
    if mes.Some? then IntParaTexto(mes.value) else "undefined"
  }

  /**
   * `calendario_{tipo}_{ano}`, with `_MM` for a monthly export; the route
   * adds `.html`, the client export `.pdf`.
   */
  function NomeCalendario(tipo: string, ano: int, mes: Option<int>, extensao: string): string {
    "calendario_" + tipo + "_" + IntParaTexto(ano) + (if tipo == "mensal" then "_" + PadDois(MesTexto(mes)) else "") + extensao
  }

  /** The extension is appended to the same base name. */
  lemma NomeComExtensao(tipo: string, ano: int, mes: Option<int>, extensao: string)
    ensures NomeCalendario(tipo, ano, mes, extensao) == NomeCalendario(tipo, ano, mes, "") + extensao
  {
    var base := "calendario_" + tipo + "_" + IntParaTexto(ano) + (if tipo == "mensal" then "_" + PadDois(MesTexto(mes)) else "");
    assert base + "" == base;
  }

  /** For a month 1..12 the monthly suffix is exactly two digits. */
  lemma SufixoDoisDigitos(mes: int)
    requires 1 <= mes <= 12
    ensures mes < 10 ==> PadDois(MesTexto(Some(mes))) == ['0', Digito(mes)]
    ensures mes >= 10 ==> PadDois(MesTexto(Some(mes))) == ['1', Digito(mes - 10)]
    ensures |PadDois(MesTexto(Some(mes)))| == 2
  {
    if mes >= 10 {
      assert mes / 10 == 1 && mes % 10 == mes - 10;
      assert NatParaTexto(mes) == NatParaTexto(1) + [Digito(mes - 10)];
    }
  }

  /** `gerarPDFCalendario` */
  function GerarPdf(p: Pedido): (r: Saida)
    ensures r == DadosInvalidos <==> !Informado(p.tipo) || !Informado(p.formato)
    ensures r.Html? ==> (r.visao == Lista <==> p.formato.value == "lista")
    ensures r.Html? ==> (r.visao == CalendarioMensal <==> p.formato.value != "lista" && p.tipo.value == "mensal")
    ensures r.Html? ==> r.nomeArquivo == NomeCalendario(p.tipo.value, p.ano, p.mes, ".html")
  {
    if !Informado(p.tipo) || !Informado(p.formato) then DadosInvalidos
    else
      var visao :=
        if p.formato.value == "lista" then Lista
        else if p.tipo.value == "mensal" then CalendarioMensal
        else CalendarioAnual;
      Html(visao, NomeCalendario(p.tipo.value, p.ano, p.mes, ".html"))
  }

  /** A calendar request with a period: the grid of that period, named with `.html`. */
  lemma PedidoDeCalendario(tipo: string, ano: int, mes: Option<int>)
    requires tipo != ""
    ensures GerarPdf(Pedido(Some(tipo), Some("calendario"), mes, ano))
      == Html(if tipo == "mensal" then CalendarioMensal else CalendarioAnual, NomeCalendario(tipo, ano, mes, "") + ".html")
  {
    NomeComExtensao(tipo, ano, mes, ".html");
    assert "calendario" != "lista" by { assert "calendario"[0] != "lista"[0]; }
  }

  /** The comparator `a.mes - b.mes`, then `a.dia - b.dia`. */
  function PorMesEDia(): Aniversario -> Chave {
    (a: Aniversario) => Chave(a.mes, a.dia)
  }

  /**
   * `aniversariosHTML`'s rows: the birthdays sorted by month, then day,
   * and the same birthdays as the input.
   */
  function ListaDeAniversarios(aniversarios: seq<Aniversario>): (r: seq<Aniversario>)
    ensures forall i, j :: 0 <= i < j < |r| ==>
      r[i].mes < r[j].mes || (r[i].mes == r[j].mes && r[i].dia <= r[j].dia)
    ensures multiset(r) == multiset(aniversarios)
  {
    Ordenar(aniversarios, PorMesEDia())
  }

  // ---------------------------------------------------------------------
  // The month grid
  // ---------------------------------------------------------------------

  /** A grid cell: an empty cell, or day `dia` with what it shows. */
  datatype CelulaHtml<C> = Vazia | Dia(dia: int, conteudo: C)

  /**
   * Cell `k` of a month whose 1st falls on weekday `p` and which has `n`
   * days: blank before the 1st and after the last day, day `k - p + 1`
   * in between.
   */
  function CelulaEsperada<C>(p: int, n: int, conteudo: int -> C, k: int): CelulaHtml<C> {
    if k < p || k >= p + n then Vazia else Dia(k - p + 1, conteudo(k - p + 1))
  }

  /** How many days the first `k` cells have used. */
  function Emitidos(p: int, n: int, k: int): int {
    if k <= p then 0 else if k - p <= n then k - p else n
  }

  /**
   * The nested loops of `gerarHTMLCalendarioMensal` and of each month of
   * `gerarHTMLCalendarioAnual`: six weeks at most, seven cells a week, and
   * a `break` after the week in which the last day was written.
   */
  method MontarGrade<C>(p: int, n: int, conteudo: int -> C) returns (celulas: seq<CelulaHtml<C>>)
    requires 0 <= p < 7 && 28 <= n <= 31
    ensures |celulas| % 7 == 0 && p + n <= |celulas| < p + n + 7 && |celulas| <= 42
    ensures forall k :: 0 <= k < |celulas| ==> celulas[k] == CelulaEsperada(p, n, conteudo, k)
  {
    celulas := [];
    var diaAtual := 1;
    var semana := 0;
    while semana < 6
      invariant 0 <= semana <= 6
      invariant |celulas| == 7 * semana && 7 * semana < p + n
      invariant forall k :: 0 <= k < |celulas| ==> celulas[k] == CelulaEsperada(p, n, conteudo, k)
      invariant diaAtual == Emitidos(p, n, 7 * semana) + 1
    {
      var diaSemana := 0;
      while diaSemana < 7
        invariant 0 <= diaSemana <= 7
        invariant |celulas| == 7 * semana + diaSemana
        invariant forall k :: 0 <= k < |celulas| ==> celulas[k] == CelulaEsperada(p, n, conteudo, k)
        invariant diaAtual == Emitidos(p, n, 7 * semana + diaSemana) + 1
      {
        if (semana == 0 && diaSemana < p) || diaAtual > n {
          celulas := celulas + [Vazia];
        } else {
          celulas := celulas + [Dia(diaAtual, conteudo(diaAtual))];
          diaAtual := diaAtual + 1;
        }
        diaSemana := diaSemana + 1;
      }
      semana := semana + 1;
      if diaAtual > n {
        break;
      }
    }
  }

  /** Every day of the month is in the grid once, in its place; nothing else is a day. */
  lemma CadaDiaUmaVez<C>(p: int, n: int, conteudo: int -> C, celulas: seq<CelulaHtml<C>>)
    requires 0 <= p && 0 <= n && p + n <= |celulas|
    requires forall k :: 0 <= k < |celulas| ==> celulas[k] == CelulaEsperada(p, n, conteudo, k)
    ensures forall d :: 1 <= d <= n ==> celulas[p + d - 1] == Dia(d, conteudo(d))
    ensures forall k :: 0 <= k < |celulas| && celulas[k].Dia? ==>
      1 <= celulas[k].dia <= n && k == p + celulas[k].dia - 1
    ensures forall k :: 0 <= k < p ==> celulas[k] == Vazia
  {
    forall d | 1 <= d <= n ensures celulas[p + d - 1] == Dia(d, conteudo(d)) {
      assert CelulaEsperada(p, n, conteudo, p + d - 1) == Dia(d, conteudo(d));
    }
  }

  // ---------------------------------------------------------------------
  // What a day cell holds
  // ---------------------------------------------------------------------

  /** The event starts on that day (the abstract local date of `dataHoraInicio`). */
  function ComecaEm(dia: int): Evento -> bool {
    (e: Evento) => DiaDe(e.inicio) == dia
  }

  /** `eventosDoDia`: the events starting on that day, in table order. */
  function EventosDoDia(eventos: seq<Evento>, ano: int, mi: int, dia: int): (r: seq<Evento>)
    ensures forall e :: e in r <==> e in eventos && DiaDe(e.inicio) == FazerDia(ano, mi, dia)
  {
    FiltrarPertencem(eventos, ComecaEm(FazerDia(ano, mi, dia)));
    Filtrar(eventos, ComecaEm(FazerDia(ano, mi, dia)))
  }

  function DoDiaEMes(dia: int, mes: Option<int>): Aniversario -> bool {
    (a: Aniversario) => mes.Some? && a.dia == dia && a.mes == mes.value
  }

  /** `aniversariosDoDia`: compares with the request's `mes`, so none when it is absent. */
  function AniversariosDoDia(aniversarios: seq<Aniversario>, dia: int, mes: Option<int>): (r: seq<Aniversario>)
    ensures forall a :: a in r <==> a in aniversarios && mes.Some? && a.dia == dia && a.mes == mes.value
    ensures mes.None? ==> r == []
  {
    FiltrarPertencem(aniversarios, DoDiaEMes(dia, mes));
    FiltrarVazio(aniversarios, DoDiaEMes(dia, mes));
    Filtrar(aniversarios, DoDiaEMes(dia, mes))
  }

  /** `s.slice(0, n)` */
  function Primeiros<T>(s: seq<T>, n: nat): (r: seq<T>)
    ensures |r| == if |s| < n then |s| else n
    ensures r == s[..|r|]
  {
    if |s| < n then s else s[..n]
  }

  /** How many items a day cell draws: at most 3 events and at most 2 birthdays. */
  function Mostrados(ev: nat, bd: nat): (r: nat)
    ensures r <= ev + bd && r <= 5
  {
    (if ev < 3 then ev else 3) + (if bd < 2 then bd else 2)
  }

  /**
   * As written: "+N mais" iff the cell has more than 5 items, with
   * N = total - 5. It never announces more than is hidden, and it accounts
   * for every item exactly when both kinds fill their slots or neither
   * overflows.
   */
  function MaisComoEscrito(ev: nat, bd: nat): (r: Option<int>)
    ensures r.Some? ==> r.value > 0
    ensures Mostrados(ev, bd) + (if r.Some? then r.value else 0) <= ev + bd
    ensures Mostrados(ev, bd) + (if r.Some? then r.value else 0) == ev + bd
      <==> (ev >= 3 && bd >= 2) || (ev <= 3 && bd <= 2)
  {
    if ev + bd > 5 then Some(ev + bd - 5) else None
  }

  /**
   * The discrepancy: 4 events draw 3 and announce nothing, so one event is
   * hidden without a trace; 6 events draw 3 and announce only 1 more.
   */
  lemma MaisComoEscritoOmite()
    ensures Mostrados(4, 0) == 3 && MaisComoEscrito(4, 0) == None
    ensures Mostrados(6, 0) == 3 && MaisComoEscrito(6, 0) == Some(1)
    ensures Mostrados(0, 3) == 2 && MaisComoEscrito(0, 3) == None
  {
  }

  /** Corrected: "+N mais" iff something is left out, with N the items left out. */
  function Mais(ev: nat, bd: nat): (r: Option<int>)
    ensures r.Some? <==> ev > 3 || bd > 2
    ensures r.Some? ==> r.value > 0 && Mostrados(ev, bd) + r.value == ev + bd
    ensures r.None? ==> Mostrados(ev, bd) == ev + bd
  {
    var ocultos := ev + bd - Mostrados(ev, bd);
    if ocultos > 0 then Some(ocultos) else None
  }

  /** The two counts agree only when both kinds fill their slots. */
  lemma MaisConcordaQuandoCheio(ev: nat, bd: nat)
    ensures ev >= 3 && bd >= 2 ==> Mais(ev, bd) == MaisComoEscrito(ev, bd)
    ensures Mais(ev, bd) == MaisComoEscrito(ev, bd) <==> (ev >= 3 && bd >= 2) || (ev <= 3 && bd <= 2)
  {
  }

  /** A day cell of the monthly view. */
  datatype ConteudoDia = ConteudoDia(eventos: seq<Evento>, aniversarios: seq<Aniversario>, mais: Option<int>)

  /**
   * The content of each day cell of the monthly view: the first 3 events
   * starting that day and the first 2 birthdays, in table order, with the
   * "+N mais" of `MaisComoEscrito`.
   */
  function ConteudoMensal(eventos: seq<Evento>, aniversarios: seq<Aniversario>, ano: int, mi: int, mes: Option<int>): (r: int -> ConteudoDia)
    ensures forall dia :: |r(dia).eventos| <= 3 && r(dia).eventos <= EventosDoDia(eventos, ano, mi, dia)
    ensures forall dia :: |r(dia).aniversarios| <= 2 && r(dia).aniversarios <= AniversariosDoDia(aniversarios, dia, mes)
    ensures forall dia :: var n := |EventosDoDia(eventos, ano, mi, dia)|;
      |r(dia).eventos| == (if n < 3 then n else 3)
    ensures forall dia :: var n := |AniversariosDoDia(aniversarios, dia, mes)|;
      |r(dia).aniversarios| == (if n < 2 then n else 2)
    ensures forall dia ::
      r(dia).mais == MaisComoEscrito(|EventosDoDia(eventos, ano, mi, dia)|, |AniversariosDoDia(aniversarios, dia, mes)|)
  {
    (dia: int) =>
      var evs := EventosDoDia(eventos, ano, mi, dia);
      var bds := AniversariosDoDia(aniversarios, dia, mes);
      ConteudoDia(Primeiros(evs, 3), Primeiros(bds, 2), MaisComoEscrito(|evs|, |bds|))
  }

  /** `(mes || 1) - 1`: the month shown, 0-based. */
  function MesMostrado(mes: Option<int>): (mi: int)
    requires mes.None? || 0 <= mes.value <= 12
    ensures 0 <= mi < 12
    ensures mes.Some? && mes.value != 0 ==> mi == mes.value - 1
    ensures mes.None? || mes.value == 0 ==> mi == 0
  {
    if mes.None? || mes.value == 0 then 0 else mes.value - 1
  }

  /** `gerarHTMLCalendarioMensal`: the grid of the requested month. */
  method CalendarioDoMes(eventos: seq<Evento>, aniversarios: seq<Aniversario>, ano: int, mes: Option<int>)
    returns (celulas: seq<CelulaHtml<ConteudoDia>>)
    requires mes.None? || 0 <= mes.value <= 12
    ensures |celulas| % 7 == 0 && |celulas| <= 42
    ensures forall k :: 0 <= k < |celulas| ==> celulas[k] == CelulaEsperada(
      PrimeiroDiaSemana(ano, MesMostrado(mes)), DiasNoMes(ano, MesMostrado(mes)),
      ConteudoMensal(eventos, aniversarios, ano, MesMostrado(mes), mes), k)
  {
    var mi := MesMostrado(mes);
    celulas := MontarGrade(PrimeiroDiaSemana(ano, mi), DiasNoMes(ano, mi), ConteudoMensal(eventos, aniversarios, ano, mi, mes));
  }

  /**
   * A day cell draws at most 3 of the events starting that day and at most
   * 2 of its birthdays. What it draws and announces never exceeds what the
   * day has, and accounts for all of it exactly when both kinds fill their
   * slots or neither overflows.
   */
  lemma ConteudoDoDia(eventos: seq<Evento>, aniversarios: seq<Aniversario>, ano: int, mi: int, mes: Option<int>, dia: int)
    ensures var c := ConteudoMensal(eventos, aniversarios, ano, mi, mes)(dia);
      |c.eventos| <= 3 && |c.aniversarios| <= 2
      && (forall e :: e in c.eventos ==> e in eventos && DiaDe(e.inicio) == FazerDia(ano, mi, dia))
      && (forall a :: a in c.aniversarios ==> a in aniversarios && mes.Some? && a.dia == dia && a.mes == mes.value)
      && |c.eventos| + |c.aniversarios| + (if c.mais.Some? then c.mais.value else 0)
         <= |EventosDoDia(eventos, ano, mi, dia)| + |AniversariosDoDia(aniversarios, dia, mes)|
    ensures var c := ConteudoMensal(eventos, aniversarios, ano, mi, mes)(dia);
      var ev := |EventosDoDia(eventos, ano, mi, dia)|;
      var bd := |AniversariosDoDia(aniversarios, dia, mes)|;
      (|c.eventos| + |c.aniversarios| + (if c.mais.Some? then c.mais.value else 0) == ev + bd)
        == ((ev >= 3 && bd >= 2) || (ev <= 3 && bd <= 2))
  {
  }


  // ---------------------------------------------------------------------
  // The year view
  // ---------------------------------------------------------------------

  /** A mini day is marked `has-events` when an event starts on it or a birthday falls on it. */
  function Marcacao(eventos: seq<Evento>, aniversarios: seq<Aniversario>, ano: int, mi: int): int -> bool {
    (dia: int) =>
      |EventosDoDia(eventos, ano, mi, dia)| > 0 || |AniversariosDoDia(aniversarios, dia, Some(mi + 1))| > 0
  }

  /** Marked exactly when some event starts that day or some birthday has that day and month. */
  lemma MarcadoSe(eventos: seq<Evento>, aniversarios: seq<Aniversario>, ano: int, mi: int, dia: int)
    ensures Marcacao(eventos, aniversarios, ano, mi)(dia) <==>
      (exists e :: e in eventos && DiaDe(e.inicio) == FazerDia(ano, mi, dia))
      || (exists a :: a in aniversarios && a.dia == dia && a.mes == mi + 1)
  {
    var evs := EventosDoDia(eventos, ano, mi, dia);
    var bds := AniversariosDoDia(aniversarios, dia, Some(mi + 1));
    if e :| e in eventos && DiaDe(e.inicio) == FazerDia(ano, mi, dia) {
      FiltrarPertence(eventos, ComecaEm(FazerDia(ano, mi, dia)), e);
    }
    if a :| a in aniversarios && a.dia == dia && a.mes == mi + 1 {
      FiltrarPertence(aniversarios, DoDiaEMes(dia, Some(mi + 1)), a);
    }
    if |evs| > 0 {
      FiltrarPertence(eventos, ComecaEm(FazerDia(ano, mi, dia)), evs[0]);
    }
    if |bds| > 0 {
      FiltrarPertence(aniversarios, DoDiaEMes(dia, Some(mi + 1)), bds[0]);
    }
  }

  /** `gerarHTMLCalendarioAnual`: the twelve month grids, each laid out by the same rule. */
  method CalendarioDoAno(eventos: seq<Evento>, aniversarios: seq<Aniversario>, ano: int)
    returns (meses: seq<seq<CelulaHtml<bool>>>)
    ensures |meses| == 12
    ensures forall i :: 0 <= i < 12 ==> |meses[i]| % 7 == 0 && |meses[i]| <= 42
    ensures forall i, k :: 0 <= i < 12 && 0 <= k < |meses[i]| ==> meses[i][k] == CelulaEsperada(
      PrimeiroDiaSemana(ano, i), DiasNoMes(ano, i), Marcacao(eventos, aniversarios, ano, i), k)
  {
    meses := [];
    var i := 0;
    while i < 12
      invariant 0 <= i <= 12 && |meses| == i
      invariant forall j :: 0 <= j < i ==> |meses[j]| % 7 == 0 && |meses[j]| <= 42
      invariant forall j, k :: 0 <= j < i && 0 <= k < |meses[j]| ==> meses[j][k] == CelulaEsperada(
        PrimeiroDiaSemana(ano, j), DiasNoMes(ano, j), Marcacao(eventos, aniversarios, ano, j), k)
    {
      var grade := MontarGrade(PrimeiroDiaSemana(ano, i), DiasNoMes(ano, i), Marcacao(eventos, aniversarios, ano, i));
      meses := meses + [grade];
      i := i + 1;
    }
  }
}
