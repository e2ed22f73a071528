/**
 * The export dialog (`ExportarCalendarioPDF.tsx`): which events and
 * birthdays go into the PDF (the kind selector and a chain of optional
 * filters), the departments and organs it offers, the birthday table, the
 * file name, and the day numbers of the month grid it draws. The PDF
 * drawing itself is not modelled.
 */
module ExportarPdf {
  import opened Util
  import opened Calendario
  import opened Ordenacao
  import opened Api
  import opened Grade
  import RotaPdf

  /** `tipo`: a monthly or a yearly export. */
  datatype Periodo = Mensal | Anual

  function NomeDoPeriodo(t: Periodo): string {
    match t
    case Mensal => "mensal"
    case Anual => "anual"
  }

  /** The three id lists the user ticks; an empty list means no filtering. */
  datatype Filtros = Filtros(igrejas: seq<string>, departamentos: seq<string>, orgaos: seq<string>)

  // ---------------------------------------------------------------------
  // The filter chain
  // ---------------------------------------------------------------------

  /** `x.departamentoId && lista.includes(x.departamentoId)`: present, non-empty and listed. */
  predicate Listado(id: Option<string>, lista: seq<string>) {
    id.Some? && id.value != "" && id.value in lista
  }

  /** The one rule behind the chain: each non-empty list must admit the item. */
  predicate Aceita(f: Filtros, igrejaId: string, departamentoId: Option<string>, orgaoId: Option<string>) {
    (f.igrejas == [] || igrejaId in f.igrejas)
    && (f.departamentos == [] || Listado(departamentoId, f.departamentos))
    && (f.orgaos == [] || Listado(orgaoId, f.orgaos))
  }

  /** `if (lista.length > 0) s = s.filter(p)` */
  function Etapa<T(==)>(s: seq<T>, lista: seq<string>, p: T -> bool): seq<T> {
    if |lista| > 0 then Filtrar(s, p) else s
  }

  function NaIgreja<T(==)>(f: Filtros, igreja: T -> string): T -> bool {
    (x: T) => igreja(x) in f.igrejas
  }

  function NoDepartamento<T>(f: Filtros, departamento: T -> Option<string>): T -> bool {
    (x: T) => Listado(departamento(x), f.departamentos)
  }

  function NoOrgao<T>(f: Filtros, orgao: T -> Option<string>): T -> bool {
    (x: T) => Listado(orgao(x), f.orgaos)
  }

  /** The church, department and organ filters, one after the other. */
  function Cadeia<T(==)>(s: seq<T>, f: Filtros, igreja: T -> string, departamento: T -> Option<string>, orgao: T -> Option<string>): seq<T> {
    Etapa(Etapa(Etapa(s, f.igrejas, NaIgreja(f, igreja)), f.departamentos, NoDepartamento(f, departamento)),
      f.orgaos, NoOrgao(f, orgao))
  }

  function AceitaItem<T>(f: Filtros, igreja: T -> string, departamento: T -> Option<string>, orgao: T -> Option<string>): T -> bool {
    (x: T) => Aceita(f, igreja(x), departamento(x), orgao(x))
  }

  /** An optional step is a filter by "the list is empty or the item passes". */
  lemma EtapaEhFiltro<T>(s: seq<T>, lista: seq<string>, p: T -> bool, q: T -> bool)
    requires forall x :: q(x) == (lista == [] || p(x))
    ensures Etapa(s, lista, p) == Filtrar(s, q)
  {
    if |lista| > 0 {
      FiltrarIgual(s, p, q);
    } else {
      FiltrarTodos(s, q);
    }
  }

  /**
   * The chain of optional filters keeps exactly the items `Aceita` admits,
   * in their order: one filter by the conjunction.
   */
  lemma CadeiaEhUmFiltro<T>(s: seq<T>, f: Filtros, igreja: T -> string, departamento: T -> Option<string>, orgao: T -> Option<string>)
    ensures Cadeia(s, f, igreja, departamento, orgao) == Filtrar(s, AceitaItem(f, igreja, departamento, orgao))
  {
    var pi := (x: T) => f.igrejas == [] || igreja(x) in f.igrejas;
    var pd := (x: T) => f.departamentos == [] || Listado(departamento(x), f.departamentos);
    var po := (x: T) => f.orgaos == [] || Listado(orgao(x), f.orgaos);
    var pid := (x: T) => pi(x) && pd(x);
    EtapaEhFiltro(s, f.igrejas, NaIgreja(f, igreja), pi);
    var a := Filtrar(s, pi);
    EtapaEhFiltro(a, f.departamentos, NoDepartamento(f, departamento), pd);
    FiltrarComposto(s, pi, pd, pid);
    var b := Filtrar(s, pid);
    EtapaEhFiltro(b, f.orgaos, NoOrgao(f, orgao), po);
    FiltrarComposto(s, pid, po, AceitaItem(f, igreja, departamento, orgao));
  }

  function IgrejaDoEvento(): Evento -> string { (e: Evento) => e.igrejaId }
  function DepartamentoDoEvento(): Evento -> Option<string> { (e: Evento) => e.departamentoId }
  function OrgaoDoEvento(): Evento -> Option<string> { (e: Evento) => e.orgaoId }
  function IgrejaDoAniversario(): Aniversario -> string { (a: Aniversario) => a.igrejaId }
  function DepartamentoDoAniversario(): Aniversario -> Option<string> { (a: Aniversario) => a.departamentoId }
  function OrgaoDoAniversario(): Aniversario -> Option<string> { (a: Aniversario) => a.orgaoId }

  function ComMes(mes: int): Aniversario -> bool {
    (a: Aniversario) => a.mes == mes
  }

  /** What goes into the PDF. */
  datatype Selecao = Selecao(eventos: seq<Evento>, aniversarios: seq<Aniversario>)

  /**
   * `gerarPDF`'s selection. `tipoExportacao` 0 exports events only, 1
   * birthdays only, 2 both; events come from the API for the period,
   * birthdays from the full list, narrowed to the month for a monthly
   * export.
   */
  function Selecionar(tipoExportacao: int, tipo: Periodo, mes: int, f: Filtros,
                      eventosDoPeriodo: seq<Evento>, aniversarios: seq<Aniversario>): (r: Selecao)
    requires 0 <= tipoExportacao <= 2
    ensures tipoExportacao == 1 ==> r.eventos == []
    ensures tipoExportacao == 0 ==> r.aniversarios == []
    ensures tipoExportacao != 1 ==>
      r.eventos == Filtrar(eventosDoPeriodo, AceitaItem(f, IgrejaDoEvento(), DepartamentoDoEvento(), OrgaoDoEvento()))
    ensures tipoExportacao != 0 ==> r.aniversarios == Filtrar(
      if tipo == Mensal then Filtrar(aniversarios, ComMes(mes)) else aniversarios,
      AceitaItem(f, IgrejaDoAniversario(), DepartamentoDoAniversario(), OrgaoDoAniversario()))
  {
    var doMes := if tipo == Mensal then Filtrar(aniversarios, ComMes(mes)) else aniversarios;
    CadeiaEhUmFiltro(eventosDoPeriodo, f, IgrejaDoEvento(), DepartamentoDoEvento(), OrgaoDoEvento());
    CadeiaEhUmFiltro(doMes, f, IgrejaDoAniversario(), DepartamentoDoAniversario(), OrgaoDoAniversario());
    Selecao(
      if tipoExportacao != 1 then Cadeia(eventosDoPeriodo, f, IgrejaDoEvento(), DepartamentoDoEvento(), OrgaoDoEvento()) else [],
      if tipoExportacao != 0 then Cadeia(doMes, f, IgrejaDoAniversario(), DepartamentoDoAniversario(), OrgaoDoAniversario()) else [])
  }

  /**
   * A birthday is exported exactly when birthdays are asked for, it is of
   * the chosen month (monthly only), and every non-empty list admits it.
   */
  lemma AniversarioExportadoSe(tipoExportacao: int, tipo: Periodo, mes: int, f: Filtros,
                               eventosDoPeriodo: seq<Evento>, aniversarios: seq<Aniversario>, a: Aniversario)
    requires 0 <= tipoExportacao <= 2
    ensures a in Selecionar(tipoExportacao, tipo, mes, f, eventosDoPeriodo, aniversarios).aniversarios <==>
      tipoExportacao != 0 && a in aniversarios && (tipo == Anual || a.mes == mes)
      && Aceita(f, a.igrejaId, a.departamentoId, a.orgaoId)
  {
    FiltrarPertence(aniversarios, ComMes(mes), a);
    var doMes := if tipo == Mensal then Filtrar(aniversarios, ComMes(mes)) else aniversarios;
    FiltrarPertence(doMes, AceitaItem(f, IgrejaDoAniversario(), DepartamentoDoAniversario(), OrgaoDoAniversario()), a);
  }

  /** An event is exported exactly when events are asked for and every non-empty list admits it. */
  lemma EventoExportadoSe(tipoExportacao: int, tipo: Periodo, mes: int, f: Filtros,
                          eventosDoPeriodo: seq<Evento>, aniversarios: seq<Aniversario>, e: Evento)
    requires 0 <= tipoExportacao <= 2
    ensures e in Selecionar(tipoExportacao, tipo, mes, f, eventosDoPeriodo, aniversarios).eventos <==>
      tipoExportacao != 1 && e in eventosDoPeriodo && Aceita(f, e.igrejaId, e.departamentoId, e.orgaoId)
  {
    FiltrarPertence(eventosDoPeriodo, AceitaItem(f, IgrejaDoEvento(), DepartamentoDoEvento(), OrgaoDoEvento()), e);
  }

  /** With no list ticked nothing is filtered out. */
  lemma SemFiltrosNadaSai(s: seq<Evento>)
    ensures Cadeia(s, Filtros([], [], []), IgrejaDoEvento(), DepartamentoDoEvento(), OrgaoDoEvento()) == s
  {
  }

  // ---------------------------------------------------------------------
  // The departments and organs offered
  // ---------------------------------------------------------------------

  /** A department or organ, tagged with its church's id and name. */
  datatype Disponivel = Disponivel(id: string, nome: string, igrejaId: string, igrejaNome: string)

  function DepartamentosDaIgreja(i: Igreja): seq<Disponivel> {
    seq(|i.departamentos|, k requires 0 <= k < |i.departamentos| =>
      Disponivel(i.departamentos[k].id, i.departamentos[k].nome, i.id, i.nome))
  }

  function OrgaosDaIgreja(i: Igreja): seq<Disponivel> {
    seq(|i.orgaos|, k requires 0 <= k < |i.orgaos| => Disponivel(i.orgaos[k].id, i.orgaos[k].nome, i.id, i.nome))
  }

  /** `flatMap` */
  function Achatar(igrejas: seq<Igreja>, g: Igreja -> seq<Disponivel>): (r: seq<Disponivel>) {
    if igrejas == [] then [] else g(igrejas[0]) + Achatar(igrejas[1..], g)
  }

  /** `flatMap` keeps church order: it acts on each part of the list separately. */
  lemma {:induction false} AchatarConcat(a: seq<Igreja>, b: seq<Igreja>, g: Igreja -> seq<Disponivel>)
    ensures Achatar(a + b, g) == Achatar(a, g) + Achatar(b, g)
  {
    if a == [] {
      assert a + b == b;
    } else {
      AchatarConcat(a[1..], b, g);
      assert (a + b)[1..] == a[1..] + b;
    }
  }

  /** An entry comes from some church of the list. */
  lemma {:induction false} AchatarPertence(igrejas: seq<Igreja>, g: Igreja -> seq<Disponivel>, x: Disponivel)
    ensures x in Achatar(igrejas, g) <==> exists k :: 0 <= k < |igrejas| && x in g(igrejas[k])
  {
    if igrejas != [] {
      AchatarPertence(igrejas[1..], g, x);
      if exists k :: 0 <= k < |igrejas| && x in g(igrejas[k]) {
        var k :| 0 <= k < |igrejas| && x in g(igrejas[k]);
        if k > 0 {
          assert igrejas[1..][k - 1] == igrejas[k];
        }
      }
      if x in Achatar(igrejas[1..], g) {
        var k :| 0 <= k < |igrejas| - 1 && x in g(igrejas[1..][k]);
        assert igrejas[k + 1] == igrejas[1..][k];
      }
    }
  }

  function Escolhida(filtro: seq<string>): Igreja -> bool {
    (i: Igreja) => filtro == [] || i.id in filtro
  }

  /** `departamentosDisponiveis` */
  function DepartamentosDisponiveis(igrejas: seq<Igreja>, filtro: seq<string>): seq<Disponivel> {
    Achatar(Filtrar(igrejas, Escolhida(filtro)), (i: Igreja) => DepartamentosDaIgreja(i))
  }

  /** `orgaosDisponiveis` */
  function OrgaosDisponiveis(igrejas: seq<Igreja>, filtro: seq<string>): seq<Disponivel> {
    Achatar(Filtrar(igrejas, Escolhida(filtro)), (i: Igreja) => OrgaosDaIgreja(i))
  }

  /** An entry is offered exactly when some chosen church contributes it. */
  lemma OferecidoSe(igrejas: seq<Igreja>, filtro: seq<string>, g: Igreja -> seq<Disponivel>, x: Disponivel)
    ensures x in Achatar(Filtrar(igrejas, Escolhida(filtro)), g) <==>
      exists i :: i in igrejas && (filtro == [] || i.id in filtro) && x in g(i)
  {
    var escolhidas := Filtrar(igrejas, Escolhida(filtro));
    AchatarPertence(escolhidas, g, x);
    if x in Achatar(escolhidas, g) {
      var k :| 0 <= k < |escolhidas| && x in g(escolhidas[k]);
      FiltrarPertence(igrejas, Escolhida(filtro), escolhidas[k]);
    }
    if exists i :: i in igrejas && (filtro == [] || i.id in filtro) && x in g(i) {
      var i :| i in igrejas && (filtro == [] || i.id in filtro) && x in g(i);
      FiltrarPertence(igrejas, Escolhida(filtro), i);
      var k :| 0 <= k < |escolhidas| && escolhidas[k] == i;
    }
  }

  /** A church contributes its own departments, tagged with it. */
  lemma DepartamentoDaIgreja(i: Igreja, x: Disponivel)
    ensures x in DepartamentosDaIgreja(i) <==> exists d :: d in i.departamentos && x == Disponivel(d.id, d.nome, i.id, i.nome)
  {
    if exists d :: d in i.departamentos && x == Disponivel(d.id, d.nome, i.id, i.nome) {
      var d :| d in i.departamentos && x == Disponivel(d.id, d.nome, i.id, i.nome);
      var j :| 0 <= j < |i.departamentos| && i.departamentos[j] == d;
      assert DepartamentosDaIgreja(i)[j] == x;
    }
  }

  /** A church contributes its own organs, tagged with it. */
  lemma OrgaoDaIgreja(i: Igreja, x: Disponivel)
    ensures x in OrgaosDaIgreja(i) <==> exists o :: o in i.orgaos && x == Disponivel(o.id, o.nome, i.id, i.nome)
  {
    if exists o :: o in i.orgaos && x == Disponivel(o.id, o.nome, i.id, i.nome) {
      var o :| o in i.orgaos && x == Disponivel(o.id, o.nome, i.id, i.nome);
      var j :| 0 <= j < |i.orgaos| && i.orgaos[j] == o;
      assert OrgaosDaIgreja(i)[j] == x;
    }
  }

  /**
   * The departments offered are those of the chosen churches (all when
   * none is ticked), each tagged with its church.
   */
  lemma DepartamentoOferecidoSe(igrejas: seq<Igreja>, filtro: seq<string>, x: Disponivel)
    ensures x in DepartamentosDisponiveis(igrejas, filtro) <==>
      exists i :: i in igrejas && (filtro == [] || i.id in filtro)
        && exists d :: d in i.departamentos && x == Disponivel(d.id, d.nome, i.id, i.nome)
  {
    OferecidoSe(igrejas, filtro, (i: Igreja) => DepartamentosDaIgreja(i), x);
    forall i ensures x in DepartamentosDaIgreja(i) <==> exists d :: d in i.departamentos && x == Disponivel(d.id, d.nome, i.id, i.nome) {
      DepartamentoDaIgreja(i, x);
    }
  }

  /** The same rule for organs. */
  lemma OrgaoOferecidoSe(igrejas: seq<Igreja>, filtro: seq<string>, x: Disponivel)
    ensures x in OrgaosDisponiveis(igrejas, filtro) <==>
      exists i :: i in igrejas && (filtro == [] || i.id in filtro)
        && exists o :: o in i.orgaos && x == Disponivel(o.id, o.nome, i.id, i.nome)
  {
    OferecidoSe(igrejas, filtro, (i: Igreja) => OrgaosDaIgreja(i), x);
    forall i ensures x in OrgaosDaIgreja(i) <==> exists o :: o in i.orgaos && x == Disponivel(o.id, o.nome, i.id, i.nome) {
      OrgaoDaIgreja(i, x);
    }
  }

  /** With no church ticked, every church contributes, in church order. */
  lemma SemFiltroTodasAsIgrejas(igrejas: seq<Igreja>)
    ensures DepartamentosDisponiveis(igrejas, []) == Achatar(igrejas, (i: Igreja) => DepartamentosDaIgreja(i))
    ensures OrgaosDisponiveis(igrejas, []) == Achatar(igrejas, (i: Igreja) => OrgaosDaIgreja(i))
  {
    FiltrarTodos(igrejas, Escolhida([]));
  }

  // ---------------------------------------------------------------------
  // The birthday table
  // ---------------------------------------------------------------------

  /** `calcularIdade`, guarded by `a.ano ?`: the age this year, or none. */
  function IdadeEmAnos(ano: Option<int>, anoAtual: int): (r: Option<int>)
    ensures r.Some? <==> ano.Some? && ano.value != 0
    ensures r.Some? ==> r.value + ano.value == anoAtual
  {
    if ano.Some? && ano.value != 0 then Some(anoAtual - ano.value) else None
  }

  /** The age column: the age's digits, or "-" without a year. */
  function Idade(ano: Option<int>, anoAtual: int): (r: string)
    ensures r == "-" <==> IdadeEmAnos(ano, anoAtual).None?
    ensures IdadeEmAnos(ano, anoAtual).Some? ==> r == IntParaTexto(IdadeEmAnos(ano, anoAtual).value)
  {
    match IdadeEmAnos(ano, anoAtual)
    case None => "-"
    case Some(n) => IntParaTexto(n)
  }

  /** A row of the table: date, name, church, age, notes. */
  datatype LinhaAniversario = LinhaAniversario(data: string, nome: string, igreja: string, idade: string, observacoes: string)

  function ComId(id: string): Igreja -> bool {
    (i: Igreja) => i.id == id
  }

  /** `igrejas.find((i) => i.id === a.igrejaId)?.nome || "-"` */
  function NomeDaIgreja(igrejas: seq<Igreja>, id: string): (r: string)
    ensures r != ""
    ensures (forall k :: 0 <= k < |igrejas| ==> igrejas[k].id != id) ==> r == "-"
    ensures forall k :: 0 <= k < |igrejas| && igrejas[k].id == id && (forall j :: 0 <= j < k ==> igrejas[j].id != id) ==>
      r == (if igrejas[k].nome == "" then "-" else igrejas[k].nome)
  {
    match PrimeiraPosicao(igrejas, ComId(id))
    case None => "-"
    case Some(k) => if igrejas[k].nome == "" then "-" else igrejas[k].nome
  }

  function LinhaDe(a: Aniversario, igrejas: seq<Igreja>, anoAtual: int): LinhaAniversario {
    LinhaAniversario(
      PadDois(IntParaTexto(a.dia)) + "/" + PadDois(IntParaTexto(a.mes)),
      a.nome,
      NomeDaIgreja(igrejas, a.igrejaId),
      Idade(a.ano, anoAtual),
      if a.observacoes.Some? && a.observacoes.value != "" then a.observacoes.value else "-")
  }

  /** `dadosAniversarios`: the birthdays sorted by month and day, one row each. */
  function LinhasAniversarios(aniversarios: seq<Aniversario>, igrejas: seq<Igreja>, anoAtual: int): (r: seq<LinhaAniversario>)
    ensures var s := Ordenar(aniversarios, RotaPdf.PorMesEDia());
      |r| == |aniversarios| && Ordenado(s, RotaPdf.PorMesEDia()) && multiset(s) == multiset(aniversarios)
      && forall k :: 0 <= k < |r| ==> r[k] == LinhaDe(s[k], igrejas, anoAtual)
  {
    var s := Ordenar(aniversarios, RotaPdf.PorMesEDia());
    seq(|s|, k requires 0 <= k < |s| => LinhaDe(s[k], igrejas, anoAtual))
  }

  // ---------------------------------------------------------------------
  // The file name
  // ---------------------------------------------------------------------

  /**
   * `nomeArquivo`: `calendario_{tipo}_{ano}.pdf`, with `_MM` for a monthly
   * export, the month always written with two digits; a yearly export has
   * no month in its name.
   */
  function NomeArquivo(tipo: Periodo, ano: int, mes: int): (r: string)
    requires 1 <= mes <= 12
    ensures tipo == Anual ==> r == "calendario_" + "anual" + "_" + IntParaTexto(ano) + ".pdf"
    ensures tipo == Mensal ==>
      (r == "calendario_" + "mensal" + "_" + IntParaTexto(ano) + "_"
        + (if mes < 10 then ['0', Digito(mes)] else ['1', Digito(mes - 10)]) + ".pdf")
  {
    assert "anual" != "mensal" by { assert "anual"[0] != "mensal"[0]; }
    RotaPdf.SufixoDoisDigitos(mes);
    var x := "calendario_" + "mensal" + "_" + IntParaTexto(ano);
    var d := PadDois(RotaPdf.MesTexto(Some(mes)));
    assert RotaPdf.NomeCalendario("mensal", ano, Some(mes), ".pdf") == x + ("_" + d) + ".pdf";
    assert x + ("_" + d) == x + "_" + d;
    RotaPdf.NomeCalendario(NomeDoPeriodo(tipo), ano, Some(mes), ".pdf")
  }

  /** The dialog's PDF and the route's HTML for the same request differ only in the extension. */
  lemma MesmoNomeQueARota(tipo: Periodo, ano: int, mes: int)
    requires 1 <= mes <= 12
    ensures var base := RotaPdf.NomeCalendario(NomeDoPeriodo(tipo), ano, Some(mes), "");
      NomeArquivo(tipo, ano, mes) == base + ".pdf"
      && RotaPdf.GerarPdf(RotaPdf.Pedido(Some(NomeDoPeriodo(tipo)), Some("calendario"), Some(mes), ano))
         == RotaPdf.Html(if tipo == Mensal then RotaPdf.CalendarioMensal else RotaPdf.CalendarioAnual, base + ".html")
  {
    var t := NomeDoPeriodo(tipo);
    RotaPdf.NomeComExtensao(t, ano, Some(mes), ".pdf");
    RotaPdf.PedidoDeCalendario(t, ano, Some(mes));
    match tipo
    case Mensal =>
    case Anual =>
      assert t != "mensal" by { assert "anual"[0] != "mensal"[0]; }
  }

  // ---------------------------------------------------------------------
  // The month grid of gerarPDFCalendarioLocal
  // ---------------------------------------------------------------------

  /** A cell: a greyed number of the previous or next month, or a day with its items. */
  datatype CelulaLocal = Fora(numero: int) | DoMes(dia: int, eventos: seq<Evento>, aniversarios: seq<Aniversario>)

  /** What cell `i` must show, by the calendar date `CelulaDe` gives it. */
  function CelulaLocalEsperada(eventos: seq<Evento>, aniversarios: seq<Aniversario>, ano: int, mes: int, i: int): CelulaLocal
    requires 1 <= mes <= 12 && 0 <= i < 42
  {
    match CelulaDe(ano, mes - 1, i)
    case Anterior(d) => Fora(d)
    case Atual(d) => DoMes(d, RotaPdf.EventosDoDia(eventos, ano, mes - 1, d), RotaPdf.AniversariosDoDia(aniversarios, d, Some(mes)))
    case Seguinte(d) => Fora(d)
  }

  /**
   * The 6 x 7 loop with the `diaAtual` counter: a blank cell before the
   * 1st shows `diasMesAnterior - primeiroDiaSemana + c + 1`, one after the
   * last day shows `posicao - primeiroDiaSemana - diasNoMes + 1`.
   */
  method GradeLocal(eventos: seq<Evento>, aniversarios: seq<Aniversario>, ano: int, mes: int) returns (celulas: seq<CelulaLocal>)
    requires 1 <= mes <= 12
    ensures |celulas| == 42
    ensures forall i :: 0 <= i < 42 ==> celulas[i] == CelulaLocalEsperada(eventos, aniversarios, ano, mes, i)
  {
    var mi := mes - 1;
    var diasNoMes := DiasNoMes(ano, mi);
    var primeiroDiaSemana := PrimeiroDiaSemana(ano, mi);
    var diasMesAnterior := DiasMesAnterior(ano, mi);
    celulas := [];
    var diaAtual := 1;
    for r := 0 to 6
      invariant |celulas| == 7 * r
      invariant diaAtual == RotaPdf.Emitidos(primeiroDiaSemana, diasNoMes, 7 * r) + 1
      invariant forall i :: 0 <= i < |celulas| ==> celulas[i] == CelulaLocalEsperada(eventos, aniversarios, ano, mes, i)
    {
      for c := 0 to 7
        invariant |celulas| == 7 * r + c
        invariant diaAtual == RotaPdf.Emitidos(primeiroDiaSemana, diasNoMes, 7 * r + c) + 1
        invariant forall i :: 0 <= i < |celulas| ==> celulas[i] == CelulaLocalEsperada(eventos, aniversarios, ano, mes, i)
      {
        var posicao := r * 7 + c;
        CelulaDaPosicao(eventos, aniversarios, ano, mes, r, c, diaAtual);
        if posicao < primeiroDiaSemana || diaAtual > diasNoMes {
          var numero := if posicao < primeiroDiaSemana then diasMesAnterior - primeiroDiaSemana + c + 1
            else posicao - primeiroDiaSemana - diasNoMes + 1;
          celulas := celulas + [Fora(numero)];
        } else {
          celulas := celulas + [DoMes(diaAtual, RotaPdf.EventosDoDia(eventos, ano, mi, diaAtual),
            RotaPdf.AniversariosDoDia(aniversarios, diaAtual, Some(mes)))];
          diaAtual := diaAtual + 1;
        }
      }
    }
  }

  /** One step of the loops below: the cell at row `r`, column `c` and how many days it writes. */
  lemma CelulaDaPosicao(eventos: seq<Evento>, aniversarios: seq<Aniversario>, ano: int, mes: int, r: int, c: int, diaAtual: int)
    requires 1 <= mes <= 12 && 0 <= r < 6 && 0 <= c < 7
    requires diaAtual == RotaPdf.Emitidos(PrimeiroDiaSemana(ano, mes - 1), DiasNoMes(ano, mes - 1), 7 * r + c) + 1
    ensures var p, n := PrimeiroDiaSemana(ano, mes - 1), DiasNoMes(ano, mes - 1);
      var posicao := r * 7 + c;
      if posicao < p || diaAtual > n then
        CelulaLocalEsperada(eventos, aniversarios, ano, mes, posicao)
          == Fora(if posicao < p then DiasMesAnterior(ano, mes - 1) - p + c + 1 else posicao - p - n + 1)
        && diaAtual == RotaPdf.Emitidos(p, n, posicao + 1) + 1
      else
        CelulaLocalEsperada(eventos, aniversarios, ano, mes, posicao)
          == DoMes(diaAtual, RotaPdf.EventosDoDia(eventos, ano, mes - 1, diaAtual), RotaPdf.AniversariosDoDia(aniversarios, diaAtual, Some(mes)))
        && diaAtual + 1 == RotaPdf.Emitidos(p, n, posicao + 1) + 1
  {
  }

  /**
   * The leading cells count up to the last day of the previous month, and
   * the trailing cells count 1, 2, ...: with `CelulaEhODia`, each number is
   * the day of month of the date the cell stands for.
   */
  lemma NumerosDaGrade(eventos: seq<Evento>, aniversarios: seq<Aniversario>, ano: int, mes: int)
    requires 1 <= mes <= 12
    ensures var p := PrimeiroDiaSemana(ano, mes - 1);
      p > 0 ==> CelulaLocalEsperada(eventos, aniversarios, ano, mes, p - 1) == Fora(DiasMesAnterior(ano, mes - 1))
    ensures var p := PrimeiroDiaSemana(ano, mes - 1);
      forall i :: 0 < i < p ==>
        CelulaLocalEsperada(eventos, aniversarios, ano, mes, i).numero == CelulaLocalEsperada(eventos, aniversarios, ano, mes, i - 1).numero + 1
    ensures var q := PrimeiroDiaSemana(ano, mes - 1) + DiasNoMes(ano, mes - 1);
      forall i :: q <= i < 42 ==> CelulaLocalEsperada(eventos, aniversarios, ano, mes, i) == Fora(i - q + 1)
  {
  }
}
