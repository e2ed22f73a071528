/**
 * The main calendar screen (`CalendarioPrincipal.tsx`): the items handed to
 * the month view, the height hint `maxEventosEmUmDia`, the two PDF exports
 * (the month grid and the yearly summary table), the birthday widget, and
 * the mini months of the year view.
 *
 * The mini month counts a cell's birthdays by day of month only, so the
 * cells of the neighbouring months show dots for this month's birthdays
 * (see Findings in README): the cells below use `NbComoEscrito`, which
 * keeps that count, and `Nb` is the evidently intended count, which also
 * compares the month.
 */
module CalendarioPrincipal {
  import opened Util
  import opened Calendario
  import opened Ordenacao
  import opened Api
  import opened Grade
  import RotaPdf

  /** `AniversarianteOcorrencia`: a birthday as `aniversariosPorMes` returns it. */
  datatype Ocorrencia = Ocorrencia(id: string, nome: string, dia: int, mes: int)

  // ---------------------------------------------------------------------
  // The month view's items
  // ---------------------------------------------------------------------

  datatype Recurso = DeEvento(evento: Evento) | DeAniversario(nome: string)

  /** An item of the month view: id, start, end, all-day flag and what it shows. */
  datatype Item = Item(id: string, inicio: int, fim: int, diaInteiro: bool, recurso: Recurso)

  function ItemDeEvento(e: Evento): Item {
    Item(e.id, e.inicio, e.fim, e.diaInteiro, DeEvento(e))
  }

  /**
   * A birthday of the shown month, placed in `anoAtual`: an all-day item
   * from 00:00 to 23:59:59.999 of its day.
   */
  function ItemDeAniversario(a: Ocorrencia, anoAtual: int): (r: Item)
    ensures r.diaInteiro && r.recurso == DeAniversario(a.nome)
    ensures DiaDe(r.inicio) == FazerDia(anoAtual, a.mes - 1, a.dia) && DiaDe(r.fim) == DiaDe(r.inicio)
    ensures r.inicio % MsPorDia == 0 && r.fim - r.inicio == MsPorDia - 1
  {
    var inicio := MeiaNoite(anoAtual, a.mes - 1, a.dia);
    DiaDaMeiaNoite(anoAtual, a.mes - 1, a.dia);
    UltimoMilissegundo(FazerDia(anoAtual, a.mes - 1, a.dia));
    Item("bday-" + a.id + "-" + IntParaTexto(anoAtual) + "-" + IntParaTexto(a.mes) + "-" + IntParaTexto(a.dia),
      inicio, inicio + MsPorDia - 1, true, DeAniversario(a.nome))
  }

  /** Decimal digits, at least one. */
  predicate SoDigitos(s: string) {
    |s| >= 1 && forall k :: 0 <= k < |s| ==> '0' <= s[k] <= '9'
  }

  /** The dash that joins two texts sits right after the first. */
  lemma TracoAntes(x: string, d: string)
    ensures (x + "-" + d)[|x|] == '-'
  {
  }

  /** A text ending in a dash and then digits splits at that dash in one way only. */
  lemma CortarNoUltimoTraco(x: string, d: string, y: string, e: string)
    requires SoDigitos(d) && SoDigitos(e)
    requires x + "-" + d == y + "-" + e
    ensures x == y && d == e
  {
    var s := x + "-" + d;
    var t := y + "-" + e;
    if |d| < |e| {
      TracoAntes(x, d);
      assert false;
    } else if |e| < |d| {
      TracoAntes(y, e);
      assert false;
    }
    assert d == s[|x| + 1..] && e == t[|y| + 1..];
    assert x == s[..|x|] && y == t[..|y|];
  }

  /**
   * The item id `bday-{id}-{ano}-{mes}-{dia}` tells birthdays apart: two
   * items share an id exactly when they are the same birthday placed in
   * the same year (for years, months and days that are not negative).
   */
  lemma {:induction false} IdDeAniversarioInjetivo(a: Ocorrencia, b: Ocorrencia, anoA: int, anoB: int)
    requires 0 <= anoA && 0 <= anoB && 0 <= a.mes && 0 <= a.dia && 0 <= b.mes && 0 <= b.dia
    ensures ItemDeAniversario(a, anoA).id == ItemDeAniversario(b, anoB).id
      <==> a.id == b.id && anoA == anoB && a.mes == b.mes && a.dia == b.dia
  {
    var ya, ma, da := IntParaTexto(anoA), IntParaTexto(a.mes), IntParaTexto(a.dia);
    var yb, mb, db := IntParaTexto(anoB), IntParaTexto(b.mes), IntParaTexto(b.dia);
    if ItemDeAniversario(a, anoA).id == ItemDeAniversario(b, anoB).id {
      assert ItemDeAniversario(a, anoA).id == "bday-" + a.id + "-" + ya + "-" + ma + "-" + da;
      assert ItemDeAniversario(b, anoB).id == "bday-" + b.id + "-" + yb + "-" + mb + "-" + db;
      CortarNoUltimoTraco("bday-" + a.id + "-" + ya + "-" + ma, da, "bday-" + b.id + "-" + yb + "-" + mb, db);
      CortarNoUltimoTraco("bday-" + a.id + "-" + ya, ma, "bday-" + b.id + "-" + yb, mb);
      CortarNoUltimoTraco("bday-" + a.id, ya, "bday-" + b.id, yb);
      assert a.id == ("bday-" + a.id)[5..] && b.id == ("bday-" + b.id)[5..];
      assert ValorComSinal(ya) == anoA && ValorComSinal(yb) == anoB;
    }
  }

  /** The last millisecond of a day still belongs to it. */
  lemma UltimoMilissegundo(x: int)
    ensures (x * MsPorDia) % MsPorDia == 0
    ensures DiaDe(x * MsPorDia + MsPorDia - 1) == x
  {
  }

  /** `eventosRbcEventos` */
  function ItensDeEventos(eventos: seq<Evento>): (r: seq<Item>)
    ensures |r| == |eventos|
    ensures forall k :: 0 <= k < |r| ==> r[k] == ItemDeEvento(eventos[k]) && r[k].recurso.DeEvento?
  {
    seq(|eventos|, k requires 0 <= k < |eventos| => ItemDeEvento(eventos[k]))
  }

  /** `eventosRbcAniversarios` */
  function ItensDeAniversarios(ocorrencias: seq<Ocorrencia>, anoAtual: int): (r: seq<Item>)
    ensures |r| == |ocorrencias|
    ensures forall k :: 0 <= k < |r| ==> r[k] == ItemDeAniversario(ocorrencias[k], anoAtual) && r[k].recurso.DeAniversario?
  {
    seq(|ocorrencias|, k requires 0 <= k < |ocorrencias| => ItemDeAniversario(ocorrencias[k], anoAtual))
  }

  /** `eventosRbc`: only the birthdays when the toggle is on, else the events and then the birthdays. */
  function ItensDoCalendario(eventos: seq<Evento>, ocorrencias: seq<Ocorrencia>, anoAtual: int, apenasAniversarios: bool): (r: seq<Item>)
    ensures |r| == (if apenasAniversarios then 0 else |eventos|) + |ocorrencias|
    ensures forall k :: 0 <= k < |r| ==> (r[k].recurso.DeAniversario? <==> apenasAniversarios || k >= |eventos|)
    ensures !apenasAniversarios ==> forall k :: 0 <= k < |eventos| ==> r[k] == ItemDeEvento(eventos[k])
    ensures r[|r| - |ocorrencias|..] == ItensDeAniversarios(ocorrencias, anoAtual)
  {
    var evs := if apenasAniversarios then [] else ItensDeEventos(eventos);
    var bds := ItensDeAniversarios(ocorrencias, anoAtual);
    assert (evs + bds)[|evs|..] == bds;
    evs + bds
  }

  // ---------------------------------------------------------------------
  // maxEventosEmUmDia
  // ---------------------------------------------------------------------

  /** The map of `maxEventosEmUmDia`: start day to number of events starting that day. */
  method ContagemPorDia(eventos: seq<Evento>) returns (mapa: map<int, nat>)
    ensures forall d :: d in mapa <==> Contar(eventos, RotaPdf.ComecaEm(d)) > 0
    ensures forall d :: d in mapa ==> mapa[d] == Contar(eventos, RotaPdf.ComecaEm(d))
  {
    mapa := map[];
    for i := 0 to |eventos|
      invariant forall d :: d in mapa <==> Contar(eventos[..i], RotaPdf.ComecaEm(d)) > 0
      invariant forall d :: d in mapa ==> mapa[d] == Contar(eventos[..i], RotaPdf.ComecaEm(d))
    {
      var chave := DiaDe(eventos[i].inicio);
      forall d ensures Contar(eventos[..i + 1], RotaPdf.ComecaEm(d))
        == Contar(eventos[..i], RotaPdf.ComecaEm(d)) + (if chave == d then 1 else 0)
      {
        ContarPasso(eventos, i, RotaPdf.ComecaEm(d));
      }
      mapa := mapa[chave := (if chave in mapa then mapa[chave] else 0) + 1];
    }
    assert eventos[..|eventos|] == eventos;
  }

  /** `mapa.forEach((v) => { if (v > max) max = v; })` from `max = 0`. */
  method MaiorValor(mapa: map<int, nat>) returns (max: nat)
    ensures forall d :: d in mapa ==> mapa[d] <= max
    ensures max == 0 || exists d :: d in mapa && mapa[d] == max
  {
    max := 0;
    var restantes := mapa.Keys;
    while restantes != {}
      invariant restantes <= mapa.Keys
      invariant forall d :: d in mapa && d !in restantes ==> mapa[d] <= max
      invariant max == 0 || exists d :: d in mapa && mapa[d] == max
      decreases restantes
    {
      assert (forall x :: x !in restantes) ==> restantes == {};
      var d :| d in restantes;
      if mapa[d] > max {
        max := mapa[d];
      }
      restantes := restantes - {d};
    }
  }

  /**
   * `maxEventosEmUmDia`: the largest number of events starting on one day,
   * 0 when there is no event.
   */
  method MaxEventosEmUmDia(eventos: seq<Evento>) returns (max: nat)
    ensures forall e :: e in eventos ==> Contar(eventos, RotaPdf.ComecaEm(DiaDe(e.inicio))) <= max
    ensures eventos == [] ==> max == 0
    ensures eventos != [] ==> exists e :: e in eventos && Contar(eventos, RotaPdf.ComecaEm(DiaDe(e.inicio))) == max
  {
    var mapa := ContagemPorDia(eventos);
    max := MaiorValor(mapa);
    forall e | e in eventos ensures Contar(eventos, RotaPdf.ComecaEm(DiaDe(e.inicio))) <= max {
      FiltrarPertence(eventos, RotaPdf.ComecaEm(DiaDe(e.inicio)), e);
    }
    if eventos != [] {
      FiltrarPertence(eventos, RotaPdf.ComecaEm(DiaDe(eventos[0].inicio)), eventos[0]);
      if max != 0 {
        var d :| d in mapa && mapa[d] == max;
        var lista := Filtrar(eventos, RotaPdf.ComecaEm(d));
        FiltrarPertence(eventos, RotaPdf.ComecaEm(d), lista[0]);
        assert DiaDe(lista[0].inicio) == d;
      }
    }
  }

  // ---------------------------------------------------------------------
  // Which events a day cell shows
  // ---------------------------------------------------------------------

  /** `start < fimDia && end > iniDia`, with `fimDia` at 23:59:59.999 of `dia`. */
  function Sobrepoe(dia: int): Evento -> bool {
    (e: Evento) => e.inicio < dia * MsPorDia + MsPorDia - 1 && e.fim > dia * MsPorDia
  }

  /**
   * An event is in a day's cell exactly when that day lies between its
   * start day and its end day, unless it starts at the last millisecond
   * of a day or ends exactly at a midnight.
   */
  lemma SobrepoeSe(e: Evento, dia: int)
    requires e.inicio % MsPorDia != MsPorDia - 1 && e.fim % MsPorDia != 0
    ensures Sobrepoe(dia)(e) <==> DiaDe(e.inicio) <= dia <= DiaDe(e.fim)
  {
    var q := e.inicio / MsPorDia;
    var r := e.fim / MsPorDia;
    assert e.inicio == q * MsPorDia + e.inicio % MsPorDia;
    assert e.fim == r * MsPorDia + e.fim % MsPorDia;
  }

  /** An event ending exactly at midnight is not in the cell of the day it ends on. */
  lemma TerminaAMeiaNoite(e: Evento, dia: int)
    requires e.fim == dia * MsPorDia
    ensures !Sobrepoe(dia)(e)
  {
  }

  function EventosDaCelula(eventos: seq<Evento>, dia: int): seq<Evento> {
    Filtrar(eventos, Sobrepoe(dia))
  }

  /** What a cell draws and the "+N" it shows: `itens.slice(0, limite)` and `itens.length - limite`. */
  datatype Truncada<T> = Truncada(mostrados: seq<T>, mais: Option<int>)

  function Truncar<T>(itens: seq<T>, limite: nat): (r: Truncada<T>)
    ensures |r.mostrados| == (if |itens| < limite then |itens| else limite)
    ensures r.mostrados == itens[..|r.mostrados|]
    ensures r.mais.Some? <==> |itens| > limite
    ensures |r.mostrados| + (if r.mais.Some? then r.mais.value else 0) == |itens|
  {
    if |itens| > limite then Truncada(itens[..limite], Some(|itens| - limite)) else Truncada(itens, None)
  }

  /** `a.dia === dia && a.mes === mes` */
  function DiaEMes(dia: int, mes: int): Ocorrencia -> bool {
    (a: Ocorrencia) => a.dia == dia && a.mes == mes
  }

  /** `a.dia === dia` */
  function SoDia(dia: int): Ocorrencia -> bool {
    (a: Ocorrencia) => a.dia == dia
  }

  /** `data.getMonth() + 1` of a cell of the grid of month `mi`. */
  function MesDaCelula(mi: int, c: Celula): (m: int)
    requires 0 <= mi < 12
    ensures 1 <= m <= 12
    ensures m == mi + 1 <==> c.Atual?
  {
    match c
    case Anterior(_) => if mi == 0 then 12 else mi
    case Atual(_) => mi + 1
    case Seguinte(_) => if mi == 11 then 1 else mi + 2
  }

  /** When every birthday is of month `mi + 1`, a cell's birthdays are those of its day if it is in the month, none otherwise. */
  lemma DoMesNaCelula(ocorrencias: seq<Ocorrencia>, mi: int, c: Celula)
    requires 0 <= mi < 12
    requires forall k :: 0 <= k < |ocorrencias| ==> ocorrencias[k].mes == mi + 1
    ensures c.Atual? ==> Filtrar(ocorrencias, DiaEMes(c.dia, MesDaCelula(mi, c))) == Filtrar(ocorrencias, SoDia(c.dia))
    ensures !c.Atual? ==> Filtrar(ocorrencias, DiaEMes(c.dia, MesDaCelula(mi, c))) == []
  {
    if c.Atual? {
      FiltrarIgual(ocorrencias, DiaEMes(c.dia, MesDaCelula(mi, c)), SoDia(c.dia));
    } else {
      FiltrarNenhum(ocorrencias, DiaEMes(c.dia, MesDaCelula(mi, c)));
    }
  }

  // ---------------------------------------------------------------------
  // exportarCalendarioMensal
  // ---------------------------------------------------------------------

  datatype ItemCelula = ItemEvento(evento: Evento) | ItemAniversario(nome: string)

  /** A cell of the month PDF: its day of month, whether it is in the month, and its items. */
  datatype CelulaPdf = CelulaPdf(diaDoMes: int, noMes: bool, itens: Truncada<ItemCelula>)

  /** The events overlapping the cell's day, then the birthdays with its day and month. */
  function ItensDaCelula(eventos: seq<Evento>, ocorrencias: seq<Ocorrencia>, ano: int, mi: int, i: int): (r: seq<ItemCelula>)
    requires 0 <= mi < 12 && 0 <= i < 42
    ensures var c := CelulaDe(ano, mi, i);
      var evs := EventosDaCelula(eventos, InicioDaGrade(ano, mi) + i);
      var bds := Filtrar(ocorrencias, DiaEMes(c.dia, MesDaCelula(mi, c)));
      |r| == |evs| + |bds|
      && (forall k :: 0 <= k < |evs| ==> r[k] == ItemEvento(evs[k]))
      && (forall k :: 0 <= k < |bds| ==> r[|evs| + k] == ItemAniversario(bds[k].nome))
  {
    var c := CelulaDe(ano, mi, i);
    var evs := EventosDaCelula(eventos, InicioDaGrade(ano, mi) + i);
    var bds := Filtrar(ocorrencias, DiaEMes(c.dia, MesDaCelula(mi, c)));
    seq(|evs|, k requires 0 <= k < |evs| => ItemEvento(evs[k]))
      + seq(|bds|, k requires 0 <= k < |bds| => ItemAniversario(bds[k].nome))
  }

  function CelulaDoPdfMensal(eventos: seq<Evento>, ocorrencias: seq<Ocorrencia>, ano: int, mi: int, i: int): CelulaPdf
    requires 0 <= mi < 12 && 0 <= i < 42
  {
    var c := CelulaDe(ano, mi, i);
    CelulaPdf(c.dia, c.Atual?, Truncar(ItensDaCelula(eventos, ocorrencias, ano, mi, i), 4))
  }

  /** The 42-cell loop of `exportarCalendarioMensal`. */
  method CelulasDoPdfMensal(eventos: seq<Evento>, ocorrencias: seq<Ocorrencia>, ano: int, mi: int)
    returns (celulas: seq<CelulaPdf>)
    requires 0 <= mi < 12
    ensures |celulas| == 42
    ensures forall i :: 0 <= i < 42 ==> celulas[i] == CelulaDoPdfMensal(eventos, ocorrencias, ano, mi, i)
  {
    celulas := [];
    for i := 0 to 42
      invariant |celulas| == i
      invariant forall j :: 0 <= j < i ==> celulas[j] == CelulaDoPdfMensal(eventos, ocorrencias, ano, mi, j)
    {
      celulas := celulas + [CelulaDoPdfMensal(eventos, ocorrencias, ano, mi, i)];
    }
  }

  /**
   * A PDF cell draws at most 4 items and announces exactly the rest; with
   * the month's birthdays, the cells outside the month draw none, and a
   * cell of the month draws those of its day.
   */
  lemma CelulaDoPdf(eventos: seq<Evento>, ocorrencias: seq<Ocorrencia>, ano: int, mi: int, i: int)
    requires 0 <= mi < 12 && 0 <= i < 42
    requires forall k :: 0 <= k < |ocorrencias| ==> ocorrencias[k].mes == mi + 1
    ensures var cel := CelulaDoPdfMensal(eventos, ocorrencias, ano, mi, i);
      var total := |EventosDaCelula(eventos, InicioDaGrade(ano, mi) + i)| + Contar(ocorrencias, SoDia(cel.diaDoMes));
      |cel.itens.mostrados| <= 4
      && (cel.noMes ==> |cel.itens.mostrados| + (if cel.itens.mais.Some? then cel.itens.mais.value else 0) == total)
      && (!cel.noMes ==> forall k :: 0 <= k < |cel.itens.mostrados| ==> cel.itens.mostrados[k].ItemEvento?)
  {
    var c := CelulaDe(ano, mi, i);
    DoMesNaCelula(ocorrencias, mi, c);
  }

  // ---------------------------------------------------------------------
  // exportarResumoAnual
  // ---------------------------------------------------------------------

  /** A row of the yearly summary: the date (a day number) and its counts. */
  datatype Linha = Linha(data: int, qtdEventos: nat, qtdBds: nat)

  function PorData(): Linha -> Chave {
    (l: Linha) => Chave(l.data, 0)
  }

  /** A birthday of month `m` (0-based) falls on day `d` of year `ano`: `new Date(ano, m, b.dia)`. */
  function CaiEm(ano: int, m: int, d: int): Ocorrencia -> bool {
    (b: Ocorrencia) => FazerDia(ano, m, b.dia) == d
  }

  /** The birthdays of the first `m` months that fall on day `d`. */
  function AniversariosNoDia(ano: int, porMes: seq<seq<Ocorrencia>>, m: nat, d: int): nat
    requires m <= |porMes|
  {
    if m == 0 then 0 else AniversariosNoDia(ano, porMes, m - 1, d) + Contar(porMes[m - 1], CaiEm(ano, m - 1, d))
  }

  /** The first loop: one row per start day, counting its events. */
  method ContarEventosPorDia(eventos: seq<Evento>) returns (mapa: map<int, Linha>)
    ensures forall d :: d in mapa <==> Contar(eventos, RotaPdf.ComecaEm(d)) > 0
    ensures forall d :: d in mapa ==> mapa[d] == Linha(d, Contar(eventos, RotaPdf.ComecaEm(d)), 0)
  {
    mapa := map[];
    for i := 0 to |eventos|
      invariant forall d :: d in mapa <==> Contar(eventos[..i], RotaPdf.ComecaEm(d)) > 0
      invariant forall d :: d in mapa ==> mapa[d] == Linha(d, Contar(eventos[..i], RotaPdf.ComecaEm(d)), 0)
    {
      var chave := DiaDe(eventos[i].inicio);
      forall d ensures Contar(eventos[..i + 1], RotaPdf.ComecaEm(d))
        == Contar(eventos[..i], RotaPdf.ComecaEm(d)) + (if chave == d then 1 else 0)
      {
        ContarPasso(eventos, i, RotaPdf.ComecaEm(d));
      }
      var item := if chave in mapa then mapa[chave] else Linha(chave, 0, 0);
      mapa := mapa[chave := item.(qtdEventos := item.qtdEventos + 1)];
    }
    assert eventos[..|eventos|] == eventos;
  }

  /**
   * The rows of `porData`: one for each date with an event starting on it
   * or a counted birthday on it, holding both counts.
   */
  ghost predicate Linhas(eventos: seq<Evento>, bdsNoDia: int -> nat, mapa: map<int, Linha>) {
    (forall d :: d in mapa <==> (Contar(eventos, RotaPdf.ComecaEm(d)) > 0 || bdsNoDia(d) > 0))
    && (forall d :: d in mapa ==> mapa[d] == Linha(d, Contar(eventos, RotaPdf.ComecaEm(d)), bdsNoDia(d)))
  }

  /** The birthdays of the first `m` months falling on each day. */
  function Meses(ano: int, porMes: seq<seq<Ocorrencia>>, m: nat): int -> nat
    requires m <= |porMes|
  {
    (d: int) => AniversariosNoDia(ano, porMes, m, d)
  }

  /** Those, and the first `j` birthdays of month `m`. */
  function Ate(ano: int, porMes: seq<seq<Ocorrencia>>, m: nat, j: nat): int -> nat
    requires m < |porMes| && j <= |porMes[m]|
  {
    (d: int) => AniversariosNoDia(ano, porMes, m, d) + Contar(porMes[m][..j], CaiEm(ano, m, d))
  }

  /** One birthday more: `item.qtdBds += 1` on the row of its date, created if missing. */
  method AcrescentarAniversario(eventos: seq<Evento>, ghost antes: int -> nat, ghost depois: int -> nat, chave: int, mapa: map<int, Linha>)
    returns (novo: map<int, Linha>)
    requires Linhas(eventos, antes, mapa)
    requires forall d :: depois(d) == antes(d) + (if d == chave then 1 else 0)
    ensures Linhas(eventos, depois, novo)
  {
    var item := if chave in mapa then mapa[chave] else Linha(chave, 0, 0);
    novo := mapa[chave := item.(qtdBds := item.qtdBds + 1)];
  }

  /** Counting birthday `j` of month `m` adds one to the day it falls on. */
  lemma PassoAte(ano: int, porMes: seq<seq<Ocorrencia>>, m: nat, j: nat, chave: int)
    requires m < |porMes| && j < |porMes[m]| && chave == FazerDia(ano, m, porMes[m][j].dia)
    ensures forall d :: Ate(ano, porMes, m, j + 1)(d) == Ate(ano, porMes, m, j)(d) + (if d == chave then 1 else 0)
  {
    forall d ensures Ate(ano, porMes, m, j + 1)(d) == Ate(ano, porMes, m, j)(d) + (if d == chave then 1 else 0) {
      ContarPasso(porMes[m], j, CaiEm(ano, m, d));
    }
  }

  /** Before month `m` and after all of it. */
  lemma LimitesAte(ano: int, porMes: seq<seq<Ocorrencia>>, m: nat)
    requires m < |porMes|
    ensures forall d :: Ate(ano, porMes, m, 0)(d) == Meses(ano, porMes, m)(d)
    ensures forall d :: Ate(ano, porMes, m, |porMes[m]|)(d) == Meses(ano, porMes, m + 1)(d)
  {
    assert porMes[m][..0] == [];
    assert porMes[m][..|porMes[m]|] == porMes[m];
  }

  /** Rows built with the same counts per day are the same rows. */
  lemma MesmasContagens(eventos: seq<Evento>, f: int -> nat, g: int -> nat, mapa: map<int, Linha>)
    requires forall d :: f(d) == g(d)
    requires Linhas(eventos, f, mapa)
    ensures Linhas(eventos, g, mapa)
  {
  }

  /** The inner loop: the birthdays of month `m` (0-based) are added to the rows. */
  method SomarMes(eventos: seq<Evento>, ano: int, porMes: seq<seq<Ocorrencia>>, m: nat, inicial: map<int, Linha>)
    returns (mapa: map<int, Linha>)
    requires m < |porMes|
    requires Linhas(eventos, Meses(ano, porMes, m), inicial)
    ensures Linhas(eventos, Meses(ano, porMes, m + 1), mapa)
  {
    mapa := inicial;
    var bds := porMes[m];
    LimitesAte(ano, porMes, m);
    MesmasContagens(eventos, Meses(ano, porMes, m), Ate(ano, porMes, m, 0), mapa);
    for j := 0 to |bds|
      invariant Linhas(eventos, Ate(ano, porMes, m, j), mapa)
    {
      var chave := FazerDia(ano, m, bds[j].dia);
      PassoAte(ano, porMes, m, j, chave);
      mapa := AcrescentarAniversario(eventos, Ate(ano, porMes, m, j), Ate(ano, porMes, m, j + 1), chave, mapa);
    }
    MesmasContagens(eventos, Ate(ano, porMes, m, |bds|), Meses(ano, porMes, m + 1), mapa);
  }

  /** The second loop: each birthday of each month adds one to the row of its date. */
  method SomarAniversarios(eventos: seq<Evento>, ano: int, porMes: seq<seq<Ocorrencia>>, inicial: map<int, Linha>)
    returns (mapa: map<int, Linha>)
    requires |porMes| == 12
    requires Linhas(eventos, Meses(ano, porMes, 0), inicial)
    ensures Linhas(eventos, Meses(ano, porMes, |porMes|), mapa)
  {
    mapa := inicial;
    for m := 0 to |porMes|
      invariant Linhas(eventos, Meses(ano, porMes, m), mapa)
    {
      mapa := SomarMes(eventos, ano, porMes, m, mapa);
    }
  }

  /** Before any month no birthday is counted: the rows are those of the events. */
  lemma LinhasIniciais(eventos: seq<Evento>, ano: int, porMes: seq<seq<Ocorrencia>>, mapa: map<int, Linha>)
    requires |porMes| == 12
    requires forall d :: d in mapa <==> Contar(eventos, RotaPdf.ComecaEm(d)) > 0
    requires forall d :: d in mapa ==> mapa[d] == Linha(d, Contar(eventos, RotaPdf.ComecaEm(d)), 0)
    ensures Linhas(eventos, Meses(ano, porMes, 0), mapa)
  {
  }

  /** After the twelfth month every birthday of the year is counted. */
  lemma LinhasFinais(eventos: seq<Evento>, ano: int, porMes: seq<seq<Ocorrencia>>, mapa: map<int, Linha>)
    requires |porMes| == 12
    requires Linhas(eventos, Meses(ano, porMes, |porMes|), mapa)
    ensures forall d :: d in mapa <==> (Contar(eventos, RotaPdf.ComecaEm(d)) > 0 || AniversariosNoDia(ano, porMes, 12, d) > 0)
    ensures forall d :: d in mapa ==> mapa[d] == Linha(d, Contar(eventos, RotaPdf.ComecaEm(d)), AniversariosNoDia(ano, porMes, 12, d))
  {
  }

  /** `Array.from(porData.values())`: each row once. */
  method ValoresDoMapa(mapa: map<int, Linha>) returns (valores: seq<Linha>)
    requires forall d :: d in mapa ==> mapa[d].data == d
    ensures forall k :: 0 <= k < |valores| ==> valores[k].data in mapa && valores[k] == mapa[valores[k].data]
    ensures forall d :: d in mapa ==> exists k :: 0 <= k < |valores| && valores[k].data == d
    ensures forall i, j :: 0 <= i < j < |valores| ==> valores[i].data != valores[j].data
  {
    valores := [];
    var restantes := mapa.Keys;
    while restantes != {}
      invariant restantes <= mapa.Keys
      invariant forall k :: 0 <= k < |valores| ==>
        valores[k].data in mapa && valores[k] == mapa[valores[k].data] && valores[k].data !in restantes
      invariant forall d :: d in mapa && d !in restantes ==> exists k :: 0 <= k < |valores| && valores[k].data == d
      invariant forall i, j :: 0 <= i < j < |valores| ==> valores[i].data != valores[j].data
      decreases restantes
    {
      assert (forall x :: x !in restantes) ==> restantes == {};
      var d :| d in restantes;
      var antes := valores;
      valores := valores + [mapa[d]];
      restantes := restantes - {d};
      forall x | x in mapa && x !in restantes ensures exists k :: 0 <= k < |valores| && valores[k].data == x {
        if x == d {
          assert valores[|antes|].data == x;
        } else {
          var k :| 0 <= k < |antes| && antes[k].data == x;
          assert valores[k].data == x;
        }
      }
    }
  }

  /** A list whose rows have distinct dates holds each row at most once. */
  lemma {:induction false} DatasDistintas(s: seq<Linha>, x: Linha)
    requires forall i, j :: 0 <= i < j < |s| ==> s[i].data != s[j].data
    ensures multiset(s)[x] <= 1
  {
    if s != [] {
      var u := |s| - 1;
      assert s == s[..u] + [s[u]];
      DatasDistintas(s[..u], x);
      if s[u] == x {
        assert x !in s[..u];
      }
    }
  }

  /** Sorted by date and a permutation of rows with distinct dates: strictly increasing dates. */
  lemma OrdemEstrita(valores: seq<Linha>, linhas: seq<Linha>)
    requires forall i, j :: 0 <= i < j < |valores| ==> valores[i].data != valores[j].data
    requires multiset(linhas) == multiset(valores)
    requires Ordenado(linhas, PorData())
    ensures forall i, j :: 0 <= i < j < |linhas| ==> linhas[i].data < linhas[j].data
  {
    forall i, j | 0 <= i < j < |linhas| ensures linhas[i].data < linhas[j].data {
      assert MenorIgual(PorData()(linhas[i]), PorData()(linhas[j]));
      if linhas[i].data == linhas[j].data {
        assert linhas[i] in multiset(valores) && linhas[j] in multiset(valores);
        var a :| 0 <= a < |valores| && valores[a] == linhas[i];
        var b :| 0 <= b < |valores| && valores[b] == linhas[j];
        assert a == b;
        var x := linhas[i];
        assert linhas == linhas[..j] + linhas[j..];
        assert x in linhas[..j] && x in linhas[j..];
        assert multiset(linhas)[x] == multiset(linhas[..j])[x] + multiset(linhas[j..])[x];
        DatasDistintas(valores, x);
        assert false;
      }
    }
  }

  /**
   * `exportarResumoAnual`: one row per date that has an event starting on
   * it or a birthday falling on it, with both counts, in increasing date
   * order.
   */
  method ResumoAnual(ano: int, eventos: seq<Evento>, porMes: seq<seq<Ocorrencia>>) returns (linhas: seq<Linha>)
    requires |porMes| == 12
    ensures forall i, j :: 0 <= i < j < |linhas| ==> linhas[i].data < linhas[j].data
    ensures forall k :: 0 <= k < |linhas| ==> (linhas[k] ==
      Linha(linhas[k].data, Contar(eventos, RotaPdf.ComecaEm(linhas[k].data)), AniversariosNoDia(ano, porMes, 12, linhas[k].data)))
    ensures forall d :: (exists k :: 0 <= k < |linhas| && linhas[k].data == d) <==>
      (Contar(eventos, RotaPdf.ComecaEm(d)) > 0 || AniversariosNoDia(ano, porMes, 12, d) > 0)
  {
    var porEvento := ContarEventosPorDia(eventos);
    LinhasIniciais(eventos, ano, porMes, porEvento);
    var mapa := SomarAniversarios(eventos, ano, porMes, porEvento);
    LinhasFinais(eventos, ano, porMes, mapa);
    var valores := ValoresDoMapa(mapa);
    linhas := Ordenar(valores, PorData());
    OrdemEstrita(valores, linhas);
    MesmasLinhas(mapa, valores, linhas);
  }

  /** Reordering the rows of the map keeps each row and each date. */
  lemma MesmasLinhas(mapa: map<int, Linha>, valores: seq<Linha>, linhas: seq<Linha>)
    requires forall k :: 0 <= k < |valores| ==> valores[k].data in mapa && valores[k] == mapa[valores[k].data]
    requires forall d :: d in mapa ==> exists k :: 0 <= k < |valores| && valores[k].data == d
    requires multiset(linhas) == multiset(valores)
    ensures forall k :: 0 <= k < |linhas| ==> linhas[k].data in mapa && linhas[k] == mapa[linhas[k].data]
    ensures forall d :: d in mapa ==> exists k :: 0 <= k < |linhas| && linhas[k].data == d
  {
    forall k | 0 <= k < |linhas| ensures linhas[k].data in mapa && linhas[k] == mapa[linhas[k].data] {
      assert linhas[k] in multiset(valores);
    }
    forall d | d in mapa ensures exists k :: 0 <= k < |linhas| && linhas[k].data == d {
      var a :| 0 <= a < |valores| && valores[a].data == d;
      assert valores[a] in multiset(linhas);
      var k :| 0 <= k < |linhas| && linhas[k] == valores[a];
    }
  }

  // ---------------------------------------------------------------------
  // AniversariantesWidget
  // ---------------------------------------------------------------------

  function PorDia(): Ocorrencia -> Chave {
    (a: Ocorrencia) => Chave(a.dia, 0)
  }

  /**
   * The widget's list: sorted by day, the first 5 shown, "+N
   * aniversariantes..." for the rest. The widget shows the 5 earliest
   * birthdays of the month in day order, and no hidden birthday comes
   * before a shown one.
   */
  function Widget(listaMes: seq<Ocorrencia>): (w: Truncada<Ocorrencia>)
    ensures |w.mostrados| == (if |listaMes| < 5 then |listaMes| else 5)
    ensures var ocultos := Ordenar(listaMes, PorDia())[|w.mostrados|..];
      Ordenado(w.mostrados, PorDia())
      && multiset(w.mostrados) + multiset(ocultos) == multiset(listaMes)
      && (forall x, y :: x in w.mostrados && y in ocultos ==> x.dia <= y.dia)
      && (w.mais.Some? <==> |listaMes| > 5)
      && (w.mais.Some? ==> w.mais.value == |ocultos|)
  {
    var s := Ordenar(listaMes, PorDia());
    var w := Truncar(s, 5);
    CorteOrdenado(s, |w.mostrados|);
    w
  }

  /** Cutting a list sorted by day: a sorted head, and no later item is earlier than a head item. */
  lemma CorteOrdenado(s: seq<Ocorrencia>, n: nat)
    requires Ordenado(s, PorDia()) && n <= |s|
    ensures Ordenado(s[..n], PorDia())
    ensures multiset(s[..n]) + multiset(s[n..]) == multiset(s)
    ensures forall x, y :: x in s[..n] && y in s[n..] ==> x.dia <= y.dia
  {
    assert s == s[..n] + s[n..];
    forall x, y | x in s[..n] && y in s[n..] ensures x.dia <= y.dia {
      var i :| 0 <= i < n && s[i] == x;
      var j :| n <= j < |s| && s[j] == y;
      assert MenorIgual(PorDia()(s[i]), PorDia()(s[j]));
    }
  }

  // ---------------------------------------------------------------------
  // MiniMes
  // ---------------------------------------------------------------------

  /** A dot of a mini cell: an event or a birthday. */
  datatype Marca = Ev | Bd

  /** The mini cell's dots: only birthdays with the toggle on, else events then birthdays. */
  function Marcas(nEventos: nat, nb: nat, apenasAniversarios: bool): (r: seq<Marca>)
    ensures |r| == (if apenasAniversarios then 0 else nEventos) + nb
    ensures forall k :: 0 <= k < |r| ==> (r[k] == Bd <==> apenasAniversarios || k >= nEventos)
  {
    (if apenasAniversarios then [] else seq(nEventos, _ => Ev)) + seq(nb, _ => Bd)
  }

  /** As written: the birthdays whose day of month equals the cell's, whatever the cell's month. */
  function NbComoEscrito(aniversarios: seq<Ocorrencia>, c: Celula): (r: nat)
    ensures r <= |aniversarios|
    ensures r > 0 <==> exists a :: a in aniversarios && a.dia == c.dia
  {
    ContarPositivoSe(aniversarios, SoDia(c.dia));
    Contar(aniversarios, SoDia(c.dia))
  }

  /** Corrected: the birthdays with the cell's day and month. */
  function Nb(aniversarios: seq<Ocorrencia>, mi: int, c: Celula): (r: nat)
    requires 0 <= mi < 12
    ensures r <= |aniversarios|
    ensures r > 0 <==> exists a :: a in aniversarios && a.dia == c.dia && a.mes == MesDaCelula(mi, c)
  {
    ContarPositivoSe(aniversarios, DiaEMes(c.dia, MesDaCelula(mi, c)));
    Contar(aniversarios, DiaEMes(c.dia, MesDaCelula(mi, c)))
  }

  /** March 2024 starts on a Friday, so cell 1 of its grid is 26 February. */
  lemma SegundaCelulaDeMarco2024()
    ensures CelulaDe(2024, 2, 1) == Anterior(26)
  {
    assert Bissexto(2024) by {}
    assert DiasAntesDoMes(2024, 2) == 60 by {
      assert DiasAntesDoMes(2024, 1) == 31;
    }
    assert DiaDoAno(2024) == 19723 by {}
    assert FazerDia(2024, 2, 1) == 19783 by {
      assert 2 / 12 == 0 && 2 % 12 == 2;
    }
    assert PrimeiroDiaSemana(2024, 2) == 5 by {
      assert DiaDaSemana(19783) == 5;
    }
    assert DiasMesAnterior(2024, 2) == 29 by {}
  }

  /**
   * The discrepancy: as written, a birthday on 26 March puts a dot on the
   * cell of 26 February in the March mini month; the corrected count does
   * not.
   */
  lemma NbComoEscritoMarcaMesVizinho()
    ensures CelulaDe(2024, 2, 1) == Anterior(26)
    ensures NbComoEscrito([Ocorrencia("1", "Ana", 26, 3)], CelulaDe(2024, 2, 1)) == 1
    ensures Nb([Ocorrencia("1", "Ana", 26, 3)], 2, CelulaDe(2024, 2, 1)) == 0
  {
    SegundaCelulaDeMarco2024();
    var s := [Ocorrencia("1", "Ana", 26, 3)];
    assert s[1..] == [];
    assert MesDaCelula(2, Anterior(26)) == 2;
    assert Filtrar(s, SoDia(26)) == [s[0]];
    assert Filtrar(s, DiaEMes(26, 2)) == [];
  }

  /** Corrected: with the month's birthdays, the neighbouring months' cells get no birthday dot. */
  lemma NbSoNoMes(aniversarios: seq<Ocorrencia>, ano: int, mi: int, i: int)
    requires 0 <= mi < 12 && 0 <= i < 42
    requires forall k :: 0 <= k < |aniversarios| ==> aniversarios[k].mes == mi + 1
    ensures var c := CelulaDe(ano, mi, i);
      Nb(aniversarios, mi, c) == (if c.Atual? then NbComoEscrito(aniversarios, c) else 0)
  {
    DoMesNaCelula(aniversarios, mi, CelulaDe(ano, mi, i));
  }

  /** A cell of the mini month: its day, whether it is in the month, and its dots. */
  datatype CelulaMini = CelulaMini(dia: int, diaDoMes: int, noMes: bool, pontos: Truncada<Marca>)

  /** The 42 days of the mini month's grid, built one at a time from the grid's Sunday. */
  method DiasDaGrade(ano: int, mi: int) returns (dias: seq<int>)
    ensures |dias| == 42
    ensures forall i :: 0 <= i < 42 ==> dias[i] == InicioDaGrade(ano, mi) + i
  {
    var inicio := InicioDaGrade(ano, mi);
    dias := [];
    for i := 0 to 42
      invariant |dias| == i
      invariant forall j :: 0 <= j < i ==> dias[j] == inicio + j
    {
      dias := dias + [inicio + i];
    }
  }

  function CelulaDoMiniMes(ano: int, mi: int, eventos: seq<Evento>, aniversarios: seq<Ocorrencia>, apenasAniversarios: bool, i: int): CelulaMini
    requires 0 <= mi < 12 && 0 <= i < 42
  {
    var c := CelulaDe(ano, mi, i);
    var dia := InicioDaGrade(ano, mi) + i;
    CelulaMini(dia, c.dia, c.Atual?,
      Truncar(Marcas(|EventosDaCelula(eventos, dia)|, NbComoEscrito(aniversarios, c), apenasAniversarios), 3))
  }

  /** `MiniMes`: the 42 cells. */
  function MiniMes(ano: int, mi: int, eventos: seq<Evento>, aniversarios: seq<Ocorrencia>, apenasAniversarios: bool): (r: seq<CelulaMini>)
    requires 0 <= mi < 12
    ensures |r| == 42
    ensures forall i :: 0 <= i < 42 ==> r[i] == CelulaDoMiniMes(ano, mi, eventos, aniversarios, apenasAniversarios, i)
  {
    seq(42, i requires 0 <= i < 42 => CelulaDoMiniMes(ano, mi, eventos, aniversarios, apenasAniversarios, i))
  }

  /**
   * A mini cell is day `InicioDaGrade + i`, draws at most 3 dots and shows
   * "+N" for exactly the rest.
   */
  lemma MiniMesCelula(ano: int, mi: int, eventos: seq<Evento>, aniversarios: seq<Ocorrencia>, apenasAniversarios: bool, i: int)
    requires 0 <= mi < 12 && 0 <= i < 42
    ensures var cel := MiniMes(ano, mi, eventos, aniversarios, apenasAniversarios)[i];
      var nEv := if apenasAniversarios then 0 else |EventosDaCelula(eventos, cel.dia)|;
      cel.dia == InicioDaGrade(ano, mi) + i
      && DiaDaCelula(ano, mi, CelulaDe(ano, mi, i)) == cel.dia
      && |cel.pontos.mostrados| <= 3
      && |cel.pontos.mostrados| + (if cel.pontos.mais.Some? then cel.pontos.mais.value else 0)
         == nEv + NbComoEscrito(aniversarios, CelulaDe(ano, mi, i))
  {
    CelulaEhODia(ano, mi, i);
  }
}
