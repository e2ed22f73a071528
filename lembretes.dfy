/**
 * The reminder card (`LembretesAniversarios.tsx`): the birthdays of the
 * coming week, nearest first, minus the ones the user dismissed.
 *
 * The code counts the days left with date-fns `differenceInDays`, which
 * truncates the gap to whole 24-hour periods: after midnight a birthday
 * that falls tomorrow is 0 days away and is labelled "today" (see Findings
 * in README). The reminders below keep that count, over the occurrence
 * the code picks; `ProximoCorrigido` counts calendar days, as the labels
 * intend.
 */
module Lembretes {
  import opened Util
  import opened Calendario
  import opened Ordenacao
  import opened Recorrencia
  import opened Api

  /** One entry of `proximos`: the birthday, the days left and the occurrence instant. */
  datatype Proximo = Proximo(aniversario: Aniversario, diasRestantes: int, proximaData: int)

  /**
   * `differenceInDays(proximaData, hoje)`: whole 24-hour periods, truncated.
   * That is the calendar days from today to the occurrence the code picks,
   * one fewer whenever now is not a midnight, and never negative.
   */
  function DiasRestantesComoEscrito(a: Aniversario, agora: int, anoAtual: int): (r: int)
    ensures DataNoAno(agora, anoAtual, a.dia, a.mes) ==> r >= 0
    ensures DataNoAno(agora, anoAtual, a.dia, a.mes) ==>
      r == DiaDe(ProximaOcorrenciaComoEscrita(agora, anoAtual, a.dia, a.mes)) - DiaDe(agora)
        - (if agora == InicioDoDia(agora) then 0 else 1)
  {
    var t := ProximaOcorrenciaComoEscrita(agora, anoAtual, a.dia, a.mes);
    if !DataNoAno(agora, anoAtual, a.dia, a.mes) then DiferencaEmDias(t, agora)
    else if agora == InicioDoDia(agora) then
      DiferencaNaMeiaNoite(DiaDe(t), agora);
      DiferencaEmDias(t, agora)
    else
      AnoSeguinteDepois(agora, anoAtual, a.dia, a.mes);
      assert DiaDe(t) > DiaDe(agora);
      DiferencaPerdeUmDia(DiaDe(t), agora);
      DiferencaEmDias(t, agora)
  }

  /** The entry the `forEach` builds for one birthday. */
  function ProximoDe(a: Aniversario, agora: int, anoAtual: int): Proximo {
    Proximo(a, DiasRestantesComoEscrito(a, agora, anoAtual), ProximaOcorrenciaComoEscrita(agora, anoAtual, a.dia, a.mes))
  }

  /**
   * The entry as evidently intended: the calendar days to the corrected
   * occurrence, never negative.
   */
  function ProximoCorrigido(a: Aniversario, agora: int, anoAtual: int): (p: Proximo)
    ensures DataNoAno(agora, anoAtual, a.dia, a.mes) ==> p.diasRestantes >= 0
    ensures DataNoAno(agora, anoAtual, a.dia, a.mes) ==>
      p.diasRestantes == DiaDe(p.proximaData) - DiaDe(agora)
  {
    Proximo(a, DiasPara(agora, anoAtual, a.dia, a.mes), ProximaOcorrencia(agora, anoAtual, a.dia, a.mes))
  }

  /** What one birthday pushes into `proximos`: its entry when it is at most 7 days away. */
  function Selecionar(agora: int, anoAtual: int): Aniversario -> Option<Proximo> {
    (a: Aniversario) =>
      if ProximoDe(a, agora, anoAtual).diasRestantes <= 7 then Some(ProximoDe(a, agora, anoAtual)) else None
  }

  /** `proximos` before the sort. */
  function Candidatos(s: seq<Aniversario>, agora: int, anoAtual: int): seq<Proximo> {
    Coletar(s, Selecionar(agora, anoAtual))
  }

  /**
   * An entry is a candidate exactly when it belongs to a birthday of the
   * input that is at most 7 days away.
   */
  lemma CandidatosExato(s: seq<Aniversario>, agora: int, anoAtual: int, p: Proximo)
    ensures p in Candidatos(s, agora, anoAtual)
      <==> exists k :: 0 <= k < |s| && p == ProximoDe(s[k], agora, anoAtual) && p.diasRestantes <= 7
  {
    ColetarPertence(s, Selecionar(agora, anoAtual), p);
  }

  /** The comparator `a.diasRestantes - b.diasRestantes`. */
  function PorDias(): Proximo -> Chave {
    (p: Proximo) => Chave(p.diasRestantes, 0)
  }

  /**
   * `carregarAniversariosProximos`: the `forEach` pushes each birthday at
   * most 7 days away, and the result is sorted by the days left.
   */
  method CarregarProximos(aniversarios: seq<Aniversario>, agora: int, anoAtual: int) returns (proximos: seq<Proximo>)
    ensures proximos == Ordenar(Candidatos(aniversarios, agora, anoAtual), PorDias())
    ensures Ordenado(proximos, PorDias())
    ensures multiset(proximos) == multiset(Candidatos(aniversarios, agora, anoAtual))
    ensures forall k :: 0 <= k < |proximos| ==> proximos[k].diasRestantes <= 7
    ensures forall p :: p in proximos <==>
      exists k :: 0 <= k < |aniversarios| && p == ProximoDe(aniversarios[k], agora, anoAtual) && p.diasRestantes <= 7
  {
    var lista: seq<Proximo> := [];
    var i := 0;
    while i < |aniversarios|
      invariant 0 <= i <= |aniversarios|
      invariant lista == Candidatos(aniversarios[..i], agora, anoAtual)
    {
      ColetarPasso(aniversarios, i, Selecionar(agora, anoAtual));
      var p := ProximoDe(aniversarios[i], agora, anoAtual);
      if p.diasRestantes <= 7 {
        lista := lista + [p];
      }
      i := i + 1;
    }
    assert aniversarios[..i] == aniversarios;
    proximos := Ordenar(lista, PorDias());
    ProximosOrdenados(aniversarios, agora, anoAtual);
  }

  /** The sorted candidates: in order, the same entries, each at most 7 days away. */
  lemma ProximosOrdenados(aniversarios: seq<Aniversario>, agora: int, anoAtual: int)
    ensures var r := Ordenar(Candidatos(aniversarios, agora, anoAtual), PorDias());
      Ordenado(r, PorDias()) && multiset(r) == multiset(Candidatos(aniversarios, agora, anoAtual))
    ensures var r := Ordenar(Candidatos(aniversarios, agora, anoAtual), PorDias());
      forall k :: 0 <= k < |r| ==> r[k].diasRestantes <= 7
    ensures var r := Ordenar(Candidatos(aniversarios, agora, anoAtual), PorDias());
      forall p :: p in r <==>
        exists k :: 0 <= k < |aniversarios| && p == ProximoDe(aniversarios[k], agora, anoAtual) && p.diasRestantes <= 7
  {
    var lista := Candidatos(aniversarios, agora, anoAtual);
    var r := Ordenar(lista, PorDias());
    forall p ensures p in r <==>
      exists k :: 0 <= k < |aniversarios| && p == ProximoDe(aniversarios[k], agora, anoAtual) && p.diasRestantes <= 7
    {
      CandidatosExato(aniversarios, agora, anoAtual, p);
      assert p in r <==> p in multiset(r);
      assert p in lista <==> p in multiset(lista);
    }
    forall k | 0 <= k < |r| ensures r[k].diasRestantes <= 7 {
      assert r[k] in r;
    }
  }

  /** From a midnight, the gap to a later midnight is a whole number of days. */
  lemma DiferencaNaMeiaNoite(d: int, agora: int)
    requires d >= DiaDe(agora) && agora == InicioDoDia(agora)
    ensures DiferencaEmDias(d * MsPorDia, agora) == d - DiaDe(agora)
  {
    var a := DiaDe(agora);
    var q := DiferencaEmDias(d * MsPorDia, agora);
    assert d * MsPorDia - agora == (d - a) * MsPorDia;
    assert q * MsPorDia <= (d - a) * MsPorDia < (q + 1) * MsPorDia;
  }

  // ---------------------------------------------------------------------
  // The discrepancy of `differenceInDays`
  // ---------------------------------------------------------------------

  /**
   * Truncating the gap to a later midnight loses a day whenever now is not
   * itself a midnight.
   */
  lemma DiferencaPerdeUmDia(d: int, agora: int)
    requires d > DiaDe(agora) && agora != InicioDoDia(agora)
    ensures DiferencaEmDias(d * MsPorDia, agora) == d - DiaDe(agora) - 1
  {
    var a := DiaDe(agora);
    var q := DiferencaEmDias(d * MsPorDia, agora);
    assert a * MsPorDia < agora < a * MsPorDia + MsPorDia;
    assert q * MsPorDia <= d * MsPorDia - agora < (q + 1) * MsPorDia;
    assert q * MsPorDia < (d - a) * MsPorDia;
    assert (d - a - 1) * MsPorDia < (q + 1) * MsPorDia;
  }

  /**
   * The discrepancy: a birthday on 11 June 2024, one millisecond after
   * midnight on 10 June 2024, is 0 days away as written ("today"), while it
   * is 1 calendar day away.
   */
  lemma VesperaContaComoHoje(a: Aniversario)
    requires a.dia == 11 && a.mes == 6
    ensures DiasRestantesComoEscrito(a, MeiaNoite(2024, 5, 10) + 1, 2024) == 0
    ensures ProximoCorrigido(a, MeiaNoite(2024, 5, 10) + 1, 2024).diasRestantes == 1
  {
    OnzeDeJunho();
    var agora := 19884 * MsPorDia + 1;
    assert DiaDe(agora) == 19884;
    DiferencaPerdeUmDia(19885, agora);
    TetoDias(19885, agora);
  }

  /** The day numbers of 10 and 11 June 2024. */
  lemma OnzeDeJunho()
    ensures FazerDia(2024, 5, 10) == 19884
    ensures FazerDia(2024, 5, 11) == 19885
  {
    assert DiaDoAno(2024) == 19723 by {}
    assert DiasAntesDoMes(2024, 5) == 152 by {}
    assert 5 / 12 == 0 && 5 % 12 == 5;
  }

  // ---------------------------------------------------------------------
  // Dismissed reminders
  // ---------------------------------------------------------------------

  /** `dismissLembrete`: a copy of the set with the id added. */
  function Dispensar(dispensados: set<string>, id: string): (r: set<string>)
    ensures id in r && dispensados <= r
    ensures forall x :: x in r && x !in dispensados ==> x == id
  {
    dispensados + {id}
  }

  /** Dismissing twice is dismissing once. */
  lemma DispensarIdempotente(dispensados: set<string>, id: string)
    ensures Dispensar(Dispensar(dispensados, id), id) == Dispensar(dispensados, id)
  {
  }

  function NaoDispensado(dispensados: set<string>): Proximo -> bool {
    (p: Proximo) => p.aniversario.id !in dispensados
  }

  /** `lembretesAtivos`: the reminders whose birthday id was not dismissed. */
  function Ativos(proximos: seq<Proximo>, dispensados: set<string>): (r: seq<Proximo>)
    ensures forall k :: 0 <= k < |r| ==> r[k].aniversario.id !in dispensados
  {
    Filtrar(proximos, NaoDispensado(dispensados))
  }

  /**
   * The active reminders are exactly the listed ones not dismissed, still
   * nearest first; a dismissed birthday never reappears.
   */
  lemma AtivosExato(proximos: seq<Proximo>, dispensados: set<string>, p: Proximo)
    requires Ordenado(proximos, PorDias())
    ensures p in Ativos(proximos, dispensados) <==> p in proximos && p.aniversario.id !in dispensados
    ensures Ordenado(Ativos(proximos, dispensados), PorDias())
    ensures Ativos(proximos, Dispensar(dispensados, p.aniversario.id)) == Filtrar(Ativos(proximos, dispensados), NaoDispensado({p.aniversario.id}))
  {
    FiltrarPertence(proximos, NaoDispensado(dispensados), p);
    FiltrarOrdenado(proximos, PorDias(), NaoDispensado(dispensados));
    FiltrarDuasVezes(proximos, dispensados, p.aniversario.id);
  }

  /** Filtering out a set and then one more id is filtering out the larger set. */
  lemma {:induction false} FiltrarDuasVezes(s: seq<Proximo>, dispensados: set<string>, id: string)
    ensures Filtrar(s, NaoDispensado(dispensados + {id})) == Filtrar(Filtrar(s, NaoDispensado(dispensados)), NaoDispensado({id}))
  {
    if s != [] {
      FiltrarDuasVezes(s[1..], dispensados, id);
      var cabeca := if NaoDispensado(dispensados)(s[0]) then [s[0]] else [];
      FiltrarConcat(cabeca, Filtrar(s[1..], NaoDispensado(dispensados)), NaoDispensado({id}));
    }
  }

  /** The text under each reminder's name. */
  function RotuloLembrete(n: int): (r: string)
    ensures n == 0 <==> r == "🎉 Aniversário hoje!"
    ensures n == 1 <==> r == "🎂 Aniversário amanhã"
    ensures n > 1 ==> r == "Aniversário em " + IntParaTexto(n) + " dias"
    ensures n < 0 <==> r == ""
  {
    if n == 0 then "🎉 Aniversário hoje!"
    else if n == 1 then "🎂 Aniversário amanhã"
    else if n > 1 then "Aniversário em " + IntParaTexto(n) + " dias"
    else ""
  }
}
