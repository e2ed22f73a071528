/**
 * The birthday list screen (`AniversariantesLista.tsx`): the entries of the
 * mock store for one month or for the whole year, in calendar order, each
 * with its age and the days left to its next occurrence.
 */
module AniversariantesLista {
  import opened Util
  import opened Calendario
  import opened Ordenacao
  import opened Recorrencia
  import opened AniversariantesMock

  /** `mesAtual` is truthy: given and not 0. */
  predicate FiltraMes(mesAtual: Option<int>) {
    mesAtual.Some? && mesAtual.value != 0
  }

  /** The comparator: by `dia` within one month, by (`mes`, `dia`) otherwise. */
  function ChaveDeOrdem(mesAtual: Option<int>): Aniversariante -> Chave {
    if FiltraMes(mesAtual) then (a: Aniversariante) => Chave(a.dia, 0)
    else (a: Aniversariante) => Chave(a.mes, a.dia)
  }

  /**
   * `carregarAniversarios` followed by the month filter and the sort: the
   * store is queried by month when `mesAtual` is set, filtered by it again,
   * and sorted. The list is sorted by its key, and it is a permutation of
   * the month's entries when `mesAtual` is set and of all entries
   * otherwise.
   */
  function Exibidos(lista: seq<Aniversariante>, mesAtual: Option<int>): (r: seq<Aniversariante>)
    ensures Ordenado(r, ChaveDeOrdem(mesAtual))
    ensures FiltraMes(mesAtual) ==> multiset(r) == multiset(PorMes(lista, mesAtual.value))
    ensures !FiltraMes(mesAtual) ==> multiset(r) == multiset(lista)
  {
    var dados := if FiltraMes(mesAtual) then PorMes(lista, mesAtual.value) else lista;
    var doMes := if FiltraMes(mesAtual) then Filtrar(dados, DoMes(mesAtual.value)) else dados;
    assert FiltraMes(mesAtual) ==> doMes == dados by {
      if FiltraMes(mesAtual) {
        FiltrarTodos(dados, DoMes(mesAtual.value));
      }
    }
    Ordenar(doMes, ChaveDeOrdem(mesAtual))
  }

  /** An entry is shown exactly when it is stored and, with `mesAtual` set, is of that month. */
  lemma ExibidoSe(lista: seq<Aniversariante>, mesAtual: Option<int>, a: Aniversariante)
    ensures a in Exibidos(lista, mesAtual) <==> a in lista && (FiltraMes(mesAtual) ==> a.mes == mesAtual.value)
  {
    assert a in Exibidos(lista, mesAtual) <==> a in multiset(Exibidos(lista, mesAtual));
    if FiltraMes(mesAtual) {
      PorMesExato(lista, mesAtual.value, a);
      assert a in PorMes(lista, mesAtual.value) <==> a in multiset(PorMes(lista, mesAtual.value));
    } else {
      assert a in lista <==> a in multiset(lista);
    }
  }

  /** `calcularIdade`: no age for a missing or zero year, else the difference of years. */
  function Idade(ano: Option<int>, anoAtual: int): (r: Option<int>)
    ensures r.None? <==> ano.None? || ano.value == 0
    ensures r.Some? ==> r.value + ano.value == anoAtual
  {
    if ano.None? || ano.value == 0 then None else Some(anoAtual - ano.value)
  }

  /**
   * `diasParaAniversario`: the ceiling of the gap to the next occurrence as
   * the code picks it, which is the calendar days from today to that
   * occurrence; it is 0 only when now is exactly the birthday's midnight.
   */
  function DiasParaAniversario(agora: int, anoAtual: int, a: Aniversariante): (r: int)
    requires NoAno(agora, anoAtual) && 1 <= a.mes <= 12 && 1 <= a.dia <= 31
    ensures r >= 0
    ensures r == DiaDe(ProximaOcorrenciaComoEscrita(agora, anoAtual, a.dia, a.mes)) - DiaDe(agora)
    ensures r == 0 <==> agora == EsteAno(anoAtual, a.dia, a.mes)
  {
    DiasComoEscrito(agora, anoAtual, a.dia, a.mes)
  }

  /** The label next to each entry. */
  function Rotulo(n: int): (r: string)
    ensures n == 0 <==> r == "🎉 Hoje!"
    ensures n == 1 <==> r == "Amanhã!"
    ensures n != 0 && n != 1 ==> r == "em " + IntParaTexto(n) + " dias"
  {
    if n == 0 then "🎉 Hoje!" else if n == 1 then "Amanhã!" else "em " + IntParaTexto(n) + " dias"
  }

  /** The label is highlighted within a week. */
  predicate Destaque(n: int) {
    n <= 7
  }

  /**
   * As written, "Hoje!" is shown only at the birthday's exact midnight (any
   * later instant of that day already points to next year), "Amanhã!"
   * exactly on the day before the occurrence the code picks, and a label is
   * highlighted during the week before it.
   */
  lemma RotuloDoDia(agora: int, anoAtual: int, a: Aniversariante)
    requires NoAno(agora, anoAtual) && 1 <= a.mes <= 12 && 1 <= a.dia <= 31
    ensures Rotulo(DiasParaAniversario(agora, anoAtual, a)) == "🎉 Hoje!" <==> agora == EsteAno(anoAtual, a.dia, a.mes)
    ensures Rotulo(DiasParaAniversario(agora, anoAtual, a)) == "Amanhã!"
      <==> DiaDe(ProximaOcorrenciaComoEscrita(agora, anoAtual, a.dia, a.mes)) == DiaDe(agora) + 1
    ensures Destaque(DiasParaAniversario(agora, anoAtual, a))
      <==> DiaDe(ProximaOcorrenciaComoEscrita(agora, anoAtual, a.dia, a.mes)) <= DiaDe(agora) + 7
  {
  }

  /**
   * Over the corrected occurrence, "Hoje!" is shown exactly on the birthday
   * and "Amanhã!" exactly on the day before it.
   */
  lemma RotuloDoDiaCorrigido(agora: int, anoAtual: int, a: Aniversariante)
    requires NoAno(agora, anoAtual) && 1 <= a.mes <= 12 && 1 <= a.dia <= 31
    ensures Rotulo(DiasPara(agora, anoAtual, a.dia, a.mes)) == "🎉 Hoje!" <==> FazerDia(anoAtual, a.mes - 1, a.dia) == DiaDe(agora)
    ensures Rotulo(DiasPara(agora, anoAtual, a.dia, a.mes)) == "Amanhã!"
      <==> DiaDe(ProximaOcorrencia(agora, anoAtual, a.dia, a.mes)) == DiaDe(agora) + 1
  {
  }
}
