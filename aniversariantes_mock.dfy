/**
 * The client's mock birthday store (`client/components/agenda/aniversariantes.ts`):
 * a module-level list changed in place by `push`, index assignment and
 * `splice`. Instants (`criadoEm`, `atualizadoEm`) are milliseconds, and the
 * clock and the `Date.now()` id are parameters.
 */
module AniversariantesMock {
  import opened Util

  datatype Aniversariante = Aniversariante(
    id: string,
    nome: string,
    dia: int,
    mes: int,
    ano: Option<int>,
    telefone: Option<string>,
    observacoes: Option<string>,
    criadoEm: int,
    atualizadoEm: int)

  /** The input of `adicionarAniversariante`: an entry without id and timestamps. */
  datatype NovoAniversariante = NovoAniversariante(
    nome: string, dia: int, mes: int, ano: Option<int>, telefone: Option<string>, observacoes: Option<string>)

  /** A `Partial<Aniversariante>`: every property may be left out, and `ano` may be `null`. */
  datatype Alteracoes = Alteracoes(
    id: Option<string>,
    nome: Option<string>,
    dia: Option<int>,
    mes: Option<int>,
    ano: Campo<int>,
    telefone: Option<string>,
    observacoes: Option<string>,
    criadoEm: Option<int>)

  /** `{ ...atual, ...d, atualizadoEm: agora }` */
  function Aplicar(atual: Aniversariante, d: Alteracoes, agora: int): (r: Aniversariante)
    ensures r.atualizadoEm == agora
    ensures r.id == d.id.GetOr(atual.id) && r.nome == d.nome.GetOr(atual.nome)
    ensures r.dia == d.dia.GetOr(atual.dia) && r.mes == d.mes.GetOr(atual.mes)
    ensures r.ano == Sobrescrever(atual.ano, d.ano)
    ensures r.telefone == (if d.telefone.Some? then d.telefone else atual.telefone)
    ensures r.observacoes == (if d.observacoes.Some? then d.observacoes else atual.observacoes)
    ensures r.criadoEm == d.criadoEm.GetOr(atual.criadoEm)
  {
    Aniversariante(
      d.id.GetOr(atual.id), d.nome.GetOr(atual.nome), d.dia.GetOr(atual.dia), d.mes.GetOr(atual.mes),
      Sobrescrever(atual.ano, d.ano),
      if d.telefone.Some? then d.telefone else atual.telefone,
      if d.observacoes.Some? then d.observacoes else atual.observacoes,
      d.criadoEm.GetOr(atual.criadoEm), agora)
  }

  /** An empty update changes only the modification time. */
  lemma AplicarVazio(atual: Aniversariante, agora: int)
    ensures Aplicar(atual, Alteracoes(None, None, None, None, NaoEnviado, None, None, None), agora)
      == atual.(atualizadoEm := agora)
  {
  }

  function DoMes(mes: int): Aniversariante -> bool {
    (a: Aniversariante) => a.mes == mes
  }

  function ComId(id: string): Aniversariante -> bool {
    (a: Aniversariante) => a.id == id
  }

  /** `obterAniversariantesPorMes`: the entries of month `mes`, in stored order. */
  function PorMes(lista: seq<Aniversariante>, mes: int): (r: seq<Aniversariante>)
    ensures |r| <= |lista|
    ensures forall k :: 0 <= k < |r| ==> r[k].mes == mes
  {
    Filtrar(lista, DoMes(mes))
  }

  /** Exactly the stored entries of month `mes` are returned. */
  lemma PorMesExato(lista: seq<Aniversariante>, mes: int, a: Aniversariante)
    ensures a in PorMes(lista, mes) <==> a in lista && a.mes == mes
  {
    FiltrarPertence(lista, DoMes(mes), a);
  }

  /** Month queries over a longer list extend those over its prefix: order is kept. */
  lemma PorMesAcrescentar(lista: seq<Aniversariante>, novo: Aniversariante, mes: int)
    ensures PorMes(lista + [novo], mes) == PorMes(lista, mes) + (if novo.mes == mes then [novo] else [])
  {
    FiltrarConcat(lista, [novo], DoMes(mes));
  }

  class Mock {
    var lista: seq<Aniversariante>

    /** The four sample entries the module starts with, stamped with `agora`. */
    constructor (agora: int)
      ensures |lista| == 4
      ensures forall k :: 0 <= k < 4 ==> lista[k].id == ["1", "2", "3", "4"][k]
      ensures forall k :: 0 <= k < 4 ==> lista[k].criadoEm == agora && lista[k].atualizadoEm == agora
      ensures lista[0].nome == "Maria Silva" && lista[0].dia == 15 && lista[0].mes == 1 && lista[0].ano == Some(1979)
      ensures lista[1].nome == "João Santos" && lista[1].dia == 22 && lista[1].mes == 3 && lista[1].ano == Some(1986)
      ensures lista[2].nome == "Ana Costa" && lista[2].dia == 8 && lista[2].mes == 5 && lista[2].ano == Some(1995)
      ensures lista[3].nome == "Carlos Oliveira" && lista[3].dia == 12 && lista[3].mes == 9 && lista[3].ano == Some(1972)
      ensures forall k :: 0 <= k < 4 ==> lista[k].telefone.Some? && lista[k].observacoes.Some?
    {
      lista := [
        Aniversariante("1", "Maria Silva", 15, 1, Some(1979), Some("(11) 99999-9999"), Some("Gosta de bolo de chocolate"), agora, agora),
        Aniversariante("2", "João Santos", 22, 3, Some(1986), Some("(11) 88888-8888"), Some(""), agora, agora),
        Aniversariante("3", "Ana Costa", 8, 5, Some(1995), Some("(11) 77777-7777"), Some("Vegetariana"), agora, agora),
        Aniversariante("4", "Carlos Oliveira", 12, 9, Some(1972), Some("(11) 66666-6666"), Some("Alérgico a amendoim"), agora, agora)
      ];
    }

    /** `obterTodosAniversariantes`: a copy, which later changes to the store do not reach. */
    method ObterTodos() returns (r: seq<Aniversariante>)
      ensures r == lista
    {
      r := lista;
    }

    /** `adicionarAniversariante` */
    method Adicionar(a: NovoAniversariante, id: string, agora: int) returns (novo: Aniversariante)
      modifies this
      ensures novo == Aniversariante(id, a.nome, a.dia, a.mes, a.ano, a.telefone, a.observacoes, agora, agora)
      ensures lista == old(lista) + [novo]
    {
      novo := Aniversariante(id, a.nome, a.dia, a.mes, a.ano, a.telefone, a.observacoes, agora, agora);
      lista := lista + [novo];
    }

    /** `atualizarAniversariante`: `null` for an unknown id; otherwise only that position changes. */
    method Atualizar(id: string, d: Alteracoes, agora: int) returns (r: Option<Aniversariante>)
      modifies this
      ensures r.None? <==> PrimeiraPosicao(old(lista), ComId(id)).None?
      ensures r.None? ==> lista == old(lista)
      ensures r.Some? ==>
        var idx := PrimeiraPosicao(old(lista), ComId(id)).value;
        r.value == Aplicar(old(lista)[idx], d, agora) && lista == old(lista)[idx := r.value]
    {
      var idx := PrimeiraPosicao(lista, ComId(id));
      if idx.None? {
        return None;
      }
      var novo := Aplicar(lista[idx.value], d, agora);
      lista := lista[idx.value := novo];
      return Some(novo);
    }

    /** `removerAniversariante`: `false` for an unknown id; otherwise only the first match goes. */
    method Remover(id: string) returns (r: bool)
      modifies this
      ensures r <==> PrimeiraPosicao(old(lista), ComId(id)).Some?
      ensures !r ==> lista == old(lista)
      ensures r ==> lista == SemPosicao(old(lista), PrimeiraPosicao(old(lista), ComId(id)).value)
      ensures r ==> |lista| == |old(lista)| - 1
    {
      var idx := PrimeiraPosicao(lista, ComId(id));
      if idx.None? {
        return false;
      }
      lista := SemPosicao(lista, idx.value);
      return true;
    }
  }
}
