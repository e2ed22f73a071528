/**
 * The serverless handlers `api/eventos.js` and `api/igrejas.js`: an
 * in-memory table and an id counter `nextId`, both kept at module level and
 * changed by each request. The two files have the same shape and differ only
 * in the fields a record carries, so one generic class `Simulada<D>` models
 * both: `D` is `DadosEvento` for the first and `DadosIgreja` for the second.
 *
 * CORS headers and the `try`/`catch` around a missing body are left out.
 */
module ApiSimulada {
  import opened Util
  import opened BancoTemp

  /** The five fields of an `api/eventos.js` record (`data_inicio`, `data_fim`, `igreja_id` in JSON); each can be any JSON value, `undefined` included. */
  datatype DadosEvento = DadosEvento(titulo: Valor, descricao: Valor, dataInicio: Valor, dataFim: Valor, igrejaId: Valor)

  /** The five fields of an `api/igrejas.js` record. */
  datatype DadosIgreja = DadosIgreja(nome: Valor, endereco: Valor, presidente: Valor, coordenadorArea: Valor, coordenadoraIr: Valor)

  /** A stored record: the numeric id, the request's fields, and `created_at`. */
  datatype Linha<D> = Linha(id: int, dados: D, criadoEm: string)

  /**
   * A request. `id` is the body's `id` when it is a number; any other value
   * never equals a stored id, which is `None` here.
   */
  datatype Pedido<D> = Opcoes | Obter | Criar(dados: D) | Alterar(id: Option<int>, dados: D) | Apagar(id: Option<int>) | Outro

  /** The JSON a response carries. */
  datatype Corpo<D> = Vazio | Lista(linhas: seq<Linha<D>>) | Uma(linha: Linha<D>) | Erro(mensagem: string)

  /** Ids strictly increase along the table, so they are unique. */
  predicate Crescente<D>(linhas: seq<Linha<D>>) {
    forall i, j :: 0 <= i < j < |linhas| ==> linhas[i].id < linhas[j].id
  }

  /** Filtering keeps the order, so a table that was increasing stays so. */
  lemma {:induction false} FiltrarCrescente<D>(linhas: seq<Linha<D>>, p: Linha<D> -> bool)
    requires Crescente(linhas)
    ensures Crescente(Filtrar(linhas, p))
    ensures forall k :: 0 <= k < |Filtrar(linhas, p)| ==> Filtrar(linhas, p)[k] in linhas
  {
    if linhas != [] {
      var resto := Filtrar(linhas[1..], p);
      FiltrarCrescente(linhas[1..], p);
      forall k | 0 <= k < |resto| ensures linhas[0].id < resto[k].id {
        var j :| 0 <= j < |linhas[1..]| && linhas[1..][j] == resto[k];
        assert linhas[j + 1] == resto[k];
      }
    }
  }

  function ComId<D>(id: Option<int>): Linha<D> -> bool {
    (l: Linha<D>) => id.Some? && l.id == id.value
  }

  function SemId<D>(id: Option<int>): Linha<D> -> bool {
    (l: Linha<D>) => !(id.Some? && l.id == id.value)
  }

  /** DELETE keeps exactly the records with another id. */
  lemma ApagarExato<D>(linhas: seq<Linha<D>>, id: Option<int>, l: Linha<D>)
    ensures l in Filtrar(linhas, SemId(id)) <==> l in linhas && !(id.Some? && l.id == id.value)
  {
    FiltrarPertence(linhas, SemId(id), l);
  }

  class Simulada<D(==)> {
    var linhas: seq<Linha<D>>
    var proximoId: int
    /** The `error` text of a 404: "Evento não encontrado" or "Igreja não encontrada". */
    const naoEncontrado: string

    /** Every id is below the counter, and ids strictly increase. */
    ghost predicate Valid()
      reads this
    {
      proximoId >= 1 && Crescente(linhas) && forall k :: 0 <= k < |linhas| ==> 1 <= linhas[k].id < proximoId
    }

    /** `let eventos = []; let nextId = 1;` */
    constructor (naoEncontrado: string)
      ensures Valid() && linhas == [] && proximoId == 1 && this.naoEncontrado == naoEncontrado
    {
      linhas := [];
      proximoId := 1;
      this.naoEncontrado := naoEncontrado;
    }

    /**
     * One request. `criadoEm` is `new Date().toISOString()` at that moment.
     * OPTIONS and GET change nothing; POST appends with `id = nextId++`; PUT
     * replaces the five fields of the first record with that id (404 if
     * none); DELETE drops every record with that id and always answers 204;
     * any other method answers 405.
     */
    method Atender(p: Pedido<D>, criadoEm: string) returns (status: int, corpo: Corpo<D>)
      requires Valid()
      modifies this
      ensures Valid()
      ensures p.Opcoes? ==> status == 200 && corpo == Vazio && linhas == old(linhas) && proximoId == old(proximoId)
      ensures p.Obter? ==> status == 200 && corpo == Lista(old(linhas)) && linhas == old(linhas) && proximoId == old(proximoId)
      ensures p.Criar? ==>
        var nova := Linha(old(proximoId), p.dados, criadoEm);
        status == 201 && corpo == Uma(nova) && linhas == old(linhas) + [nova] && proximoId == old(proximoId) + 1
      ensures p.Alterar? ==> proximoId == old(proximoId)
      ensures p.Alterar? && PrimeiraPosicao(old(linhas), ComId(p.id)).None? ==>
        status == 404 && corpo == Erro(naoEncontrado) && linhas == old(linhas)
      ensures p.Alterar? && PrimeiraPosicao(old(linhas), ComId(p.id)).Some? ==>
        var idx := PrimeiraPosicao(old(linhas), ComId(p.id)).value;
        var nova := old(linhas)[idx].(dados := p.dados);
        status == 200 && corpo == Uma(nova) && linhas == old(linhas)[idx := nova]
      ensures p.Apagar? ==>
        status == 204 && corpo == Vazio && linhas == Filtrar(old(linhas), SemId(p.id)) && proximoId == old(proximoId)
      ensures p.Outro? ==> status == 405 && corpo == Erro("Method not allowed") && linhas == old(linhas) && proximoId == old(proximoId)
    {
      match p
      case Opcoes =>
        return 200, Vazio;
      case Obter =>
        return 200, Lista(linhas);
      case Criar(dados) =>
        var nova := Linha(proximoId, dados, criadoEm);
        proximoId := proximoId + 1;
        linhas := linhas + [nova];
        return 201, Uma(nova);
      case Alterar(id, dados) =>
        var idx := PrimeiraPosicao(linhas, ComId(id));
        if idx.Some? {
          var nova := linhas[idx.value].(dados := dados);
          linhas := linhas[idx.value := nova];
          return 200, Uma(nova);
        }
        return 404, Erro(naoEncontrado);
      case Apagar(id) =>
        FiltrarCrescente(linhas, SemId(id));
        linhas := Filtrar(linhas, SemId(id));
        return 204, Vazio;
      case Outro =>
        return 405, Erro("Method not allowed");
    }
  }

  /** Appending a record whose id exceeds every stored one keeps ids increasing, hence unique. */
  lemma AcrescentarCrescente<D>(linhas: seq<Linha<D>>, nova: Linha<D>)
    requires Crescente(linhas) && forall k :: 0 <= k < |linhas| ==> linhas[k].id < nova.id
    ensures Crescente(linhas + [nova])
    ensures forall k :: 0 <= k < |linhas| ==> linhas[k].id != nova.id
  {
  }
}
