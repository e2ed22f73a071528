/**
 * The church routes (`server/routes/igrejas.ts`): creation with a
 * case-insensitive unique name, a field-by-field update, and removal, which
 * also deletes every event of the removed church.
 */
module RotasIgrejas {
  import opened Util
  import opened Api
  import opened Store

  /** The church names, in table order. */
  function NomesDe(igrejas: seq<Igreja>): (ns: seq<string>)
    ensures |ns| == |igrejas|
    ensures forall k :: 0 <= k < |ns| ==> ns[k] == igrejas[k].nome
  {
    seq(|igrejas|, k requires 0 <= k < |igrejas| => igrejas[k].nome)
  }

  /** The record `criarIgreja` stores; it carries no bodies or departments yet. */
  function NovaIgreja(id: string, nome: string, endereco: Option<string>, codigoCor: Option<string>): (i: Igreja)
    ensures i.id == id && i.nome == nome && i.endereco == endereco && i.codigoCor == codigoCor
    ensures i.orgaos == [] && i.departamentos == []
  {
    Igreja(id, nome, endereco, codigoCor, [], [])
  }

  /** `criarIgreja` */
  method CriarIgreja(db: Db, nome: Option<string>, endereco: Option<string>, codigoCor: Option<string>, novoId: string)
    returns (r: Resposta<Igreja>)
    modifies db`igrejas
    ensures !Presente(nome) ==> r.status == 400
    ensures Presente(nome) && EmUsoSemCaixa(NomesDe(old(db.igrejas)), nome.value) ==> r.status == 409
    ensures r.status == 201 <==> Presente(nome) && !EmUsoSemCaixa(NomesDe(old(db.igrejas)), nome.value)
    ensures r.status == 201 ==>
      r.corpo == Some(NovaIgreja(novoId, nome.value, endereco, codigoCor))
      && db.igrejas == old(db.igrejas) + [NovaIgreja(novoId, nome.value, endereco, codigoCor)]
    ensures r.status != 201 ==> db.igrejas == old(db.igrejas)
  {
    if !Presente(nome) {
      return Resposta(400, None, Some("Nome é obrigatório"));
    }
    if exists k :: 0 <= k < |db.igrejas| && Minusculas(db.igrejas[k].nome) == Minusculas(nome.value) {
      assert EmUsoSemCaixa(NomesDe(db.igrejas), nome.value);
      return Resposta(409, None, Some("Igreja com esse nome já existe"));
    }
    var nova := NovaIgreja(novoId, nome.value, endereco, codigoCor);
    db.igrejas := db.igrejas + [nova];
    return Resposta(201, Some(nova), None);
  }

  /** A successful creation keeps church names unique, ignoring case. */
  lemma CriarPreservaNomesUnicos(igrejas: seq<Igreja>, nova: Igreja)
    requires UnicosSemCaixa(NomesDe(igrejas)) && !EmUsoSemCaixa(NomesDe(igrejas), nova.nome)
    ensures UnicosSemCaixa(NomesDe(igrejas + [nova]))
  {
    assert NomesDe(igrejas + [nova]) == NomesDe(igrejas) + [nova.nome];
    AcrescentarUnico(NomesDe(igrejas), nova.nome);
  }

  /** The record after `{ ...atual, nome: nome ?? atual.nome, ... }`. */
  function Atualizada(atual: Igreja, nome: Option<string>, endereco: Option<string>, codigoCor: Option<string>): (i: Igreja)
    ensures i.id == atual.id && i.orgaos == atual.orgaos && i.departamentos == atual.departamentos
    ensures i.nome == (if nome.Some? then nome.value else atual.nome)
    ensures i.endereco == (if endereco.Some? then endereco else atual.endereco)
    ensures i.codigoCor == (if codigoCor.Some? then codigoCor else atual.codigoCor)
  {
    atual.(nome := nome.GetOr(atual.nome),
           endereco := if endereco.Some? then endereco else atual.endereco,
           codigoCor := if codigoCor.Some? then codigoCor else atual.codigoCor)
  }

  /** An update that sends no field leaves the church as it was. */
  lemma AtualizadaSemCampos(atual: Igreja)
    ensures Atualizada(atual, None, None, None) == atual
  {
  }

  function ComId(id: string): Igreja -> bool {
    (i: Igreja) => i.id == id
  }

  /** `atualizarIgreja`: no uniqueness check on the new name. */
  method AtualizarIgreja(db: Db, id: string, nome: Option<string>, endereco: Option<string>, codigoCor: Option<string>)
    returns (r: Resposta<Igreja>)
    modifies db`igrejas
    ensures r.status == 404 <==> PrimeiraPosicao(old(db.igrejas), ComId(id)).None?
    ensures r.status != 404 ==>
      var idx := PrimeiraPosicao(old(db.igrejas), ComId(id)).value;
      var nova := Atualizada(old(db.igrejas)[idx], nome, endereco, codigoCor);
      r.status == 200 && r.corpo == Some(nova) && db.igrejas == old(db.igrejas)[idx := nova]
    ensures r.status == 404 ==> db.igrejas == old(db.igrejas)
  {
    var idx := PrimeiraPosicao(db.igrejas, ComId(id));
    if idx.None? {
      return Resposta(404, None, Some("Igreja não encontrada"));
    }
    var nova := Atualizada(db.igrejas[idx.value], nome, endereco, codigoCor);
    db.igrejas := db.igrejas[idx.value := nova];
    return Resposta(200, Some(nova), None);
  }

  function SemId(id: string): Igreja -> bool {
    (i: Igreja) => i.id != id
  }

  function DeOutraIgreja(id: string): Evento -> bool {
    (e: Evento) => e.igrejaId != id
  }

  /** `removerIgreja` */
  method RemoverIgreja(db: Db, id: string) returns (r: Resposta<Igreja>)
    modifies db`igrejas, db`eventos
    ensures r.status == 404 <==> forall k :: 0 <= k < |old(db.igrejas)| ==> old(db.igrejas)[k].id != id
    ensures r.status == 404 ==> db.igrejas == old(db.igrejas) && db.eventos == old(db.eventos)
    ensures r.status != 404 ==>
      r.status == 204 && db.igrejas == Filtrar(old(db.igrejas), SemId(id))
      && db.eventos == Filtrar(old(db.eventos), DeOutraIgreja(id))
  {
    if !(exists k :: 0 <= k < |db.igrejas| && db.igrejas[k].id == id) {
      return Resposta(404, None, Some("Igreja não encontrada"));
    }
    db.igrejas := Filtrar(db.igrejas, SemId(id));
    db.eventos := Filtrar(db.eventos, DeOutraIgreja(id));
    return Resposta(204, None, None);
  }

  /**
   * The removal cascade: no church and no event with the removed id is
   * left, and every other church and event is kept.
   */
  lemma RemocaoEmCascata(igrejas: seq<Igreja>, eventos: seq<Evento>, id: string)
    ensures forall i :: i in Filtrar(igrejas, SemId(id)) <==> i in igrejas && i.id != id
    ensures forall e :: e in Filtrar(eventos, DeOutraIgreja(id)) <==> e in eventos && e.igrejaId != id
  {
    forall i ensures i in Filtrar(igrejas, SemId(id)) <==> i in igrejas && i.id != id {
      FiltrarPertence(igrejas, SemId(id), i);
    }
    forall e ensures e in Filtrar(eventos, DeOutraIgreja(id)) <==> e in eventos && e.igrejaId != id {
      FiltrarPertence(eventos, DeOutraIgreja(id), e);
    }
  }
}
