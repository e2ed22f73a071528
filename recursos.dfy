/**
 * The resource routes (`server/routes/recursos.ts`) over the shared `db`:
 * creation with a case-insensitive unique name, a field-by-field update,
 * and removal, which also detaches the removed resource from every event.
 */
module RotasRecursos {
  import opened Util
  import opened Api
  import opened Store

  /** The resource names, in table order. */
  function NomesDe(recursos: seq<Recurso>): (ns: seq<string>)
    ensures |ns| == |recursos|
    ensures forall k :: 0 <= k < |ns| ==> ns[k] == recursos[k].nome
  {
    seq(|recursos|, k requires 0 <= k < |recursos| => recursos[k].nome)
  }

  /** The record `criarRecurso` stores: no type is null, availability defaults to true. */
  function NovoRecurso(id: string, nome: string, tipo: Option<TipoRecurso>, estaDisponivel: Option<bool>): (r: Recurso)
    ensures r.id == id && r.nome == nome && r.tipo == tipo
    ensures r.estaDisponivel <==> estaDisponivel != Some(false)
  {
    Recurso(id, nome, tipo, estaDisponivel.GetOr(true))
  }

  /** `criarRecurso` */
  method CriarRecurso(db: Db, nome: Option<string>, tipo: Option<TipoRecurso>, estaDisponivel: Option<bool>, novoId: string)
    returns (r: Resposta<Recurso>)
    modifies db`recursos
    ensures !Presente(nome) ==> r.status == 400
    ensures Presente(nome) && EmUsoSemCaixa(NomesDe(old(db.recursos)), nome.value) ==> r.status == 409
    ensures r.status == 201 <==> Presente(nome) && !EmUsoSemCaixa(NomesDe(old(db.recursos)), nome.value)
    ensures r.status == 201 ==>
      r.corpo == Some(NovoRecurso(novoId, nome.value, tipo, estaDisponivel))
      && db.recursos == old(db.recursos) + [NovoRecurso(novoId, nome.value, tipo, estaDisponivel)]
    ensures r.status != 201 ==> db.recursos == old(db.recursos)
  {
    if !Presente(nome) {
      return Resposta(400, None, Some("Nome é obrigatório"));
    }
    if exists k :: 0 <= k < |db.recursos| && Minusculas(db.recursos[k].nome) == Minusculas(nome.value) {
      assert EmUsoSemCaixa(NomesDe(db.recursos), nome.value);
      return Resposta(409, None, Some("Recurso com esse nome já existe"));
    }
    var novo := NovoRecurso(novoId, nome.value, tipo, estaDisponivel);
    db.recursos := db.recursos + [novo];
    return Resposta(201, Some(novo), None);
  }

  /** A successful creation keeps resource names unique, ignoring case. */
  lemma CriarPreservaNomesUnicos(recursos: seq<Recurso>, novo: Recurso)
    requires UnicosSemCaixa(NomesDe(recursos)) && !EmUsoSemCaixa(NomesDe(recursos), novo.nome)
    ensures UnicosSemCaixa(NomesDe(recursos + [novo]))
  {
    assert NomesDe(recursos + [novo]) == NomesDe(recursos) + [novo.nome];
    AcrescentarUnico(NomesDe(recursos), novo.nome);
  }

  /** The record after `{ ...atual, nome: nome ?? atual.nome, ... }`. */
  function Atualizado(atual: Recurso, nome: Option<string>, tipo: Option<TipoRecurso>, estaDisponivel: Option<bool>): (r: Recurso)
    ensures r.id == atual.id
    ensures r.nome == (if nome.Some? then nome.value else atual.nome)
    ensures r.tipo == (if tipo.Some? then tipo else atual.tipo)
    ensures r.estaDisponivel == (if estaDisponivel.Some? then estaDisponivel.value else atual.estaDisponivel)
  {
    atual.(nome := nome.GetOr(atual.nome), tipo := if tipo.Some? then tipo else atual.tipo,
           estaDisponivel := estaDisponivel.GetOr(atual.estaDisponivel))
  }

  function ComId(id: string): Recurso -> bool {
    (r: Recurso) => r.id == id
  }

  /** `atualizarRecurso`: no uniqueness check on the new name. */
  method AtualizarRecurso(db: Db, id: string, nome: Option<string>, tipo: Option<TipoRecurso>, estaDisponivel: Option<bool>)
    returns (r: Resposta<Recurso>)
    modifies db`recursos
    ensures r.status == 404 <==> PrimeiraPosicao(old(db.recursos), ComId(id)).None?
    ensures r.status != 404 ==>
      var idx := PrimeiraPosicao(old(db.recursos), ComId(id)).value;
      var novo := Atualizado(old(db.recursos)[idx], nome, tipo, estaDisponivel);
      r.status == 200 && r.corpo == Some(novo) && db.recursos == old(db.recursos)[idx := novo]
    ensures r.status == 404 ==> db.recursos == old(db.recursos)
  {
    var idx := PrimeiraPosicao(db.recursos, ComId(id));
    if idx.None? {
      return Resposta(404, None, Some("Recurso não encontrado"));
    }
    var novo := Atualizado(db.recursos[idx.value], nome, tipo, estaDisponivel);
    db.recursos := db.recursos[idx.value := novo];
    return Resposta(200, Some(novo), None);
  }

  /**
   * A rename is not checked against the other names: two resources can end
   * up with the same name, which creation would have refused.
   */
  lemma RenomearPodeDuplicar()
    ensures var a := Recurso("a", "Sala", None, true);
      var b := Recurso("b", "Projetor", None, true);
      UnicosSemCaixa(NomesDe([a, b])) && !UnicosSemCaixa(NomesDe([a, Atualizado(b, Some("sala"), None, None)]))
  {
    var a := Recurso("a", "Sala", None, true);
    var b := Recurso("b", "Projetor", None, true);
    var b2 := Atualizado(b, Some("sala"), None, None);
    assert MinusculaChar('S') == 's' && MinusculaChar('P') == 'p';
    assert Minusculas(a.nome)[0] == 's' && Minusculas(b.nome)[0] == 'p';
    assert UnicosSemCaixa(NomesDe([a, b]));
    assert Minusculas(a.nome) == "sala";
    assert Minusculas(b2.nome) == "sala";
    assert MesmoSemCaixa(NomesDe([a, b2])[0], NomesDe([a, b2])[1]);
  }

  function SemId(id: string): Recurso -> bool {
    (r: Recurso) => r.id != id
  }

  /** `e.recursoId === id ? { ...e, recursoId: null } : e` for every event. */
  function Desvincular(eventos: seq<Evento>, id: string): (r: seq<Evento>)
    ensures |r| == |eventos|
    ensures forall k :: 0 <= k < |r| ==>
      r[k] == (if eventos[k].recursoId == Some(id) then eventos[k].(recursoId := None) else eventos[k])
  {
    seq(|eventos|, k requires 0 <= k < |eventos| =>
      if eventos[k].recursoId == Some(id) then eventos[k].(recursoId := None) else eventos[k])
  }

  /**
   * After detaching, no event references the removed resource; events that
   * did not reference it are untouched, and those that did lose only their
   * resource.
   */
  lemma DesvincularCompleto(eventos: seq<Evento>, id: string)
    ensures forall k :: 0 <= k < |eventos| ==> Desvincular(eventos, id)[k].recursoId != Some(id)
    ensures forall k :: 0 <= k < |eventos| && eventos[k].recursoId != Some(id) ==> Desvincular(eventos, id)[k] == eventos[k]
    ensures forall k :: 0 <= k < |eventos| ==>
      Desvincular(eventos, id)[k].(recursoId := eventos[k].recursoId) == eventos[k]
  {
  }

  /** `removerRecurso` */
  method RemoverRecurso(db: Db, id: string) returns (r: Resposta<Recurso>)
    modifies db`recursos, db`eventos
    ensures r.status == 404 <==> forall k :: 0 <= k < |old(db.recursos)| ==> old(db.recursos)[k].id != id
    ensures r.status == 404 ==> db.recursos == old(db.recursos) && db.eventos == old(db.eventos)
    ensures r.status != 404 ==>
      r.status == 204 && db.recursos == Filtrar(old(db.recursos), SemId(id))
      && db.eventos == Desvincular(old(db.eventos), id)
  {
    if !(exists k :: 0 <= k < |db.recursos| && db.recursos[k].id == id) {
      return Resposta(404, None, Some("Recurso não encontrado"));
    }
    db.recursos := Filtrar(db.recursos, SemId(id));
    db.eventos := Desvincular(db.eventos, id);
    return Resposta(204, None, None);
  }
}
