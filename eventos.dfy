/**
 * The event routes of the server (`server/routes/eventos.ts`) over the
 * shared `db`: listing by period, creating, editing and removing events,
 * each write guarded by the conflict check `validarConflitos`.
 *
 * The signed-in user is an explicit input: the routes dereference
 * `req.usuario!`, and without a user (the authentication middleware is not
 * mounted on these routes) that dereference throws and Express answers 500.
 * Generated ids are inputs as well.
 */
module RotasEventos {
  import opened Util
  import opened Api
  import opened Store

  // ---------------------------------------------------------------------
  // validarConflitos
  // ---------------------------------------------------------------------

  /** `ignorarId && ev.id === ignorarId`: only a non-empty id is skipped. */
  predicate Ignorado(ev: Evento, ignorarId: Option<string>) {
    ignorarId.Some? && ignorarId.value != "" && ev.id == ignorarId.value
  }

  /** The stored event `ev` stops `evento` from being saved. */
  predicate Bloqueia(ev: Evento, evento: Evento, ignorarId: Option<string>) {
    !Ignorado(ev, ignorarId) && EhConflito(evento, ev)
  }

  /** The error message naming the conflicting event. */
  function MensagemConflito(titulo: string): string {
    "Conflito de agendamento com o evento \"" + titulo + "\""
  }

  /** The position of the first entry, in table order, that blocks `evento`. */
  function PrimeiroConflito(eventos: seq<Evento>, evento: Evento, ignorarId: Option<string>): (r: Option<nat>)
    ensures r.None? <==> forall i :: 0 <= i < |eventos| ==> !Bloqueia(eventos[i], evento, ignorarId)
    ensures r.Some? ==> r.value < |eventos| && Bloqueia(eventos[r.value], evento, ignorarId)
    ensures r.Some? ==> forall i :: 0 <= i < r.value ==> !Bloqueia(eventos[i], evento, ignorarId)
  {
    if eventos == [] then None
    else if Bloqueia(eventos[0], evento, ignorarId) then Some(0)
    else
      var resto := PrimeiroConflito(eventos[1..], evento, ignorarId);
      match resto
      case None => None
      case Some(k) => Some(k + 1)
  }

  /** The outcome `validarConflitos` reports for a candidate event. */
  function ErroDeConflito(eventos: seq<Evento>, evento: Evento, ignorarId: Option<string>): Option<string> {
    match PrimeiroConflito(eventos, evento, ignorarId)
    case None => None
    case Some(i) => Some(MensagemConflito(eventos[i].titulo))
  }

  /**
   * `validarConflitos`: scans the table in order, skipping the event whose
   * id is `ignorarId`, and reports the first event that conflicts.
   */
  method ValidarConflitos(db: Db, evento: Evento, ignorarId: Option<string>) returns (erro: Option<string>)
    ensures erro.None? <==> forall i :: 0 <= i < |db.eventos| ==> !Bloqueia(db.eventos[i], evento, ignorarId)
    ensures erro == ErroDeConflito(db.eventos, evento, ignorarId)
  {
    var i := 0;
    while i < |db.eventos|
      invariant 0 <= i <= |db.eventos|
      invariant forall j :: 0 <= j < i ==> !Bloqueia(db.eventos[j], evento, ignorarId)
    {
      var ev := db.eventos[i];
      if ignorarId.Some? && ignorarId.value != "" && ev.id == ignorarId.value {
        i := i + 1;
        continue;
      }
      if EhConflito(evento, ev) {
        return Some(MensagemConflito(ev.titulo));
      }
      i := i + 1;
    }
    return None;
  }

  /** The skipped event is never the one reported, so an edit never clashes with itself. */
  lemma IgnoradoNuncaBloqueia(eventos: seq<Evento>, evento: Evento, id: string)
    requires id != ""
    ensures match PrimeiroConflito(eventos, evento, Some(id))
      case None => true
      case Some(i) => eventos[i].id != id
  {
  }

  /** The error is exactly "some entry blocks the candidate", and then it names the first. */
  lemma ErroSeAlgumBloqueia(eventos: seq<Evento>, evento: Evento, ignorarId: Option<string>, k: nat)
    requires k < |eventos| && Bloqueia(eventos[k], evento, ignorarId)
    ensures ErroDeConflito(eventos, evento, ignorarId).Some?
    ensures exists i :: (0 <= i <= k && Bloqueia(eventos[i], evento, ignorarId) &&
                         ErroDeConflito(eventos, evento, ignorarId) == Some(MensagemConflito(eventos[i].titulo)))
  {
    var i := PrimeiroConflito(eventos, evento, ignorarId).value;
    assert 0 <= i <= k;
  }

  // ---------------------------------------------------------------------
  // listarEventos
  // ---------------------------------------------------------------------

  function SobrepoePeriodo(i: int, f: int): Evento -> bool {
    (e: Evento) => e.inicio < f && e.fim > i
  }

  /** `listarEventos`: the events overlapping [inicio, fim) when both are given, else all. */
  function ListarEventos(eventos: seq<Evento>, inicio: Option<int>, fim: Option<int>): (r: seq<Evento>)
    ensures inicio.None? || fim.None? ==> r == eventos
    ensures inicio.Some? && fim.Some? ==>
      forall k :: 0 <= k < |r| ==> SobrepoeIntervalo(r[k].inicio, r[k].fim, inicio.value, fim.value)
  {
    if inicio.Some? && fim.Some? then Filtrar(eventos, SobrepoePeriodo(inicio.value, fim.value))
    else eventos
  }

  /** A listed period keeps every overlapping event, and only those. */
  lemma ListarEventosExato(eventos: seq<Evento>, i: int, f: int, e: Evento)
    ensures e in ListarEventos(eventos, Some(i), Some(f)) <==> e in eventos && SobrepoeIntervalo(e.inicio, e.fim, i, f)
  {
    FiltrarPertence(eventos, SobrepoePeriodo(i, f), e);
  }

  // ---------------------------------------------------------------------
  // Permissions
  // ---------------------------------------------------------------------

  /**
   * A leader bound to a church may only write events of that church: the
   * refusal never applies to an administrator or a member, to a leader
   * without a church, or to the leader's own church.
   */
  predicate LiderDeOutraIgreja(u: Ator, igrejaAlvo: string): (r: bool)
    ensures u.perfil != Lider ==> !r
    ensures !Presente(u.igrejaId) ==> !r
    ensures u.igrejaId == Some(igrejaAlvo) ==> !r
  {
    u.perfil == Lider && Presente(u.igrejaId) && u.igrejaId.value != igrejaAlvo
  }

  /** The two refusals of the write handlers: a member, or a leader of another church. */
  predicate SemPermissao(u: Ator, igrejaAlvo: string) {
    u.perfil == Membro || LiderDeOutraIgreja(u, igrejaAlvo)
  }

  // ---------------------------------------------------------------------
  // criarEvento
  // ---------------------------------------------------------------------

  datatype CriarEventoDTO = CriarEventoDTO(
    titulo: Option<string>,
    descricao: Option<string>,
    dataHoraInicio: Option<int>,
    dataHoraFim: Option<int>,
    igrejaId: Option<string>,
    recursoId: Option<string>,
    diaInteiro: Option<bool>)

  predicate CamposObrigatorios(d: CriarEventoDTO) {
    Presente(d.titulo) && d.dataHoraInicio.Some? && d.dataHoraFim.Some? && Presente(d.igrejaId)
  }

  /** The record `criarEvento` builds: no responsible person, department or organ. */
  function NovoEvento(d: CriarEventoDTO, u: Ator, id: string): (e: Evento)
    requires CamposObrigatorios(d)
    ensures e.id == id && e.titulo == d.titulo.value && e.descricao == d.descricao
    ensures e.inicio == d.dataHoraInicio.value && e.fim == d.dataHoraFim.value
    ensures e.criadoPor == u.id && e.igrejaId == d.igrejaId.value && e.recursoId == d.recursoId
    ensures e.diaInteiro <==> d.diaInteiro == Some(true)
    ensures e.responsavel.None? && e.departamentoId.None? && e.orgaoId.None?
  {
    Evento(id, d.titulo.value, d.descricao, None, d.dataHoraInicio.value, d.dataHoraFim.value,
           u.id, d.igrejaId.value, d.recursoId, d.diaInteiro == Some(true), None, None)
  }

  /** `criarEvento` */
  method CriarEvento(db: Db, usuario: Option<Ator>, dados: CriarEventoDTO, novoId: string) returns (r: Resposta<Evento>)
    modifies db`eventos
    ensures !CamposObrigatorios(dados) ==> r.status == 400
    ensures CamposObrigatorios(dados) && usuario.None? ==> r.status == 500
    ensures CamposObrigatorios(dados) && usuario.Some? && usuario.value.perfil == Membro ==> r.status == 403
    ensures CamposObrigatorios(dados) && usuario.Some? && LiderDeOutraIgreja(usuario.value, dados.igrejaId.value) ==> r.status == 403
    ensures r.status == 409 || r.status == 201 <==>
      CamposObrigatorios(dados) && usuario.Some? && usuario.value.perfil != Membro
      && !LiderDeOutraIgreja(usuario.value, dados.igrejaId.value)
    ensures r.status == 409 ==>
      r.erro == ErroDeConflito(old(db.eventos), NovoEvento(dados, usuario.value, novoId), None) && r.erro.Some?
    ensures r.status == 201 ==>
      ErroDeConflito(old(db.eventos), NovoEvento(dados, usuario.value, novoId), None).None?
      && r.corpo == Some(NovoEvento(dados, usuario.value, novoId))
      && db.eventos == old(db.eventos) + [NovoEvento(dados, usuario.value, novoId)]
    ensures r.status != 201 ==> db.eventos == old(db.eventos)
  {
    if !CamposObrigatorios(dados) {
      return Resposta(400, None, Some("Campos obrigatórios ausentes"));
    }
    if usuario.None? {
      return Resposta(500, None, None);
    }
    var u := usuario.value;
    if u.perfil == Membro {
      return Resposta(403, None, Some("Permissão negada"));
    }
    if LiderDeOutraIgreja(u, dados.igrejaId.value) {
      return Resposta(403, None, Some("Líder só pode criar eventos da sua igreja"));
    }
    var novo := NovoEvento(dados, u, novoId);
    var erro := ValidarConflitos(db, novo, None);
    if erro.Some? {
      return Resposta(409, None, erro);
    }
    db.eventos := db.eventos + [novo];
    return Resposta(201, Some(novo), None);
  }

  // ---------------------------------------------------------------------
  // atualizarEvento
  // ---------------------------------------------------------------------

  /**
   * The request body of an edit, any subset of the event's properties.
   * The nullable properties distinguish "not sent" from an explicit `null`.
   */
  datatype AtualizarEventoDTO = AtualizarEventoDTO(
    id: Option<string>,
    titulo: Option<string>,
    descricao: Campo<string>,
    responsavel: Campo<string>,
    dataHoraInicio: Option<int>,
    dataHoraFim: Option<int>,
    criadoPor: Option<string>,
    igrejaId: Option<string>,
    recursoId: Campo<string>,
    diaInteiro: Option<bool>,
    departamentoId: Campo<string>,
    orgaoId: Campo<string>)

  /**
   * `{ ...atual, ...dados }` with the instants taken from the body only when
   * it sends them. The merged event belongs to the church the permission
   * check of `atualizarEvento` looked at.
   */
  function Mesclar(atual: Evento, d: AtualizarEventoDTO): (r: Evento)
    ensures d == SemAlteracoes ==> r == atual
    ensures r.igrejaId == d.igrejaId.GetOr(atual.igrejaId)
    ensures r.inicio == (if d.dataHoraInicio.Some? then d.dataHoraInicio.value else atual.inicio)
    ensures r.fim == (if d.dataHoraFim.Some? then d.dataHoraFim.value else atual.fim)
  {
    Evento(
      d.id.GetOr(atual.id),
      d.titulo.GetOr(atual.titulo),
      Sobrescrever(atual.descricao, d.descricao),
      Sobrescrever(atual.responsavel, d.responsavel),
      d.dataHoraInicio.GetOr(atual.inicio),
      d.dataHoraFim.GetOr(atual.fim),
      d.criadoPor.GetOr(atual.criadoPor),
      d.igrejaId.GetOr(atual.igrejaId),
      Sobrescrever(atual.recursoId, d.recursoId),
      d.diaInteiro.GetOr(atual.diaInteiro),
      Sobrescrever(atual.departamentoId, d.departamentoId),
      Sobrescrever(atual.orgaoId, d.orgaoId))
  }

  /** The body that sends nothing. */
  const SemAlteracoes: AtualizarEventoDTO :=
    AtualizarEventoDTO(None, None, NaoEnviado, NaoEnviado, None, None, None, None, NaoEnviado, None, NaoEnviado, NaoEnviado)

  function ComId(id: string): Evento -> bool {
    (e: Evento) => e.id == id
  }

  /** `atualizarEvento` */
  method AtualizarEvento(db: Db, usuario: Option<Ator>, id: string, dados: AtualizarEventoDTO) returns (r: Resposta<Evento>)
    modifies db`eventos
    ensures r.status == 404 <==> PrimeiraPosicao(old(db.eventos), ComId(id)).None?
    ensures PrimeiraPosicao(old(db.eventos), ComId(id)).Some? && usuario.None? ==> r.status == 500
    ensures r.status == 403 <==>
      var idx := PrimeiraPosicao(old(db.eventos), ComId(id));
      idx.Some? && usuario.Some?
      && SemPermissao(usuario.value, dados.igrejaId.GetOr(old(db.eventos)[idx.value].igrejaId))
    ensures r.status == 200 <==>
      var idx := PrimeiraPosicao(old(db.eventos), ComId(id));
      idx.Some? && usuario.Some?
      && !SemPermissao(usuario.value, dados.igrejaId.GetOr(old(db.eventos)[idx.value].igrejaId))
      && ErroDeConflito(old(db.eventos), Mesclar(old(db.eventos)[idx.value], dados), Some(id)).None?
    ensures r.status == 409 || r.status == 200 ==>
      var idx := PrimeiraPosicao(old(db.eventos), ComId(id));
      var atual := old(db.eventos)[idx.value];
      idx.Some? && usuario.Some? && usuario.value.perfil != Membro
      && !LiderDeOutraIgreja(usuario.value, dados.igrejaId.GetOr(atual.igrejaId))
      && (r.status == 409 <==> ErroDeConflito(old(db.eventos), Mesclar(atual, dados), Some(id)).Some?)
    ensures r.status == 200 ==>
      var idx := PrimeiraPosicao(old(db.eventos), ComId(id)).value;
      var editado := Mesclar(old(db.eventos)[idx], dados);
      db.eventos == old(db.eventos)[idx := editado] && r.corpo == Some(editado)
    ensures r.status != 200 ==> db.eventos == old(db.eventos)
  {
    var idx := PrimeiraPosicao(db.eventos, ComId(id));
    if idx.None? {
      return Resposta(404, None, Some("Evento não encontrado"));
    }
    var atual := db.eventos[idx.value];
    if usuario.None? {
      return Resposta(500, None, None);
    }
    var u := usuario.value;
    if u.perfil == Membro {
      return Resposta(403, None, Some("Permissão negada"));
    }
    if LiderDeOutraIgreja(u, dados.igrejaId.GetOr(atual.igrejaId)) {
      return Resposta(403, None, Some("Líder só pode editar eventos da sua igreja"));
    }
    var editado := Mesclar(atual, dados);
    var erro := ValidarConflitos(db, editado, Some(id));
    if erro.Some? {
      return Resposta(409, None, erro);
    }
    db.eventos := db.eventos[idx.value := editado];
    return Resposta(200, Some(editado), None);
  }

  /**
   * Saving an event unchanged never reports a conflict with itself: the
   * edit skips every entry carrying the route's id, and the stored event is
   * one of them.
   */
  lemma EdicaoSemMudancaNaoConflitaConsigo(eventos: seq<Evento>, id: string)
    requires id != ""
    requires PrimeiraPosicao(eventos, ComId(id)).Some?
    ensures var atual := eventos[PrimeiraPosicao(eventos, ComId(id)).value];
      match PrimeiroConflito(eventos, Mesclar(atual, SemAlteracoes), Some(id))
      case None => true
      case Some(i) => eventos[i].id != atual.id
  {
    var atual := eventos[PrimeiraPosicao(eventos, ComId(id)).value];
    IgnoradoNuncaBloqueia(eventos, atual, id);
  }

  // ---------------------------------------------------------------------
  // removerEvento
  // ---------------------------------------------------------------------

  function SemId(id: string): Evento -> bool {
    (e: Evento) => e.id != id
  }

  /** `removerEvento` */
  method RemoverEvento(db: Db, usuario: Option<Ator>, id: string) returns (r: Resposta<Evento>)
    modifies db`eventos
    ensures r.status == 404 <==> PrimeiraPosicao(old(db.eventos), ComId(id)).None?
    ensures PrimeiraPosicao(old(db.eventos), ComId(id)).Some? && usuario.None? ==> r.status == 500
    ensures r.status == 403 <==>
      var idx := PrimeiraPosicao(old(db.eventos), ComId(id));
      idx.Some? && usuario.Some? && SemPermissao(usuario.value, old(db.eventos)[idx.value].igrejaId)
    ensures r.status == 204 <==>
      var idx := PrimeiraPosicao(old(db.eventos), ComId(id));
      idx.Some? && usuario.Some? && !SemPermissao(usuario.value, old(db.eventos)[idx.value].igrejaId)
    ensures r.status == 204 ==>
      var atual := old(db.eventos)[PrimeiraPosicao(old(db.eventos), ComId(id)).value];
      usuario.Some? && usuario.value.perfil != Membro && !LiderDeOutraIgreja(usuario.value, atual.igrejaId)
      && db.eventos == Filtrar(old(db.eventos), SemId(id))
    ensures r.status != 204 ==> db.eventos == old(db.eventos)
  {
    var idx := PrimeiraPosicao(db.eventos, ComId(id));
    if idx.None? {
      return Resposta(404, None, Some("Evento não encontrado"));
    }
    var atual := db.eventos[idx.value];
    if usuario.None? {
      return Resposta(500, None, None);
    }
    var u := usuario.value;
    if u.perfil == Membro {
      return Resposta(403, None, Some("Permissão negada"));
    }
    if LiderDeOutraIgreja(u, atual.igrejaId) {
      return Resposta(403, None, Some("Líder só pode excluir eventos da sua igreja"));
    }
    db.eventos := Filtrar(db.eventos, SemId(id));
    return Resposta(204, None, None);
  }

  /** Removal keeps exactly the events with another id, in their order. */
  lemma RemocaoExata(eventos: seq<Evento>, id: string, e: Evento)
    ensures e in Filtrar(eventos, SemId(id)) <==> e in eventos && e.id != id
    ensures forall k :: 0 <= k < |Filtrar(eventos, SemId(id))| ==> Filtrar(eventos, SemId(id))[k].id != id
  {
    FiltrarPertence(eventos, SemId(id), e);
  }
}
