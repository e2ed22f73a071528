/**
 * The user routes (`server/routes/usuarios.ts`): listing without password
 * hashes, creation with a case-insensitive unique e-mail, update, removal
 * (which deletes the user's events) and the two birthday queries.
 *
 * bcrypt is not modelled: each handler receives the hash of the submitted
 * password as a parameter, and the clock reading "today" is a parameter too.
 */
module RotasUsuarios {
  import opened Util
  import opened Api
  import opened Store

  /** `listarUsuarios`: every user, in order, without its password hash. */
  function ListarUsuarios(usuarios: seq<Usuario>): (r: seq<UsuarioPublico>)
    ensures |r| == |usuarios|
    ensures forall k :: 0 <= k < |r| ==> r[k] == Publico(usuarios[k])
  {
    seq(|usuarios|, k requires 0 <= k < |usuarios| => Publico(usuarios[k]))
  }

  /** The listing loses nothing but the hash: two users with equal listings differ at most in it. */
  lemma ListarSoEscondeHash(u: Usuario, v: Usuario)
    requires Publico(u) == Publico(v)
    ensures u.(senhaHash := v.senhaHash) == v
  {
  }

  /** The e-mail addresses, in table order. */
  function EmailsDe(usuarios: seq<Usuario>): (ns: seq<string>)
    ensures |ns| == |usuarios|
    ensures forall k :: 0 <= k < |ns| ==> ns[k] == usuarios[k].email
  {
    seq(|usuarios|, k requires 0 <= k < |usuarios| => usuarios[k].email)
  }

  /** User ids are distinct (they come from `randomUUID`). */
  predicate IdsUnicos(usuarios: seq<Usuario>) {
    forall i, j :: 0 <= i < j < |usuarios| ==> usuarios[i].id != usuarios[j].id
  }

  /** The body of `POST /usuarios`. */
  datatype CriarUsuarioDTO = CriarUsuarioDTO(
    nome: Option<string>,
    email: Option<string>,
    senha: Option<string>,
    perfil: Option<Perfil>,
    igrejaId: Option<string>,
    dataNascimento: Option<DataCivil>)

  predicate CamposObrigatorios(d: CriarUsuarioDTO) {
    Presente(d.nome) && Presente(d.email) && Presente(d.senha) && d.perfil.Some?
  }

  /** The record `criarUsuario` stores. */
  function NovoUsuario(d: CriarUsuarioDTO, id: string, senhaHash: string): (u: Usuario)
    requires CamposObrigatorios(d)
    ensures u.id == id && u.nome == d.nome.value && u.email == d.email.value && u.senhaHash == senhaHash
    ensures u.perfil == d.perfil.value && u.igrejaId == d.igrejaId && u.dataNascimento == d.dataNascimento
    ensures u.departamentoId.None? && u.orgaoId.None?
  {
    Usuario(id, d.nome.value, d.email.value, senhaHash, d.perfil.value, d.igrejaId, d.dataNascimento, None, None)
  }

  /** `criarUsuario`; `senhaHash` is the hash of `d.senha`. */
  method CriarUsuario(db: Db, d: CriarUsuarioDTO, novoId: string, senhaHash: string)
    returns (r: Resposta<UsuarioPublico>)
    modifies db`usuarios
    ensures !CamposObrigatorios(d) ==> r.status == 400
    ensures CamposObrigatorios(d) && EmUsoSemCaixa(EmailsDe(old(db.usuarios)), d.email.value) ==> r.status == 409
    ensures r.status == 201 <==> CamposObrigatorios(d) && !EmUsoSemCaixa(EmailsDe(old(db.usuarios)), d.email.value)
    ensures r.status == 201 ==>
      r.corpo == Some(Publico(NovoUsuario(d, novoId, senhaHash)))
      && db.usuarios == old(db.usuarios) + [NovoUsuario(d, novoId, senhaHash)]
    ensures r.status != 201 ==> db.usuarios == old(db.usuarios)
  {
    if !CamposObrigatorios(d) {
      return Resposta(400, None, Some("Campos obrigatórios ausentes"));
    }
    if exists k :: 0 <= k < |db.usuarios| && Minusculas(db.usuarios[k].email) == Minusculas(d.email.value) {
      assert EmUsoSemCaixa(EmailsDe(db.usuarios), d.email.value);
      return Resposta(409, None, Some("Email já cadastrado"));
    }
    var novo := NovoUsuario(d, novoId, senhaHash);
    db.usuarios := db.usuarios + [novo];
    return Resposta(201, Some(Publico(novo)), None);
  }

  /** A successful creation keeps e-mail addresses unique, ignoring case. */
  lemma CriarPreservaEmailsUnicos(usuarios: seq<Usuario>, novo: Usuario)
    requires UnicosSemCaixa(EmailsDe(usuarios)) && !EmUsoSemCaixa(EmailsDe(usuarios), novo.email)
    ensures UnicosSemCaixa(EmailsDe(usuarios + [novo]))
  {
    assert EmailsDe(usuarios + [novo]) == EmailsDe(usuarios) + [novo.email];
    AcrescentarUnico(EmailsDe(usuarios), novo.email);
  }

  /** The body of `PUT /usuarios/:id`: every field optional, `null` read as absent. */
  datatype AtualizarUsuarioDTO = AtualizarUsuarioDTO(
    nome: Option<string>,
    email: Option<string>,
    senha: Option<string>,
    perfil: Option<Perfil>,
    igrejaId: Option<string>,
    dataNascimento: Option<DataCivil>)

  /** Another user (one with a different id) has `email`, ignoring case. */
  predicate EmailDeOutro(usuarios: seq<Usuario>, email: string, id: string) {
    exists k :: 0 <= k < |usuarios| && MesmoSemCaixa(usuarios[k].email, email) && usuarios[k].id != id
  }

  /** `emailJaExiste`: the clash check runs only for a truthy e-mail. */
  predicate EmailBarrado(usuarios: seq<Usuario>, email: Option<string>, id: string) {
    Presente(email) && EmailDeOutro(usuarios, email.value, id)
  }

  /**
   * The record `atualizarUsuario` stores, as written: `email ?? atual.email`
   * keeps an empty e-mail, which the clash check has let through.
   */
  function AtualizadoComoEscrito(atual: Usuario, d: AtualizarUsuarioDTO, senhaHash: string): (u: Usuario)
    ensures u.id == atual.id && u.departamentoId == atual.departamentoId && u.orgaoId == atual.orgaoId
    ensures u.nome == (if d.nome.Some? then d.nome.value else atual.nome)
    ensures u.email == (if d.email.Some? then d.email.value else atual.email)
    ensures u.senhaHash == (if Presente(d.senha) then senhaHash else atual.senhaHash)
    ensures u.perfil == (if d.perfil.Some? then d.perfil.value else atual.perfil)
    ensures u.igrejaId == (if d.igrejaId.Some? then d.igrejaId else atual.igrejaId)
    ensures u.dataNascimento == (if d.dataNascimento.Some? then d.dataNascimento else atual.dataNascimento)
  {
    atual.(nome := d.nome.GetOr(atual.nome),
           email := d.email.GetOr(atual.email),
           senhaHash := if Presente(d.senha) then senhaHash else atual.senhaHash,
           perfil := d.perfil.GetOr(atual.perfil),
           igrejaId := if d.igrejaId.Some? then d.igrejaId else atual.igrejaId,
           dataNascimento := if d.dataNascimento.Some? then d.dataNascimento else atual.dataNascimento)
  }

  /**
   * Two updates that each send `email: ""` pass the clash check and leave
   * two users with the same (empty) e-mail, which creation never allows.
   */
  lemma EmailVazioDuplica()
    ensures var a := Usuario("1", "Ana", "ana@igreja.app", "h1", Membro, None, None, None, None);
      var b := Usuario("2", "Bia", "bia@igreja.app", "h2", Membro, None, None, None, None);
      var vazio := AtualizarUsuarioDTO(None, Some(""), None, None, None, None);
      var passo1 := [AtualizadoComoEscrito(a, vazio, ""), b];
      var passo2 := [AtualizadoComoEscrito(a, vazio, ""), AtualizadoComoEscrito(b, vazio, "")];
      UnicosSemCaixa(EmailsDe([a, b]))
      && !EmailBarrado([a, b], vazio.email, "1")
      && !EmailBarrado(passo1, vazio.email, "2")
      && !UnicosSemCaixa(EmailsDe(passo2))
  {
    var a := Usuario("1", "Ana", "ana@igreja.app", "h1", Membro, None, None, None, None);
    var b := Usuario("2", "Bia", "bia@igreja.app", "h2", Membro, None, None, None, None);
    var vazio := AtualizarUsuarioDTO(None, Some(""), None, None, None, None);
    var passo2 := [AtualizadoComoEscrito(a, vazio, ""), AtualizadoComoEscrito(b, vazio, "")];
    assert Minusculas(a.email)[0] == 'a' && Minusculas(b.email)[0] == 'b';
    assert UnicosSemCaixa(EmailsDe([a, b]));
    assert MesmoSemCaixa(EmailsDe(passo2)[0], EmailsDe(passo2)[1]);
  }

  /**
   * The record `atualizarUsuario` should store: an e-mail replaces the old
   * one only when it is truthy, the same condition under which it was
   * checked for clashes. Every other field follows `campo ?? atual.campo`,
   * and the password hash changes only for a truthy password.
   */
  function Atualizado(atual: Usuario, d: AtualizarUsuarioDTO, senhaHash: string): (u: Usuario)
    ensures u.id == atual.id && u.departamentoId == atual.departamentoId && u.orgaoId == atual.orgaoId
    ensures u.nome == (if d.nome.Some? then d.nome.value else atual.nome)
    ensures u.email == (if Presente(d.email) then d.email.value else atual.email)
    ensures u.senhaHash == (if Presente(d.senha) then senhaHash else atual.senhaHash)
    ensures u.perfil == (if d.perfil.Some? then d.perfil.value else atual.perfil)
    ensures u.igrejaId == (if d.igrejaId.Some? then d.igrejaId else atual.igrejaId)
    ensures u.dataNascimento == (if d.dataNascimento.Some? then d.dataNascimento else atual.dataNascimento)
  {
    AtualizadoComoEscrito(atual, d.(email := if Presente(d.email) then d.email else None), senhaHash)
  }

  /** The two definitions differ only on an empty e-mail. */
  lemma AtualizadoDifereSoNoVazio(atual: Usuario, d: AtualizarUsuarioDTO, senhaHash: string)
    requires d.email != Some("")
    ensures Atualizado(atual, d, senhaHash) == AtualizadoComoEscrito(atual, d, senhaHash)
  {
  }

  function ComId(id: string): Usuario -> bool {
    (u: Usuario) => u.id == id
  }

  /**
   * An update that passes the clash check keeps e-mail addresses unique,
   * ignoring case.
   */
  lemma {:induction false} AtualizarPreservaEmailsUnicos(usuarios: seq<Usuario>, id: string, d: AtualizarUsuarioDTO, senhaHash: string)
    requires UnicosSemCaixa(EmailsDe(usuarios)) && IdsUnicos(usuarios)
    requires PrimeiraPosicao(usuarios, ComId(id)).Some?
    requires !EmailBarrado(usuarios, d.email, id)
    ensures var idx := PrimeiraPosicao(usuarios, ComId(id)).value;
      UnicosSemCaixa(EmailsDe(usuarios[idx := Atualizado(usuarios[idx], d, senhaHash)]))
  {
    var idx := PrimeiraPosicao(usuarios, ComId(id)).value;
    var novo := Atualizado(usuarios[idx], d, senhaHash);
    assert EmailsDe(usuarios[idx := novo]) == EmailsDe(usuarios)[idx := novo.email];
    if Presente(d.email) {
      forall k | 0 <= k < |usuarios| && k != idx
        ensures !MesmoSemCaixa(EmailsDe(usuarios)[k], novo.email)
      {
        assert usuarios[k].id != id by {
          assert usuarios[idx].id == id;
          if k < idx {
            assert usuarios[k].id != usuarios[idx].id;
          } else {
            assert usuarios[idx].id != usuarios[k].id;
          }
        }
      }
      TrocarUnico(EmailsDe(usuarios), idx, novo.email);
    } else {
      assert EmailsDe(usuarios)[idx := novo.email] == EmailsDe(usuarios);
    }
  }

  /**
   * As written, an update that passes the clash check keeps e-mail
   * addresses unique unless it sends the empty e-mail (`EmailVazioDuplica`
   * shows that case).
   */
  lemma AtualizarComoEscritoPreservaEmailsUnicos(usuarios: seq<Usuario>, id: string, d: AtualizarUsuarioDTO, senhaHash: string)
    requires UnicosSemCaixa(EmailsDe(usuarios)) && IdsUnicos(usuarios)
    requires PrimeiraPosicao(usuarios, ComId(id)).Some?
    requires !EmailBarrado(usuarios, d.email, id) && d.email != Some("")
    ensures var idx := PrimeiraPosicao(usuarios, ComId(id)).value;
      UnicosSemCaixa(EmailsDe(usuarios[idx := AtualizadoComoEscrito(usuarios[idx], d, senhaHash)]))
  {
    var idx := PrimeiraPosicao(usuarios, ComId(id)).value;
    AtualizadoDifereSoNoVazio(usuarios[idx], d, senhaHash);
    AtualizarPreservaEmailsUnicos(usuarios, id, d, senhaHash);
  }

  /** `atualizarUsuario`, as written (`AtualizadoComoEscrito`); `senhaHash` is the hash of `d.senha`. */
  method AtualizarUsuario(db: Db, id: string, d: AtualizarUsuarioDTO, senhaHash: string)
    returns (r: Resposta<UsuarioPublico>)
    modifies db`usuarios
    ensures r.status == 404 <==> PrimeiraPosicao(old(db.usuarios), ComId(id)).None?
    ensures r.status == 409 <==>
      PrimeiraPosicao(old(db.usuarios), ComId(id)).Some? && EmailBarrado(old(db.usuarios), d.email, id)
    ensures r.status == 200 ==>
      var idx := PrimeiraPosicao(old(db.usuarios), ComId(id)).value;
      var novo := AtualizadoComoEscrito(old(db.usuarios)[idx], d, senhaHash);
      r.corpo == Some(Publico(novo)) && db.usuarios == old(db.usuarios)[idx := novo]
    ensures r.status in {200, 404, 409}
    ensures r.status != 200 ==> db.usuarios == old(db.usuarios)
  {
    var idx := PrimeiraPosicao(db.usuarios, ComId(id));
    if idx.None? {
      return Resposta(404, None, Some("Usuário não encontrado"));
    }
    if EmailBarrado(db.usuarios, d.email, id) {
      return Resposta(409, None, Some("Email já cadastrado"));
    }
    var novo := AtualizadoComoEscrito(db.usuarios[idx.value], d, senhaHash);
    db.usuarios := db.usuarios[idx.value := novo];
    return Resposta(200, Some(Publico(novo)), None);
  }

  function SemId(id: string): Usuario -> bool {
    (u: Usuario) => u.id != id
  }

  function NaoCriadoPor(id: string): Evento -> bool {
    (e: Evento) => e.criadoPor != id
  }

  /** `removerUsuario`: the user and every event the user created go. */
  method RemoverUsuario(db: Db, id: string) returns (r: Resposta<UsuarioPublico>)
    modifies db`usuarios, db`eventos
    ensures r.status == 404 <==> forall k :: 0 <= k < |old(db.usuarios)| ==> old(db.usuarios)[k].id != id
    ensures r.status == 404 ==> db.usuarios == old(db.usuarios) && db.eventos == old(db.eventos)
    ensures r.status != 404 ==>
      r.status == 204 && db.usuarios == Filtrar(old(db.usuarios), SemId(id))
      && db.eventos == Filtrar(old(db.eventos), NaoCriadoPor(id))
  {
    if !(exists k :: 0 <= k < |db.usuarios| && db.usuarios[k].id == id) {
      return Resposta(404, None, Some("Usuário não encontrado"));
    }
    db.usuarios := Filtrar(db.usuarios, SemId(id));
    db.eventos := Filtrar(db.eventos, NaoCriadoPor(id));
    return Resposta(204, None, None);
  }

  /** The removal cascade keeps exactly the events created by someone else. */
  lemma RemocaoEmCascata(eventos: seq<Evento>, id: string)
    ensures forall e :: e in Filtrar(eventos, NaoCriadoPor(id)) <==> e in eventos && e.criadoPor != id
  {
    forall e ensures e in Filtrar(eventos, NaoCriadoPor(id)) <==> e in eventos && e.criadoPor != id {
      FiltrarPertence(eventos, NaoCriadoPor(id), e);
    }
  }

  // ---------------------------------------------------------------------
  // Birthday queries
  // ---------------------------------------------------------------------

  /** An entry of `aniversariantesDoDia`. */
  datatype AniversarianteDoDia = AniversarianteDoDia(id: string, nome: string, dataNascimento: DataCivil)

  /** An entry of `aniversariantesDoMes`. */
  datatype AniversarianteDoMes = AniversarianteDoMes(id: string, nome: string, dia: int, mes: int)

  function NasceuEm(dia: int, mes: int): Usuario -> bool {
    (u: Usuario) => u.dataNascimento.Some? && u.dataNascimento.value.dia == dia && u.dataNascimento.value.mes == mes
  }

  function NasceuNoMes(mes: int): Usuario -> bool {
    (u: Usuario) => u.dataNascimento.Some? && u.dataNascimento.value.mes == mes
  }

  /** The entry of each user of `sel`, in order. */
  function ListaDoDia(sel: seq<Usuario>): (r: seq<AniversarianteDoDia>)
    requires forall u :: u in sel ==> u.dataNascimento.Some?
    ensures |r| == |sel|
    ensures forall k :: 0 <= k < |r| ==>
      r[k] == AniversarianteDoDia(sel[k].id, sel[k].nome, sel[k].dataNascimento.value)
  {
    if sel == [] then []
    else [AniversarianteDoDia(sel[0].id, sel[0].nome, sel[0].dataNascimento.value)] + ListaDoDia(sel[1..])
  }

  /** Each entry listed for a selection of matching users is one of those users. */
  lemma DoDiaVemDosUsuarios(usuarios: seq<Usuario>, dia: int, mes: int, sel: seq<Usuario>)
    requires forall u :: u in sel ==> u in usuarios && NasceuEm(dia, mes)(u) && u.dataNascimento.Some?
    ensures forall k :: 0 <= k < |ListaDoDia(sel)| ==>
      exists u :: u in usuarios && NasceuEm(dia, mes)(u)
        && ListaDoDia(sel)[k] == AniversarianteDoDia(u.id, u.nome, u.dataNascimento.value)
  {
    forall k | 0 <= k < |ListaDoDia(sel)|
      ensures exists u ::
        u in usuarios && NasceuEm(dia, mes)(u)
        && ListaDoDia(sel)[k] == AniversarianteDoDia(u.id, u.nome, u.dataNascimento.value)
    {
      assert sel[k] in sel;
    }
  }

  /**
   * `aniversariantesDoDia`: the users born on day `dia` of month `mes`
   * (today's, when the query omits them), in table order.
   */
  function AniversariantesDoDia(usuarios: seq<Usuario>, dia: Option<int>, mes: Option<int>, hojeDia: int, hojeMes: int)
    : (r: seq<AniversarianteDoDia>)
    ensures |r| <= |usuarios|
    ensures forall k :: 0 <= k < |r| ==>
      r[k].dataNascimento.dia == dia.GetOr(hojeDia) && r[k].dataNascimento.mes == mes.GetOr(hojeMes)
    ensures forall k :: 0 <= k < |r| ==>
      exists u :: u in usuarios && NasceuEm(dia.GetOr(hojeDia), mes.GetOr(hojeMes))(u)
        && r[k] == AniversarianteDoDia(u.id, u.nome, u.dataNascimento.value)
  {
    var sel := Filtrar(usuarios, NasceuEm(dia.GetOr(hojeDia), mes.GetOr(hojeMes)));
    FiltrarPertencem(usuarios, NasceuEm(dia.GetOr(hojeDia), mes.GetOr(hojeMes)));
    DoDiaVemDosUsuarios(usuarios, dia.GetOr(hojeDia), mes.GetOr(hojeMes), sel);
    ListaDoDia(sel)
  }

  /** Every user born on the queried day and month is listed. */
  lemma {:induction false} AniversariantesDoDiaCompleto(usuarios: seq<Usuario>, dia: int, mes: int, u: Usuario)
    requires u in usuarios && NasceuEm(dia, mes)(u)
    ensures AniversarianteDoDia(u.id, u.nome, u.dataNascimento.value) in AniversariantesDoDia(usuarios, Some(dia), Some(mes), 0, 0)
  {
    var sel := Filtrar(usuarios, NasceuEm(dia, mes));
    FiltrarPertence(usuarios, NasceuEm(dia, mes), u);
    var k :| 0 <= k < |sel| && sel[k] == u;
    assert AniversariantesDoDia(usuarios, Some(dia), Some(mes), 0, 0)[k] == AniversarianteDoDia(u.id, u.nome, u.dataNascimento.value);
  }

  /** The entry of each user of `sel`, in order, with the day and month of birth. */
  function ListaDoMes(sel: seq<Usuario>): (r: seq<AniversarianteDoMes>)
    requires forall u :: u in sel ==> u.dataNascimento.Some?
    ensures |r| == |sel|
    ensures forall k :: 0 <= k < |r| ==>
      r[k] == AniversarianteDoMes(sel[k].id, sel[k].nome, sel[k].dataNascimento.value.dia, sel[k].dataNascimento.value.mes)
  {
    if sel == [] then []
    else
      var u := sel[0];
      [AniversarianteDoMes(u.id, u.nome, u.dataNascimento.value.dia, u.dataNascimento.value.mes)] + ListaDoMes(sel[1..])
  }

  /** Each entry listed for a selection of matching users is one of those users. */
  lemma DoMesVemDosUsuarios(usuarios: seq<Usuario>, mes: int, sel: seq<Usuario>)
    requires forall u :: u in sel ==> u in usuarios && NasceuNoMes(mes)(u) && u.dataNascimento.Some?
    ensures forall k :: 0 <= k < |ListaDoMes(sel)| ==>
      exists u :: u in usuarios && NasceuNoMes(mes)(u)
        && ListaDoMes(sel)[k] == AniversarianteDoMes(u.id, u.nome, u.dataNascimento.value.dia, u.dataNascimento.value.mes)
  {
    forall k | 0 <= k < |ListaDoMes(sel)|
      ensures exists u ::
        u in usuarios && NasceuNoMes(mes)(u)
        && ListaDoMes(sel)[k] == AniversarianteDoMes(u.id, u.nome, u.dataNascimento.value.dia, u.dataNascimento.value.mes)
    {
      assert sel[k] in sel;
    }
  }

  /** `aniversariantesDoMes`: the users born in month `mes` (today's when omitted), with their day. */
  function AniversariantesDoMes(usuarios: seq<Usuario>, mes: Option<int>, hojeMes: int): (r: seq<AniversarianteDoMes>)
    ensures |r| <= |usuarios|
    ensures forall k :: 0 <= k < |r| ==> r[k].mes == mes.GetOr(hojeMes)
    ensures forall k :: 0 <= k < |r| ==>
      exists u :: u in usuarios && NasceuNoMes(mes.GetOr(hojeMes))(u)
        && r[k] == AniversarianteDoMes(u.id, u.nome, u.dataNascimento.value.dia, u.dataNascimento.value.mes)
  {
    var sel := Filtrar(usuarios, NasceuNoMes(mes.GetOr(hojeMes)));
    FiltrarPertencem(usuarios, NasceuNoMes(mes.GetOr(hojeMes)));
    DoMesVemDosUsuarios(usuarios, mes.GetOr(hojeMes), sel);
    ListaDoMes(sel)
  }

  /** Every user born in the queried month is listed, with the day of birth. */
  lemma {:induction false} AniversariantesDoMesCompleto(usuarios: seq<Usuario>, mes: int, u: Usuario)
    requires u in usuarios && NasceuNoMes(mes)(u)
    ensures AniversarianteDoMes(u.id, u.nome, u.dataNascimento.value.dia, mes) in AniversariantesDoMes(usuarios, Some(mes), 0)
  {
    var sel := Filtrar(usuarios, NasceuNoMes(mes));
    FiltrarPertence(usuarios, NasceuNoMes(mes), u);
    var k :| 0 <= k < |sel| && sel[k] == u;
    assert AniversariantesDoMes(usuarios, Some(mes), 0)[k] == AniversarianteDoMes(u.id, u.nome, u.dataNascimento.value.dia, mes);
  }
}
