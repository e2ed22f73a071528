/**
 * The records the server and the client exchange. Instants (`dataHoraInicio`,
 * `dataHoraFim`) are time values in milliseconds rather than ISO strings,
 * and a birth date (`dataNascimento`, an ISO `yyyy-MM-dd` string) is its
 * decoded year, month and day; `null` and a missing property are both
 * `None`.
 */
module Api {
  import opened Util

  datatype Perfil = Membro | Lider | Administrador

  /** A decoded `yyyy-MM-dd` date: `mes` is 1-based, as `getMonth() + 1` gives it. */
  datatype DataCivil = DataCivil(ano: int, mes: int, dia: int)

  datatype Usuario = Usuario(
    id: string,
    nome: string,
    email: string,
    senhaHash: string,
    perfil: Perfil,
    igrejaId: Option<string>,
    dataNascimento: Option<DataCivil>,
    departamentoId: Option<string>,
    orgaoId: Option<string>)

  /** A user as `listarUsuarios` returns it: every field but the password hash. */
  datatype UsuarioPublico = UsuarioPublico(
    id: string,
    nome: string,
    email: string,
    perfil: Perfil,
    igrejaId: Option<string>,
    dataNascimento: Option<DataCivil>,
    departamentoId: Option<string>,
    orgaoId: Option<string>)

  datatype Departamento = Departamento(id: string, nome: string, igrejaId: string)

  datatype Orgao = Orgao(id: string, nome: string, igrejaId: string)

  datatype Igreja = Igreja(
    id: string,
    nome: string,
    endereco: Option<string>,
    codigoCor: Option<string>,
    orgaos: seq<Orgao>,
    departamentos: seq<Departamento>)

  datatype TipoRecurso = Espaco | Equipamento

  datatype Recurso = Recurso(id: string, nome: string, tipo: Option<TipoRecurso>, estaDisponivel: bool)

  datatype Evento = Evento(
    id: string,
    titulo: string,
    descricao: Option<string>,
    responsavel: Option<string>,
    inicio: int,
    fim: int,
    criadoPor: string,
    igrejaId: string,
    recursoId: Option<string>,
    diaInteiro: bool,
    departamentoId: Option<string>,
    orgaoId: Option<string>)

  datatype Aniversario = Aniversario(
    id: string,
    nome: string,
    dia: int,
    mes: int,
    ano: Option<int>,
    observacoes: Option<string>,
    criadoPor: string,
    igrejaId: string,
    departamentoId: Option<string>,
    orgaoId: Option<string>)

  /** A route's answer: the HTTP status, the JSON body on success, the `erro` message otherwise. */
  datatype Resposta<+T> = Resposta(status: int, corpo: Option<T>, erro: Option<string>)

  /** The signed-in user a request carries (`req.usuario`). */
  datatype Ator = Ator(id: string, perfil: Perfil, igrejaId: Option<string>)

  /** `Omit<Usuario, "senhaHash">`: the projection every user response goes through. */
  function Publico(u: Usuario): (p: UsuarioPublico)
    ensures p.id == u.id && p.nome == u.nome && p.email == u.email && p.perfil == u.perfil
    ensures p.igrejaId == u.igrejaId && p.dataNascimento == u.dataNascimento
    ensures p.departamentoId == u.departamentoId && p.orgaoId == u.orgaoId
  {
    UsuarioPublico(u.id, u.nome, u.email, u.perfil, u.igrejaId, u.dataNascimento, u.departamentoId, u.orgaoId)
  }
}
