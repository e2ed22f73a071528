/**
 * The birthday routes (`server/routes/aniversarios.ts`), over the
 * `aniversariosDb` table of the JSON store. A request field is a `Campo`:
 * not sent (`undefined`), sent as `null`, or sent with a value.
 */
module RotasAniversarios {
  import opened Util
  import opened Api
  import opened BancoTemp

  /** The body of `POST` and `PUT /aniversarios`. */
  datatype AniversarioDTO = AniversarioDTO(
    nome: Campo<string>,
    dia: Campo<int>,
    mes: Campo<int>,
    ano: Campo<int>,
    igrejaId: Campo<string>,
    observacoes: Campo<string>)

  /** JavaScript truthiness of a number field. */
  predicate NumeroVerdadeiro(c: Campo<int>) {
    c.Enviado? && c.v != 0
  }

  /** JavaScript truthiness of a string field. */
  predicate TextoVerdadeiro(c: Campo<string>) {
    c.Enviado? && c.v != ""
  }

  /** `!nome || !dia || !mes` */
  predicate FaltaObrigatorio(d: AniversarioDTO) {
    !TextoVerdadeiro(d.nome) || !NumeroVerdadeiro(d.dia) || !NumeroVerdadeiro(d.mes)
  }

  /** `dia < 1 || dia > 31 || mes < 1 || mes > 12`, once both are known to be numbers. */
  predicate ForaDeFaixa(dia: int, mes: int) {
    dia < 1 || dia > 31 || mes < 1 || mes > 12
  }

  /** `usuario?.id || "anon"` */
  function CriadoPor(usuario: Option<Ator>): (r: string)
    ensures usuario.Some? && usuario.value.id != "" ==> r == usuario.value.id
    ensures usuario.None? || usuario.value.id == "" ==> r == "anon"
  {
    if usuario.Some? && usuario.value.id != "" then usuario.value.id else "anon"
  }

  /** `igrejaId || usuario?.igrejaId || "default"` */
  function IgrejaFinal(igrejaId: Campo<string>, usuario: Option<Ator>): (r: string)
    ensures TextoVerdadeiro(igrejaId) ==> r == igrejaId.v
    ensures !TextoVerdadeiro(igrejaId) && usuario.Some? && Presente(usuario.value.igrejaId) ==> r == usuario.value.igrejaId.value
    ensures !TextoVerdadeiro(igrejaId) && !(usuario.Some? && Presente(usuario.value.igrejaId)) ==> r == "default"
  {
    if TextoVerdadeiro(igrejaId) then igrejaId.v
    else if usuario.Some? && Presente(usuario.value.igrejaId) then usuario.value.igrejaId.value
    else "default"
  }

  /** The record `criarAniversario` hands to `aniversariosDb.criar`. */
  function PayloadCriacao(d: AniversarioDTO, usuario: Option<Ator>): (p: Registro)
    requires !FaltaObrigatorio(d)
    ensures p.Keys == {"nome", "dia", "mes", "ano", "observacoes", "criadoPor", "igrejaId"}
    ensures p["nome"] == Texto(Aparar(d.nome.v))
    ensures p["dia"] == Numero(d.dia.v) && p["mes"] == Numero(d.mes.v)
    ensures p["ano"] == (if NumeroVerdadeiro(d.ano) then Numero(d.ano.v) else Nulo)
    ensures d.observacoes.Enviado? && Aparar(d.observacoes.v) != "" ==> p["observacoes"] == Texto(Aparar(d.observacoes.v))
    ensures !(d.observacoes.Enviado? && Aparar(d.observacoes.v) != "") ==> p["observacoes"] == Nulo
    ensures p["criadoPor"] == Texto(CriadoPor(usuario)) && p["igrejaId"] == Texto(IgrejaFinal(d.igrejaId, usuario))
  {
    map[
      "nome" := Texto(Aparar(d.nome.v)),
      "dia" := Numero(d.dia.v),
      "mes" := Numero(d.mes.v),
      "ano" := (if NumeroVerdadeiro(d.ano) then Numero(d.ano.v) else Nulo),
      "observacoes" := (if d.observacoes.Enviado? && Aparar(d.observacoes.v) != "" then Texto(Aparar(d.observacoes.v)) else Nulo),
      "criadoPor" := Texto(CriadoPor(usuario)),
      "igrejaId" := Texto(IgrejaFinal(d.igrejaId, usuario))]
  }

  /** `criarAniversario`: the two 400 checks in order, then one record appended. */
  method CriarAniversario(tabela: Tabela, d: AniversarioDTO, usuario: Option<Ator>, novoId: string, criadoEm: string)
    returns (r: Resposta<Registro>)
    modifies tabela
    ensures FaltaObrigatorio(d) ==> r.status == 400 && r.erro == Some("Nome, dia e mês são obrigatórios")
    ensures !FaltaObrigatorio(d) && ForaDeFaixa(d.dia.v, d.mes.v) ==>
      r.status == 400 && r.erro == Some("Dia deve estar entre 1-31 e mês entre 1-12")
    ensures r.status == 201 <==> !FaltaObrigatorio(d) && !ForaDeFaixa(d.dia.v, d.mes.v)
    ensures r.status == 201 ==>
      var novo := ComIdentidade(PayloadCriacao(d, usuario), novoId, criadoEm);
      r.corpo == Some(novo) && tabela.linhas == old(tabela.linhas) + [novo]
    ensures r.status != 201 ==> tabela.linhas == old(tabela.linhas)
  {
    if FaltaObrigatorio(d) {
      return Resposta(400, None, Some("Nome, dia e mês são obrigatórios"));
    }
    if ForaDeFaixa(d.dia.v, d.mes.v) {
      return Resposta(400, None, Some("Dia deve estar entre 1-31 e mês entre 1-12"));
    }
    var novo := tabela.Criar(PayloadCriacao(d, usuario), novoId, criadoEm);
    return Resposta(201, Some(novo), None);
  }

  /**
   * Creation checks only the ranges 1..31 and 1..12, not the month's
   * length: 31 April is stored.
   */
  lemma TrintaEUmDeAbrilAceito(nome: string)
    requires nome != ""
    ensures var d := AniversarioDTO(Enviado(nome), Enviado(31), Enviado(4), NaoEnviado, NaoEnviado, NaoEnviado);
      !FaltaObrigatorio(d) && !ForaDeFaixa(d.dia.v, d.mes.v)
  {
  }

  /** `dia && (dia < 1 || dia > 31)` and the same for `mes`: only a truthy number is range-checked. */
  predicate DiaInvalido(d: AniversarioDTO) {
    NumeroVerdadeiro(d.dia) && (d.dia.v < 1 || d.dia.v > 31)
  }

  predicate MesInvalido(d: AniversarioDTO) {
    NumeroVerdadeiro(d.mes) && (d.mes.v < 1 || d.mes.v > 12)
  }

  /** A sent field as a stored value. */
  function NumeroOuNulo(c: Campo<int>): Valor
    requires !c.NaoEnviado?
  {
    if c.Enviado? then Numero(c.v) else Nulo
  }

  function TextoOuNulo(c: Campo<string>): Valor
    requires !c.NaoEnviado?
  {
    if c.Enviado? then Texto(c.v) else Nulo
  }

  /**
   * `dadosAtualizacao`: exactly the sent fields, with `nome` and
   * `observacoes` trimmed; `observacoes: null` becomes `undefined`
   * through `observacoes?.trim()`.
   */
  function DadosAtualizacao(d: AniversarioDTO): (u: Registro)
    requires !d.nome.EnviadoNulo?
  {
    var m0: Registro := map[];
    var m1 := if d.nome.Enviado? then m0["nome" := Texto(Aparar(d.nome.v))] else m0;
    var m2 := if !d.dia.NaoEnviado? then m1["dia" := NumeroOuNulo(d.dia)] else m1;
    var m3 := if !d.mes.NaoEnviado? then m2["mes" := NumeroOuNulo(d.mes)] else m2;
    var m4 := if !d.ano.NaoEnviado? then m3["ano" := NumeroOuNulo(d.ano)] else m3;
    var m5 := if !d.igrejaId.NaoEnviado? then m4["igrejaId" := TextoOuNulo(d.igrejaId)] else m4;
    if d.observacoes.Enviado? then m5["observacoes" := Texto(Aparar(d.observacoes.v))]
    else if d.observacoes.EnviadoNulo? then m5["observacoes" := Indefinido]
    else m5
  }

  /** The update carries exactly the fields the request sent. */
  lemma CamposAtualizados(d: AniversarioDTO)
    requires !d.nome.EnviadoNulo?
    ensures var u := DadosAtualizacao(d);
      ("nome" in u <==> d.nome.Enviado?)
      && ("dia" in u <==> !d.dia.NaoEnviado?)
      && ("mes" in u <==> !d.mes.NaoEnviado?)
      && ("ano" in u <==> !d.ano.NaoEnviado?)
      && ("igrejaId" in u <==> !d.igrejaId.NaoEnviado?)
      && ("observacoes" in u <==> !d.observacoes.NaoEnviado?)
      && u.Keys <= {"nome", "dia", "mes", "ano", "igrejaId", "observacoes"}
  {
  }

  /** The texts it carries are trimmed, and `observacoes: null` is carried as `undefined`. */
  lemma ValoresAtualizados(d: AniversarioDTO)
    requires !d.nome.EnviadoNulo?
    ensures var u := DadosAtualizacao(d);
      (d.nome.Enviado? ==> "nome" in u && u["nome"] == Texto(Aparar(d.nome.v)))
      && (d.observacoes.Enviado? ==> "observacoes" in u && u["observacoes"] == Texto(Aparar(d.observacoes.v)))
      && (d.observacoes.EnviadoNulo? ==> "observacoes" in u && u["observacoes"] == Indefinido)
      && (d.dia.Enviado? ==> "dia" in u && u["dia"] == Numero(d.dia.v))
      && (d.mes.Enviado? ==> "mes" in u && u["mes"] == Numero(d.mes.v))
  {
  }

  /**
   * `atualizarAniversario`: 404 for an unknown id, then the day and month
   * checks, then `nome: null`, on which `nome.trim()` throws (500); otherwise
   * the sent fields are merged into the first record with that id.
   */
  method AtualizarAniversario(tabela: Tabela, id: string, d: AniversarioDTO) returns (r: Resposta<Registro>)
    modifies tabela
    ensures r.status == 404 <==> Posicao(old(tabela.linhas), id).None?
    ensures Posicao(old(tabela.linhas), id).Some? && DiaInvalido(d) ==>
      r.status == 400 && r.erro == Some("Dia deve estar entre 1-31")
    ensures Posicao(old(tabela.linhas), id).Some? && !DiaInvalido(d) && MesInvalido(d) ==>
      r.status == 400 && r.erro == Some("Mês deve estar entre 1-12")
    ensures r.status == 500 <==>
      Posicao(old(tabela.linhas), id).Some? && !DiaInvalido(d) && !MesInvalido(d) && d.nome.EnviadoNulo?
    ensures r.status == 200 <==>
      Posicao(old(tabela.linhas), id).Some? && !DiaInvalido(d) && !MesInvalido(d) && !d.nome.EnviadoNulo?
    ensures r.status == 200 ==>
      var idx := Posicao(old(tabela.linhas), id).value;
      var novo := Espalhar(old(tabela.linhas)[idx], DadosAtualizacao(d));
      r.corpo == Some(novo) && tabela.linhas == old(tabela.linhas)[idx := novo]
    ensures r.status != 200 ==> tabela.linhas == old(tabela.linhas)
  {
    if BuscarPorId(tabela.linhas, id).None? {
      return Resposta(404, None, Some("Aniversário não encontrado"));
    }
    if DiaInvalido(d) {
      return Resposta(400, None, Some("Dia deve estar entre 1-31"));
    }
    if MesInvalido(d) {
      return Resposta(400, None, Some("Mês deve estar entre 1-12"));
    }
    if d.nome.EnviadoNulo? {
      return Resposta(500, None, None);
    }
    var atualizado := tabela.Atualizar(id, DadosAtualizacao(d));
    return Resposta(200, atualizado, None);
  }

  /**
   * Because the guard is `dia && …`, a day or month of 0 is not
   * range-checked in an update, and it is stored.
   */
  lemma ZeroNaoEhVerificado(d: AniversarioDTO)
    requires d.dia == Enviado(0) && d.mes == Enviado(0) && !d.nome.EnviadoNulo?
    ensures !DiaInvalido(d) && !MesInvalido(d)
    ensures DadosAtualizacao(d)["dia"] == Numero(0) && DadosAtualizacao(d)["mes"] == Numero(0)
  {
  }

  /** `removerAniversario` */
  method RemoverAniversario(tabela: Tabela, id: string) returns (r: Resposta<Registro>)
    modifies tabela
    ensures r.status == 404 <==> Posicao(old(tabela.linhas), id).None?
    ensures r.status == 404 ==> tabela.linhas == old(tabela.linhas)
    ensures r.status != 404 ==>
      r.status == 204 && tabela.linhas == SemPosicao(old(tabela.linhas), Posicao(old(tabela.linhas), id).value)
  {
    if BuscarPorId(tabela.linhas, id).None? {
      return Resposta(404, None, Some("Aniversário não encontrado"));
    }
    var _ := tabela.Deletar(id);
    return Resposta(204, None, None);
  }

  /** `a.departamentoId || null` */
  function ValorOuNulo(v: Valor): (r: Valor)
    ensures Verdadeiro(v) ==> r == v
    ensures !Verdadeiro(v) ==> r == Nulo
  {
    if Verdadeiro(v) then v else Nulo
  }

  /** An entry of `aniversariosPorMes`: no `ano`, no `observacoes`. */
  function Projecao(a: Registro): (p: Registro)
    ensures p.Keys == {"id", "nome", "dia", "mes", "igrejaId", "departamentoId", "orgaoId"}
    ensures forall k :: k in {"id", "nome", "dia", "mes", "igrejaId"} ==> p[k] == Ler(a, k)
    ensures p["departamentoId"] == ValorOuNulo(Ler(a, "departamentoId"))
    ensures p["orgaoId"] == ValorOuNulo(Ler(a, "orgaoId"))
  {
    map["id" := Ler(a, "id"), "nome" := Ler(a, "nome"), "dia" := Ler(a, "dia"), "mes" := Ler(a, "mes"),
        "igrejaId" := Ler(a, "igrejaId"),
        "departamentoId" := ValorOuNulo(Ler(a, "departamentoId")),
        "orgaoId" := ValorOuNulo(Ler(a, "orgaoId"))]
  }

  /**
   * `aniversariosPorMes`: `mes` is `Number(req.query.mes)`, `None` for NaN.
   * 400 unless it is 1..12; otherwise that month's records, projected.
   */
  function AniversariosPorMes(aniversarios: seq<Registro>, mes: Option<int>): (r: Resposta<seq<Registro>>)
    ensures r.status == 400 <==> mes.None? || mes.value < 1 || mes.value > 12
    ensures r.status != 400 ==> r.status == 200 && r.corpo.Some?
    ensures r.status == 200 ==> |r.corpo.value| == |BuscarPorMes(aniversarios, mes.value)|
    ensures r.status == 200 ==> forall k :: 0 <= k < |r.corpo.value| ==>
      r.corpo.value[k] == Projecao(BuscarPorMes(aniversarios, mes.value)[k]) && r.corpo.value[k]["mes"] == Numero(mes.value)
  {
    if mes.None? || mes.value == 0 || mes.value < 1 || mes.value > 12 then
      Resposta(400, None, Some("Mês deve estar entre 1-12"))
    else
      var sel := BuscarPorMes(aniversarios, mes.value);
      Resposta(200, Some(seq(|sel|, k requires 0 <= k < |sel| => Projecao(sel[k]))), None)
  }
}
