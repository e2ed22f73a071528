/**
 * The "add birthday" dialog (`AniversarioModal.tsx`): `handleSalvar` checks
 * the form in order (name, then day and month, then the length of the
 * month) and either reports the first failure or sends a normalised body to
 * `POST /aniversarios`. The day and month come from selects offering 1 to
 * 31 and 1 to 12; the year from a select of the last 100 years.
 */
module AniversarioModal {
  import opened Util
  import opened Calendario
  import opened RotasAniversarios

  /** The form state: `dia`, `mes` and `ano` are `null` until chosen. */
  datatype Formulario = Formulario(nome: string, dia: Option<int>, mes: Option<int>, ano: Option<int>, observacoes: string)

  /** The body sent to the server. */
  datatype Payload = Payload(nome: string, dia: int, mes: int, ano: Option<int>, observacoes: Option<string>)

  /** The outcome of `handleSalvar`: an error toast, or the request that is sent. */
  datatype Salvamento = Erro(descricao: string) | Enviar(payload: Payload)

  const Meses: seq<string> := [
    "Janeiro", "Fevereiro", "Março", "Abril", "Maio", "Junho",
    "Julho", "Agosto", "Setembro", "Outubro", "Novembro", "Dezembro"]

  /** What the selects can produce. */
  predicate DoFormulario(f: Formulario) {
    (f.dia.Some? ==> 1 <= f.dia.value <= 31) && (f.mes.Some? ==> 1 <= f.mes.value <= 12)
  }

  /** JavaScript truthiness of a nullable number. */
  predicate Verdadeiro(x: Option<int>) {
    x.Some? && x.value != 0
  }

  /** The length of month `mes` (1-based) in 2024, a leap year. */
  function DiasNoMes2024(mes: int): (n: int)
    requires 1 <= mes <= 12
    ensures 1 <= n <= 31
    ensures mes == 2 ==> n == 29
    ensures mes == 4 || mes == 6 || mes == 9 || mes == 11 ==> n == 30
  {
    DiasNoMes(2024, mes - 1)
  }

  /**
   * `new Date(2024, mes, 0).getDate()`: day 0 of the following month is the
   * last day of month `mes`.
   */
  lemma UltimoDiaEm2024(mes: int)
    requires 1 <= mes <= 12
    ensures FazerDia(2024, mes, 0) == FazerDia(2024, mes - 1, DiasNoMes2024(mes))
  {
    TransbordaMes(2024, mes - 1, DiasNoMes(2024, mes - 1));
  }

  /** `handleSalvar` */
  function HandleSalvar(f: Formulario): (r: Salvamento)
    requires DoFormulario(f)
    ensures Aparar(f.nome) == "" ==> r == Erro("O nome é obrigatório")
    ensures Aparar(f.nome) != "" && !(Verdadeiro(f.dia) && Verdadeiro(f.mes)) ==> r == Erro("Dia e mês são obrigatórios")
    ensures r.Enviar? <==>
      Aparar(f.nome) != "" && Verdadeiro(f.dia) && Verdadeiro(f.mes) && f.dia.value <= DiasNoMes2024(f.mes.value)
    ensures Aparar(f.nome) != "" && Verdadeiro(f.dia) && Verdadeiro(f.mes) && f.dia.value > DiasNoMes2024(f.mes.value) ==>
      r == Erro("O mês " + Meses[f.mes.value - 1] + " não tem " + IntParaTexto(f.dia.value) + " dias")
    ensures r.Enviar? ==> r.payload.nome == Aparar(f.nome) && r.payload.dia == f.dia.value && r.payload.mes == f.mes.value
    ensures r.Enviar? ==> r.payload.ano == (if Verdadeiro(f.ano) then f.ano else None)
    ensures r.Enviar? ==> r.payload.observacoes == (if Aparar(f.observacoes) == "" then None else Some(Aparar(f.observacoes)))
  {
    if Aparar(f.nome) == "" then Erro("O nome é obrigatório")
    else if !Verdadeiro(f.dia) || !Verdadeiro(f.mes) then Erro("Dia e mês são obrigatórios")
    else if f.dia.value > DiasNoMes2024(f.mes.value) then
      Erro("O mês " + Meses[f.mes.value - 1] + " não tem " + IntParaTexto(f.dia.value) + " dias")
    else
      Enviar(Payload(
        Aparar(f.nome), f.dia.value, f.mes.value,
        if Verdadeiro(f.ano) then f.ano else None,
        if Aparar(f.observacoes) == "" then None else Some(Aparar(f.observacoes))))
  }

  /** The leap-year check accepts 29/02. */
  lemma VinteENoveDeFevereiroAceito(nome: string)
    requires Aparar(nome) != ""
    ensures HandleSalvar(Formulario(nome, Some(29), Some(2), None, "")).Enviar?
  {
  }

  /** The dialog rejects 30/02 and 31/04. */
  lemma DiasInexistentesRecusados(nome: string)
    requires Aparar(nome) != ""
    ensures HandleSalvar(Formulario(nome, Some(30), Some(2), None, "")).Erro?
    ensures HandleSalvar(Formulario(nome, Some(31), Some(4), None, "")).Erro?
  {
  }

  /** `resetForm`: empty texts and no day, month or year. */
  function FormularioVazio(): (f: Formulario)
    ensures DoFormulario(f)
  {
    Formulario("", None, None, None, "")
  }

  /** Saving a reset form fails at the first check. */
  lemma SalvarVazio()
    ensures HandleSalvar(FormularioVazio()) == Erro("O nome é obrigatório")
  {
    assert Aparar("") == "";
  }

  /**
   * The request body as the route receives it: it passes the route's check
   * for missing fields exactly when the name is not empty and the day and
   * month are not 0.
   */
  function ComoDTO(p: Payload): (r: AniversarioDTO)
    ensures !FaltaObrigatorio(r) <==> p.nome != "" && p.dia != 0 && p.mes != 0
  {
    AniversarioDTO(
      Enviado(p.nome), Enviado(p.dia), Enviado(p.mes),
      if p.ano.Some? then Enviado(p.ano.value) else EnviadoNulo,
      NaoEnviado,
      if p.observacoes.Some? then Enviado(p.observacoes.value) else EnviadoNulo)
  }

  /**
   * Whatever the dialog sends passes both checks of `criarAniversario`, and
   * the server stores the name, year and notes exactly as sent.
   */
  lemma EnviadoEhAceito(f: Formulario)
    requires DoFormulario(f) && HandleSalvar(f).Enviar?
    ensures !FaltaObrigatorio(ComoDTO(HandleSalvar(f).payload))
    ensures !ForaDeFaixa(HandleSalvar(f).payload.dia, HandleSalvar(f).payload.mes)
    ensures PayloadCriacao(ComoDTO(HandleSalvar(f).payload), None)["nome"] == BancoTemp.Texto(HandleSalvar(f).payload.nome)
    ensures PayloadCriacao(ComoDTO(HandleSalvar(f).payload), None)["ano"]
      == (if Verdadeiro(f.ano) then BancoTemp.Numero(f.ano.value) else BancoTemp.Nulo)
  {
    ApararIdempotente(f.nome);
  }

  /** `anosDisponiveis`: the current year and the 99 before it, newest first. */
  function AnosDisponiveis(anoAtual: int): (r: seq<int>)
    ensures |r| == 100 && r[0] == anoAtual
    ensures forall k :: 0 <= k < 100 ==> r[k] == anoAtual - k
  {
    seq(100, i requires 0 <= i < 100 => anoAtual - i)
  }

  /** The year select offers exactly the current year and the 99 before it, newest first. */
  lemma AnosOferecidos(anoAtual: int)
    ensures forall y :: y in AnosDisponiveis(anoAtual) <==> anoAtual - 100 < y <= anoAtual
    ensures forall k :: 0 < k < 100 ==> AnosDisponiveis(anoAtual)[k] < AnosDisponiveis(anoAtual)[k - 1]
  {
    var r := AnosDisponiveis(anoAtual);
    forall y | anoAtual - 100 < y <= anoAtual ensures y in r {
      var k := anoAtual - y;
      assert r[k] == y;
    }
  }
}
