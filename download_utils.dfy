/**
 * `formatarNomeArquivo` (`download-utils.ts`): the name an exported report
 * is saved under. The current instant is a parameter: its ISO text, its
 * month (0-based) and its year.
 */
module DownloadUtils {
  import opened Util

  /** `new Date()` as the function reads it. */
  datatype Agora = Agora(iso: string, mes: int, ano: int)

  /** `getMonth()` is 0..11. */
  predicate AgoraValido(agora: Agora) {
    0 <= agora.mes < 12
  }

  /** The month names, ASCII only ("marco"). */
  const NomesMeses: seq<string> := [
    "janeiro", "fevereiro", "marco", "abril", "maio", "junho",
    "julho", "agosto", "setembro", "outubro", "novembro", "dezembro"]

  /** JavaScript truthiness of an optional number: present and not zero. */
  predicate Verdadeiro(x: Option<int>) {
    x.Some? && x.value != 0
  }

  function EhT(): char -> bool {
    (c: char) => c == 'T'
  }

  /** `iso.split('T')[0]`: everything before the first `T` (all of it when there is none). */
  function Timestamp(iso: string): (r: string)
    ensures r <= iso
    ensures 'T' !in r
    ensures |r| < |iso| ==> iso[|r|] == 'T'
  {
    match PrimeiraPosicao(iso, EhT())
    case None => iso
    case Some(k) => iso[..k]
  }

  /** For an instant written `YYYY-MM-DDTHH:mm:ss.sssZ` the timestamp is its date part. */
  lemma TimestampEhAData(iso: string)
    requires |iso| > 10 && iso[10] == 'T' && 'T' !in iso[..10]
    ensures Timestamp(iso) == iso[..10]
  {
  }

  /** `nomesMeses[mes - 1]` as it appears in a template: "undefined" outside 1..12. */
  function NomeNaPosicao(mes: int): string {
    if 1 <= mes <= 12 then NomesMeses[mes - 1] else "undefined"
  }

  /** `mes ? nomesMeses[mes - 1] : nomesMeses[data.getMonth()]` */
  function NomeMes(mes: Option<int>, agora: Agora): string
    requires AgoraValido(agora)
  {
    if Verdadeiro(mes) then NomeNaPosicao(mes.value) else NomesMeses[agora.mes]
  }

  /** `ano || data.getFullYear()` */
  function AnoOuAtual(ano: Option<int>, agora: Agora): int {
    if Verdadeiro(ano) then ano.value else agora.ano
  }

  /** The part of the name before the date: it depends on the kind. */
  function Cabeca(tipo: string, ano: Option<int>, mes: Option<int>, agora: Agora): string
    requires AgoraValido(agora)
  {
    if tipo == "mensal" then
      "calendario-mensal-" + (NomeMes(mes, agora) + "-" + IntParaTexto(AnoOuAtual(ano, agora)) + "-")
    else if tipo == "anual" then
      "calendario-anual-" + (IntParaTexto(AnoOuAtual(ano, agora)) + "-")
    else if tipo == "aniversarios" then
      "relatorio-" + "aniversarios-"
    else
      "relatorio-"
  }

  /**
   * The head starts with its kind's prefix ("calendario-mensal-",
   * "calendario-anual-", or "relatorio-" for the rest), and ends in a dash
   * for the three named kinds.
   */
  lemma Partes(tipo: string, ano: Option<int>, mes: Option<int>, agora: Agora)
    requires AgoraValido(agora)
    ensures tipo == "mensal" ==> "calendario-mensal-" <= Cabeca(tipo, ano, mes, agora)
    ensures tipo == "anual" ==> "calendario-anual-" <= Cabeca(tipo, ano, mes, agora)
    ensures tipo != "mensal" && tipo != "anual" ==> "relatorio-" <= Cabeca(tipo, ano, mes, agora)
    ensures tipo == "mensal" || tipo == "anual" || tipo == "aniversarios" ==>
      var c := Cabeca(tipo, ano, mes, agora); |c| > 0 && c[|c| - 1] == '-'
  {
    var cabeca := Cabeca(tipo, ano, mes, agora);
    if tipo == "mensal" {
      var resto := NomeMes(mes, agora) + "-" + IntParaTexto(AnoOuAtual(ano, agora)) + "-";
      Prefixo("calendario-mensal-", resto);
      assert tipo != "anual" by { assert tipo[0] != "anual"[0]; }
    } else if tipo == "anual" {
      var resto := IntParaTexto(AnoOuAtual(ano, agora)) + "-";
      Prefixo("calendario-anual-", resto);
    } else if tipo == "aniversarios" {
      Prefixo("relatorio-", "aniversarios-");
    }
  }

  /**
   * `formatarNomeArquivo(tipo, ano?, mes?)`: a head that depends on the
   * kind, then the date part of the current instant and `.pdf`.
   */
  function FormatarNomeArquivo(tipo: string, ano: Option<int>, mes: Option<int>, agora: Agora): (r: string)
    requires AgoraValido(agora)
    ensures var fim := Timestamp(agora.iso) + ".pdf";
      |r| >= |fim| && r[|r| - |fim|..] == fim
  {
    Sufixo(Cabeca(tipo, ano, mes, agora), Timestamp(agora.iso) + ".pdf");
    Cabeca(tipo, ano, mes, agora) + (Timestamp(agora.iso) + ".pdf")
  }

  /**
   * Every name starts with the prefix of its kind ("calendario-mensal-",
   * "calendario-anual-", or "relatorio-" for the rest), and for the three
   * named kinds a dash comes before the date part.
   */
  lemma Formato(tipo: string, ano: Option<int>, mes: Option<int>, agora: Agora)
    requires AgoraValido(agora)
    ensures var r := FormatarNomeArquivo(tipo, ano, mes, agora); var fim := Timestamp(agora.iso) + ".pdf";
      tipo == "mensal" || tipo == "anual" || tipo == "aniversarios" ==> |r| > |fim| && r[|r| - |fim| - 1] == '-'
    ensures tipo == "mensal" ==> "calendario-mensal-" <= FormatarNomeArquivo(tipo, ano, mes, agora)
    ensures tipo == "anual" ==> "calendario-anual-" <= FormatarNomeArquivo(tipo, ano, mes, agora)
    ensures tipo != "mensal" && tipo != "anual" ==> "relatorio-" <= FormatarNomeArquivo(tipo, ano, mes, agora)
  {
    Partes(tipo, ano, mes, agora);
    var cabeca := Cabeca(tipo, ano, mes, agora);
    var fim := Timestamp(agora.iso) + ".pdf";
    Sufixo(cabeca, fim);
    Prefixo(cabeca, fim);
  }

  lemma Prefixo(a: string, b: string)
    ensures a <= a + b
  {
  }

  lemma Sufixo(a: string, b: string)
    ensures |a + b| >= |b| && (a + b)[|a + b| - |b|..] == b
  {
  }

  /** A month in 1..12 is written with its lower-case ASCII name. */
  lemma MesNaFaixa(ano: Option<int>, m: int, agora: Agora)
    requires AgoraValido(agora) && 1 <= m <= 12
    ensures FormatarNomeArquivo("mensal", ano, Some(m), agora)
      == "calendario-mensal-" + (NomesMeses[m - 1] + "-" + IntParaTexto(AnoOuAtual(ano, agora)) + "-") + (Timestamp(agora.iso) + ".pdf")
  {
  }

  /** The yearly name carries the year asked for, or the current one. */
  lemma AnualCompleto(ano: Option<int>, mes: Option<int>, agora: Agora)
    requires AgoraValido(agora)
    ensures FormatarNomeArquivo("anual", ano, mes, agora)
      == "calendario-anual-" + (IntParaTexto(AnoOuAtual(ano, agora)) + "-") + (Timestamp(agora.iso) + ".pdf")
  {
  }

  /** The birthday report's name holds only the date part. */
  lemma AniversariosCompleto(ano: Option<int>, mes: Option<int>, agora: Agora)
    requires AgoraValido(agora)
    ensures FormatarNomeArquivo("aniversarios", ano, mes, agora)
      == "relatorio-" + "aniversarios-" + (Timestamp(agora.iso) + ".pdf")
  {
  }

  /** Any other kind gives a generic report name. */
  lemma OutroTipoCompleto(tipo: string, ano: Option<int>, mes: Option<int>, agora: Agora)
    requires AgoraValido(agora) && tipo != "mensal" && tipo != "anual" && tipo != "aniversarios"
    ensures FormatarNomeArquivo(tipo, ano, mes, agora) == "relatorio-" + (Timestamp(agora.iso) + ".pdf")
  {
  }

  /**
   * A missing or zero month names the current month, a missing or zero
   * year is the current year: the name is that of the current month.
   */
  lemma SemMesNemAnoUsaOAtual(ano: Option<int>, mes: Option<int>, agora: Agora)
    requires AgoraValido(agora) && !Verdadeiro(mes) && !Verdadeiro(ano)
    ensures FormatarNomeArquivo("mensal", ano, mes, agora)
      == FormatarNomeArquivo("mensal", Some(agora.ano), Some(agora.mes + 1), agora)
    ensures FormatarNomeArquivo("anual", ano, mes, agora) == FormatarNomeArquivo("anual", Some(agora.ano), mes, agora)
  {
    if agora.ano == 0 {
      assert AnoOuAtual(Some(agora.ano), agora) == agora.ano;
    }
  }

  /** A month outside 1..12 is written "undefined", whatever the current month. */
  lemma MesForaDaFaixa(ano: Option<int>, m: int, agora: Agora)
    requires AgoraValido(agora) && m != 0 && !(1 <= m <= 12)
    ensures FormatarNomeArquivo("mensal", ano, Some(m), agora)
      == "calendario-mensal-" + ("undefined" + "-" + IntParaTexto(AnoOuAtual(ano, agora)) + "-") + (Timestamp(agora.iso) + ".pdf")
  {
  }
}
