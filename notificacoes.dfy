/**
 * The birthday notification hook (`use-notificacao-aniversarios.ts`): once
 * a day it classifies every birthday by the days left (today, tomorrow, in
 * a week), shows the notifications not seen before, and records their ids
 * as seen. The seen list and the date of the last check, which the hook
 * keeps in `localStorage` and in React state, are fields of a class; the
 * toasts are what `Verificar` returns.
 */
module Notificacoes {
  import opened Util
  import opened Calendario
  import opened Recorrencia
  import opened Api

  datatype Tipo = Hoje | Amanha | Semana

  datatype Notificacao = Notificacao(id: string, aniversario: Aniversario, tipo: Tipo, diasRestantes: int)

  function Prefixo(t: Tipo): (r: string)
    ensures |r| >= 4
  {
    match t
    case Hoje => "hoje"
    case Amanha => "amanha"
    case Semana => "semana"
  }

  /** The notification for a birthday `dias` days away: only at 0, 1 and 7 days. */
  function Classificar(a: Aniversario, dias: int): (r: Option<Notificacao>)
    ensures r.Some? <==> dias == 0 || dias == 1 || dias == 7
    ensures r.Some? ==> r.value.aniversario == a && r.value.diasRestantes == dias
    ensures r.Some? ==> r.value.id == Prefixo(r.value.tipo) + "-" + a.id
    ensures r.Some? ==> (r.value.tipo == Hoje <==> dias == 0) && (r.value.tipo == Amanha <==> dias == 1)
  {
    if dias == 0 then Some(Notificacao("hoje-" + a.id, a, Hoje, 0))
    else if dias == 1 then Some(Notificacao("amanha-" + a.id, a, Amanha, 1))
    else if dias == 7 then Some(Notificacao("semana-" + a.id, a, Semana, 7))
    else None
  }

  /** A notification id names its kind and its birthday: equal ids mean the same kind and birthday id. */
  lemma IdDeterminaTipoEAniversario(a: Aniversario, da: int, b: Aniversario, db: int)
    requires Classificar(a, da).Some? && Classificar(b, db).Some?
    requires Classificar(a, da).value.id == Classificar(b, db).value.id
    ensures Classificar(a, da).value.tipo == Classificar(b, db).value.tipo
    ensures a.id == b.id
  {
    var na := Classificar(a, da).value;
    var nb := Classificar(b, db).value;
    assert na.id[0] == Prefixo(na.tipo)[0];
    assert nb.id[0] == Prefixo(nb.tipo)[0];
    var n := |Prefixo(na.tipo)| + 1;
    assert na.id[n..] == a.id;
    assert nb.id[n..] == b.id;
  }

  /**
   * The notification, if any, one birthday yields: the days left are
   * `Math.ceil((proximaData - hoje) / msPorDia)` over the occurrence the
   * code picks (this year's unless it lies before now). A birthday gets a
   * notification exactly when that occurrence is today, tomorrow or a week
   * away in calendar days. The "hoje" kind fires only at the birthday's
   * exact midnight: any later instant of that day already points to next
   * year.
   */
  function Gerar(agora: int, anoAtual: int): (g: Aniversario -> Option<Notificacao>)
    ensures forall a: Aniversario :: DataNoAno(agora, anoAtual, a.dia, a.mes) ==>
      (g(a).Some? <==>
        var d := DiaDe(ProximaOcorrenciaComoEscrita(agora, anoAtual, a.dia, a.mes)) - DiaDe(agora);
        d == 0 || d == 1 || d == 7)
    ensures forall a: Aniversario :: DataNoAno(agora, anoAtual, a.dia, a.mes) ==>
      (g(a).Some? && g(a).value.tipo == Hoje <==> agora == EsteAno(anoAtual, a.dia, a.mes))
  {
    (a: Aniversario) => Classificar(a, DiasComoEscrito(agora, anoAtual, a.dia, a.mes))
  }

  /** `novasNotificacoes`: what the `forEach` pushes. */
  function Geradas(s: seq<Aniversario>, agora: int, anoAtual: int): seq<Notificacao> {
    Coletar(s, Gerar(agora, anoAtual))
  }

  /**
   * The new notifications are exactly the ones the birthdays of the list
   * yield: nothing else, and none is missed.
   */
  lemma GeradaSe(s: seq<Aniversario>, agora: int, anoAtual: int, n: Notificacao)
    ensures n in Geradas(s, agora, anoAtual) <==> exists k :: 0 <= k < |s| && Gerar(agora, anoAtual)(s[k]) == Some(n)
  {
    ColetarPertence(s, Gerar(agora, anoAtual), n);
  }

  /**
   * Corrected: the notification over the corrected occurrence, classified
   * by the calendar days to it, "hoje" exactly on the day itself.
   */
  function GerarCorrigido(agora: int, anoAtual: int): (g: Aniversario -> Option<Notificacao>)
    ensures forall a: Aniversario :: DataNoAno(agora, anoAtual, a.dia, a.mes) ==>
      (g(a).Some? <==>
        var d := DiaDe(ProximaOcorrencia(agora, anoAtual, a.dia, a.mes)) - DiaDe(agora);
        d == 0 || d == 1 || d == 7)
    ensures forall a: Aniversario :: DataNoAno(agora, anoAtual, a.dia, a.mes) ==>
      (g(a).Some? && g(a).value.tipo == Hoje <==> FazerDia(anoAtual, a.mes - 1, a.dia) == DiaDe(agora))
  {
    (a: Aniversario) => Classificar(a, DiasPara(agora, anoAtual, a.dia, a.mes))
  }

  function NaoVista(vistas: seq<string>): Notificacao -> bool {
    (n: Notificacao) => n.id !in vistas
  }

  /** `notificacoesNovas`: the notifications whose id is not in the seen list. */
  function NaoVistas(ns: seq<Notificacao>, vistas: seq<string>): (r: seq<Notificacao>)
    ensures forall k :: 0 <= k < |r| ==> r[k].id !in vistas
  {
    Filtrar(ns, NaoVista(vistas))
  }

  /** The ids of a list of notifications, in order. */
  function Ids(ns: seq<Notificacao>): (r: seq<string>)
    ensures |r| == |ns|
    ensures forall k :: 0 <= k < |ns| ==> r[k] == ns[k].id
  {
    seq(|ns|, k requires 0 <= k < |ns| => ns[k].id)
  }

  /**
   * Once the new ids are appended to the seen list, the same notifications
   * yield nothing new: a second pass shows no toast again.
   */
  lemma {:induction false} SegundaPassagemVazia(ns: seq<Notificacao>, vistas: seq<string>)
    ensures NaoVistas(ns, vistas + Ids(NaoVistas(ns, vistas))) == []
  {
    var novas := NaoVistas(ns, vistas);
    var todas := vistas + Ids(novas);
    forall i | 0 <= i < |ns| ensures !NaoVista(todas)(ns[i]) {
      var x := ns[i];
      FiltrarPertence(ns, NaoVista(vistas), x);
      if x.id !in vistas {
        var k :| 0 <= k < |novas| && novas[k] == x;
        assert Ids(novas)[k] == x.id;
      }
    }
    FiltrarNenhum(ns, NaoVista(todas));
  }

  /** The `forEach` of `verificarNotificacoes`: one notification per birthday at 0, 1 or 7 days. */
  method GerarNotificacoes(aniversarios: seq<Aniversario>, agora: int, anoAtual: int) returns (novas: seq<Notificacao>)
    ensures novas == Geradas(aniversarios, agora, anoAtual)
  {
    novas := [];
    var i := 0;
    while i < |aniversarios|
      invariant 0 <= i <= |aniversarios|
      invariant novas == Geradas(aniversarios[..i], agora, anoAtual)
    {
      ColetarPasso(aniversarios, i, Gerar(agora, anoAtual));
      var a := aniversarios[i];
      var notificacao := Classificar(a, DiasComoEscrito(agora, anoAtual, a.dia, a.mes));
      if notificacao.Some? {
        novas := novas + [notificacao.value];
      }
      i := i + 1;
    }
    assert aniversarios[..i] == aniversarios;
  }

  class Notificador {
    /** The notifications of the last check (`notificacoes`). */
    var notificacoes: seq<Notificacao>
    /** `ultimaVerificacao`: the `yyyy-MM-dd` date of the last check, if any. */
    var ultimaVerificacao: Option<string>
    /** `notificacoes_aniversario_vistas`: the ids already shown. */
    var vistas: seq<string>

    /** The hook mounts with the saved date of the last check and the saved seen list. */
    constructor (ultimaSalva: Option<string>, vistasSalvas: seq<string>)
      ensures notificacoes == [] && ultimaVerificacao == ultimaSalva && vistas == vistasSalvas
    {
      notificacoes := [];
      ultimaVerificacao := ultimaSalva;
      vistas := vistasSalvas;
    }

    /**
     * `verificarNotificacoes`. `dataHoje` is today's `yyyy-MM-dd`. Nothing
     * changes when today was already checked; otherwise the notifications
     * are recomputed, the unseen ones are returned as toasts, and their ids
     * are appended to the seen list.
     */
    method Verificar(aniversarios: seq<Aniversario>, agora: int, anoAtual: int, dataHoje: string)
      returns (toasts: seq<Notificacao>)
      modifies this
      ensures old(ultimaVerificacao) == Some(dataHoje) ==>
        toasts == [] && notificacoes == old(notificacoes) && vistas == old(vistas) && ultimaVerificacao == old(ultimaVerificacao)
      ensures old(ultimaVerificacao) != Some(dataHoje) ==>
        notificacoes == Geradas(aniversarios, agora, anoAtual)
        && toasts == NaoVistas(notificacoes, old(vistas))
        && vistas == old(vistas) + Ids(toasts)
        && ultimaVerificacao == Some(dataHoje)
    {
      if ultimaVerificacao == Some(dataHoje) {
        return [];
      }
      var novas := GerarNotificacoes(aniversarios, agora, anoAtual);
      toasts := NaoVistas(novas, vistas);
      if |toasts| > 0 {
        vistas := vistas + Ids(toasts);
      } else {
        assert vistas + Ids(toasts) == vistas;
      }
      notificacoes := novas;
      ultimaVerificacao := Some(dataHoje);
    }

    /** `limparNotificacoesAntigas`: the whole seen list goes, whatever its age. */
    method LimparNotificacoesAntigas()
      modifies this
      ensures vistas == []
      ensures notificacoes == old(notificacoes) && ultimaVerificacao == old(ultimaVerificacao)
    {
      vistas := [];
    }
  }
}
