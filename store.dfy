/**
 * The server's in-memory database (`db`) and its scheduling-conflict rule.
 * Two events conflict when they belong to the same church, use the same
 * resource (a missing resource counts as the church's main space,
 * `"__principal__"`), and their time intervals overlap as open intervals.
 */
module Store {
  import opened Util
  import opened Api

  /** The resource identity of an event without a resource. */
  const Principal: string := "__principal__"

  /** `sobrepoeIntervalo`: the intervals [aInicio, aFim) and [bInicio, bFim) share an instant. */
  predicate SobrepoeIntervalo(aInicio: int, aFim: int, bInicio: int, bFim: int) {
    aInicio < bFim && aFim > bInicio
  }

  /** `recursoId ?? "__principal__"` */
  function ChaveRecurso(recursoId: Option<string>): (k: string)
    ensures recursoId.None? ==> k == Principal
    ensures recursoId.Some? ==> k == recursoId.value
  {
    recursoId.GetOr(Principal)
  }

  /** `ehConflito` */
  predicate EhConflito(evento: Evento, outro: Evento) {
    evento.igrejaId == outro.igrejaId
    && ChaveRecurso(evento.recursoId) == ChaveRecurso(outro.recursoId)
    && SobrepoeIntervalo(evento.inicio, evento.fim, outro.inicio, outro.fim)
  }

  // ---------------------------------------------------------------------
  // Properties of the conflict rule
  // ---------------------------------------------------------------------

  /**
   * Two intervals overlap exactly when each starts before the other ends;
   * intervals that only touch, one ending where the other starts, do not.
   */
  lemma EncostadosNaoSobrepoem(aInicio: int, aFim: int, bInicio: int, bFim: int)
    requires aFim == bInicio || bFim == aInicio
    ensures !SobrepoeIntervalo(aInicio, aFim, bInicio, bFim)
  {
  }

  /** Overlap does not depend on the order of the two intervals. */
  lemma SobrepoeSimetrico(aInicio: int, aFim: int, bInicio: int, bFim: int)
    ensures SobrepoeIntervalo(aInicio, aFim, bInicio, bFim) == SobrepoeIntervalo(bInicio, bFim, aInicio, aFim)
  {
  }

  /** Conflict is symmetric: which of the two events is the candidate does not matter. */
  lemma ConflitoSimetrico(a: Evento, b: Evento)
    ensures EhConflito(a, b) == EhConflito(b, a)
  {
  }

  /** Events of different churches never conflict. */
  lemma IgrejasDiferentesNaoConflitam(a: Evento, b: Evento)
    requires a.igrejaId != b.igrejaId
    ensures !EhConflito(a, b)
  {
  }

  /** Events of one church on different resources never conflict, whatever their times. */
  lemma RecursosDiferentesNaoConflitam(a: Evento, b: Evento)
    requires ChaveRecurso(a.recursoId) != ChaveRecurso(b.recursoId)
    ensures !EhConflito(a, b)
  {
  }

  /** Two resource-less events of one church conflict exactly when their times overlap. */
  lemma SemRecursoConflitaSeSobrepoe(a: Evento, b: Evento)
    requires a.igrejaId == b.igrejaId && a.recursoId.None? && b.recursoId.None?
    ensures EhConflito(a, b) <==> SobrepoeIntervalo(a.inicio, a.fim, b.inicio, b.fim)
  {
  }

  /**
   * A resource whose id is the sentinel itself is indistinguishable from
   * "no resource": it conflicts with the resource-less events it overlaps.
   */
  lemma SentinelaEhPrincipal(a: Evento, b: Evento)
    requires a.igrejaId == b.igrejaId && a.recursoId == Some(Principal) && b.recursoId.None?
    requires SobrepoeIntervalo(a.inicio, a.fim, b.inicio, b.fim)
    ensures EhConflito(a, b)
  {
  }

  /** An event conflicts with itself exactly when it lasts a positive time. */
  lemma ConflitoConsigo(e: Evento)
    ensures EhConflito(e, e) <==> e.inicio < e.fim
  {
  }

  /** `db`: the five tables the event, church, resource and user routes share. */
  class Db {
    var usuarios: seq<Usuario>
    var igrejas: seq<Igreja>
    var recursos: seq<Recurso>
    var eventos: seq<Evento>
    var aniversarios: seq<Aniversario>

    constructor ()
      ensures usuarios == [] && igrejas == [] && recursos == [] && eventos == [] && aniversarios == []
    {
      usuarios := [];
      igrejas := [];
      recursos := [];
      eventos := [];
      aniversarios := [];
    }
  }
}
