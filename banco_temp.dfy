/**
 * The JSON-backed store of `server/data/database-temp.ts`, which the
 * birthday routes use. Its records are untyped JavaScript objects, so a
 * record here is a map from property name to value, and an object spread
 * `{ ...a, ...b }` is the map union `a + b`, in which `b` wins.
 *
 * Each of the seven tables (`usuariosDb`, `eventosDb`, `aniversariosDb`,
 * `igrejasDb`, `recursosDb`, `departamentosDb`, `orgaosDb`) is a `Tabela`
 * whose `linhas` the methods change in place. Ids (`Date.now()`) and the
 * creation timestamp are parameters; file persistence is left out.
 */
module BancoTemp {
  import opened Util

  /** A JSON-like property value. `Data` is an ISO instant string, already decoded to milliseconds. */
  datatype Valor = Indefinido | Nulo | Booleano(b: bool) | Numero(n: int) | Texto(s: string) | Data(t: int)

  type Registro = map<string, Valor>

  /** JavaScript truthiness of a property value. */
  predicate Verdadeiro(v: Valor) {
    match v
    case Indefinido => false
    case Nulo => false
    case Booleano(b) => b
    case Numero(n) => n != 0
    case Texto(s) => s != ""
    case Data(_) => true
  }

  /** The value of property `k`, `undefined` when the record lacks it. */
  function Ler(r: Registro, k: string): (v: Valor)
    ensures k !in r ==> v == Indefinido
    ensures k in r ==> v == r[k]
  {
    if k in r then r[k] else Indefinido
  }

  /** `x.id === id` */
  function TemId(id: string): Registro -> bool {
    (r: Registro) => Ler(r, "id") == Texto(id)
  }

  /** `{ ...a, ...b }`: every property of `b`, and those of `a` that `b` lacks. */
  function Espalhar(a: Registro, b: Registro): (r: Registro)
    ensures r.Keys == a.Keys + b.Keys
    ensures forall k :: k in b ==> r[k] == b[k]
    ensures forall k :: k in a && k !in b ==> r[k] == a[k]
  {
    a + b
  }

  /** The position `findIndex((x) => x.id === id)` finds. */
  function Posicao(linhas: seq<Registro>, id: string): Option<nat> {
    PrimeiraPosicao(linhas, TemId(id))
  }

  /** `buscarPorId`: the first record with that id. */
  function BuscarPorId(linhas: seq<Registro>, id: string): (r: Option<Registro>)
    ensures r.None? <==> forall k :: 0 <= k < |linhas| ==> Ler(linhas[k], "id") != Texto(id)
    ensures r.Some? ==> exists k :: 0 <= k < |linhas| && r.value == linhas[k] && Ler(r.value, "id") == Texto(id)
                                  && forall j :: 0 <= j < k ==> Ler(linhas[j], "id") != Texto(id)
  {
    match Posicao(linhas, id)
    case None => None
    case Some(k) => Some(linhas[k])
  }

  /** `x.email === email` */
  function TemEmail(email: string): Registro -> bool {
    (r: Registro) => Ler(r, "email") == Texto(email)
  }

  /** `usuariosDb.buscarPorEmail`: the first user with exactly that email (case matters here). */
  function BuscarPorEmail(usuarios: seq<Registro>, email: string): (r: Option<Registro>)
    ensures r.None? <==> forall k :: 0 <= k < |usuarios| ==> Ler(usuarios[k], "email") != Texto(email)
    ensures r.Some? ==> exists k :: 0 <= k < |usuarios| && r.value == usuarios[k] && Ler(r.value, "email") == Texto(email)
                                  && forall j :: 0 <= j < k ==> Ler(usuarios[j], "email") != Texto(email)
  {
    match PrimeiraPosicao(usuarios, TemEmail(email))
    case None => None
    case Some(k) => Some(usuarios[k])
  }

  /** The record `criar` stores: the input, with the generated `id` and `criadoEm` on top. */
  function ComIdentidade(dado: Registro, id: string, criadoEm: string): (r: Registro)
    ensures r.Keys == dado.Keys + {"id", "criadoEm"}
    ensures r["id"] == Texto(id) && r["criadoEm"] == Texto(criadoEm)
    ensures forall k :: k in dado && k != "id" && k != "criadoEm" ==> r[k] == dado[k]
  {
    Espalhar(dado, map["id" := Texto(id), "criadoEm" := Texto(criadoEm)])
  }

  /**
   * The event record `eventosDb.criar` stores: as `ComIdentidade`, with a
   * `responsavel` that defaults to `null` (`evento.responsavel ?? null`).
   */
  function NovoEvento(dado: Registro, id: string, criadoEm: string): (r: Registro)
    ensures r.Keys == dado.Keys + {"id", "criadoEm", "responsavel"}
    ensures r["id"] == Texto(id) && r["criadoEm"] == Texto(criadoEm)
    ensures r["responsavel"] == (if Ler(dado, "responsavel") in {Indefinido, Nulo} then Nulo else dado["responsavel"])
    ensures forall k :: k in dado && k !in {"id", "criadoEm", "responsavel"} ==> r[k] == dado[k]
  {
    var resp := Ler(dado, "responsavel");
    Espalhar(dado, map["responsavel" := if resp in {Indefinido, Nulo} then Nulo else resp,
                       "id" := Texto(id), "criadoEm" := Texto(criadoEm)])
  }

  /**
   * The user record `usuariosDb.criar` stores: the input with `id`,
   * `senhaHash` and `criadoEm`, and without the clear-text `senha`.
   */
  function NovoUsuario(dado: Registro, id: string, senhaHash: string, criadoEm: string): (r: Registro)
    ensures r.Keys == dado.Keys + {"id", "senhaHash", "criadoEm"} - {"senha"}
    ensures "senha" !in r
    ensures r["id"] == Texto(id) && r["senhaHash"] == Texto(senhaHash) && r["criadoEm"] == Texto(criadoEm)
    ensures forall k :: k in dado && k !in {"id", "senhaHash", "criadoEm", "senha"} ==> r[k] == dado[k]
  {
    Espalhar(dado, map["id" := Texto(id), "senhaHash" := Texto(senhaHash), "criadoEm" := Texto(criadoEm)]) - {"senha"}
  }

  /**
   * The update `usuariosDb.atualizar` applies: a truthy `senha` is replaced
   * by its hash; a falsy one stays in the update as it is.
   */
  function AtualizacaoDeUsuario(upd: Registro, senhaHash: string): (r: Registro)
    ensures Verdadeiro(Ler(upd, "senha")) ==>
      "senha" !in r && r == (upd - {"senha"})["senhaHash" := Texto(senhaHash)]
    ensures !Verdadeiro(Ler(upd, "senha")) ==> r == upd
  {
    if Verdadeiro(Ler(upd, "senha")) then (upd - {"senha"})["senhaHash" := Texto(senhaHash)] else upd
  }

  /** `eventosDb.atualizar` as written: the spread, then `responsavel` assigned again when defined. */
  function EventoAtualizado(atual: Registro, upd: Registro): Registro {
    var r := Espalhar(atual, upd);
    if Ler(upd, "responsavel") != Indefinido then r["responsavel" := upd["responsavel"]] else r
  }

  /** The second assignment of `responsavel` changes nothing: the spread already did it. */
  lemma ResponsavelJaEspalhado(atual: Registro, upd: Registro)
    ensures EventoAtualizado(atual, upd) == Espalhar(atual, upd)
  {
    var r := Espalhar(atual, upd);
    if Ler(upd, "responsavel") != Indefinido {
      assert r["responsavel" := upd["responsavel"]] == r;
    }
  }

  /** The largest magnitude of a JavaScript time value (TimeClip, section 21.4.1.31 of ECMA-262). */
  const MaxInstante := 8_640_000_000_000_000

  /**
   * `new Date(v).getTime()` of a stored value: `null` is 0, `false` and
   * `true` are 0 and 1, a number is itself when TimeClip keeps it, an ISO
   * instant is its time; `undefined`, other text and a number out of range
   * give an Invalid Date (`None`, NaN).
   */
  function ComoInstante(v: Valor): (r: Option<int>)
    ensures r.None? <==> v.Indefinido? || v.Texto? || (v.Numero? && !(-MaxInstante <= v.n <= MaxInstante))
    ensures v.Nulo? ==> r == Some(0)
    ensures v.Booleano? ==> r == Some(if v.b then 1 else 0)
    ensures v.Numero? && r.Some? ==> r.value == v.n
    ensures v.Data? ==> r == Some(v.t)
  {
    match v
    case Indefinido => None
    case Nulo => Some(0)
    case Booleano(b) => Some(if b then 1 else 0)
    case Numero(n) => if -MaxInstante <= n <= MaxInstante then Some(n) else None
    case Texto(_) => None
    case Data(t) => Some(t)
  }

  /**
   * The filter of `buscarPorPeriodo`: every operand goes through
   * `new Date(...)`, and a comparison with an Invalid Date is false.
   */
  function NoPeriodo(inicio: Option<int>, fim: Option<int>): Registro -> bool {
    (e: Registro) =>
      var a, b := ComoInstante(Ler(e, "dataHoraInicio")), ComoInstante(Ler(e, "dataHoraFim"));
      inicio.Some? && fim.Some? && a.Some? && b.Some? && a.value < fim.value && b.value > inicio.value
  }

  /** `eventosDb.buscarPorPeriodo` */
  function BuscarPorPeriodo(eventos: seq<Registro>, inicio: Option<int>, fim: Option<int>): (r: seq<Registro>)
    ensures |r| <= |eventos|
    ensures forall k :: 0 <= k < |r| ==> NoPeriodo(inicio, fim)(r[k])
    ensures r != [] ==> inicio.Some? && fim.Some?
  {
    var r := Filtrar(eventos, NoPeriodo(inicio, fim));
    assert r != [] ==> NoPeriodo(inicio, fim)(r[0]);
    r
  }

  /**
   * Exactly the stored events overlapping the period are found, their
   * start and end read as `new Date` reads them.
   */
  lemma BuscarPorPeriodoExato(eventos: seq<Registro>, inicio: Option<int>, fim: Option<int>, e: Registro)
    ensures e in BuscarPorPeriodo(eventos, inicio, fim) <==>
      e in eventos && inicio.Some? && fim.Some?
      && ComoInstante(Ler(e, "dataHoraInicio")).Some? && ComoInstante(Ler(e, "dataHoraFim")).Some?
      && ComoInstante(Ler(e, "dataHoraInicio")).value < fim.value
      && ComoInstante(Ler(e, "dataHoraFim")).value > inicio.value
  {
    FiltrarPertence(eventos, NoPeriodo(inicio, fim), e);
  }

  /**
   * A start stored as the number 5 is the instant 5: with an end at 100 the
   * event lies in the period [0, 200].
   */
  lemma InicioNumericoNoPeriodo(e: Registro)
    requires Ler(e, "dataHoraInicio") == Numero(5) && Ler(e, "dataHoraFim") == Data(100)
    ensures BuscarPorPeriodo([e], Some(0), Some(200)) == [e]
  {
    assert NoPeriodo(Some(0), Some(200))(e);
  }

  /** A start stored as `null` is the instant 0, so it precedes any later period end. */
  lemma InicioNuloEhZero(e: Registro, inicio: int, fim: int)
    requires Ler(e, "dataHoraInicio") == Nulo && Ler(e, "dataHoraFim") == Data(fim + 1)
    requires 0 < fim && inicio <= fim
    ensures BuscarPorPeriodo([e], Some(inicio), Some(fim)) == [e]
  {
    assert NoPeriodo(Some(inicio), Some(fim))(e);
  }

  function DoMes(mes: int): Registro -> bool {
    (a: Registro) => Ler(a, "mes") == Numero(mes)
  }

  /** `aniversariosDb.buscarPorMes`: the records whose `mes` is `mes`, in stored order. */
  function BuscarPorMes(aniversarios: seq<Registro>, mes: int): (r: seq<Registro>)
    ensures |r| <= |aniversarios|
    ensures forall k :: 0 <= k < |r| ==> Ler(r[k], "mes") == Numero(mes)
  {
    Filtrar(aniversarios, DoMes(mes))
  }

  /** Every record of month `mes` is found. */
  lemma BuscarPorMesCompleto(aniversarios: seq<Registro>, mes: int, a: Registro)
    requires a in aniversarios && Ler(a, "mes") == Numero(mes)
    ensures a in BuscarPorMes(aniversarios, mes)
  {
    FiltrarPertence(aniversarios, DoMes(mes), a);
  }

  function DaIgreja(igrejaId: string): Registro -> bool {
    (d: Registro) => Ler(d, "igrejaId") == Texto(igrejaId)
  }

  function ForaDaIgreja(igrejaId: string): Registro -> bool {
    (d: Registro) => Ler(d, "igrejaId") != Texto(igrejaId)
  }

  /** `buscarPorIgreja` of departments and bodies. */
  function BuscarPorIgreja(linhas: seq<Registro>, igrejaId: string): (r: seq<Registro>)
    ensures |r| <= |linhas|
    ensures forall k :: 0 <= k < |r| ==> Ler(r[k], "igrejaId") == Texto(igrejaId)
  {
    Filtrar(linhas, DaIgreja(igrejaId))
  }

  /**
   * What `deletarPorIgreja` keeps and what `buscarPorIgreja` finds split the
   * table: together they hold every record exactly as often as it was stored.
   */
  lemma IgrejaParticiona(linhas: seq<Registro>, igrejaId: string)
    ensures multiset(BuscarPorIgreja(linhas, igrejaId)) + multiset(Filtrar(linhas, ForaDaIgreja(igrejaId))) == multiset(linhas)
  {
    FiltrarParticiona(linhas, DaIgreja(igrejaId), ForaDaIgreja(igrejaId));
  }

  /** After `deletarPorIgreja`, `buscarPorIgreja` finds nothing. */
  lemma DeletarPorIgrejaEsvazia(linhas: seq<Registro>, igrejaId: string)
    ensures BuscarPorIgreja(Filtrar(linhas, ForaDaIgreja(igrejaId)), igrejaId) == []
  {
    var resto := Filtrar(linhas, ForaDaIgreja(igrejaId));
    FiltrarTodos(resto, ForaDaIgreja(igrejaId));
    if BuscarPorIgreja(resto, igrejaId) != [] {
      var d := BuscarPorIgreja(resto, igrejaId)[0];
      FiltrarPertence(resto, DaIgreja(igrejaId), d);
      FiltrarPertence(linhas, ForaDaIgreja(igrejaId), d);
      assert false;
    }
  }

  /** One table of the store: its records in insertion order. */
  class Tabela {
    var linhas: seq<Registro>

    constructor ()
      ensures linhas == []
    {
      linhas := [];
    }

    /** `criar`, for churches, resources, birthdays, departments and bodies. */
    method Criar(dado: Registro, id: string, criadoEm: string) returns (novo: Registro)
      modifies this
      ensures novo == ComIdentidade(dado, id, criadoEm)
      ensures linhas == old(linhas) + [novo]
    {
      novo := ComIdentidade(dado, id, criadoEm);
      linhas := linhas + [novo];
    }

    /** `eventosDb.criar` */
    method CriarEvento(dado: Registro, id: string, criadoEm: string) returns (novo: Registro)
      modifies this
      ensures novo == NovoEvento(dado, id, criadoEm)
      ensures linhas == old(linhas) + [novo]
    {
      novo := NovoEvento(dado, id, criadoEm);
      linhas := linhas + [novo];
    }

    /** `usuariosDb.criar`; `senhaHash` is the hash of the input's `senha`. */
    method CriarUsuario(dado: Registro, id: string, senhaHash: string, criadoEm: string) returns (novo: Registro)
      modifies this
      ensures novo == NovoUsuario(dado, id, senhaHash, criadoEm)
      ensures linhas == old(linhas) + [novo]
    {
      novo := NovoUsuario(dado, id, senhaHash, criadoEm);
      linhas := linhas + [novo];
    }

    /**
     * `atualizar`: `null` for an unknown id; otherwise the first record
     * with that id becomes `{ ...atual, ...upd }` and nothing else changes.
     */
    method Atualizar(id: string, upd: Registro) returns (r: Option<Registro>)
      modifies this
      ensures r.None? <==> Posicao(old(linhas), id).None?
      ensures r.None? ==> linhas == old(linhas)
      ensures r.Some? ==>
        var idx := Posicao(old(linhas), id).value;
        r.value == Espalhar(old(linhas)[idx], upd) && linhas == old(linhas)[idx := r.value]
    {
      var idx := Posicao(linhas, id);
      if idx.None? {
        return None;
      }
      var novo := Espalhar(linhas[idx.value], upd);
      linhas := linhas[idx.value := novo];
      return Some(novo);
    }

    /** `eventosDb.atualizar`, with its re-assignment of `responsavel`. */
    method AtualizarEvento(id: string, upd: Registro) returns (r: Option<Registro>)
      modifies this
      ensures r.None? <==> Posicao(old(linhas), id).None?
      ensures r.None? ==> linhas == old(linhas)
      ensures r.Some? ==>
        var idx := Posicao(old(linhas), id).value;
        r.value == Espalhar(old(linhas)[idx], upd) && linhas == old(linhas)[idx := r.value]
    {
      var idx := Posicao(linhas, id);
      if idx.None? {
        return None;
      }
      var novo := EventoAtualizado(linhas[idx.value], upd);
      ResponsavelJaEspalhado(linhas[idx.value], upd);
      linhas := linhas[idx.value := novo];
      return Some(novo);
    }

    /** `usuariosDb.atualizar`; `senhaHash` is the hash of `upd.senha`. */
    method AtualizarUsuario(id: string, upd: Registro, senhaHash: string) returns (r: Option<Registro>)
      modifies this
      ensures r.None? <==> Posicao(old(linhas), id).None?
      ensures r.None? ==> linhas == old(linhas)
      ensures r.Some? ==>
        var idx := Posicao(old(linhas), id).value;
        r.value == Espalhar(old(linhas)[idx], AtualizacaoDeUsuario(upd, senhaHash))
        && linhas == old(linhas)[idx := r.value]
    {
      var idx := Posicao(linhas, id);
      if idx.None? {
        return None;
      }
      var novo := Espalhar(linhas[idx.value], AtualizacaoDeUsuario(upd, senhaHash));
      linhas := linhas[idx.value := novo];
      return Some(novo);
    }

    /** `deletar`: `false` for an unknown id; otherwise only the first record with that id goes. */
    method Deletar(id: string) returns (r: bool)
      modifies this
      ensures r <==> Posicao(old(linhas), id).Some?
      ensures !r ==> linhas == old(linhas)
      ensures r ==> linhas == SemPosicao(old(linhas), Posicao(old(linhas), id).value)
    {
      var idx := Posicao(linhas, id);
      if idx.None? {
        return false;
      }
      linhas := SemPosicao(linhas, idx.value);
      return true;
    }

    /** `deletarPorIgreja` of departments and bodies. */
    method DeletarPorIgreja(igrejaId: string)
      modifies this
      ensures linhas == Filtrar(old(linhas), ForaDaIgreja(igrejaId))
    {
      linhas := Filtrar(linhas, ForaDaIgreja(igrejaId));
    }
  }

  /**
   * An update keeps every property it does not mention, and a record keeps
   * its id unless the update carries one: `atualizar` can rename a record.
   */
  lemma AtualizarPreserva(atual: Registro, upd: Registro)
    ensures forall k :: k in atual && k !in upd ==> Espalhar(atual, upd)[k] == atual[k]
    ensures "id" !in upd ==> Ler(Espalhar(atual, upd), "id") == Ler(atual, "id")
  {
  }

  /** A deletion removes one record: the table is one shorter and lost exactly that record. */
  lemma DeletarUmSo(linhas: seq<Registro>, id: string)
    requires Posicao(linhas, id).Some?
    ensures var idx := Posicao(linhas, id).value;
      multiset(SemPosicao(linhas, idx)) + multiset{linhas[idx]} == multiset(linhas)
  {
    var idx := Posicao(linhas, id).value;
    assert linhas == linhas[..idx] + [linhas[idx]] + linhas[idx + 1..];
  }
}
