/**
 * Small building blocks shared by every module: an optional value, the
 * array helpers the TypeScript code uses (filter, includes), and the few
 * string operations the code relies on (trim, toLowerCase, number to text,
 * padStart).
 */
module Util {

  /** A value that may be absent (`undefined` or `null` in the source). */
  datatype Option<+T> = None | Some(value: T) {
    /** `x ?? d`: the value when present, otherwise the default. */
    function GetOr(default: T): T {
      if Some? then value else default
    }
  }

  /** JavaScript truthiness of an optional string: missing, `null` and `""` are all falsy. */
  predicate Presente(x: Option<string>) {
    x.Some? && x.value != ""
  }

  /**
   * A request field that distinguishes "not sent" (`undefined`) from an
   * explicit `null`, for the handlers whose behaviour differs on the two.
   */
  datatype Campo<+T> = NaoEnviado | EnviadoNulo | Enviado(v: T)

  /** A nullable property after `{ ...atual, ...enviado }`: kept when not sent, replaced otherwise. */
  function Sobrescrever<T>(atual: Option<T>, novo: Campo<T>): (r: Option<T>)
    ensures novo.NaoEnviado? ==> r == atual
    ensures novo.EnviadoNulo? ==> r.None?
    ensures novo.Enviado? ==> r == Some(novo.v)
  {
    match novo
    case NaoEnviado => atual
    case EnviadoNulo => None
    case Enviado(v) => Some(v)
  }

  // ---------------------------------------------------------------------
  // Array.prototype.filter, counting, includes
  // ---------------------------------------------------------------------

  /** `s.filter(p)`: the elements of `s` satisfying `p`, in their order. */
  function Filtrar<T(==)>(s: seq<T>, p: T -> bool): (r: seq<T>)
    ensures |r| <= |s|
    ensures forall i :: 0 <= i < |r| ==> p(r[i])

  {
    if s == [] then []
    else (if p(s[0]) then [s[0]] else []) + Filtrar(s[1..], p)
  }

  /** An element is kept exactly when it is in the input and satisfies `p`. */
  lemma {:induction false} FiltrarPertence<T>(s: seq<T>, p: T -> bool, x: T)
    ensures x in Filtrar(s, p) <==> x in s && p(x)
  {
    if s != [] {
      FiltrarPertence(s[1..], p, x);
      assert s == [s[0]] + s[1..];
    }
  }

  /** `FiltrarPertence` for every element at once. */
  lemma FiltrarPertencem<T>(s: seq<T>, p: T -> bool)
    ensures forall x :: x in Filtrar(s, p) <==> x in s && p(x)
  {
    forall x ensures x in Filtrar(s, p) <==> x in s && p(x) {
      FiltrarPertence(s, p, x);
    }
  }

  /** Filtering distributes over concatenation, so it keeps relative order. */
  lemma {:induction false} FiltrarConcat<T>(a: seq<T>, b: seq<T>, p: T -> bool)
    ensures Filtrar(a + b, p) == Filtrar(a, p) + Filtrar(b, p)
  {
    if a == [] {
      assert a + b == b;
    } else {
      assert (a + b)[1..] == a[1..] + b;
      FiltrarConcat(a[1..], b, p);
    }
  }

  /** Filtering one more element at the end: the shape every loop below uses. */
  lemma FiltrarPasso<T>(s: seq<T>, i: nat, p: T -> bool)
    requires i < |s|
    ensures Filtrar(s[..i + 1], p) == Filtrar(s[..i], p) + (if p(s[i]) then [s[i]] else [])
  {
    assert s[..i + 1] == s[..i] + [s[i]];
    FiltrarConcat(s[..i], [s[i]], p);
  }

  /** A filter that keeps nothing gives the empty sequence. */
  lemma {:induction false} FiltrarNenhum<T>(s: seq<T>, p: T -> bool)
    requires forall i :: 0 <= i < |s| ==> !p(s[i])
    ensures Filtrar(s, p) == []
  {
    if s != [] {
      FiltrarNenhum(s[1..], p);
    }
  }

  /** A filter keeps nothing exactly when no element satisfies the predicate. */
  lemma FiltrarVazio<T>(s: seq<T>, p: T -> bool)
    ensures Filtrar(s, p) == [] <==> forall k :: 0 <= k < |s| ==> !p(s[k])
  {
    if Filtrar(s, p) == [] {
      forall k | 0 <= k < |s| ensures !p(s[k]) {
        FiltrarPertence(s, p, s[k]);
      }
    } else {
      FiltrarPertence(s, p, Filtrar(s, p)[0]);
    }
  }

  /** A filter that keeps everything is the identity. */
  lemma {:induction false} FiltrarTodos<T>(s: seq<T>, p: T -> bool)
    requires forall i :: 0 <= i < |s| ==> p(s[i])
    ensures Filtrar(s, p) == s
  {
    if s != [] {
      FiltrarTodos(s[1..], p);
    }
  }

  /** Filtering with two predicates that agree on the elements gives the same list. */
  lemma {:induction false} FiltrarIgual<T>(s: seq<T>, p: T -> bool, q: T -> bool)
    requires forall k :: 0 <= k < |s| ==> p(s[k]) == q(s[k])
    ensures Filtrar(s, p) == Filtrar(s, q)
  {
    if s != [] {
      FiltrarIgual(s[1..], p, q);
    }
  }

  /** Two successive filters are one filter by both predicates. */
  lemma {:induction false} FiltrarComposto<T>(s: seq<T>, p: T -> bool, q: T -> bool, pq: T -> bool)
    requires forall x :: pq(x) == (p(x) && q(x))
    ensures Filtrar(Filtrar(s, p), q) == Filtrar(s, pq)
  {
    if s != [] {
      FiltrarComposto(s[1..], p, q, pq);
      FiltrarConcat(if p(s[0]) then [s[0]] else [], Filtrar(s[1..], p), q);
      if p(s[0]) {
        assert Filtrar([s[0]], q) == (if q(s[0]) then [s[0]] else []);
      }
    }
  }

  /**
   * Filtering by a predicate and by its complement splits a sequence:
   * every element lands in exactly one of the two results.
   */
  lemma {:induction false} FiltrarParticiona<T>(s: seq<T>, p: T -> bool, q: T -> bool)
    requires forall x :: q(x) <==> !p(x)
    ensures multiset(Filtrar(s, p)) + multiset(Filtrar(s, q)) == multiset(s)
  {
    if s != [] {
      var t := s[1..];
      FiltrarParticiona(t, p, q);
      var a := if p(s[0]) then [s[0]] else [];
      var b := if q(s[0]) then [s[0]] else [];
      assert Filtrar(s, p) == a + Filtrar(t, p);
      assert Filtrar(s, q) == b + Filtrar(t, q);
      assert multiset(a) + multiset(b) == multiset{s[0]} by {
        if p(s[0]) {
          assert b == [];
        } else {
          assert a == [];
        }
      }
      assert s == [s[0]] + t;
      assert multiset(s) == multiset{s[0]} + multiset(t);
    }
  }

  /**
   * A `forEach` that pushes `f(x).value` for every `x` where `f` gives a
   * value: the pushed values, in the order of the input.
   */
  function Coletar<A, B>(s: seq<A>, f: A -> Option<B>): (r: seq<B>)
    ensures |r| <= |s|
    decreases |s|
  {
    if s == [] then []
    else Coletar(s[..|s| - 1], f) + (if f(s[|s| - 1]).Some? then [f(s[|s| - 1]).value] else [])
  }

  /** One more iteration of the `forEach`. */
  lemma ColetarPasso<A, B>(s: seq<A>, i: nat, f: A -> Option<B>)
    requires i < |s|
    ensures Coletar(s[..i + 1], f) == Coletar(s[..i], f) + (if f(s[i]).Some? then [f(s[i]).value] else [])
  {
    assert s[..i + 1][..i] == s[..i];
  }

  /** A value is collected exactly when some input element yields it. */
  lemma {:induction false} ColetarPertence<A, B>(s: seq<A>, f: A -> Option<B>, y: B)
    ensures y in Coletar(s, f) <==> exists k :: 0 <= k < |s| && f(s[k]) == Some(y)
    decreases |s|
  {
    if s != [] {
      var ini := s[..|s| - 1];
      ColetarPertence(ini, f, y);
      if exists k :: 0 <= k < |ini| && f(ini[k]) == Some(y) {
        var k :| 0 <= k < |ini| && f(ini[k]) == Some(y);
        assert s[k] == ini[k];
      }
      if exists k :: 0 <= k < |s| && f(s[k]) == Some(y) {
        var k :| 0 <= k < |s| && f(s[k]) == Some(y);
        if k < |ini| {
          assert ini[k] == s[k];
        }
      }
    }
  }

  /** The number of elements satisfying `p`: `s.filter(p).length`. */
  function Contar<T(==)>(s: seq<T>, p: T -> bool): nat {
    |Filtrar(s, p)|
  }

  /** Some element is counted exactly when some element satisfies the predicate. */
  lemma ContarPositivoSe<T>(s: seq<T>, p: T -> bool)
    ensures Contar(s, p) > 0 <==> exists x :: x in s && p(x)
  {
    if x :| x in s && p(x) {
      FiltrarPertence(s, p, x);
    }
    if Contar(s, p) > 0 {
      FiltrarPertence(s, p, Filtrar(s, p)[0]);
    }
  }

  /** Counting one more element at the end. */
  lemma ContarPasso<T>(s: seq<T>, i: nat, p: T -> bool)
    requires i < |s|
    ensures Contar(s[..i + 1], p) == Contar(s[..i], p) + (if p(s[i]) then 1 else 0)
  {
    FiltrarPasso(s, i, p);
  }

  /** `s.some(p)` */
  predicate Algum<T>(s: seq<T>, p: T -> bool) {
    exists i :: 0 <= i < |s| && p(s[i])
  }

  /** `s.splice(i, 1)`: the sequence without position `i`. */
  function SemPosicao<T>(s: seq<T>, i: nat): (r: seq<T>)
    requires i < |s|
    ensures |r| == |s| - 1
    ensures forall j :: 0 <= j < i ==> r[j] == s[j]
    ensures forall j :: i <= j < |r| ==> r[j] == s[j + 1]
  {
    s[..i] + s[i + 1..]
  }

  /** `s.findIndex(p)`: the first position satisfying `p`, or None (-1). */
  function PrimeiraPosicao<T>(s: seq<T>, p: T -> bool): (r: Option<nat>)
    ensures r.None? <==> forall j :: 0 <= j < |s| ==> !p(s[j])
    ensures r.Some? ==> r.value < |s| && p(s[r.value])
    ensures r.Some? ==> forall j :: 0 <= j < r.value ==> !p(s[j])
  {
    if s == [] then None
    else if p(s[0]) then Some(0)
    else
      match PrimeiraPosicao(s[1..], p)
      case None => None
      case Some(k) => Some(k + 1)
  }

  // ---------------------------------------------------------------------
  // Strings
  // ---------------------------------------------------------------------

  /** The white-space characters String.prototype.trim removes (the common ones). */
  predicate EhEspaco(c: char) {
    c == ' ' || c == '\t' || c == '\n' || c == '\r' || c == '\U{000B}' || c == '\U{000C}'
    || c == '\U{00A0}' || c == '\U{FEFF}' || c == '\U{2028}' || c == '\U{2029}'
  }

  function TirarInicio(s: string): string {
    if s == [] || !EhEspaco(s[0]) then s else TirarInicio(s[1..])
  }

  function TirarFim(s: string): string {
    if s == [] || !EhEspaco(s[|s| - 1]) then s else TirarFim(s[..|s| - 1])
  }

  /** Dropping leading white space leaves a suffix that starts with no white space. */
  lemma {:induction false} TirarInicioEspec(s: string)
    ensures var r := TirarInicio(s);
      |r| <= |s| && r == s[|s| - |r|..]
      && (r == [] || !EhEspaco(r[0]))
      && (forall k :: 0 <= k < |s| - |r| ==> EhEspaco(s[k]))
  {
    if s != [] && EhEspaco(s[0]) {
      TirarInicioEspec(s[1..]);
      var r := TirarInicio(s);
      forall k | 0 <= k < |s| - |r| ensures EhEspaco(s[k]) {
        if k > 0 {
          assert s[k] == s[1..][k - 1];
        }
      }
    }
  }

  /** Dropping trailing white space leaves a prefix that ends with no white space. */
  lemma {:induction false} TirarFimEspec(s: string)
    ensures var r := TirarFim(s);
      |r| <= |s| && r == s[..|r|]
      && (r == [] || !EhEspaco(r[|r| - 1]))
      && (forall k :: |r| <= k < |s| ==> EhEspaco(s[k]))
  {
    if s != [] && EhEspaco(s[|s| - 1]) {
      var t := s[..|s| - 1];
      TirarFimEspec(t);
      var r := TirarFim(s);
      assert r == TirarFim(t);
      forall k | |r| <= k < |s| ensures EhEspaco(s[k]) {
        if k < |s| - 1 {
          assert s[k] == t[k];
        }
      }
      assert t[..|r|] == s[..|r|];
    }
  }

  /** `s.trim()`: drop the white space at both ends. */
  function Aparar(s: string): string {
    TirarFim(TirarInicio(s))
  }

  /**
   * What `trim` promises: the result is no longer than the text, begins
   * and ends with no white space, and is empty exactly when the text is all
   * white space.
   */
  lemma ApararEspec(s: string)
    ensures var r := Aparar(s);
      |r| <= |s|
      && (r == [] || (!EhEspaco(r[0]) && !EhEspaco(r[|r| - 1])))
      && (r == [] <==> forall k :: 0 <= k < |s| ==> EhEspaco(s[k]))
  {
    var t := TirarInicio(s);
    TirarInicioEspec(s);
    TirarFimEspec(t);
    var r := TirarFim(t);
    assert r != [] ==> r[0] == t[0];
    if r == [] {
      assert t == [];
    } else {
      assert t[0] == s[|s| - |t|];
    }
  }

  /** Trimming twice is trimming once. */
  lemma ApararIdempotente(s: string)
    ensures Aparar(Aparar(s)) == Aparar(s)
  {
    var r := Aparar(s);
    ApararEspec(s);
    assert TirarInicio(r) == r;
    assert TirarFim(r) == r;
  }

  /** `c.toLowerCase()` for the ASCII letters. */
  function MinusculaChar(c: char): (r: char)
    ensures 'A' <= c <= 'Z' ==> 'a' <= r <= 'z'
    ensures !('A' <= c <= 'Z') ==> r == c
  {
    if 'A' <= c <= 'Z' then (c as int - 'A' as int + 'a' as int) as char else c
  }

  /** `s.toLowerCase()`, letter by letter (ASCII letters only). */
  function Minusculas(s: string): (r: string)
    ensures |r| == |s|
    ensures forall k :: 0 <= k < |s| ==> r[k] == MinusculaChar(s[k])
  {
    seq(|s|, k requires 0 <= k < |s| => MinusculaChar(s[k]))
  }

  /** Two strings are the same "ignoring case" when their lower-case forms agree. */
  predicate MesmoSemCaixa(a: string, b: string) {
    Minusculas(a) == Minusculas(b)
  }

  /** Lower-casing is idempotent, so comparing lower-case forms is an equivalence. */
  lemma MinusculasIdempotente(s: string)
    ensures Minusculas(Minusculas(s)) == Minusculas(s)
  {
  }

  /** Some name of `ns` equals `n` ignoring case. */
  predicate EmUsoSemCaixa(ns: seq<string>, n: string) {
    exists k :: 0 <= k < |ns| && MesmoSemCaixa(ns[k], n)
  }

  /** No two names of `ns` are equal ignoring case. */
  predicate UnicosSemCaixa(ns: seq<string>) {
    forall i, j :: 0 <= i < j < |ns| ==> !MesmoSemCaixa(ns[i], ns[j])
  }

  /** Appending a name not yet in use, ignoring case, keeps the names unique. */
  lemma AcrescentarUnico(ns: seq<string>, n: string)
    requires UnicosSemCaixa(ns) && !EmUsoSemCaixa(ns, n)
    ensures UnicosSemCaixa(ns + [n])
  {
    var ms := ns + [n];
    forall i, j | 0 <= i < j < |ms| ensures !MesmoSemCaixa(ms[i], ms[j]) {
      if j == |ns| {
        assert ms[i] == ns[i] && ms[j] == n;
      }
    }
  }

  /**
   * Replacing one name by a name that no other position holds, ignoring
   * case, keeps the names unique.
   */
  lemma TrocarUnico(ns: seq<string>, idx: nat, n: string)
    requires idx < |ns| && UnicosSemCaixa(ns)
    requires forall k :: 0 <= k < |ns| && k != idx ==> !MesmoSemCaixa(ns[k], n)
    ensures UnicosSemCaixa(ns[idx := n])
  {
  }

  function Digito(d: int): (c: char)
    requires 0 <= d < 10
    ensures '0' <= c <= '9'
    ensures c as int - '0' as int == d
  {
    "0123456789"[d]
  }

  /** The number a string of decimal digits denotes, most significant digit first. */
  function ValorDecimal(s: string): int {
    if s == [] then 0 else ValorDecimal(s[..|s| - 1]) * 10 + (s[|s| - 1] as int - '0' as int)
  }

  /** The number a decimal numeral with an optional leading minus sign denotes. */
  function ValorComSinal(s: string): int {
    if |s| > 0 && s[0] == '-' then -ValorDecimal(s[1..]) else ValorDecimal(s)
  }

  /**
   * `String(n)` for a natural number: its decimal digits, no leading zero,
   * reading back as `n` (so distinct numbers give distinct texts).
   */
  function NatParaTexto(n: nat): (r: string)
    ensures |r| >= 1
    ensures forall k :: 0 <= k < |r| ==> '0' <= r[k] <= '9'
    ensures |r| > 1 ==> r[0] != '0'
    ensures ValorDecimal(r) == n
    decreases n
  {
    if n < 10 then
      assert [Digito(n)][..0] == [];
      [Digito(n)]
    else
      var r := NatParaTexto(n / 10) + [Digito(n % 10)];
      assert r[..|r| - 1] == NatParaTexto(n / 10);
      r
  }

  /** `String(n)` for an integer: a minus sign before the digits of a negative number, reading back as `n`. */
  function IntParaTexto(n: int): (r: string)
    ensures |r| >= 1
    ensures n >= 0 ==> r == NatParaTexto(n)
    ensures n < 0 ==> r == "-" + NatParaTexto(-n)
    ensures ValorComSinal(r) == n
  {
    if n < 0 then
      var r := "-" + NatParaTexto(-n);
      assert r[1..] == NatParaTexto(-n);
      r
    else
      NatParaTexto(n)
  }

  /** `s.padStart(2, "0")` (also `padStart(2, "00")`, which pads the same way). */
  function PadDois(s: string): (r: string)
    ensures |r| == if |s| >= 2 then |s| else 2
    ensures r[|r| - |s|..] == s
    ensures forall k :: 0 <= k < |r| - |s| ==> r[k] == '0'
  {
    if |s| >= 2 then s else seq(2 - |s|, _ => '0') + s
  }
}
