/**
 * `Array.prototype.sort` with a comparator on one or two integer fields,
 * as the birthday lists use it (`a.dia - b.dia`, `a.mes - b.mes || a.dia - b.dia`,
 * `a.diasRestantes - b.diasRestantes`). The ECMAScript sort is stable, so
 * the model is a stable insertion sort by a lexicographic key, proved
 * sorted, a permutation of its input, and stable.
 */
module Ordenacao {
  import opened Util

  /** A sort key: the first field compared, then the second (0 when unused). */
  datatype Chave = Chave(primeiro: int, segundo: int)

  /** The comparator returns a negative number: `x` goes strictly before `y`. */
  predicate Menor(x: Chave, y: Chave) {
    x.primeiro < y.primeiro || (x.primeiro == y.primeiro && x.segundo < y.segundo)
  }

  predicate MenorIgual(x: Chave, y: Chave) {
    Menor(x, y) || x == y
  }

  /** The order of the keys is total, so any two elements are comparable. */
  lemma Total(x: Chave, y: Chave)
    ensures MenorIgual(x, y) || Menor(y, x)
  {
  }

  predicate Ordenado<T>(s: seq<T>, k: T -> Chave) {
    forall i, j :: 0 <= i < j < |s| ==> MenorIgual(k(s[i]), k(s[j]))
  }

  /** Where `x` goes in the sorted `t`: after every element with a smaller key. */
  function PosicaoInsercao<T>(x: T, t: seq<T>, k: T -> Chave): (i: nat)
    ensures i <= |t|
    ensures forall j :: 0 <= j < i ==> Menor(k(t[j]), k(x))
    ensures i < |t| ==> !Menor(k(t[i]), k(x))
  {
    if t == [] || !Menor(k(t[0]), k(x)) then 0
    else 1 + PosicaoInsercao(x, t[1..], k)
  }

  /** Inserts `x` before the first element of `t` whose key is not smaller. */
  function Inserir<T>(x: T, t: seq<T>, k: T -> Chave): (r: seq<T>)
    ensures |r| == |t| + 1
  {
    var i := PosicaoInsercao(x, t, k);
    t[..i] + [x] + t[i..]
  }

  /**
   * `s.sort(comparador)`, where the comparator orders by `k`: the result
   * is ordered by the key and only rearranges its input (nothing is lost,
   * nothing added).
   */
  function Ordenar<T>(s: seq<T>, k: T -> Chave): (r: seq<T>)
    ensures |r| == |s|
    ensures Ordenado(r, k)
    ensures multiset(r) == multiset(s)
  {
    if s == [] then []
    else
      var t := Ordenar(s[1..], k);
      InserirOrdenado(s[0], t, k);
      InserirPermuta(s[0], t, PosicaoInsercao(s[0], t, k));
      assert s == [s[0]] + s[1..];
      Inserir(s[0], t, k)
  }

  lemma InserirOrdenado<T>(x: T, t: seq<T>, k: T -> Chave)
    requires Ordenado(t, k)
    ensures Ordenado(Inserir(x, t, k), k)
  {
    var i := PosicaoInsercao(x, t, k);
    var r := Inserir(x, t, k);
    forall a, b | 0 <= a < b < |r| ensures MenorIgual(k(r[a]), k(r[b])) {
      if b < i || a > i {
      } else if a == i {
        assert r[b] == t[b - 1];
        assert MenorIgual(k(t[i]), k(t[b - 1]));
      } else if b == i {
        assert r[a] == t[a];
      } else {
        assert r[a] == t[a] && r[b] == t[b - 1];
      }
    }
  }

  /** Putting `x` anywhere into `t` adds just `x`. */
  lemma InserirPermuta<T>(x: T, t: seq<T>, i: nat)
    requires i <= |t|
    ensures multiset(t[..i] + [x] + t[i..]) == multiset(t) + multiset{x}
  {
    assert t == t[..i] + t[i..];
  }

  /** Moving `x` past elements `p` rejects (or anything, when `p` rejects `x`) keeps the filter. */
  lemma {:induction false} FiltrarTroca<T>(antes: seq<T>, x: T, depois: seq<T>, p: T -> bool)
    requires p(x) ==> forall j :: 0 <= j < |antes| ==> !p(antes[j])
    ensures Filtrar(antes + [x] + depois, p) == Filtrar([x] + antes + depois, p)
  {
    if antes != [] {
      var y := antes[0];
      FiltrarTroca(antes[1..], x, depois, p);
      assert antes + [x] + depois == [y] + (antes[1..] + [x] + depois);
      assert [x] + antes + depois == [x] + [y] + (antes[1..] + depois);
      assert [x] + antes[1..] + depois == [x] + (antes[1..] + depois);
      assert Filtrar(antes + [x] + depois, p) == (if p(y) then [y] else []) + Filtrar(antes[1..] + [x] + depois, p);
      assert Filtrar([x] + antes + depois, p) == (if p(x) then [x] else []) + ((if p(y) then [y] else []) + Filtrar(antes[1..] + depois, p));
    }
  }

  /**
   * The sort is stable: the elements sharing any one key keep their
   * relative order from the input.
   */
  lemma {:induction false} OrdenarEstavel<T>(s: seq<T>, k: T -> Chave, p: T -> bool, c: Chave)
    requires forall y :: p(y) <==> k(y) == c
    ensures Filtrar(Ordenar(s, k), p) == Filtrar(s, p)
  {
    if s != [] {
      var x := s[0];
      OrdenarEstavel(s[1..], k, p, c);
      InserirEstavel(x, Ordenar(s[1..], k), k, p, c);
      FiltrarConcat([x], s[1..], p);
      assert s == [x] + s[1..];
    }
  }

  /** Inserting `x` by its key keeps it ahead of every element sharing that key. */
  lemma InserirEstavel<T>(x: T, t: seq<T>, k: T -> Chave, p: T -> bool, c: Chave)
    requires forall y :: p(y) <==> k(y) == c
    ensures Filtrar(Inserir(x, t, k), p) == Filtrar([x], p) + Filtrar(t, p)
  {
    var i := PosicaoInsercao(x, t, k);
    AntesNaoPassam(x, t, k, p, c);
    FiltrarTroca(t[..i], x, t[i..], p);
    assert [x] + t[..i] + t[i..] == [x] + t;
    FiltrarConcat([x], t, p);
  }

  /** The elements `x` is inserted after have smaller keys, so none shares `x`'s key. */
  lemma AntesNaoPassam<T>(x: T, t: seq<T>, k: T -> Chave, p: T -> bool, c: Chave)
    requires forall y :: p(y) <==> k(y) == c
    ensures var i := PosicaoInsercao(x, t, k);
      p(x) ==> forall j :: 0 <= j < i ==> !p(t[..i][j])
  {
    var i := PosicaoInsercao(x, t, k);
    forall j | 0 <= j < i ensures Menor(k(t[..i][j]), k(x)) {
      assert t[..i][j] == t[j];
    }
  }

  /** Filtering a sorted sequence keeps it sorted. */
  lemma {:induction false} FiltrarOrdenado<T>(s: seq<T>, k: T -> Chave, p: T -> bool)
    requires Ordenado(s, k)
    ensures Ordenado(Filtrar(s, p), k)
  {
    if s != [] {
      FiltrarOrdenado(s[1..], k, p);
      var resto := Filtrar(s[1..], p);
      forall j | 0 <= j < |resto| ensures MenorIgual(k(s[0]), k(resto[j])) {
        FiltrarPertence(s[1..], p, resto[j]);
        var m :| 0 <= m < |s[1..]| && s[1..][m] == resto[j];
        assert s[m + 1] == resto[j];
      }
    }
  }
}
