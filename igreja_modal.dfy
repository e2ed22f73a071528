/**
 * The church dialog (`IgrejaModal.tsx`): a random colour for new churches,
 * and the list of organ names the user edits before saving. The random
 * draws of `Math.floor(Math.random() * 16)` are a parameter; the list and
 * the text input are the dialog's state, rebuilt as new values on each
 * change.
 */
module IgrejaModal {
  import opened Util

  const Letras: string := "0123456789ABCDEF"

  /** A colour as the dialog writes it: `#` and six upper-case hex digits. */
  predicate EhCorHex(c: string) {
    |c| == 7 && c[0] == '#' && forall k :: 1 <= k < 7 ==> c[k] in Letras
  }

  /** Draws of `Math.floor(Math.random() * 16)`: each in 0..15. */
  predicate Sorteios(s: seq<int>) {
    forall k :: 0 <= k < |s| ==> 0 <= s[k] < 16
  }

  /** The digits the draws pick, in order. */
  function Digitos(s: seq<int>): (r: string)
    requires Sorteios(s)
    ensures |r| == |s|
    ensures forall k :: 0 <= k < |s| ==> r[k] == Letras[s[k]]
  {
    if s == [] then [] else Digitos(s[..|s| - 1]) + [Letras[s[|s| - 1]]]
  }

  /** The value of one hex digit: the inverse of indexing `Letras`. */
  function ValorHex(c: char): (v: int)
    requires c in Letras
    ensures 0 <= v < 16 && Letras[v] == c
  {
    if '0' <= c <= '9' then c as int - '0' as int else c as int - 'A' as int + 10
  }

  /** `gerarCorAleatoria`: `#` followed by one digit per draw. */
  method GerarCorAleatoria(sorteios: seq<int>) returns (cor: string)
    requires |sorteios| == 6 && Sorteios(sorteios)
    ensures cor == "#" + Digitos(sorteios)
    ensures EhCorHex(cor)
  {
    cor := "#";
    var i := 0;
    while i < 6
      invariant 0 <= i <= 6
      invariant cor == "#" + Digitos(sorteios[..i])
    {
      assert sorteios[..i + 1][..i] == sorteios[..i];
      cor := cor + [Letras[sorteios[i]]];
      i := i + 1;
    }
    assert sorteios[..6] == sorteios;
  }

  /**
   * Every colour of that form is reachable, and by exactly one choice of
   * draws: the draws are recovered digit by digit.
   */
  lemma TodaCorAlcancavel(c: string)
    requires EhCorHex(c)
    ensures var s := seq(6, k requires 0 <= k < 6 => ValorHex(c[k + 1]));
      Sorteios(s) && "#" + Digitos(s) == c
    ensures forall s :: |s| == 6 && Sorteios(s) && "#" + Digitos(s) == c ==>
      forall k :: 0 <= k < 6 ==> s[k] == ValorHex(c[k + 1])
  {
    var s := seq(6, k requires 0 <= k < 6 => ValorHex(c[k + 1]));
    assert Sorteios(s);
    assert "#" + Digitos(s) == c;
    forall t | |t| == 6 && Sorteios(t) && "#" + Digitos(t) == c
      ensures forall k :: 0 <= k < 6 ==> t[k] == ValorHex(c[k + 1])
    {
      forall k | 0 <= k < 6 ensures t[k] == ValorHex(c[k + 1]) {
        assert c[k + 1] == Digitos(t)[k] == Letras[t[k]];
        assert Letras[t[k]] == Letras[ValorHex(c[k + 1])];
        DigitosDistintos(t[k], ValorHex(c[k + 1]));
      }
    }
  }

  /** The sixteen digits are distinct. */
  lemma DigitosDistintos(i: int, j: int)
    requires 0 <= i < 16 && 0 <= j < 16 && Letras[i] == Letras[j]
    ensures i == j
  {
  }

  // ---------------------------------------------------------------------
  // The organ list
  // ---------------------------------------------------------------------

  /** The list `orgaos` and the text input `novoOrgao`. */
  datatype Orgaos = Orgaos(orgaos: seq<string>, novoOrgao: string)

  /** What the list keeps: trimmed, non-empty, duplicate-free names. */
  predicate ListaLimpa(orgaos: seq<string>) {
    (forall k :: 0 <= k < |orgaos| ==> orgaos[k] != "" && Aparar(orgaos[k]) == orgaos[k])
    && (forall i, j :: 0 <= i < j < |orgaos| ==> orgaos[i] != orgaos[j])
  }

  /** `adicionarOrgao` */
  function AdicionarOrgao(e: Orgaos): (r: Orgaos)
    ensures Aparar(e.novoOrgao) != "" && Aparar(e.novoOrgao) !in e.orgaos ==>
      r.orgaos == e.orgaos + [Aparar(e.novoOrgao)] && r.novoOrgao == ""
    ensures Aparar(e.novoOrgao) == "" || Aparar(e.novoOrgao) in e.orgaos ==> r == e
  {
    var nome := Aparar(e.novoOrgao);
    if nome != "" && nome !in e.orgaos then Orgaos(e.orgaos + [nome], "") else e
  }

  /** Adding keeps the list trimmed, non-empty and duplicate-free. */
  lemma AdicionarMantemLimpa(e: Orgaos)
    requires ListaLimpa(e.orgaos)
    ensures ListaLimpa(AdicionarOrgao(e).orgaos)
  {
    var nome := Aparar(e.novoOrgao);
    if nome != "" && nome !in e.orgaos {
      assert Aparar(nome) == nome by { ApararIdempotente(e.novoOrgao); }
      var r := e.orgaos + [nome];
      assert r[|e.orgaos|] == nome;
      forall k | 0 <= k < |r| ensures r[k] != "" && Aparar(r[k]) == r[k] {
        if k < |e.orgaos| {
          assert r[k] == e.orgaos[k];
        }
      }
      forall i, j | 0 <= i < j < |r| ensures r[i] != r[j] {
        if j == |e.orgaos| {
          assert r[i] == e.orgaos[i];
        }
      }
    }
  }

  /** The input is cleared exactly when the list grows. */
  lemma LimpaEntradaSoAoAdicionar(e: Orgaos)
    requires e.novoOrgao != ""
    ensures AdicionarOrgao(e).novoOrgao == "" <==> |AdicionarOrgao(e).orgaos| == |e.orgaos| + 1
  {
  }

  function Diferente(orgao: string): string -> bool {
    (o: string) => o != orgao
  }

  /** `removerOrgao`: the entries different from `orgao`, in order. */
  function RemoverOrgao(orgaos: seq<string>, orgao: string): (r: seq<string>)
    ensures orgao !in r
    ensures forall x :: x in r <==> x in orgaos && x != orgao
  {
    FiltrarPertence(orgaos, Diferente(orgao), orgao);
    forall x ensures x in Filtrar(orgaos, Diferente(orgao)) <==> x in orgaos && x != orgao {
      FiltrarPertence(orgaos, Diferente(orgao), x);
    }
    Filtrar(orgaos, Diferente(orgao))
  }

  /**
   * Removing keeps the other entries in their order: it acts on each part
   * of a list separately, leaves a list without `orgao` as it is, and
   * keeps the list clean.
   */
  lemma {:induction false} RemoverMantemOrdem(a: seq<string>, b: seq<string>, orgao: string)
    ensures RemoverOrgao(a + b, orgao) == RemoverOrgao(a, orgao) + RemoverOrgao(b, orgao)
    ensures orgao !in a ==> RemoverOrgao(a, orgao) == a
    ensures ListaLimpa(a) ==> ListaLimpa(RemoverOrgao(a, orgao))
  {
    FiltrarConcat(a, b, Diferente(orgao));
    if orgao !in a {
      FiltrarTodos(a, Diferente(orgao));
    }
    if ListaLimpa(a) {
      RemoverSubsequencia(a, orgao);
    }
  }

  /** Dropping entries from a clean list leaves it clean. */
  lemma {:induction false} RemoverSubsequencia(a: seq<string>, orgao: string)
    requires ListaLimpa(a)
    ensures ListaLimpa(RemoverOrgao(a, orgao))
  {
    if a != [] {
      RemoverSubsequencia(a[1..], orgao);
      assert a == [a[0]] + a[1..];
      FiltrarConcat([a[0]], a[1..], Diferente(orgao));
      var resto := RemoverOrgao(a[1..], orgao);
      assert a[0] !in resto;
    }
  }

  /** Removing a name just added gives back the list before the add. */
  lemma RemoverDesfazAdicionar(e: Orgaos)
    requires Aparar(e.novoOrgao) != "" && Aparar(e.novoOrgao) !in e.orgaos
    ensures RemoverOrgao(AdicionarOrgao(e).orgaos, Aparar(e.novoOrgao)) == e.orgaos
  {
    RemoverMantemOrdem(e.orgaos, [Aparar(e.novoOrgao)], Aparar(e.novoOrgao));
    assert RemoverOrgao([Aparar(e.novoOrgao)], Aparar(e.novoOrgao)) == [];
  }
}
