/** The array idioms the source uses on lists (`filter`, `Array.from(new Set(...))`)
    as functions on sequences, with the facts the rest of the model needs about them. */
module Sequencias {

  /** `r` can be obtained from `s` by deleting elements, keeping the order of the rest. */
  predicate Subsequencia<T(==,!new)>(r: seq<T>, s: seq<T>)
    decreases |s|
  {
    r == [] || (s != [] && if r[0] == s[0] then Subsequencia(r[1..], s[1..]) else Subsequencia(r, s[1..]))
  }

  /** `s.filter(p)`: the elements of `s` that satisfy `p`, in their order. */
  function Filtrar<T(==,!new)>(s: seq<T>, p: T -> bool): (r: seq<T>)
    ensures |r| <= |s|
    ensures forall x :: x in r <==> x in s && p(x)
    ensures Subsequencia(r, s)
    ensures (forall i :: 0 <= i < |s| ==> p(s[i])) ==> r == s
  {
    if s == [] then []
    else
      assert s == [s[0]] + s[1..];
      var resto := Filtrar(s[1..], p);
      if p(s[0]) then [s[0]] + resto
      else
        assert resto != [] ==> resto[0] != s[0] by {
          if resto != [] { assert resto[0] in resto; }
        }
        resto
  }

  /** Filtering keeps each element that satisfies `p` exactly as often as `s` holds it, and drops the others. */
  lemma {:induction false} FiltrarMultiplicidade<T(!new)>(s: seq<T>, p: T -> bool)
    ensures forall x :: multiset(Filtrar(s, p))[x] == if p(x) then multiset(s)[x] else 0
  {
    if s != [] {
      FiltrarMultiplicidade(s[1..], p);
      assert s == [s[0]] + s[1..];
      assert multiset(s) == multiset{s[0]} + multiset(s[1..]);
    }
  }

  /** No two elements of `s` share a key. */
  predicate ChavesDistintas<T, K(==)>(s: seq<T>, chave: T -> K)
  {
    forall i, j :: 0 <= i < j < |s| ==> chave(s[i]) != chave(s[j])
  }

  /** With distinct keys, no element occurs twice. */
  lemma {:induction false} ChavesDistintasMultiplicidade<T, K>(s: seq<T>, chave: T -> K, x: T)
    requires ChavesDistintas(s, chave)
    ensures multiset(s)[x] <= 1
  {
    if s != [] {
      var resto := s[1..];
      assert s == [s[0]] + resto;
      assert ChavesDistintas(resto, chave) by {
        forall i, j | 0 <= i < j < |resto| ensures chave(resto[i]) != chave(resto[j]) {
          assert resto[i] == s[i + 1] && resto[j] == s[j + 1];
        }
      }
      ChavesDistintasMultiplicidade(resto, chave, x);
    }
  }

  /** Filtering keeps a key that was distinct across `s` distinct across the result. */
  lemma {:induction false} FiltrarChavesDistintas<T(!new), K>(s: seq<T>, p: T -> bool, chave: T -> K)
    requires ChavesDistintas(s, chave)
    ensures ChavesDistintas(Filtrar(s, p), chave)
  {
    if s != [] {
      FiltrarChavesDistintas(s[1..], p, chave);
      var resto := Filtrar(s[1..], p);
      if p(s[0]) {
        var r := [s[0]] + resto;
        forall i, j | 0 <= i < j < |r| ensures chave(r[i]) != chave(r[j]) {
          if i == 0 {
            assert r[j] == resto[j - 1];
            assert resto[j - 1] in resto;
            assert r[j] in s[1..];
            var k :| 0 <= k < |s[1..]| && s[1..][k] == r[j];
            assert s[k + 1] == r[j];
            assert chave(s[0]) != chave(s[k + 1]);
          } else {
            assert r[i] == resto[i - 1] && r[j] == resto[j - 1];
            assert chave(resto[i - 1]) != chave(resto[j - 1]);
          }
        }
      }
    }
  }

  /** The position of the first occurrence of `x` in `s`. */
  function PrimeiraPosicao<T(==,!new)>(s: seq<T>, x: T): (k: nat)
    requires x in s
    ensures k < |s| && s[k] == x
    ensures forall j :: 0 <= j < k ==> s[j] != x
  {
    if s[0] == x then 0 else 1 + PrimeiraPosicao(s[1..], x)
  }

  lemma PrimeiraPosicaoPrefixo<T(!new)>(s: seq<T>, n: nat, x: T)
    requires n <= |s| && x in s[..n]
    ensures x in s && PrimeiraPosicao(s, x) == PrimeiraPosicao(s[..n], x)
  {
    var k := PrimeiraPosicao(s[..n], x);
    assert s[k] == s[..n][k];
    var m := PrimeiraPosicao(s, x);
    assert m <= k;
    assert forall j :: 0 <= j < k ==> s[..n][j] == s[j];
    assert m == k;
  }

  /** `Array.from(new Set(s))`: the distinct elements of `s` in order of first occurrence. */
  function SemRepetidos<T(==,!new)>(s: seq<T>): (r: seq<T>)
    ensures forall x :: x in r <==> x in s
    ensures forall i, j :: 0 <= i < j < |r| ==> r[i] != r[j]
  {
    if s == [] then []
    else
      var d := SemRepetidos(s[..|s| - 1]);
      var x := s[|s| - 1];
      assert s == s[..|s| - 1] + [x];
      if x in d then d else d + [x]
  }

  /** Appending one element to the input appends it to the result exactly when it is new. */
  lemma SemRepetidosAnexar<T(!new)>(s: seq<T>, x: T)
    ensures SemRepetidos(s + [x]) == if x in s then SemRepetidos(s) else SemRepetidos(s) + [x]
  {
    assert (s + [x])[..|s + [x]| - 1] == s;
  }

  /** Every element of `r` occurs in `s`, and `r` lists them in the order of their first occurrence there. */
  predicate OrdemDePrimeiraOcorrencia<T(==,!new)>(r: seq<T>, s: seq<T>)
  {
    (forall x :: x in r ==> x in s) &&
    forall i, j :: 0 <= i < j < |r| ==> PrimeiraPosicao(s, r[i]) < PrimeiraPosicao(s, r[j])
  }

  /** The result lists the elements in the order of their first occurrence in `s`. */
  lemma {:induction false} SemRepetidosOrdem<T(!new)>(s: seq<T>)
    ensures OrdemDePrimeiraOcorrencia(SemRepetidos(s), s)
  {
    if s != [] {
      var n := |s| - 1;
      var p := s[..n];
      var x := s[n];
      assert s == p + [x];
      SemRepetidosOrdem(p);
      var d := SemRepetidos(p);
      var r := SemRepetidos(s);
      forall i, j | 0 <= i < j < |r| ensures PrimeiraPosicao(s, r[i]) < PrimeiraPosicao(s, r[j]) {
        assert r[i] == d[i];
        assert r[i] in p;
        assert r[i] in s[..n];
        PrimeiraPosicaoPrefixo(s, n, r[i]);
        if j < |d| {
          assert r[j] == d[j];
          PrimeiraPosicaoPrefixo(s, n, r[j]);
          assert PrimeiraPosicao(p, d[i]) < PrimeiraPosicao(p, d[j]);
        } else {
          assert r[j] == x && x !in p;
          assert PrimeiraPosicao(s, x) == n;
        }
      }
    }
  }
}
