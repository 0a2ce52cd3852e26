/** The insertion-ordered singly-linked list with head (`inicio`) and tail (`fim`) pointers
    that holds a mission's flight points and a drone's mission history.

    A node's identity (the Python object) is modelled by a number `ref`; the list keeps its
    nodes in `proximo` order in `cadeia`, so `cadeia[i + 1]` is the `proximo` of `cadeia[i]`,
    and `inicio` and `fim` are the identities of the nodes they point to. */
module ListaEncadeada {
  import opened Options

  /** One node: its identity and its payload (`No.dado`). */
  datatype No<T> = No(ref: nat, dado: T)

  /** `proximaRef` is the identity the next allocated node receives. */
  datatype Lista<T> = Lista(cadeia: seq<No<T>>, inicio: Option<nat>, fim: Option<nat>, proximaRef: nat)

  /** Node identities are allocated in increasing order and never reused. */
  ghost predicate RefsCrescentes<T>(ns: seq<No<T>>, limite: nat) {
    && (forall i, j :: 0 <= i < j < |ns| ==> ns[i].ref < ns[j].ref)
    && (forall i :: 0 <= i < |ns| ==> ns[i].ref < limite)
  }

  /** The representation invariant: `inicio` points to the first node and `fim` to the last,
      and both are `None` exactly when the list is empty. */
  ghost predicate Valida<T>(l: Lista<T>) {
    && RefsCrescentes(l.cadeia, l.proximaRef)
    && (if |l.cadeia| == 0 then l.inicio == None && l.fim == None
        else l.inicio == Some(l.cadeia[0].ref) && l.fim == Some(l.cadeia[|l.cadeia| - 1].ref))
  }

  function Dados<T>(ns: seq<No<T>>): seq<T> {
    seq(|ns|, i requires 0 <= i < |ns| => ns[i].dado)
  }

  /** The elements of the list, in insertion order. */
  function Conteudo<T>(l: Lista<T>): seq<T> {
    Dados(l.cadeia)
  }

  /** The payload of the node whose identity is `r`: following a pointer. */
  function Deref<T>(ns: seq<No<T>>, r: nat): Option<T> {
    if |ns| == 0 then None
    else if ns[0].ref == r then Some(ns[0].dado)
    else Deref(ns[1..], r)
  }

  /** The position the `proximo` link of the node at position `i` leads to. */
  function Proximo<T>(l: Lista<T>, i: nat): Option<nat> {
    if i + 1 < |l.cadeia| then Some(i + 1) else None
  }

  lemma {:induction false} DerefUltimo<T>(ns: seq<No<T>>, limite: nat)
    requires |ns| > 0 && RefsCrescentes(ns, limite)
    ensures Deref(ns, ns[|ns| - 1].ref) == Some(ns[|ns| - 1].dado)
    decreases |ns|
  {
    if |ns| > 1 {
      assert ns[0].ref < ns[|ns| - 1].ref;
      var cauda := ns[1..];
      assert RefsCrescentes(cauda, limite) by {
        forall i, j | 0 <= i < j < |cauda| ensures cauda[i].ref < cauda[j].ref {
          assert cauda[i] == ns[i + 1] && cauda[j] == ns[j + 1];
        }
      }
      DerefUltimo(cauda, limite);
    }
  }

  /** In a valid list the `fim` pointer leads to the last element and `inicio` to the first. */
  lemma PonteirosDasPontas<T>(l: Lista<T>)
    requires Valida(l) && |l.cadeia| > 0
    ensures Deref(l.cadeia, l.fim.value) == Some(Conteudo(l)[|Conteudo(l)| - 1])
    ensures Deref(l.cadeia, l.inicio.value) == Some(Conteudo(l)[0])
  {
    DerefUltimo(l.cadeia, l.proximaRef);
  }

  /** `ListaEncadeada()`: a new list is empty. */
  function Vazia<T>(): (l: Lista<T>)
    ensures Valida(l)
    ensures Conteudo(l) == []
  {
    Lista([], None, None, 0)
  }

  /** `esta_vazia`: tests the head pointer only. */
  function EstaVazia<T>(l: Lista<T>): (r: bool)
    requires Valida(l)
    ensures r <==> Conteudo(l) == []
  {
    l.inicio.None?
  }

  /** `inserir_final`: links a fresh node after the tail and moves `fim` to it. */
  function InserirFinal<T>(l: Lista<T>, dado: T): (l': Lista<T>)
    requires Valida(l)
    ensures Valida(l')
    ensures Conteudo(l') == Conteudo(l) + [dado]
    ensures l'.cadeia[..|l.cadeia|] == l.cadeia
    ensures l'.inicio == (if |l.cadeia| == 0 then l'.fim else l.inicio)
    ensures l'.fim.Some? && Deref(l'.cadeia, l'.fim.value) == Some(dado)
  {
    var novo := No(l.proximaRef, dado);
    var l' :=
      if EstaVazia(l) then Lista([novo], Some(novo.ref), Some(novo.ref), l.proximaRef + 1)
      else Lista(l.cadeia + [novo], l.inicio, Some(novo.ref), l.proximaRef + 1);
    assert l'.cadeia == l.cadeia + [novo];
    assert Conteudo(l') == Conteudo(l) + [dado];
    DerefUltimo(l'.cadeia, l'.proximaRef);
    l'
  }

  /** Whether some element carries the identifier `chave` (elements without one never match). */
  predicate Contem<T, K(==)>(s: seq<T>, idDe: T -> Option<K>, chave: K) {
    exists j :: 0 <= j < |s| && idDe(s[j]) == Some(chave)
  }

  /** Reference definition of removal: drop the first element whose identifier is `chave`. */
  function RemovePrimeiro<T, K(==)>(s: seq<T>, idDe: T -> Option<K>, chave: K): seq<T> {
    if |s| == 0 then []
    else if idDe(s[0]) == Some(chave) then s[1..]
    else [s[0]] + RemovePrimeiro(s[1..], idDe, chave)
  }

  /** Removal deletes exactly the first match and keeps the rest in order. */
  lemma {:induction false} RemovePrimeiroNaPrimeiraOcorrencia<T, K>(s: seq<T>, idDe: T -> Option<K>, chave: K, k: nat)
    requires k < |s| && idDe(s[k]) == Some(chave)
    requires forall j :: 0 <= j < k ==> idDe(s[j]) != Some(chave)
    ensures RemovePrimeiro(s, idDe, chave) == s[..k] + s[k + 1..]
    decreases k
  {
    if k > 0 {
      RemovePrimeiroNaPrimeiraOcorrencia(s[1..], idDe, chave, k - 1);
      assert s[1..][..k - 1] + s[1..][k..] == (s[..k] + s[k + 1..])[1..];
    }
  }

  /** With no match, removal leaves the sequence as it is. */
  lemma {:induction false} RemovePrimeiroSemOcorrencia<T, K>(s: seq<T>, idDe: T -> Option<K>, chave: K)
    requires !Contem(s, idDe, chave)
    ensures RemovePrimeiro(s, idDe, chave) == s
    decreases |s|
  {
    if |s| > 0 {
      assert idDe(s[0]) != Some(chave);
      assert !Contem(s[1..], idDe, chave) by {
        forall j | 0 <= j < |s[1..]| ensures idDe(s[1..][j]) != Some(chave) {
          assert s[1..][j] == s[j + 1];
        }
      }
      RemovePrimeiroSemOcorrencia(s[1..], idDe, chave);
    }
  }

  /** Dropping one node keeps identities increasing. */
  lemma RefsCrescentesSemUm<T>(ns: seq<No<T>>, limite: nat, k: nat)
    requires k < |ns| && RefsCrescentes(ns, limite)
    ensures RefsCrescentes(ns[..k] + ns[k + 1..], limite)
  {
    var r := ns[..k] + ns[k + 1..];
    forall i | 0 <= i < |r| ensures r[i] == if i < k then ns[i] else ns[i + 1] {
    }
  }

  /** `remover`: walks from `inicio` keeping the previous node, unlinks the first node whose
      payload's `id` equals `chave`, and repairs `inicio` and `fim`. `idDe` gives an element's
      `id`, or `None` when it has no `id` attribute. */
  method Remover<T, K(==)>(l: Lista<T>, idDe: T -> Option<K>, chave: K) returns (l': Lista<T>, removido: bool)
    requires Valida(l)
    ensures Valida(l')
    ensures l'.fim == (if |l'.cadeia| == 0 then None else Some(l'.cadeia[|l'.cadeia| - 1].ref))
    ensures removido <==> Contem(Conteudo(l), idDe, chave)
    ensures Conteudo(l') == RemovePrimeiro(Conteudo(l), idDe, chave)
    ensures !removido ==> l' == l
    ensures removido ==> |Conteudo(l')| == |Conteudo(l)| - 1
  {
    if EstaVazia(l) {
      return l, false;
    }
    var n := |l.cadeia|;
    var atual: Option<nat> := Some(0);
    var anterior: Option<nat> := None;
    while atual.Some?
      invariant atual.Some? ==> atual.value < n
      invariant atual.Some? ==> anterior == (if atual.value == 0 then None else Some(atual.value - 1))
      invariant forall j :: 0 <= j < (if atual.Some? then atual.value else n) ==> idDe(l.cadeia[j].dado) != Some(chave)
      decreases if atual.Some? then n - atual.value else 0
    {
      var k := atual.value;
      if idDe(l.cadeia[k].dado) == Some(chave) {
        var resto := l.cadeia[..k] + l.cadeia[k + 1..];
        if anterior.None? {
          var inicio := if Proximo(l, k).Some? then Some(l.cadeia[k + 1].ref) else None;
          var fim := if inicio.None? then None else l.fim;
          l' := Lista(resto, inicio, fim, l.proximaRef);
        } else {
          var fim := if Proximo(l, k).None? then Some(l.cadeia[anterior.value].ref) else l.fim;
          l' := Lista(resto, l.inicio, fim, l.proximaRef);
        }
        RefsCrescentesSemUm(l.cadeia, l.proximaRef, k);
        assert Conteudo(l') == Conteudo(l)[..k] + Conteudo(l)[k + 1..];
        RemovePrimeiroNaPrimeiraOcorrencia(Conteudo(l), idDe, chave, k);
        return l', true;
      }
      anterior := atual;
      atual := Proximo(l, k);
    }
    RemovePrimeiroSemOcorrencia(Conteudo(l), idDe, chave);
    return l, false;
  }

  /** `to_list`: collects the payloads from `inicio` along `proximo`. */
  method ToList<T>(l: Lista<T>) returns (itens: seq<T>)
    requires Valida(l)
    ensures itens == Conteudo(l)
  {
    itens := [];
    var atual: Option<nat> := if l.inicio.Some? then Some(0) else None;
    while atual.Some?
      invariant atual.Some? ==> atual.value == |itens| < |l.cadeia|
      invariant atual.None? ==> |itens| == |l.cadeia|
      invariant itens == Conteudo(l)[..|itens|]
      decreases |l.cadeia| - |itens|
    {
      itens := itens + [l.cadeia[atual.value].dado];
      atual := Proximo(l, atual.value);
    }
  }

  /** `tamanho`: counts the nodes from `inicio` along `proximo`. */
  method Tamanho<T>(l: Lista<T>) returns (contador: nat)
    requires Valida(l)
    ensures contador == |Conteudo(l)|
  {
    contador := 0;
    var atual: Option<nat> := if l.inicio.Some? then Some(0) else None;
    while atual.Some?
      invariant atual.Some? ==> atual.value == contador < |l.cadeia|
      invariant atual.None? ==> contador == |l.cadeia|
      decreases |l.cadeia| - contador
    {
      contador := contador + 1;
      atual := Proximo(l, atual.value);
    }
  }

  /** The size grows by exactly one per insertion, and earlier elements keep their places (a
      corollary of `InserirFinal`'s contract, stated element by element). */
  lemma InserirFinalCresceUm<T>(l: Lista<T>, dado: T)
    requires Valida(l)
    ensures |Conteudo(InserirFinal(l, dado))| == |Conteudo(l)| + 1
    ensures forall i :: 0 <= i < |Conteudo(l)| ==> Conteudo(InserirFinal(l, dado))[i] == Conteudo(l)[i]
    ensures Conteudo(InserirFinal(l, dado))[|Conteudo(l)|] == dado
  {
  }
}
