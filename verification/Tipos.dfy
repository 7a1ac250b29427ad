/** Machine integers and small containers shared by every component. */
module Tipos {

  const LIMITE_32 := 0x1_0000_0000

  /** A C `uint32_t` whose sums must not wrap: every assignment is a proof that the value fits. */
  type uint32 = x: int | 0 <= x < LIMITE_32

  type byte = x: int | 0 <= x < 256

  datatype Option<+T> = None | Some(value: T)

  /** A record kept in a C list and found by pid (`t_contexto`, `t_proceso_swap`). */
  datatype Entrada<+T> = Entrada(pid: int, v: T)

  ghost predicate Unicos<T>(l: seq<Entrada<T>>) {
    forall i, j :: 0 <= i < j < |l| ==> l[i].pid != l[j].pid
  }

  /** Position of the first entry of `pid`, or |l| when there is none. */
  ghost function Indice<T>(l: seq<Entrada<T>>, pid: int): (i: nat)
    ensures i <= |l|
    ensures i < |l| ==> l[i].pid == pid
    ensures forall j :: 0 <= j < i ==> l[j].pid != pid
  {
    IndiceExiste(l, pid);
    var i: nat :| i <= |l| && (i < |l| ==> l[i].pid == pid) && forall j :: 0 <= j < i ==> l[j].pid != pid;
    i
  }

  lemma {:induction false} IndiceExiste<T>(l: seq<Entrada<T>>, pid: int)
    ensures exists i: nat :: i <= |l| && (i < |l| ==> l[i].pid == pid) && forall j :: 0 <= j < i ==> l[j].pid != pid
  {
    var i := 0;
    while i < |l| && l[i].pid != pid
      invariant i <= |l| && forall j :: 0 <= j < i ==> l[j].pid != pid
    {
      i := i + 1;
    }
  }

  ghost predicate Esta<T>(l: seq<Entrada<T>>, pid: int) {
    Indice(l, pid) < |l|
  }

  function Sacar<T>(l: seq<T>, i: nat): (r: seq<T>)
    requires i < |l|
  {
    l[..i] + l[i + 1..]
  }

  /** `list_remove`: the elements before it keep their place and those after it move up one. */
  lemma {:induction false} SacarDeja<T>(l: seq<T>, i: nat)
    requires i < |l|
    ensures |Sacar(l, i)| == |l| - 1
    ensures forall k :: 0 <= k < i ==> Sacar(l, i)[k] == l[k]
    ensures forall k :: i < k < |l| ==> Sacar(l, i)[k - 1] == l[k]
  {
  }

  /**
    Names a position, or an element, at which two values are compared one by one.  It is true
    of every integer; its use is as a trigger.  A fact `forall x {:trigger Punto(x)} :: Punto(x)
    && .. ==> a[x] == b[x]` is applied only at the positions some assertion names: to use it
    at `k`, write `assert Punto(k);` first.  A `forall x | Punto(x) && ..` statement proves it.
  */
  predicate Punto(x: int) {
    true
  }

  /**
    Opens folded definitions.  It too is always true and serves as a trigger.  A folded
    function, such as `InvSalvo` for `InvAbierto`, promises only `forall z {:trigger
    Desplegar(z)} :: Desplegar(z) ==> b == <its meaning>`, so the verifier sees a name until
    it meets the word.  A lemma that passes the fact on, from one call to the next, says
    nothing; one that looks inside begins with `assert Desplegar(0);`, and without it its
    first assertion about the contents fails.  The argument means nothing.
  */
  predicate Desplegar(z: int) {
    true
  }

  /** Two multisets that agree at every marked element are equal. */
  lemma {:induction false} IgualesPunto(a: multiset<int>, b: multiset<int>)
    requires forall x {:trigger Punto(x)} :: Punto(x) ==> a[x] == b[x]
    ensures a == b
  {
    forall x ensures a[x] == b[x] {
      assert Punto(x);
    }
  }

  lemma {:induction false} SecuenciasIguales<T>(a: seq<T>, b: seq<T>)
    requires |a| == |b|
    requires forall x {:trigger Punto(x)} :: Punto(x) && 0 <= x < |a| ==> a[x] == b[x]
    ensures a == b
  {
    forall x | 0 <= x < |a| ensures a[x] == b[x] {
      assert Punto(x);
    }
  }

  /** `s` with `t` written over it from position `at` on. */
  ghost function Pisar<T>(s: seq<T>, at: nat, t: seq<T>): (r: seq<T>)
    requires at + |t| <= |s|
    ensures |r| == |s|
    ensures forall k {:trigger Punto(k)} :: Punto(k) && 0 <= k < |s| ==>
              r[k] == if at <= k < at + |t| then t[k - at] else s[k]
  {
    var w := s[..at] + t + s[at + |t|..];
    assert forall k {:trigger Punto(k)} :: Punto(k) && 0 <= k < |s| ==>
        w[k] == if at <= k < at + |t| then t[k - at] else s[k];
    var r: seq<T> :| |r| == |s| && forall k {:trigger Punto(k)} :: Punto(k) && 0 <= k < |s| ==>
        r[k] == if at <= k < at + |t| then t[k - at] else s[k];
    r
  }

  /** Equal outside [lo, hi). */
  ghost predicate FueraIgual<T(!new)>(s: seq<T>, r: seq<T>, lo: int, hi: int) {
    |s| == |r| && forall x {:trigger Punto(x)} :: Punto(x) && 0 <= x < |s| && !(lo <= x < hi) ==> r[x] == s[x]
  }

  /** Writing the concatenation of the pieces is what `Pisar` does. */
  lemma {:induction false} PisarConcreto<T>(s: seq<T>, at: nat, t: seq<T>)
    requires at + |t| <= |s|
    ensures Pisar(s, at, t) == s[..at] + t + s[at + |t|..]
  {
    SecuenciasIguales(Pisar(s, at, t), s[..at] + t + s[at + |t|..]);
  }

  lemma {:induction false} PisarEn<T>(s: seq<T>, at: nat, t: seq<T>)
    requires at + |t| <= |s|
    ensures Pisar(s, at, t)[at..at + |t|] == t
  {
    PisarConcreto(s, at, t);
  }

  lemma {:induction false} PisarDentro<T>(s: seq<T>, at: nat, t: seq<T>, lo: nat, hi: nat)
    requires lo <= at && at + |t| <= hi <= |s|
    ensures Pisar(s, at, t)[lo..hi] == Pisar(s[lo..hi], at - lo, t)
  {
    forall k | 0 <= k < hi - lo ensures Pisar(s, at, t)[lo..hi][k] == Pisar(s[lo..hi], at - lo, t)[k] {
      assert Punto(lo + k) && Punto(k);
    }
  }

  /** Writing two adjacent pieces one after the other is writing their concatenation. */
  lemma {:induction false} PisarSeguido<T>(s: seq<T>, at: nat, t: seq<T>, u: seq<T>)
    requires at + |t| + |u| <= |s|
    ensures Pisar(Pisar(s, at, t), at + |t|, u) == Pisar(s, at, t + u)
  {
    SecuenciasIguales(Pisar(Pisar(s, at, t), at + |t|, u), Pisar(s, at, t + u));
  }

  lemma {:induction false} PisarNada<T>(s: seq<T>, at: nat)
    requires at <= |s|
    ensures Pisar(s, at, []) == s
  {
    SecuenciasIguales(Pisar(s, at, []), s);
  }

  lemma {:induction false} TramosIguales<T>(s: seq<T>, p: nat, t: seq<T>, o: nat, n: nat)
    requires p + n <= |s| && o + n <= |t|
    requires forall k {:trigger Punto(k)} :: Punto(k) && 0 <= k < n ==> s[p + k] == t[o + k]
    ensures s[p..p + n] == t[o..o + n]
  {
    SecuenciasIguales(s[p..p + n], t[o..o + n]);
  }

  lemma {:induction false} TramoSeguido<T>(s: seq<T>, lo: nat, mid: nat, hi: nat)
    requires lo <= mid <= hi <= |s|
    ensures s[lo..mid] + s[mid..hi] == s[lo..hi]
  {
  }

  lemma {:induction false} TramoDeTramo<T>(s: seq<T>, lo: nat, hi: nat, a: nat, b: nat)
    requires a <= b && lo + b <= hi <= |s|
    ensures s[lo..hi][a..b] == s[lo + a..lo + b]
  {
    SecuenciasIguales(s[lo..hi][a..b], s[lo + a..lo + b]);
  }

  // Multiset algebra, one step per lemma.

  lemma {:induction false} Reordenar(a: multiset<int>, b: multiset<int>, c: multiset<int>)
    ensures (a + b) + c == (a + c) + b
  {
  }

  lemma {:induction false} Conmutar(a: multiset<int>, b: multiset<int>)
    ensures a + b == b + a
  {
  }

  lemma {:induction false} Asociar(a: multiset<int>, b: multiset<int>, c: multiset<int>)
    ensures a + (b + c) == (a + b) + c
  {
  }

  /** Splitting one part of a sum in two. */
  lemma {:induction false} Dividir(d: multiset<int>, d': multiset<int>, xy: multiset<int>, x: multiset<int>, y: multiset<int>)
    requires d' + xy == d + y && xy == x + y
    ensures d == d' + x
  {
    forall e ensures d[e] == (d' + x)[e] {
      assert (d' + xy)[e] == (d + y)[e];
    }
  }

  lemma {:induction false} Intercambio(a: multiset<int>, z: multiset<int>, b: multiset<int>, z': multiset<int>, u: multiset<int>)
    requires a + z == b + z'
    ensures (a + u) + z == (b + u) + z'
  {
    Reordenar(a, u, z);
    Reordenar(b, u, z');
  }

  lemma {:induction false} Cancelar(a: multiset<int>, b: multiset<int>, c: multiset<int>)
    requires a + c == b + c
    ensures a == b
  {
    forall e ensures a[e] == b[e] {
      assert (a + c)[e] == (b + c)[e];
    }
  }

  ghost function Solo(b: int): (m: multiset<int>)
    ensures forall x {:trigger Punto(x)} :: Punto(x) ==> m[x] == if x == b then 1 else 0
    ensures |m| == 1
  {
    var w := multiset{b};
    assert forall x {:trigger Punto(x)} :: Punto(x) ==> w[x] == if x == b then 1 else 0;
    var m: multiset<int> :| |m| == 1 && forall x {:trigger Punto(x)} :: Punto(x) ==> m[x] == if x == b then 1 else 0;
    m
  }

  /** The elements of a list, with repetitions. */
  ghost function Elementos(bs: seq<int>): multiset<int> {
    if |bs| == 0 then multiset{} else Elementos(bs[..|bs| - 1]) + Solo(bs[|bs| - 1])
  }

  lemma {:induction false} ElementosMasUno(bs: seq<int>, b: int)
    ensures Elementos(bs + [b]) == Elementos(bs) + Solo(b)
  {
    assert (bs + [b])[..|bs|] == bs;
  }

  lemma {:induction false} ElementosHasta(bs: seq<int>, k: nat)
    requires k < |bs|
    ensures Elementos(bs[..k + 1]) == Elementos(bs[..k]) + Solo(bs[k])
  {
    SinUltimo(bs, k);
  }

  lemma {:induction false} ElementosPrefijo(bs: seq<int>, k: nat, x: int)
    requires k <= |bs|
    ensures Elementos(bs[..k])[x] <= Elementos(bs)[x]
    decreases |bs|
  {
    if k < |bs| {
      ElementosPrefijo(bs[..|bs| - 1], k, x);
      assert bs[..|bs| - 1][..k] == bs[..k];
    } else {
      assert bs[..k] == bs;
    }
  }

  // Sequence algebra, one step per lemma.

  lemma {:induction false} PartirEn<T>(s: seq<T>, i: nat)
    requires i < |s|
    ensures s == s[..i + 1] + s[i + 1..]
  {
  }

  lemma {:induction false} SinUltimo<T>(s: seq<T>, i: nat)
    requires i < |s|
    ensures |s[..i + 1]| == i + 1 && s[..i + 1][..i] == s[..i] && s[..i + 1][i] == s[i]
  {
  }
}
