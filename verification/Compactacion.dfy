/** Facts behind `compactar`: sliding sorted disjoint segments towards address 0. */
module Compactacion {
  import opened Tipos
  import opened Rangos
  import opened Vistas

  /** The segments of the first `n` contexts, in list order. */
  function Refs(cs: seq<Contexto>, n: nat): (r: seq<Ref>)
    requires n <= |cs|
    ensures forall k :: 0 <= k < |r| ==> RefValida(cs, r[k]) && r[k].c < n
  {
    if n == 0 then [] else Refs(cs, n - 1) + RefsDe(n - 1, |cs[n - 1].v|)
  }

  function RefsDe(c: nat, n: nat): (r: seq<Ref>)
    ensures |r| == n && forall k :: 0 <= k < n ==> r[k] == Ref(c, k)
  {
    seq(n, k requires 0 <= k < n => Ref(c, k))
  }

  predicate Validas(cs: seq<Contexto>, o: seq<Ref>) {
    forall k :: 0 <= k < |o| ==> RefValida(cs, o[k])
  }

  predicate Ordenada(cs: seq<Contexto>, o: seq<Ref>)
    requires Validas(cs, o)
  {
    forall i, j :: 0 <= i < j < |o| ==> Seg(cs, o[i]).base <= Seg(cs, o[j]).base
  }

  ghost predicate Distintas(o: seq<Ref>) {
    forall i, j :: 0 <= i < j < |o| ==> o[i] != o[j]
  }

  /** Every segment of every table appears in `o`, exactly once. */
  ghost predicate Completa(cs: seq<Contexto>, o: seq<Ref>) {
    && Validas(cs, o) && Distintas(o)
    && forall r: Ref {:trigger EnLista(o, r)} :: RefValida(cs, r) ==> EnLista(o, r)
  }

  predicate EnLista(o: seq<Ref>, r: Ref) {
    r in o
  }

  lemma {:induction false} RefsCompletas(cs: seq<Contexto>, n: nat)
    requires n <= |cs|
    ensures Distintas(Refs(cs, n))
    ensures forall r: Ref {:trigger EnLista(Refs(cs, n), r)} :: RefValida(cs, r) && r.c < n ==> EnLista(Refs(cs, n), r)
    decreases n
  {
    if n > 0 {
      RefsCompletas(cs, n - 1);
      var a, b := Refs(cs, n - 1), RefsDe(n - 1, |cs[n - 1].v|);
      forall r: Ref {:trigger EnLista(Refs(cs, n), r)} | RefValida(cs, r) && r.c < n ensures EnLista(Refs(cs, n), r) {
        if r.c == n - 1 {
          assert b[r.s] == r;
        } else {
          assert EnLista(a, r);
        }
      }
    }
  }

  /** A permutation of a complete list is complete. */
  lemma {:induction false} PermutacionCompleta(cs: seq<Contexto>, a: seq<Ref>, b: seq<Ref>)
    requires Completa(cs, a) && multiset(a) == multiset(b)
    ensures Completa(cs, b)
  {
    forall k | 0 <= k < |b| ensures RefValida(cs, b[k]) {
      assert b[k] in multiset(b);
      assert b[k] in a;
    }
    forall r: Ref {:trigger EnLista(b, r)} | RefValida(cs, r) ensures EnLista(b, r) {
      assert EnLista(a, r);
      assert r in multiset(a);
    }
    forall i, j | 0 <= i < j < |b| ensures b[i] != b[j] {
      if b[i] == b[j] {
        DosVeces(b, i, j);
        var k :| 0 <= k < |a| && a[k] == b[i];
        UnaVez(a, k);
        assert false;
      }
    }
  }

  lemma {:induction false} DosVeces(b: seq<Ref>, i: nat, j: nat)
    requires i < j < |b| && b[i] == b[j]
    ensures multiset(b)[b[i]] >= 2
  {
    assert b == b[..j] + b[j..];
    assert b[i] in b[..j];
    assert b[j] == b[j..][0];
    assert b[j] in b[j..];
  }

  lemma {:induction false} UnaVez(a: seq<Ref>, k: nat)
    requires k < |a| && Distintas(a)
    ensures multiset(a)[a[k]] == 1
  {
    assert a == a[..k] + [a[k]] + a[k + 1..];
    assert a[k] !in a[..k];
    assert a[k] !in a[k + 1..];
  }

  // ---------------------------------------------------------------- sliding

  /** Where the k-th segment in address order goes: right after the ones before it. */
  function Acum(cs: seq<Contexto>, o: seq<Ref>, k: nat): nat
    requires Validas(cs, o) && k <= |o|
  {
    if k == 0 then 0 else Acum(cs, o, k - 1) + Seg(cs, o[k - 1]).limite
  }

  lemma {:induction false} AcumMonotono(cs: seq<Contexto>, o: seq<Ref>, i: nat, j: nat)
    requires Validas(cs, o) && i <= j <= |o|
    ensures Acum(cs, o, i) <= Acum(cs, o, j)
    decreases j
  {
    if i < j {
      AcumMonotono(cs, o, i, j - 1);
    }
  }

  /** The key fact: what lies before segment `j` in address order, packed, ends at or before
      its base.  Empty segments are exempt: their base may be anywhere. */
  lemma {:induction false} DestinoAntesDeBase(cs: seq<Contexto>, o: seq<Ref>, total: nat, k: nat, j: nat)
    requires Validas(cs, o) && Distintas(o) && Ordenada(cs, o) && DirsCtxs(cs) <= Intervalo(0, total)
    requires k <= j < |o| && Seg(cs, o[j]).limite > 0
    ensures Acum(cs, o, k) <= Seg(cs, o[j]).base
    decreases k
  {
    if k > 0 {
      var s := Seg(cs, o[k - 1]);
      if s.limite == 0 {
        DestinoAntesDeBase(cs, o, total, k - 1, j);
      } else {
        DestinoAntesDeBase(cs, o, total, k - 1, k - 1);
        SegmentosDisjuntos(cs, total, o[k - 1], o[j]);
      }
    }
  }

  lemma {:induction false} DestinoEnMemoria(cs: seq<Contexto>, o: seq<Ref>, total: nat, k: nat)
    requires Validas(cs, o) && Distintas(o) && Ordenada(cs, o) && DirsCtxs(cs) <= Intervalo(0, total)
    requires k <= |o|
    ensures Acum(cs, o, k) <= total
    decreases k
  {
    if k > 0 {
      if Seg(cs, o[k - 1]).limite == 0 {
        DestinoEnMemoria(cs, o, total, k - 1);
      } else {
        DestinoAntesDeBase(cs, o, total, k - 1, k - 1);
        SegmentoEnMemoria(cs, total, o[k - 1]);
      }
    }
  }

  /** The tables with the base of one segment changed (`seg->base = destino`). */
  function Mover(cs: seq<Contexto>, r: Ref, base: uint32): (cs': seq<Contexto>)
    requires RefValida(cs, r)
  {
    cs[r.c := Entrada(cs[r.c].pid, cs[r.c].v[r.s := Seg(cs, r).(base := base)])]
  }

  /** The same tables up to the bases of the segments. */
  ghost predicate MismaForma(a: seq<Contexto>, b: seq<Contexto>) {
    && |a| == |b|
    && (forall i :: 0 <= i < |a| ==> a[i].pid == b[i].pid && |a[i].v| == |b[i].v|)
    && (forall r {:trigger RefValida(a, r)} :: RefValida(a, r) ==> Seg(a, r).(base := 0) == Seg(b, r).(base := 0))
  }

  lemma {:induction false} MoverUno(cs0: seq<Contexto>, cs: seq<Contexto>, r: Ref, base: uint32)
    requires MismaForma(cs0, cs) && RefValida(cs, r)
    ensures MismaForma(cs0, Mover(cs, r, base))
    ensures Seg(Mover(cs, r, base), r) == Seg(cs, r).(base := base)
    ensures forall q :: RefValida(cs, q) && q != r ==> Seg(Mover(cs, r, base), q) == Seg(cs, q)
  {
    var cs' := Mover(cs, r, base);
    forall q {:trigger RefValida(cs0, q)} | RefValida(cs0, q) ensures Seg(cs0, q).(base := 0) == Seg(cs', q).(base := 0) {
      assert RefValida(cs, q);
    }
  }

  /** Segment `j` is at its destination. */
  ghost predicate Apilado(cs0: seq<Contexto>, cs: seq<Contexto>, o: seq<Ref>, j: nat)
    requires Validas(cs0, o) && Validas(cs, o) && j < |o|
  {
    Seg(cs, o[j]).base == Acum(cs0, o, j)
  }

  /**
    Loop state after `k` segments: the first `k` are packed from 0 in address order, the
    rest have not moved, and every segment still has its original bytes.
  */
  ghost predicate Compactado(cs0: seq<Contexto>, mem0: seq<byte>, o: seq<Ref>, k: nat, cs: seq<Contexto>, mem: seq<byte>)
    requires Validas(cs0, o) && k <= |o|
  {
    && MismaForma(cs0, cs) && |mem| == |mem0| && Validas(cs, o)
    && (forall j {:trigger Apilado(cs0, cs, o, j)} :: 0 <= j < k ==> Apilado(cs0, cs, o, j))
    && (forall j :: k <= j < |o| ==> Seg(cs, o[j]) == Seg(cs0, o[j]))
    && (forall j :: 0 <= j < |o| ==> Bytes(Seg(cs, o[j]), mem) == Bytes(Seg(cs0, o[j]), mem0))
  }

  /** Writing the k-th segment at its destination leaves every other segment's bytes alone. */
  lemma {:induction false} EscrituraNoPisa(cs0: seq<Contexto>, mem0: seq<byte>, o: seq<Ref>, k: nat,
                                           cs: seq<Contexto>, mem: seq<byte>, datos: seq<byte>, j: nat)
    requires Completa(cs0, o) && Ordenada(cs0, o) && DirsCtxs(cs0) <= Intervalo(0, |mem0|)
    requires k < |o| && j < |o| && j != k
    requires Compactado(cs0, mem0, o, k, cs, mem)
    requires |datos| == Seg(cs0, o[k]).limite && Acum(cs0, o, k) + |datos| <= |mem|
    ensures Bytes(Seg(cs, o[j]), Pisar(mem, Acum(cs0, o, k), datos)) == Bytes(Seg(cs, o[j]), mem)
  {
    assert RefValida(cs0, o[j]);
    assert j < k ==> Apilado(cs0, cs, o, j);
    SinCruce(cs0, |mem0|, o, k, j, Seg(cs, o[j]).base);
    var d := Acum(cs0, o, k);
    BytesFuera(Seg(cs, o[j]), mem, Pisar(mem, d, datos), d, d + |datos|);
  }

  /** The destination of segment `k` is clear of every other non-empty segment `j`, already
      packed or still at its old base. */
  lemma {:induction false} SinCruce(cs: seq<Contexto>, total: nat, o: seq<Ref>, k: nat, j: nat, base: int)
    requires Validas(cs, o) && Distintas(o) && Ordenada(cs, o) && DirsCtxs(cs) <= Intervalo(0, total)
    requires k < |o| && j < |o| && j != k
    requires base == if j < k then Acum(cs, o, j) else Seg(cs, o[j]).base
    ensures var limite := Seg(cs, o[j]).limite;
      limite == 0 || base + limite <= Acum(cs, o, k) || Acum(cs, o, k) + Seg(cs, o[k]).limite <= base
  {
    if j < k {
      AcumMonotono(cs, o, j + 1, k);
    } else if Seg(cs, o[j]).limite > 0 {
      DestinoAntesDeBase(cs, o, total, k + 1, j);
    }
  }

  /** One iteration that moves the segment. */
  lemma {:induction false} PasoMover(cs0: seq<Contexto>, mem0: seq<byte>, o: seq<Ref>, k: nat,
                                     cs: seq<Contexto>, mem: seq<byte>, datos: seq<byte>)
    requires Completa(cs0, o) && Ordenada(cs0, o) && DirsCtxs(cs0) <= Intervalo(0, |mem0|)
    requires k < |o| && Compactado(cs0, mem0, o, k, cs, mem)
    requires datos == Bytes(Seg(cs, o[k]), mem) && |datos| == Seg(cs, o[k]).limite
    requires Acum(cs0, o, k) + |datos| <= |mem| < LIMITE_32
    ensures Compactado(cs0, mem0, o, k + 1, Mover(cs, o[k], Acum(cs0, o, k)), Pisar(mem, Acum(cs0, o, k), datos))
  {
    var d := Acum(cs0, o, k);
    var cs', mem' := Mover(cs, o[k], d), Pisar(mem, d, datos);
    MoverUno(cs0, cs, o[k], d);
    PisarEn(mem, d, datos);
    forall j | 0 <= j < |o| ensures Bytes(Seg(cs', o[j]), mem') == Bytes(Seg(cs0, o[j]), mem0) {
      if j != k {
        EscrituraNoPisa(cs0, mem0, o, k, cs, mem, datos, j);
        assert o[j] != o[k];
      }
    }
    forall j | 0 <= j < |o| && j != k ensures Seg(cs', o[j]) == Seg(cs, o[j]) {
      assert o[j] != o[k];
    }
    forall j {:trigger Apilado(cs0, cs', o, j)} | 0 <= j < k + 1 ensures Apilado(cs0, cs', o, j) {
      assert j < k ==> Apilado(cs0, cs, o, j);
    }
  }

  /** One iteration that finds the segment already in place. */
  lemma {:induction false} PasoQuieto(cs0: seq<Contexto>, mem0: seq<byte>, o: seq<Ref>, k: nat, cs: seq<Contexto>, mem: seq<byte>)
    requires Validas(cs0, o) && k < |o| && Compactado(cs0, mem0, o, k, cs, mem)
    requires Seg(cs, o[k]).base == Acum(cs0, o, k)
    ensures Compactado(cs0, mem0, o, k + 1, cs, mem)
  {
    assert Apilado(cs0, cs, o, k);
  }

  /** Marks a pair of segments to be compared. */
  predicate Par(r: Ref, q: Ref) {
    true
  }

  /** Non-empty segments keep their relative order in memory. */
  ghost predicate OrdenConservado(a: seq<Contexto>, b: seq<Contexto>)
    requires MismaForma(a, b)
  {
    forall r, q {:trigger Par(r, q)} ::
      Par(r, q) && RefValida(a, r) && RefValida(a, q) && AntesQue(a, r, q) ==>
        Seg(b, r).base + Seg(b, r).limite <= Seg(b, q).base
  }

  predicate AntesQue(cs: seq<Contexto>, r: Ref, q: Ref)
    requires RefValida(cs, r) && RefValida(cs, q)
  {
    Seg(cs, r).limite > 0 && Seg(cs, q).limite > 0 && Seg(cs, r).base < Seg(cs, q).base
  }

  lemma {:induction false} OrdenDeBases(cs0: seq<Contexto>, mem0: seq<byte>, o: seq<Ref>, cs: seq<Contexto>, mem: seq<byte>)
    requires Completa(cs0, o) && Ordenada(cs0, o) && Compactado(cs0, mem0, o, |o|, cs, mem)
    ensures OrdenConservado(cs0, cs)
  {
    forall r, q {:trigger Par(r, q)} | Par(r, q) && RefValida(cs0, r) && RefValida(cs0, q) && AntesQue(cs0, r, q)
      ensures Seg(cs, r).base + Seg(cs, r).limite <= Seg(cs, q).base
    {
      assert EnLista(o, r) && EnLista(o, q);
      var i :| 0 <= i < |o| && o[i] == r;
      var j :| 0 <= j < |o| && o[j] == q;
      assert Apilado(cs0, cs, o, i) && Apilado(cs0, cs, o, j);
      assert i < j;
      AcumMonotono(cs0, o, i + 1, j);
    }
  }

  /** Contents of whole tables follow from contents of the listed segments. */
  lemma {:induction false} TablasIguales(cs0: seq<Contexto>, mem0: seq<byte>, o: seq<Ref>, cs: seq<Contexto>, mem: seq<byte>, i: nat)
    requires Completa(cs0, o) && Compactado(cs0, mem0, o, |o|, cs, mem) && i < |cs0|
    ensures Datos(cs0[i].v, mem0) == Datos(cs[i].v, mem)
  {
    forall j | 0 <= j < |cs0[i].v|
      ensures cs0[i].v[j].id == cs[i].v[j].id && Bytes(cs0[i].v[j], mem0) == Bytes(cs[i].v[j], mem)
    {
      var r := Ref(i, j);
      assert EnLista(o, r);
      var k :| 0 <= k < |o| && o[k] == r;
      assert Seg(cs0, r) == cs0[i].v[j] && Seg(cs, r) == cs[i].v[j];
    }
    DatosIguales(cs0[i].v, mem0, cs[i].v, mem);
  }

  // ---------------------------------------------------------------- coverage

  ghost function DirsRefs(cs: seq<Contexto>, o: seq<Ref>): multiset<int>
    requires Validas(cs, o)
  {
    if |o| == 0 then multiset{} else DirsRefs(cs, o[..|o| - 1]) + Zona(Seg(cs, o[|o| - 1]))
  }

  lemma {:induction false} RefsConcat(cs: seq<Contexto>, a: seq<Ref>, b: seq<Ref>)
    requires Validas(cs, a) && Validas(cs, b)
    ensures Validas(cs, a + b) && DirsRefs(cs, a + b) == DirsRefs(cs, a) + DirsRefs(cs, b)
    decreases |b|
  {
    if |b| == 0 {
      assert a + b == a;
    } else {
      RefsConcat(cs, a, b[..|b| - 1]);
      assert (a + b)[..|a + b| - 1] == a + b[..|b| - 1];
      Asociar(DirsRefs(cs, a), DirsRefs(cs, b[..|b| - 1]), Zona(Seg(cs, b[|b| - 1])));
    }
  }

  lemma {:induction false} RefsHasta(cs: seq<Contexto>, o: seq<Ref>, k: nat)
    requires Validas(cs, o) && k < |o|
    ensures DirsRefs(cs, o[..k + 1]) == DirsRefs(cs, o[..k]) + Zona(Seg(cs, o[k]))
  {
    SinUltimo(o, k);
  }

  lemma {:induction false} RefsSeparar(cs: seq<Contexto>, o: seq<Ref>, i: nat)
    requires Validas(cs, o) && i < |o|
    ensures Validas(cs, Sacar(o, i))
    ensures DirsRefs(cs, o) == DirsRefs(cs, Sacar(o, i)) + Zona(Seg(cs, o[i]))
  {
    PartirEn(o, i);
    RefsHasta(cs, o, i);
    RefsConcat(cs, o[..i + 1], o[i + 1..]);
    RefsConcat(cs, o[..i], o[i + 1..]);
    Reordenar(DirsRefs(cs, o[..i]), Zona(Seg(cs, o[i])), DirsRefs(cs, o[i + 1..]));
  }

  lemma {:induction false} SacarMultiset(o: seq<Ref>, i: nat)
    requires i < |o|
    ensures multiset(o) == multiset(Sacar(o, i)) + multiset{o[i]}
  {
    assert o == o[..i] + [o[i]] + o[i + 1..];
  }

  /** What a list of segments covers does not depend on its order. */
  lemma {:induction false} RefsPermutadas(cs: seq<Contexto>, a: seq<Ref>, b: seq<Ref>)
    requires Validas(cs, a) && Validas(cs, b) && multiset(a) == multiset(b)
    ensures DirsRefs(cs, a) == DirsRefs(cs, b)
    decreases |a|
  {
    if |a| == 0 {
      assert |multiset(b)| == 0;
    } else {
      var n := |a| - 1;
      assert a[n] in multiset(b);
      var i :| 0 <= i < |b| && b[i] == a[n];
      SacarMultiset(a, n);
      SacarMultiset(b, i);
      assert Sacar(a, n) == a[..n];
      RefsSeparar(cs, b, i);
      MismoMultiset(multiset(a), multiset(a[..n]), multiset(Sacar(b, i)), a[n]);
      RefsPermutadas(cs, a[..n], Sacar(b, i));
    }
  }

  lemma {:induction false} MismoMultiset(m: multiset<Ref>, x: multiset<Ref>, y: multiset<Ref>, r: Ref)
    requires m == x + multiset{r} && m == y + multiset{r}
    ensures x == y
  {
    forall e ensures x[e] == y[e] {
      assert (x + multiset{r})[e] == (y + multiset{r})[e];
    }
  }

  lemma {:induction false} RefsDeTabla(cs: seq<Contexto>, c: nat, n: nat)
    requires c < |cs| && n <= |cs[c].v|
    ensures Validas(cs, RefsDe(c, n)) && DirsRefs(cs, RefsDe(c, n)) == DirsTabla(cs[c].v[..n])
    decreases n
  {
    if n > 0 {
      RefsDeTabla(cs, c, n - 1);
      assert RefsDe(c, n)[..n - 1] == RefsDe(c, n - 1);
      TablaHasta(cs[c].v, n - 1);
    }
  }

  lemma {:induction false} RefsDeTodos(cs: seq<Contexto>, n: nat)
    requires n <= |cs|
    ensures DirsRefs(cs, Refs(cs, n)) == DirsCtxs(cs[..n])
    decreases n
  {
    if n > 0 {
      RefsDeTodos(cs, n - 1);
      RefsDeTabla(cs, n - 1, |cs[n - 1].v|);
      RefsConcat(cs, Refs(cs, n - 1), RefsDe(n - 1, |cs[n - 1].v|));
      CtxsHasta(cs, n - 1);
      assert cs[n - 1].v[..|cs[n - 1].v|] == cs[n - 1].v;
    }
  }

  /** Packed segments cover exactly [0, sum of limits). */
  lemma {:induction false} RefsApiladas(cs0: seq<Contexto>, cs: seq<Contexto>, o: seq<Ref>, k: nat)
    requires Validas(cs0, o) && Validas(cs, o) && MismaForma(cs0, cs) && k <= |o|
    requires forall j {:trigger Apilado(cs0, cs, o, j)} :: 0 <= j < |o| ==> Apilado(cs0, cs, o, j)
    ensures DirsRefs(cs, o[..k]) == Intervalo(0, Acum(cs0, o, k))
    decreases k
  {
    if k > 0 {
      RefsApiladas(cs0, cs, o, k - 1);
      RefsHasta(cs, o, k - 1);
      assert RefValida(cs0, o[k - 1]) && Apilado(cs0, cs, o, k - 1);
      assert Zona(Seg(cs, o[k - 1])) == Intervalo(Acum(cs0, o, k - 1), Acum(cs0, o, k));
      PartirIntervalo(0, Acum(cs0, o, k - 1), Acum(cs0, o, k));
    } else {
      IgualesPunto(Intervalo(0, 0), multiset{});
      assert o[..0] == [];
    }
  }

  lemma {:induction false} RefsMismaForma(a: seq<Contexto>, b: seq<Contexto>, n: nat)
    requires MismaForma(a, b) && n <= |a|
    ensures Refs(a, n) == Refs(b, n)
    decreases n
  {
    if n > 0 {
      RefsMismaForma(a, b, n - 1);
    }
  }

  /** After the loop: the tables cover [0, destino), once. */
  lemma {:induction false} CoberturaFinal(cs0: seq<Contexto>, mem0: seq<byte>, o: seq<Ref>, cs: seq<Contexto>, mem: seq<byte>)
    requires Validas(cs0, o) && multiset(o) == multiset(Refs(cs0, |cs0|))
    requires Compactado(cs0, mem0, o, |o|, cs, mem)
    ensures DirsCtxs(cs) == Intervalo(0, Acum(cs0, o, |o|))
  {
    RefsMismaForma(cs0, cs, |cs0|);
    RefsApiladas(cs0, cs, o, |o|);
    assert o[..|o|] == o;
    RefsPermutadas(cs, o, Refs(cs, |cs|));
    RefsDeTodos(cs, |cs|);
    assert cs[..|cs|] == cs;
  }

  /** Moving segments does not change how many bytes they hold. */
  lemma {:induction false} SumaMismaForma(a: seq<Contexto>, b: seq<Contexto>)
    requires MismaForma(a, b)
    ensures SumaCtxs(a) == SumaCtxs(b)
    decreases |a|
  {
    if |a| > 0 {
      var n := |a| - 1;
      MismaFormaPrefijo(a, b, n);
      SumaMismaForma(a[..n], b[..n]);
      SumaTablaMisma(a, b, n, |a[n].v|);
      assert a[n].v[..|a[n].v|] == a[n].v && b[n].v[..|b[n].v|] == b[n].v;
    }
  }

  lemma {:induction false} MismaFormaPrefijo(a: seq<Contexto>, b: seq<Contexto>, n: nat)
    requires MismaForma(a, b) && n <= |a|
    ensures MismaForma(a[..n], b[..n])
  {
    forall r {:trigger RefValida(a[..n], r)} | RefValida(a[..n], r)
      ensures Seg(a[..n], r).(base := 0) == Seg(b[..n], r).(base := 0)
    {
      assert RefValida(a, r);
    }
  }

  lemma {:induction false} SumaTablaMisma(a: seq<Contexto>, b: seq<Contexto>, i: nat, k: nat)
    requires MismaForma(a, b) && i < |a| && k <= |a[i].v|
    ensures SumaTabla(a[i].v[..k]) == SumaTabla(b[i].v[..k])
    decreases k
  {
    if k > 0 {
      SumaTablaMisma(a, b, i, k - 1);
      assert RefValida(a, Ref(i, k - 1));
      SinUltimo(a[i].v, k - 1);
      SinUltimo(b[i].v, k - 1);
    }
  }

  // ---------------------------------------------------------------- order by base

  /** `list_sort` by base.  Only sortedness and permutation are used afterwards. */
  method Ordenar(cs: seq<Contexto>, refs: seq<Ref>) returns (o: seq<Ref>)
    requires Validas(cs, refs)
    ensures Validas(cs, o) && Ordenada(cs, o)
    ensures multiset(o) == multiset(refs)
  {
    o := [];
    for k := 0 to |refs|
      invariant Validas(cs, o) && Ordenada(cs, o)
      invariant multiset(o) == multiset(refs[..k])
    {
      var p := PosicionPara(cs, o, refs[k]);
      InsertarOrdenada(cs, o, p, refs[k]);
      InsertarPermuta(o, p, refs[k]);
      PrefijoMasUno(refs, k);
      o := Insertar(o, p, refs[k]);
    }
    assert refs[..|refs|] == refs;
  }

  method PosicionPara(cs: seq<Contexto>, o: seq<Ref>, r: Ref) returns (p: nat)
    requires Validas(cs, o) && RefValida(cs, r)
    ensures p <= |o| && (p > 0 ==> Seg(cs, o[p - 1]).base <= Seg(cs, r).base)
    ensures forall q :: p <= q < |o| ==> Seg(cs, r).base < Seg(cs, o[q]).base
  {
    p := |o|;
    while p > 0 && Seg(cs, r).base < Seg(cs, o[p - 1]).base
      invariant p <= |o|
      invariant forall q :: p <= q < |o| ==> Seg(cs, r).base < Seg(cs, o[q]).base
    {
      p := p - 1;
    }
  }

  lemma {:induction false} PrefijoMasUno(refs: seq<Ref>, k: nat)
    requires k < |refs|
    ensures multiset(refs[..k + 1]) == multiset(refs[..k]) + multiset{refs[k]}
  {
    assert refs[..k + 1] == refs[..k] + [refs[k]];
  }

  function Insertar(o: seq<Ref>, p: nat, r: Ref): (n: seq<Ref>)
    requires p <= |o|
    ensures |n| == |o| + 1
    ensures forall k :: 0 <= k < |n| ==> n[k] == if k < p then o[k] else if k == p then r else o[k - 1]
  {
    o[..p] + [r] + o[p..]
  }

  lemma {:induction false} InsertarOrdenada(cs: seq<Contexto>, o: seq<Ref>, p: nat, r: Ref)
    requires Validas(cs, o) && Ordenada(cs, o) && RefValida(cs, r) && p <= |o|
    requires forall q :: p <= q < |o| ==> Seg(cs, r).base < Seg(cs, o[q]).base
    requires p > 0 ==> Seg(cs, o[p - 1]).base <= Seg(cs, r).base
    ensures Validas(cs, Insertar(o, p, r)) && Ordenada(cs, Insertar(o, p, r))
  {
    var n := Insertar(o, p, r);
    forall i, j | 0 <= i < j < |n| ensures Seg(cs, n[i]).base <= Seg(cs, n[j]).base {
      if j == p {
        assert n[i] == o[i] && (i < p - 1 ==> Seg(cs, o[i]).base <= Seg(cs, o[p - 1]).base);
      }
    }
  }

  lemma {:induction false} InsertarPermuta(o: seq<Ref>, p: nat, r: Ref)
    requires p <= |o|
    ensures multiset(Insertar(o, p, r)) == multiset(o) + multiset{r}
  {
    assert o == o[..p] + o[p..];
  }
}
