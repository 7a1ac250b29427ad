/**
  Byte ownership as multisets of physical addresses.

  A list of ranges stands for the multiset of the addresses it covers, so an address
  covered twice is visible as multiplicity two and an empty range covers nothing.
  "Holes and segments tile the memory" is then one equation between multisets.
*/
module Rangos {
  import opened Tipos

  /** `t_hueco`. */
  datatype Hueco = Hueco(base: uint32, tamanio: uint32)

  /** `t_segmento`. */
  datatype Segmento = Segmento(id: int, base: uint32, limite: uint32)

  type Tabla = seq<Segmento>
  type Contexto = Entrada<Tabla>

  /** The addresses lo, lo+1, ..., hi-1, each once. */
  ghost function Intervalo(lo: int, hi: int): (m: multiset<int>)
    ensures forall x {:trigger Punto(x)} :: Punto(x) ==> m[x] == if lo <= x < hi then 1 else 0
  {
    var dirs := multiset(set x | lo <= x < hi && Punto(x));
    assert forall x {:trigger Punto(x)} :: Punto(x) ==> dirs[x] == if lo <= x < hi then 1 else 0;
    var m: multiset<int> :| forall x {:trigger Punto(x)} :: Punto(x) ==> m[x] == if lo <= x < hi then 1 else 0;
    m
  }

  ghost function Zona(s: Segmento): multiset<int> {
    Intervalo(s.base, s.base + s.limite)
  }

  ghost function Dirs(hs: seq<Hueco>): multiset<int> {
    if |hs| == 0 then multiset{}
    else Dirs(hs[..|hs| - 1]) + Intervalo(hs[|hs| - 1].base, hs[|hs| - 1].base + hs[|hs| - 1].tamanio)
  }

  ghost function DirsTabla(t: Tabla): multiset<int> {
    if |t| == 0 then multiset{} else DirsTabla(t[..|t| - 1]) + Zona(t[|t| - 1])
  }

  ghost function DirsCtxs(cs: seq<Contexto>): multiset<int> {
    if |cs| == 0 then multiset{} else DirsCtxs(cs[..|cs| - 1]) + DirsTabla(cs[|cs| - 1].v)
  }

  /** Bytes in a list of holes (`huecos_total_libre`). */
  function Suma(hs: seq<Hueco>): nat {
    if |hs| == 0 then 0 else Suma(hs[..|hs| - 1]) + hs[|hs| - 1].tamanio
  }

  function SumaTabla(t: Tabla): nat {
    if |t| == 0 then 0 else SumaTabla(t[..|t| - 1]) + t[|t| - 1].limite
  }

  function SumaCtxs(cs: seq<Contexto>): nat {
    if |cs| == 0 then 0 else SumaCtxs(cs[..|cs| - 1]) + SumaTabla(cs[|cs| - 1].v)
  }

  // ---------------------------------------------------------------- intervals

  lemma {:induction false} PartirIntervalo(lo: int, mid: int, hi: int)
    requires lo <= mid <= hi
    ensures Intervalo(lo, hi) == Intervalo(lo, mid) + Intervalo(mid, hi)
  {
    IgualesPunto(Intervalo(lo, hi), Intervalo(lo, mid) + Intervalo(mid, hi));
  }

  lemma {:induction false} CardinalIntervalo(lo: int, hi: int)
    requires lo <= hi
    ensures |Intervalo(lo, hi)| == hi - lo
    decreases hi - lo
  {
    if lo < hi {
      CardinalIntervalo(lo, hi - 1);
      PartirIntervalo(lo, hi - 1, hi);
      IgualesPunto(Intervalo(hi - 1, hi), multiset{hi - 1});
    } else {
      IgualesPunto(Intervalo(lo, hi), multiset{});
    }
  }

  // ---------------------------------------------------------------- lists of ranges

  lemma {:induction false} DirsConcat(a: seq<Hueco>, b: seq<Hueco>)
    ensures Dirs(a + b) == Dirs(a) + Dirs(b)
    decreases |b|
  {
    if |b| == 0 {
      assert a + b == a;
    } else {
      DirsConcat(a, b[..|b| - 1]);
      assert (a + b)[..|a + b| - 1] == a + b[..|b| - 1];
      var h := b[|b| - 1];
      Asociar(Dirs(a), Dirs(b[..|b| - 1]), Intervalo(h.base, h.base + h.tamanio));
    }
  }

  lemma {:induction false} DirsUno(h: Hueco)
    ensures Dirs([h]) == Intervalo(h.base, h.base + h.tamanio)
  {
    assert [h][..0] == [];
  }

  lemma {:induction false} TablaConcat(a: Tabla, b: Tabla)
    ensures DirsTabla(a + b) == DirsTabla(a) + DirsTabla(b)
    decreases |b|
  {
    if |b| == 0 {
      assert a + b == a;
    } else {
      TablaConcat(a, b[..|b| - 1]);
      assert (a + b)[..|a + b| - 1] == a + b[..|b| - 1];
      Asociar(DirsTabla(a), DirsTabla(b[..|b| - 1]), Zona(b[|b| - 1]));
    }
  }

  lemma {:induction false} TablaUno(s: Segmento)
    ensures DirsTabla([s]) == Zona(s)
  {
    assert [s][..0] == [];
  }

  lemma {:induction false} CtxsConcat(a: seq<Contexto>, b: seq<Contexto>)
    ensures DirsCtxs(a + b) == DirsCtxs(a) + DirsCtxs(b)
    decreases |b|
  {
    if |b| == 0 {
      assert a + b == a;
    } else {
      CtxsConcat(a, b[..|b| - 1]);
      assert (a + b)[..|a + b| - 1] == a + b[..|b| - 1];
      Asociar(DirsCtxs(a), DirsCtxs(b[..|b| - 1]), DirsTabla(b[|b| - 1].v));
    }
  }

  lemma {:induction false} CtxsUno(c: Contexto)
    ensures DirsCtxs([c]) == DirsTabla(c.v)
  {
    assert [c][..0] == [];
  }

  lemma {:induction false} CtxsHasta(cs: seq<Contexto>, i: nat)
    requires i < |cs|
    ensures DirsCtxs(cs[..i + 1]) == DirsCtxs(cs[..i]) + DirsTabla(cs[i].v)
  {
    SinUltimo(cs, i);
  }

  lemma {:induction false} TablaHasta(t: Tabla, j: nat)
    requires j < |t|
    ensures DirsTabla(t[..j + 1]) == DirsTabla(t[..j]) + Zona(t[j])
  {
    SinUltimo(t, j);
  }

  lemma {:induction false} HuecosHasta(hs: seq<Hueco>, i: nat)
    requires i < |hs|
    ensures Dirs(hs[..i + 1]) == Dirs(hs[..i]) + Intervalo(hs[i].base, hs[i].base + hs[i].tamanio)
  {
    SinUltimo(hs, i);
  }

  /** A list of contexts is what its i-th table covers plus what the others cover. */
  lemma {:induction false} CtxsSeparar(cs: seq<Contexto>, i: nat)
    requires i < |cs|
    ensures DirsCtxs(cs) == DirsCtxs(Sacar(cs, i)) + DirsTabla(cs[i].v)
  {
    PartirEn(cs, i);
    CtxsHasta(cs, i);
    CtxsConcat(cs[..i + 1], cs[i + 1..]);
    CtxsConcat(cs[..i], cs[i + 1..]);
    Reordenar(DirsCtxs(cs[..i]), DirsTabla(cs[i].v), DirsCtxs(cs[i + 1..]));
  }

  lemma {:induction false} CtxsCambiar(cs: seq<Contexto>, i: nat, c: Contexto)
    requires i < |cs|
    ensures DirsCtxs(cs[i := c]) + DirsTabla(cs[i].v) == DirsCtxs(cs) + DirsTabla(c.v)
  {
    CtxsSeparar(cs, i);
    CtxsSeparar(cs[i := c], i);
    assert Sacar(cs[i := c], i) == Sacar(cs, i);
  }

  lemma {:induction false} TablaSeparar(t: Tabla, j: nat)
    requires j < |t|
    ensures DirsTabla(t) == DirsTabla(Sacar(t, j)) + Zona(t[j])
  {
    PartirEn(t, j);
    TablaHasta(t, j);
    TablaConcat(t[..j + 1], t[j + 1..]);
    TablaConcat(t[..j], t[j + 1..]);
    Reordenar(DirsTabla(t[..j]), Zona(t[j]), DirsTabla(t[j + 1..]));
  }

  lemma {:induction false} HuecosSeparar(hs: seq<Hueco>, i: nat)
    requires i < |hs|
    ensures Dirs(hs) == Dirs(Sacar(hs, i)) + Intervalo(hs[i].base, hs[i].base + hs[i].tamanio)
  {
    PartirEn(hs, i);
    HuecosHasta(hs, i);
    DirsConcat(hs[..i + 1], hs[i + 1..]);
    DirsConcat(hs[..i], hs[i + 1..]);
    Reordenar(Dirs(hs[..i]), Intervalo(hs[i].base, hs[i].base + hs[i].tamanio), Dirs(hs[i + 1..]));
  }

  // ---------------------------------------------------------------- cardinalities

  lemma {:induction false} CardinalDirs(hs: seq<Hueco>)
    ensures |Dirs(hs)| == Suma(hs)
    decreases |hs|
  {
    if |hs| > 0 {
      CardinalDirs(hs[..|hs| - 1]);
      var h := hs[|hs| - 1];
      CardinalIntervalo(h.base, h.base + h.tamanio);
    }
  }

  lemma {:induction false} CardinalTabla(t: Tabla)
    ensures |DirsTabla(t)| == SumaTabla(t)
    decreases |t|
  {
    if |t| > 0 {
      CardinalTabla(t[..|t| - 1]);
      var s := t[|t| - 1];
      CardinalIntervalo(s.base, s.base + s.limite);
    }
  }

  lemma {:induction false} CardinalCtxs(cs: seq<Contexto>)
    ensures |DirsCtxs(cs)| == SumaCtxs(cs)
    decreases |cs|
  {
    if |cs| > 0 {
      CardinalCtxs(cs[..|cs| - 1]);
      CardinalTabla(cs[|cs| - 1].v);
    }
  }

  /** Conservation: when holes and resident segments tile the memory, free bytes plus
      resident limits are exactly the memory, however fragmented the hole list is. */
  lemma {:induction false} Conservacion(hs: seq<Hueco>, cs: seq<Contexto>, total: nat)
    requires Teselado(hs, cs, total)
    ensures Suma(hs) + SumaCtxs(cs) == total
  {
    assert Desplegar(0);
    CardinalDirs(hs);
    CardinalCtxs(cs);
    CardinalIntervalo(0, total);
  }

  /** Holes and resident segments tile [0, total): together they cover every address of it
      exactly once, and nothing else. */
  ghost predicate Teselado(hs: seq<Hueco>, cs: seq<Contexto>, total: int) {
    forall z {:trigger Desplegar(z)} :: Desplegar(z) ==> Dirs(hs) + DirsCtxs(cs) == Intervalo(0, total)
  }

  // ---------------------------------------------------------------- disjointness

  /** Names one segment: context position and position in that context's table. */
  datatype Ref = Ref(c: nat, s: nat)

  predicate RefValida(cs: seq<Contexto>, r: Ref) {
    r.c < |cs| && r.s < |cs[r.c].v|
  }

  function Seg(cs: seq<Contexto>, r: Ref): Segmento
    requires RefValida(cs, r)
  {
    cs[r.c].v[r.s]
  }

  lemma {:induction false} SegmentoCubierto(cs: seq<Contexto>, r: Ref)
    requires RefValida(cs, r)
    ensures Zona(Seg(cs, r)) <= DirsCtxs(cs)
  {
    CtxsSeparar(cs, r.c);
    TablaSeparar(cs[r.c].v, r.s);
  }

  /** Two different segments of the tables contribute separately to the covered addresses. */
  lemma {:induction false} DosSegmentos(cs: seq<Contexto>, r: Ref, q: Ref)
    requires RefValida(cs, r) && RefValida(cs, q) && r != q
    ensures Zona(Seg(cs, r)) + Zona(Seg(cs, q)) <= DirsCtxs(cs)
  {
    CtxsSeparar(cs, r.c);
    TablaSeparar(cs[r.c].v, r.s);
    if r.c == q.c {
      var t := cs[r.c].v;
      var resto := Sacar(t, r.s);
      var k := if q.s < r.s then q.s else q.s - 1;
      assert resto[k] == t[q.s];
      TablaSeparar(resto, k);
    } else {
      var resto := Sacar(cs, r.c);
      var k := if q.c < r.c then q.c else q.c - 1;
      assert resto[k] == cs[q.c];
      SegmentoCubierto(resto, Ref(k, q.s));
    }
  }

  /** What covers no address twice has only disjoint segments: two non-empty ones never overlap. */
  lemma {:induction false} SegmentosDisjuntos(cs: seq<Contexto>, total: nat, r: Ref, q: Ref)
    requires DirsCtxs(cs) <= Intervalo(0, total)
    requires RefValida(cs, r) && RefValida(cs, q) && r != q
    requires Seg(cs, r).limite > 0 && Seg(cs, q).limite > 0
    ensures Seg(cs, r).base + Seg(cs, r).limite <= Seg(cs, q).base
         || Seg(cs, q).base + Seg(cs, q).limite <= Seg(cs, r).base
  {
    var a, b := Seg(cs, r), Seg(cs, q);
    DosSegmentos(cs, r, q);
    var x := if a.base < b.base then b.base else a.base;
    assert Punto(x);
    assert (Zona(a) + Zona(b))[x] <= DirsCtxs(cs)[x] <= Intervalo(0, total)[x] <= 1;
  }

  lemma {:induction false} SegmentoEnMemoria(cs: seq<Contexto>, total: nat, r: Ref)
    requires DirsCtxs(cs) <= Intervalo(0, total)
    requires RefValida(cs, r) && Seg(cs, r).limite > 0
    ensures Seg(cs, r).base + Seg(cs, r).limite <= total
  {
    var s := Seg(cs, r);
    SegmentoCubierto(cs, r);
    var ultimo := s.base + s.limite - 1;
    assert Punto(ultimo);
    assert Zona(s)[ultimo] <= Intervalo(0, total)[ultimo];
  }
}
