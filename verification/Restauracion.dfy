/** Bringing a process back from swap, and reading and writing through the CPU's translation. */
module Restauracion {
  import opened Tipos
  import opened Rangos
  import opened Swap
  import opened Mmu
  import opened Vistas
  import opened MaquinaAbstracta
  import opened Tesela

  /** The tentative placement matches the swapped segments one by one. */
  ghost predicate Corresponden(nuevos: Tabla, segs: seq<SegmentoSwap>) {
    |nuevos| <= |segs| &&
    forall j {:trigger Punto(j)} :: Punto(j) && 0 <= j < |nuevos| ==>
      nuevos[j].id == segs[j].id && nuevos[j].limite == segs[j].limite
  }

  /** Whatever was carved from the free bytes lies in memory. */
  lemma {:induction false} ReservaBien(antes: seq<Hueco>, hs: seq<Hueco>, nuevos: Tabla, cs: seq<Contexto>, total: nat)
    requires Reservado(antes, hs, nuevos) && Teselado(antes, cs, total) && total < LIMITE_32
    ensures TablaBien(nuevos, total)
  {
    assert Desplegar(0);
    var c: seq<Contexto> := [Entrada(0, nuevos)];
    CtxsUno(c[0]);
    ParteDe(Dirs(hs), DirsTabla(nuevos), DirsCtxs(cs), Intervalo(0, total));
    forall j {:trigger Punto(j)} | Punto(j) && 0 <= j < |nuevos|
      ensures (nuevos[j].limite == 0 || nuevos[j].base + nuevos[j].limite <= total) && nuevos[j].base + nuevos[j].limite < LIMITE_32
    {
      if nuevos[j].limite > 0 {
        SegmentoEnMemoria(c, total, Ref(0, j));
      }
    }
  }

  /** The ranges chosen for a table are free bytes of before, and no two of them overlap. */
  lemma {:induction false} ReservaDisjunta(antes: seq<Hueco>, hs: seq<Hueco>, nuevos: Tabla, cs: seq<Contexto>, total: nat, j: nat, k: nat)
    requires Reservado(antes, hs, nuevos) && Teselado(antes, cs, total)
    requires j < |nuevos| && k < |nuevos| && j != k && nuevos[j].limite > 0 && nuevos[k].limite > 0
    ensures Zona(nuevos[j]) <= Dirs(antes)
    ensures nuevos[j].base + nuevos[j].limite <= nuevos[k].base || nuevos[k].base + nuevos[k].limite <= nuevos[j].base
  {
    assert Desplegar(0);
    var c: seq<Contexto> := [Entrada(0, nuevos)];
    CtxsUno(c[0]);
    ParteDe(Dirs(hs), DirsTabla(nuevos), DirsCtxs(cs), Intervalo(0, total));
    SegmentosDisjuntos(c, total, Ref(0, j), Ref(0, k));
    TablaSeparar(nuevos, j);
  }

  lemma {:induction false} LugarBien(hs: seq<Hueco>, cs: seq<Contexto>, i: nat, nuevos: Tabla, k: nat, total: nat)
    requires i < |cs| && k < |nuevos| && total < LIMITE_32
    requires Teselado(hs, ConTabla(cs, i, cs[i].v + nuevos), total)
    ensures nuevos[k].limite == 0 || nuevos[k].base + nuevos[k].limite <= total
    ensures nuevos[k].base + nuevos[k].limite < LIMITE_32
    ensures ConTabla(cs, i, cs[i].v + nuevos)[i].v[|cs[i].v| + k] == nuevos[k]
  {
    SegmentosBien(hs, ConTabla(cs, i, cs[i].v + nuevos), total, i);
    assert Punto(|cs[i].v| + k);
  }

  lemma {:induction false} UnoMas(t: Tabla, nuevos: Tabla, k: nat)
    requires k < |nuevos|
    ensures (t + nuevos[..k]) + [nuevos[k]] == t + nuevos[..k + 1]
  {
  }

  lemma {:induction false} ParteDe(a: multiset<int>, b: multiset<int>, c: multiset<int>, t: multiset<int>)
    requires (a + b) + c == t
    ensures b <= t
  {
  }

  lemma {:induction false} CorrespondeUno(nuevos: Tabla, segs: seq<SegmentoSwap>, base: uint32)
    requires Corresponden(nuevos, segs) && |nuevos| < |segs|
    ensures Corresponden(nuevos + [Segmento(segs[|nuevos|].id, base, segs[|nuevos|].limite)], segs)
  {
  }

  /**
    State of the restore loop after `k` segments: nothing that was in memory before has
    changed, and if every request is answered (`sano`) the first `k` segments hold their bytes.
  */
  ghost predicate RestauradoAbierto(cs1: seq<Contexto>, i: nat, n0: nat, k: nat, mem0: seq<byte>, mem: seq<byte>,
                                    segs: seq<SegmentoSwap>, dev: seq<seq<byte>>, sano: bool)
    requires i < |cs1| && n0 + |segs| == |cs1[i].v| && k <= |segs|
  {
    |mem| == |mem0| && DemasIgual(cs1, i, n0, mem0, mem) && (sano ==> Traidos(cs1, i, n0, k, mem, segs, dev))
  }

  /** What was in memory before the restore is as it was. */
  ghost predicate DemasIgual(cs1: seq<Contexto>, i: nat, n0: nat, mem0: seq<byte>, mem: seq<byte>) {
    forall q {:trigger RefValida(cs1, q)} :: RefValida(cs1, q) && !(q.c == i && n0 <= q.s) ==>
      Bytes(Seg(cs1, q), mem) == Bytes(Seg(cs1, q), mem0)
  }

  /** The first `k` segments hold what was saved of them. */
  ghost predicate Traidos(cs1: seq<Contexto>, i: nat, n0: nat, k: nat, mem: seq<byte>, segs: seq<SegmentoSwap>, dev: seq<seq<byte>>)
    requires i < |cs1| && n0 + |segs| == |cs1[i].v| && k <= |segs|
  {
    forall j {:trigger Punto(j)} :: Punto(j) && 0 <= j < k ==> Bytes(cs1[i].v[n0 + j], mem) == BytesSwap(segs[j], dev)
  }

  /** The same, folded. */
  ghost function Restaurado(cs1: seq<Contexto>, i: nat, n0: nat, k: nat, mem0: seq<byte>, mem: seq<byte>,
                            segs: seq<SegmentoSwap>, dev: seq<seq<byte>>, sano: bool): (b: bool)
    requires i < |cs1| && n0 + |segs| == |cs1[i].v| && k <= |segs|
    ensures forall z {:trigger Desplegar(z)} :: Desplegar(z) ==>
              b == RestauradoAbierto(cs1, i, n0, k, mem0, mem, segs, dev, sano)
  {
    var b: bool :| forall z {:trigger Desplegar(z)} :: Desplegar(z) ==>
      b == RestauradoAbierto(cs1, i, n0, k, mem0, mem, segs, dev, sano);
    b
  }

  lemma {:induction false} RestauradoInicial(cs1: seq<Contexto>, i: nat, n0: nat, mem: seq<byte>,
                                             segs: seq<SegmentoSwap>, dev: seq<seq<byte>>, sano: bool)
    requires i < |cs1| && n0 + |segs| == |cs1[i].v|
    ensures Restaurado(cs1, i, n0, 0, mem, mem, segs, dev, sano)
  {
    assert Desplegar(0);
  }

  lemma {:induction false} RestaurarPaso(hs: seq<Hueco>, cs1: seq<Contexto>, i: nat, n0: nat, k: nat,
                                         mem0: seq<byte>, mem: seq<byte>, mem': seq<byte>,
                                         segs: seq<SegmentoSwap>, dev: seq<seq<byte>>, sano: bool)
    requires i < |cs1| && n0 + |segs| == |cs1[i].v| && k < |segs|
    requires Restaurado(cs1, i, n0, k, mem0, mem, segs, dev, sano)
    requires Teselado(hs, cs1, |mem|)
    requires var s := cs1[i].v[n0 + k]; FueraIgual(mem, mem', s.base, s.base + s.limite)
    requires sano ==> Bytes(cs1[i].v[n0 + k], mem') == BytesSwap(segs[k], dev)
    ensures Restaurado(cs1, i, n0, k + 1, mem0, mem', segs, dev, sano)
  {
    assert DemasIgual(cs1, i, n0, mem0, mem) && |mem| == |mem0| by { assert Desplegar(0); }
    assert sano ==> Traidos(cs1, i, n0, k, mem, segs, dev) by { assert Desplegar(0); }
    DemasPaso(hs, cs1, i, n0, k, mem0, mem, mem');
    if sano {
      TraidosPaso(hs, cs1, i, n0, k, mem, mem', segs, dev);
    }
    assert RestauradoAbierto(cs1, i, n0, k + 1, mem0, mem', segs, dev, sano);
    assert Desplegar(0);
  }

  lemma {:induction false} DemasPaso(hs: seq<Hueco>, cs1: seq<Contexto>, i: nat, n0: nat, k: nat,
                                     mem0: seq<byte>, mem: seq<byte>, mem': seq<byte>)
    requires i < |cs1| && n0 + k < |cs1[i].v| && DemasIgual(cs1, i, n0, mem0, mem) && Teselado(hs, cs1, |mem|)
    requires var s := cs1[i].v[n0 + k]; FueraIgual(mem, mem', s.base, s.base + s.limite)
    ensures DemasIgual(cs1, i, n0, mem0, mem')
  {
    var s, r := cs1[i].v[n0 + k], Ref(i, n0 + k);
    forall q {:trigger RefValida(cs1, q)} | RefValida(cs1, q) && !(q.c == i && n0 <= q.s)
      ensures Bytes(Seg(cs1, q), mem') == Bytes(Seg(cs1, q), mem0)
    {
      EscrituraAjena(hs, cs1, mem, mem', r, s.base, s.base + s.limite, q);
    }
  }

  lemma {:induction false} TraidosPaso(hs: seq<Hueco>, cs1: seq<Contexto>, i: nat, n0: nat, k: nat,
                                       mem: seq<byte>, mem': seq<byte>, segs: seq<SegmentoSwap>, dev: seq<seq<byte>>)
    requires i < |cs1| && n0 + |segs| == |cs1[i].v| && k < |segs|
    requires Traidos(cs1, i, n0, k, mem, segs, dev) && Teselado(hs, cs1, |mem|)
    requires var s := cs1[i].v[n0 + k]; FueraIgual(mem, mem', s.base, s.base + s.limite)
    requires Bytes(cs1[i].v[n0 + k], mem') == BytesSwap(segs[k], dev)
    ensures Traidos(cs1, i, n0, k + 1, mem', segs, dev)
  {
    var s, r := cs1[i].v[n0 + k], Ref(i, n0 + k);
    forall j {:trigger Punto(j)} | Punto(j) && 0 <= j < k + 1
      ensures Bytes(cs1[i].v[n0 + j], mem') == BytesSwap(segs[j], dev)
    {
      if j < k {
        EscrituraAjena(hs, cs1, mem, mem', r, s.base, s.base + s.limite, Ref(i, n0 + j));
      }
    }
  }

  /** What the restore loop did to the stores: only this process's changes, to what it had in
      memory followed by as many segments as it had in swap, of the same ids and lengths; and
      by those very bytes if every request was answered. */
  lemma {:induction false} RestaurarVista(cs: seq<Contexto>, cs1: seq<Contexto>, sus: seq<ProcesoSwap>, p: nat, i: nat, nuevos: Tabla,
                                          mem0: seq<byte>, mem: seq<byte>, dev: seq<seq<byte>>, sano: bool)
    requires Unicos(cs) && Unicos(sus) && i < |cs| && p < |sus| && sus[p].pid == cs[i].pid
    requires Corresponden(nuevos, sus[p].v) && |nuevos| == |sus[p].v|
    requires cs1 == ConTabla(cs, i, cs[i].v + nuevos)
    requires Restaurado(cs1, i, |cs[i].v|, |nuevos|, mem0, mem, sus[p].v, dev, sano)
    ensures |mem| == |mem0|
    ensures var v, v' := VistaDe(cs, sus, mem0, dev), VistaDe(cs1, Sacar(sus, p), mem, dev);
      && v' == v[i := v'[i]]
      && v'[i] == Entrada(cs[i].pid, Almacen(Datos(cs[i].v, mem0) + Datos(nuevos, mem), None))
      && (sano ==> Datos(nuevos, mem) == DatosSwap(sus[p].v, dev))
  {
    assert Desplegar(0);
    var sus' := Sacar(sus, p);
    forall k | 0 <= k < |cs| && k != i ensures AlmacenDe(cs1[k], sus', mem, dev) == AlmacenDe(cs[k], sus, mem0, dev) {
      IndiceSacar(sus, p, cs[k].pid);
      assert cs[k].pid != cs[i].pid;
      forall j | 0 <= j < |cs[k].v| ensures Bytes(cs1[k].v[j], mem) == Bytes(cs[k].v[j], mem0) {
        assert RefValida(cs1, Ref(k, j));
      }
      DatosIguales(cs1[k].v, mem, cs[k].v, mem0);
    }
    IndiceSacar(sus, p, cs[i].pid);
    VistaUna(cs, sus, mem0, dev, cs1, sus', mem, dev, i);
    assert Punto(i);
    RestaurarTabla(cs, cs1, i, nuevos, sus[p].v, mem0, mem, dev, sano);
  }

  lemma {:induction false} RestaurarTabla(cs: seq<Contexto>, cs1: seq<Contexto>, i: nat, nuevos: Tabla, segs: seq<SegmentoSwap>,
                                          mem0: seq<byte>, mem: seq<byte>, dev: seq<seq<byte>>, sano: bool)
    requires i < |cs| && cs1 == ConTabla(cs, i, cs[i].v + nuevos)
    requires Corresponden(nuevos, segs) && |nuevos| == |segs|
    requires Restaurado(cs1, i, |cs[i].v|, |segs|, mem0, mem, segs, dev, sano)
    ensures Datos(cs1[i].v, mem) == Datos(cs[i].v, mem0) + Datos(nuevos, mem)
    ensures sano ==> Datos(nuevos, mem) == DatosSwap(segs, dev)
  {
    assert Desplegar(0);
    var t, n0 := cs1[i].v, |cs[i].v|;
    var a, b := Datos(t, mem), Datos(cs[i].v, mem0) + Datos(nuevos, mem);
    forall j {:trigger Punto(j)} | Punto(j) && 0 <= j < |a| ensures a[j] == b[j] {
      assert RefValida(cs1, Ref(i, j));
      if j < n0 {
        assert t[j] == cs[i].v[j];
      } else {
        assert Punto(j - n0);
      }
    }
    SecuenciasIguales(a, b);
    if sano {
      forall j {:trigger Punto(j)} | Punto(j) && 0 <= j < |nuevos| ensures Datos(nuevos, mem)[j] == DatosSwap(segs, dev)[j] {
        assert t[n0 + j] == nuevos[j];
      }
      SecuenciasIguales(Datos(nuevos, mem), DatosSwap(segs, dev));
    }
  }

  /** Whatever was read, the segments have the ids and lengths they had in swap. */
  lemma {:induction false} MoldeRestaurado(hs: seq<Hueco>, cs: seq<Contexto>, i: nat, nuevos: Tabla, segs: seq<SegmentoSwap>,
                                           mem: seq<byte>, dev: seq<seq<byte>>)
    requires i < |cs| && Teselado(hs, ConTabla(cs, i, cs[i].v + nuevos), |mem|) && |mem| < LIMITE_32
    requires Corresponden(nuevos, segs) && |nuevos| == |segs| && Enteros(segs, dev)
    ensures MismoMolde(Datos(nuevos, mem), DatosSwap(segs, dev))
  {
    forall j | 0 <= j < |nuevos|
      ensures Datos(nuevos, mem)[j].id == DatosSwap(segs, dev)[j].id
      ensures |Datos(nuevos, mem)[j].bytes| == |DatosSwap(segs, dev)[j].bytes|
    {
      LugarBien(hs, cs, i, nuevos, j, |mem|);
      assert Punto(j);
    }
  }

  /** The remaining owners after releasing the entry, segment by segment. */
  lemma {:induction false} SoltarPaso(resto: multiset<int>, segs: seq<SegmentoSwap>, k: nat)
    requires k < |segs|
    ensures resto + BloquesDeSegs(segs[k..]) == (resto + BloquesDeSegs(segs[k + 1..])) + Elementos(segs[k].bloques)
  {
    SegsDesde(segs, k);
    Asociar(resto, BloquesDeSegs(segs[k + 1..]), Elementos(segs[k].bloques));
  }

  lemma {:induction false} SoltarInicio(sus: seq<ProcesoSwap>, p: nat, u: seq<bool>)
    requires p < |sus| && Pertenencia(sus, u)
    ensures Marcados(u) == BloquesDe(Sacar(sus, p)) + BloquesDeSegs(sus[p].v[0..])
  {
    assert Desplegar(0);
    ProcesosSeparar(sus, p);
    assert sus[p].v[0..] == sus[p].v;
  }

  lemma {:induction false} SoltarFin(sus: seq<ProcesoSwap>, p: nat, u: seq<bool>)
    requires p < |sus| && Marcados(u) == BloquesDe(Sacar(sus, p)) + BloquesDeSegs(sus[p].v[|sus[p].v|..])
    ensures Pertenencia(Sacar(sus, p), u)
  {
    assert sus[p].v[|sus[p].v|..] == [];
    SumaVacia(BloquesDe(Sacar(sus, p)));
  }

  // ---------------------------------------------------------------- finalization

  lemma {:induction false} FinalizarVista(cs: seq<Contexto>, i: nat, sus: seq<ProcesoSwap>, sus': seq<ProcesoSwap>,
                                          mem: seq<byte>, dev: seq<seq<byte>>)
    requires Unicos(cs) && Unicos(sus) && i < |cs|
    requires sus' == if Esta(sus, cs[i].pid) then Sacar(sus, Indice(sus, cs[i].pid)) else sus
    ensures VistaDe(Sacar(ConTabla(cs, i, []), i), sus', mem, dev) == Sacar(VistaDe(cs, sus, mem, dev), i)
  {
    var cs' := Sacar(ConTabla(cs, i, []), i);
    var a, b := VistaDe(cs', sus', mem, dev), Sacar(VistaDe(cs, sus, mem, dev), i);
    forall k {:trigger Punto(k)} | Punto(k) && 0 <= k < |a| ensures a[k] == b[k] {
      var j := if k < i then k else k + 1;
      assert Punto(j) && cs'[k] == cs[j] && cs[j].pid != cs[i].pid;
      if Esta(sus, cs[i].pid) {
        IndiceSacar(sus, Indice(sus, cs[i].pid), cs[j].pid);
      }
    }
    SecuenciasIguales(a, b);
  }

  /** Once a process is removed, every remaining swap entry still has a context. */
  lemma {:induction false} FinalizarHuerfanos(cs: seq<Contexto>, i: nat, sus: seq<ProcesoSwap>, sus': seq<ProcesoSwap>)
    requires Unicos(cs) && Unicos(sus) && i < |cs|
    requires forall k :: 0 <= k < |sus| ==> Esta(cs, sus[k].pid)
    requires sus' == if Esta(sus, cs[i].pid) then Sacar(sus, Indice(sus, cs[i].pid)) else sus
    ensures Unicos(Sacar(ConTabla(cs, i, []), i)) && Unicos(sus')
    ensures forall k :: 0 <= k < |sus'| ==> Esta(Sacar(ConTabla(cs, i, []), i), sus'[k].pid)
  {
    var cs1 := ConTabla(cs, i, []);
    MismosPids(cs, cs1);
    IndiceSacar(cs1, i, 0);
    if Esta(sus, cs[i].pid) {
      IndiceSacar(sus, Indice(sus, cs[i].pid), cs[i].pid);
    }
    forall k | 0 <= k < |sus'| ensures Esta(Sacar(cs1, i), sus'[k].pid) {
      IndiceDe(sus', k);
      IndiceSacar(cs1, i, sus'[k].pid);
      var p := Indice(sus, cs[i].pid);
      assert sus'[k] == if p < |sus| && p <= k then sus[k + 1] else sus[k];
    }
  }

  // ---------------------------------------------------------------- logical accesses

  /** The CPU's translation on the segment table and the abstract one on ids and lengths
      accept the same accesses and resolve them to the same segment and offset. */
  lemma {:induction false} MismaResolucion(tamMax: uint32, t: Tabla, mem: seq<byte>, dl: uint32, tam: uint32)
    requires TablaBien(t, |mem|)
    ensures ResolverDatos(tamMax, Datos(t, mem), dl, tam) == Resolver(tamMax, t, dl, tam)
  {
    if tamMax > 0 {
      IndiceEnDatos(t, mem, AInt(dl / tamMax));
      var i := IndiceSegmento(t, AInt(dl / tamMax));
      assert Punto(i);
    }
  }

  /** An accepted access lands where the segment is. */
  lemma {:induction false} AccesoFisico(hs: seq<Hueco>, cs: seq<Contexto>, mem: seq<byte>, i: nat, tamMax: uint32, dl: uint32, tam: uint32)
    requires Teselado(hs, cs, |mem|) && |mem| < LIMITE_32 && i < |cs| && SinEnvolver(tamMax, dl, tam)
    requires Resolver(tamMax, cs[i].v, dl, tam).Some?
    ensures var (k, d) := Resolver(tamMax, cs[i].v, dl, tam).value;
      && d + tam <= cs[i].v[k].limite == |Bytes(cs[i].v[k], mem)|
      && (tam > 0 ==> Traducir(tamMax, cs[i].v, dl, tam) == Some(cs[i].v[k].base + d) && cs[i].v[k].base + d + tam <= |mem|)
  {
    var (k, d) := Resolver(tamMax, cs[i].v, dl, tam).value;
    SegmentosBien(hs, cs, |mem|, i);
    assert Punto(k);
    SumaSinEnvolver(d, tam);
    SumaSinEnvolver(cs[i].v[k].base, d);
  }

  lemma {:induction false} LeerEnVista(cs: seq<Contexto>, mem: seq<byte>, i: nat, k: nat, d: nat, tam: nat)
    requires i < |cs| && k < |cs[i].v| && d + tam <= cs[i].v[k].limite && cs[i].v[k].base + cs[i].v[k].limite <= |mem|
    ensures Datos(cs[i].v, mem)[k] == Dato(cs[i].v[k].id, Bytes(cs[i].v[k], mem))
    ensures |Bytes(cs[i].v[k], mem)| == cs[i].v[k].limite
    ensures Bytes(cs[i].v[k], mem)[d..d + tam] == mem[cs[i].v[k].base + d..cs[i].v[k].base + d + tam]
  {
    assert Punto(k);
    TramoDeTramo(mem, cs[i].v[k].base, cs[i].v[k].base + cs[i].v[k].limite, d, d + tam);
  }

  /** Changing bytes only inside one segment changes that segment of that process and nothing else. */
  lemma {:induction false} CambiarEnVista(hs: seq<Hueco>, cs: seq<Contexto>, sus: seq<ProcesoSwap>, mem: seq<byte>, mem': seq<byte>,
                                          dev: seq<seq<byte>>, i: nat, k: nat, d: nat, n: nat)
    requires Teselado(hs, cs, |mem|) && |mem| < LIMITE_32 && i < |cs| && k < |cs[i].v|
    requires d + n <= cs[i].v[k].limite && cs[i].v[k].base + cs[i].v[k].limite <= |mem|
    requires FueraIgual(mem, mem', cs[i].v[k].base + d, cs[i].v[k].base + d + n)
    ensures var s := cs[i].v[k];
      var a := AlmacenDe(cs[i], sus, mem, dev);
      && |a.residente[k].bytes| == s.limite && a.residente[k] == Dato(s.id, Bytes(s, mem))
      && FueraIgual(a.residente[k].bytes, Bytes(s, mem'), d, d + n)
      && VistaDe(cs, sus, mem', dev)
         == VistaDe(cs, sus, mem, dev)[i := Entrada(cs[i].pid, a.(residente := a.residente[k := Dato(s.id, Bytes(s, mem'))]))]
  {
    var s := cs[i].v[k];
    var lo, hi := s.base + d, s.base + d + n;
    assert Punto(k);
    forall j, l | 0 <= j < |cs| && 0 <= l < |cs[j].v| && Ref(j, l) != Ref(i, k)
      ensures Bytes(cs[j].v[l], mem') == Bytes(cs[j].v[l], mem)
    {
      EscrituraAjena(hs, cs, mem, mem', Ref(i, k), lo, hi, Ref(j, l));
    }
    forall j | 0 <= j < |cs| && j != i ensures AlmacenDe(cs[j], sus, mem', dev) == AlmacenDe(cs[j], sus, mem, dev) {
      DatosIguales(cs[j].v, mem', cs[j].v, mem);
    }
    VistaUna(cs, sus, mem, dev, cs, sus, mem', dev, i);
    SecuenciasIguales(Datos(cs[i].v, mem'), Datos(cs[i].v, mem)[k := Dato(s.id, Bytes(s, mem'))]);
    TramoFuera(mem, mem', s.base, s.base + s.limite, d, n);
  }

  lemma {:induction false} TramoFuera(a: seq<byte>, b: seq<byte>, lo: nat, hi: nat, d: nat, n: nat)
    requires lo <= hi <= |a| && FueraIgual(a, b, lo + d, lo + d + n)
    ensures FueraIgual(a[lo..hi], b[lo..hi], d, d + n)
  {
    forall x {:trigger Punto(x)} | Punto(x) && 0 <= x < hi - lo && !(d <= x < d + n) ensures b[lo..hi][x] == a[lo..hi][x] {
      assert Punto(lo + x);
    }
  }

  /** A write inside one segment overwrites that stretch of it. */
  lemma {:induction false} EscribirEnVista(hs: seq<Hueco>, cs: seq<Contexto>, sus: seq<ProcesoSwap>, mem: seq<byte>, dev: seq<seq<byte>>,
                                           i: nat, k: nat, d: nat, datos: seq<byte>)
    requires Teselado(hs, cs, |mem|) && |mem| < LIMITE_32 && i < |cs| && k < |cs[i].v|
    requires d + |datos| <= cs[i].v[k].limite && cs[i].v[k].base + cs[i].v[k].limite <= |mem|
    ensures var s := cs[i].v[k];
      var a := AlmacenDe(cs[i], sus, mem, dev);
      && |a.residente[k].bytes| == s.limite
      && VistaDe(cs, sus, Pisar(mem, s.base + d, datos), dev)
         == VistaDe(cs, sus, mem, dev)[i := Entrada(cs[i].pid,
              a.(residente := a.residente[k := Dato(s.id, Pisar(a.residente[k].bytes, d, datos))]))]
  {
    var s := cs[i].v[k];
    CambiarEnVista(hs, cs, sus, mem, Pisar(mem, s.base + d, datos), dev, i, k, d, |datos|);
    PisarDentro(mem, s.base + d, datos, s.base, s.base + s.limite);
  }
}
