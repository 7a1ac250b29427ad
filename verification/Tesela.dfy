/** What each step of `memoria_usuario.c` does to the tiling, the swap blocks and the views. */
module Tesela {
  import opened Tipos
  import opened Rangos
  import opened Huecos
  import opened Swap
  import opened Mmu
  import opened Vistas
  import opened MaquinaAbstracta

  /** The context list with the table of context `i` replaced. */
  function ConTabla(cs: seq<Contexto>, i: nat, t: Tabla): seq<Contexto>
    requires i < |cs|
  {
    cs[i := Entrada(cs[i].pid, t)]
  }

  // ---------------------------------------------------------------- tiling

  /** `nuevos` was carved out of the free bytes of `antes`, leaving `despues`: the chosen
      ranges are disjoint and were free. */
  ghost predicate Reservado(antes: seq<Hueco>, despues: seq<Hueco>, nuevos: Tabla) {
    forall z {:trigger Desplegar(z)} :: Desplegar(z) ==> Dirs(antes) == Dirs(despues) + DirsTabla(nuevos)
  }

  /** Each segment in turn took the hole the policy chooses among those its predecessors left. */
  ghost predicate Colocados(antes: seq<Hueco>, despues: seq<Hueco>, nuevos: Tabla, mejor: bool)
    decreases |nuevos|
  {
    var n := |nuevos| - 1;
    if n < 0 then despues == antes
    else exists medio: seq<Hueco>, h: nat {:trigger Elegido(medio, h, nuevos[n].limite, mejor)} ::
      && Colocados(antes, medio, nuevos[..n], mejor)
      && Elegido(medio, h, nuevos[n].limite, mejor) && nuevos[n].base == medio[h].base
      && SeAchica(medio, despues, h, nuevos[n].limite)
  }

  lemma {:induction false} ColocarUno(antes: seq<Hueco>, medio: seq<Hueco>, despues: seq<Hueco>, nuevos: Tabla, mejor: bool, h: nat, id: int, tam: uint32)
    requires Colocados(antes, medio, nuevos, mejor) && Elegido(medio, h, tam, mejor) && SeAchica(medio, despues, h, tam)
    ensures Colocados(antes, despues, nuevos + [Segmento(id, medio[h].base, tam)], mejor)
  {
    var r := nuevos + [Segmento(id, medio[h].base, tam)];
    assert r[..|nuevos|] == nuevos && r[|r| - 1].limite == tam;
  }

  /** The holes that freeing a table appends, one per segment. */
  function HuecosDe(t: Tabla): (hs: seq<Hueco>) {
    if |t| == 0 then [] else HuecosDe(t[..|t| - 1]) + [Hueco(t[|t| - 1].base, t[|t| - 1].limite)]
  }

  lemma {:induction false} HuecosDeHasta(t: Tabla, k: nat)
    requires k < |t|
    ensures HuecosDe(t[..k + 1]) == HuecosDe(t[..k]) + [Hueco(t[k].base, t[k].limite)]
  {
    SinUltimo(t, k);
  }

  /** Each segment's range is appended as a hole of its own, in table order. */
  ghost predicate SueltaEnOrden(hs: seq<Hueco>, r: seq<Hueco>, t: Tabla) {
    && |r| == |hs| + |t| && (forall k :: 0 <= k < |hs| ==> r[k] == hs[k])
    && forall k :: 0 <= k < |t| ==> r[|hs| + k].base == t[k].base && r[|hs| + k].tamanio == t[k].limite
  }

  lemma {:induction false} HuecosDeEnOrden(hs: seq<Hueco>, t: Tabla)
    ensures SueltaEnOrden(hs, hs + HuecosDe(t), t)
    decreases |t|
  {
    if |t| > 0 {
      HuecosDeEnOrden(hs, t[..|t| - 1]);
      assert forall k :: 0 <= k < |t| - 1 ==> t[..|t| - 1][k] == t[k];
    }
  }

  lemma {:induction false} HuecosDeCubren(t: Tabla)
    ensures Dirs(HuecosDe(t)) == DirsTabla(t)
    decreases |t|
  {
    if |t| > 0 {
      HuecosDeCubren(t[..|t| - 1]);
      LiberarAgrega(HuecosDe(t[..|t| - 1]), Hueco(t[|t| - 1].base, t[|t| - 1].limite));
    }
  }

  lemma {:induction false} ReservarNada(hs: seq<Hueco>)
    ensures Reservado(hs, hs, [])
  {
    forall z {:trigger Desplegar(z)} | Desplegar(z) ensures Dirs(hs) == Dirs(hs) + DirsTabla([]) {
      SumaVacia(Dirs(hs));
    }
  }

  lemma {:induction false} SumaVacia(a: multiset<int>)
    ensures a == a + multiset{}
  {
  }

  lemma {:induction false} ReservarUno(antes: seq<Hueco>, hs: seq<Hueco>, nuevos: Tabla, h: nat, id: int, tam: uint32)
    requires Reservado(antes, hs, nuevos) && Acotados(hs) && h < |hs| && tam <= hs[h].tamanio
    ensures Reservado(antes, Ocupada(hs, h, tam), nuevos + [Segmento(id, hs[h].base, tam)])
  {
    var seg := Segmento(id, hs[h].base, tam);
    assert Desplegar(0);
    OcuparSepara(hs, h, tam);
    TablaConcat(nuevos, [seg]);
    TablaUno(seg);
    Reordenar(Dirs(Ocupada(hs, h, tam)), Zona(seg), DirsTabla(nuevos));
    Asociar(Dirs(Ocupada(hs, h, tam)), DirsTabla(nuevos), Zona(seg));
  }

  /** Giving back everything reserved restores the set of free bytes and the free total,
      though the hole list may be more fragmented than before. */
  lemma {:induction false} DevolverReserva(antes: seq<Hueco>, hs: seq<Hueco>, nuevos: Tabla, cs: seq<Contexto>, total: int)
    requires Reservado(antes, hs, nuevos) && Teselado(antes, cs, total)
    ensures Dirs(hs + HuecosDe(nuevos)) == Dirs(antes) && Suma(hs + HuecosDe(nuevos)) == Suma(antes)
    ensures Teselado(hs + HuecosDe(nuevos), cs, total)
  {
    assert Desplegar(0);
    HuecosDeCubren(nuevos);
    DirsConcat(hs, HuecosDe(nuevos));
    CardinalDirs(antes);
    CardinalDirs(hs + HuecosDe(nuevos));
  }

  /** Recording the reserved segments in one table keeps the tiling. */
  lemma {:induction false} AnotarReserva(antes: seq<Hueco>, hs: seq<Hueco>, nuevos: Tabla, cs: seq<Contexto>, total: int, i: nat)
    requires Reservado(antes, hs, nuevos) && Teselado(antes, cs, total) && i < |cs|
    ensures Teselado(hs, ConTabla(cs, i, cs[i].v + nuevos), total)
  {
    assert Desplegar(0);
    var c := Entrada(cs[i].pid, cs[i].v + nuevos);
    CtxsCambiar(cs, i, c);
    TablaConcat(cs[i].v, nuevos);
    AlgebraAnotar(Dirs(antes), Dirs(hs), DirsCtxs(cs), DirsCtxs(cs[i := c]), DirsTabla(cs[i].v), DirsTabla(nuevos));
  }

  lemma {:induction false} AlgebraAnotar(l: multiset<int>, l': multiset<int>, a: multiset<int>, b: multiset<int>,
                                         t: multiset<int>, n: multiset<int>)
    requires l == l' + n && b + t == a + (t + n)
    ensures l' + b == l + a
  {
    forall e ensures (l' + b)[e] == (l + a)[e] {
      assert (b + t)[e] == (a + (t + n))[e];
    }
  }

  lemma {:induction false} AlgebraLiberar(l: multiset<int>, a: multiset<int>, b: multiset<int>, t: multiset<int>, z: multiset<int>)
    requires b + (t + z) == a + t
    ensures (l + z) + b == l + a
  {
    forall e ensures ((l + z) + b)[e] == (l + a)[e] {
      assert (b + (t + z))[e] == (a + t)[e];
    }
  }

  lemma {:induction false} EliminarTesela(hs: seq<Hueco>, cs: seq<Contexto>, total: int, i: nat, j: nat)
    requires Teselado(hs, cs, total) && i < |cs| && j < |cs[i].v|
    ensures Teselado(hs + [Hueco(cs[i].v[j].base, cs[i].v[j].limite)], ConTabla(cs, i, Sacar(cs[i].v, j)), total)
  {
    assert Desplegar(0);
    var s, c := cs[i].v[j], Entrada(cs[i].pid, Sacar(cs[i].v, j));
    LiberarAgrega(hs, Hueco(s.base, s.limite));
    TablaSeparar(cs[i].v, j);
    CtxsCambiar(cs, i, c);
    AlgebraLiberar(Dirs(hs), DirsCtxs(cs), DirsCtxs(cs[i := c]), DirsTabla(c.v), Zona(s));
  }

  lemma {:induction false} LiberarTesela(hs: seq<Hueco>, cs: seq<Contexto>, total: int, i: nat)
    requires Teselado(hs, cs, total) && i < |cs|
    ensures Teselado(hs + HuecosDe(cs[i].v), ConTabla(cs, i, []), total)
  {
    assert Desplegar(0);
    var c: Contexto := Entrada(cs[i].pid, []);
    HuecosDeCubren(cs[i].v);
    DirsConcat(hs, HuecosDe(cs[i].v));
    CtxsCambiar(cs, i, c);
    Conmutar(DirsTabla([]), DirsTabla(cs[i].v));
    SumaVacia(DirsTabla(cs[i].v));
    AlgebraLiberar(Dirs(hs), DirsCtxs(cs), DirsCtxs(cs[i := c]), DirsTabla([]), DirsTabla(cs[i].v));
  }

  lemma {:induction false} ContextoNuevoTesela(hs: seq<Hueco>, cs: seq<Contexto>, total: int, pid: int)
    requires Teselado(hs, cs, total)
    ensures Teselado(hs, cs + [Entrada(pid, [])], total)
  {
    assert Desplegar(0);
    CtxsConcat(cs, [Entrada(pid, [])]);
    CtxsUno(Entrada(pid, []));
    SumaVacia(DirsCtxs(cs));
  }

  lemma {:induction false} SacarContextoTesela(hs: seq<Hueco>, cs: seq<Contexto>, total: int, i: nat)
    requires Teselado(hs, cs, total) && i < |cs| && cs[i].v == []
    ensures Teselado(hs, Sacar(cs, i), total)
  {
    assert Desplegar(0);
    CtxsSeparar(cs, i);
    SumaVacia(DirsCtxs(Sacar(cs, i)));
  }

  lemma {:induction false} StickTesela(hs: seq<Hueco>, cs: seq<Contexto>, total: uint32, bytes: uint32)
    requires Teselado(hs, cs, total) && total + bytes < LIMITE_32
    ensures Teselado(Extendida(hs, total, bytes), cs, total + bytes)
  {
    assert Desplegar(0);
    ExtenderAgrega(hs, total, bytes);
    PartirIntervalo(0, total, total + bytes);
    Reordenar(Dirs(hs), Intervalo(total, total + bytes), DirsCtxs(cs));
  }

  lemma {:induction false} ReconstruirTesela(cs: seq<Contexto>, destino: uint32, total: uint32)
    requires DirsCtxs(cs) == Intervalo(0, destino) && destino <= total
    ensures Teselado(Reconstruida(destino, total), cs, total) && destino == SumaCtxs(cs)
  {
    ReconstruirCubre(destino, total);
    PartirIntervalo(0, destino, total);
    Conmutar(DirsCtxs(cs), Dirs(Reconstruida(destino, total)));
    CardinalCtxs(cs);
    CardinalIntervalo(0, destino);
  }

  lemma {:induction false} VacioTeselado()
    ensures Teselado([], [], 0)
  {
    IgualesPunto(Intervalo(0, 0), multiset{});
    SumaVacia(multiset{});
  }

  // ---------------------------------------------------------------- segments in memory

  ghost predicate TablaBien(t: Tabla, total: int) {
    forall j {:trigger Punto(j)} :: Punto(j) && 0 <= j < |t| ==>
      (t[j].limite == 0 || t[j].base + t[j].limite <= total) && t[j].base + t[j].limite < LIMITE_32
  }

  lemma {:induction false} SegmentosBien(hs: seq<Hueco>, cs: seq<Contexto>, total: int, i: nat)
    requires Teselado(hs, cs, total) && 0 <= total < LIMITE_32 && i < |cs|
    ensures TablaBien(cs[i].v, total)
  {
    assert Desplegar(0);
    forall j {:trigger Punto(j)} | Punto(j) && 0 <= j < |cs[i].v|
      ensures (cs[i].v[j].limite == 0 || cs[i].v[j].base + cs[i].v[j].limite <= total)
           && cs[i].v[j].base + cs[i].v[j].limite < LIMITE_32
    {
      if cs[i].v[j].limite > 0 {
        SegmentoEnMemoria(cs, total, Ref(i, j));
      }
    }
  }

  lemma {:induction false} IndiceEnDatos(t: Tabla, mem: seq<byte>, id: int)
    ensures IndiceDato(Datos(t, mem), id) == IndiceSegmento(t, id)
  {
    var d := Datos(t, mem);
    var i, j := IndiceSegmento(t, id), IndiceDato(d, id);
    assert Punto(i) && Punto(j);
    assert i < |t| ==> d[i].id == t[i].id;
    assert j < |t| ==> d[j].id == t[j].id;
  }

  /** A change confined to segment `r` leaves every other segment's bytes alone. */
  lemma {:induction false} EscrituraAjena(hs: seq<Hueco>, cs: seq<Contexto>, mem: seq<byte>, mem': seq<byte>,
                                          r: Ref, lo: nat, hi: nat, q: Ref)
    requires Teselado(hs, cs, |mem|) && RefValida(cs, r) && RefValida(cs, q) && q != r
    requires FueraIgual(mem, mem', lo, hi)
    requires lo == hi || Seg(cs, r).base <= lo <= hi <= Seg(cs, r).base + Seg(cs, r).limite
    ensures Bytes(Seg(cs, q), mem') == Bytes(Seg(cs, q), mem)
  {
    var s := Seg(cs, q);
    if s.limite > 0 && lo < hi {
      assert Desplegar(0);
      SegmentosDisjuntos(cs, |mem|, r, q);
    } else if lo == hi && s.base + s.limite <= |mem| {
      SinCambios(mem, mem', lo, hi);
    }
    if s.limite == 0 || lo < hi {
      BytesFuera(s, mem, mem', lo, hi);
    }
  }

  lemma {:induction false} SinCambios(mem: seq<byte>, mem': seq<byte>, lo: nat, hi: nat)
    requires FueraIgual(mem, mem', lo, hi) && lo >= hi
    ensures mem' == mem
  {
    SecuenciasIguales(mem', mem);
  }

  // ---------------------------------------------------------------- swap

  /** Unrelated block writes do not change what a suspended process has in swap. */
  lemma {:induction false} GuardadoEstable(sus: seq<ProcesoSwap>, u: seq<bool>, dev: seq<seq<byte>>, dev': seq<seq<byte>>, pid: int)
    requires Pertenencia(sus, u) && BloquesIntactos(u, dev, dev')
    ensures Guardado(sus, pid, dev') == Guardado(sus, pid, dev)
  {
    var i := Indice(sus, pid);
    if i < |sus| {
      assert Desplegar(0);
      ProcesosSeparar(sus, i);
      SegsEstables(sus[i].v, u, BloquesDe(Sacar(sus, i)), dev, dev');
    }
  }

  /** No block marked in `u` was rewritten. */
  ghost predicate BloquesIntactos(u: seq<bool>, dev: seq<seq<byte>>, dev': seq<seq<byte>>) {
    |dev| == |dev'| == |u| && forall b :: 0 <= b < |u| && u[b] ==> dev'[b] == dev[b]
  }

  lemma {:induction false} BloquesIntactosLuego(u0: seq<bool>, dev0: seq<seq<byte>>, u: seq<bool>, dev: seq<seq<byte>>, dev': seq<seq<byte>>)
    requires BloquesIntactos(u0, dev0, dev) && BloquesIntactos(u, dev, dev')
    requires forall b :: 0 <= b < |u0| && u0[b] ==> u[b]
    ensures BloquesIntactos(u0, dev0, dev')
  {
  }

  lemma {:induction false} SegsEstables(l: seq<SegmentoSwap>, u: seq<bool>, resto: multiset<int>,
                                        dev: seq<seq<byte>>, dev': seq<seq<byte>>)
    requires Marcados(u) == resto + BloquesDeSegs(l) && BloquesIntactos(u, dev, dev')
    ensures DatosSwap(l, dev') == DatosSwap(l, dev)
  {
    forall j, k | 0 <= j < |l| && 0 <= k < |l[j].bloques| && 0 <= l[j].bloques[k] < |dev|
      ensures dev'[l[j].bloques[k]] == dev[l[j].bloques[k]]
    {
      SegsMarcados(l, u, resto, j, k);
    }
    DatosSwapEstable(l, dev, dev');
  }

  /** Swap blocks a table needs. */
  function Necesarios(t: Tabla, tam: int): nat
    requires tam > 0
  {
    if |t| == 0 then 0 else Necesarios(t[..|t| - 1], tam) + Techo(t[|t| - 1].limite, tam)
  }

  lemma {:induction false} NecesariosHasta(t: Tabla, k: nat, tam: int)
    requires tam > 0 && k < |t|
    ensures Necesarios(t[..k + 1], tam) == Necesarios(t[..k], tam) + Techo(t[k].limite, tam)
    ensures Necesarios(t[..k + 1], tam) <= Necesarios(t, tam)
  {
    SinUltimo(t, k);
    NecesariosPrefijo(t, k + 1, tam);
  }

  lemma {:induction false} NecesariosPrefijo(t: Tabla, k: nat, tam: int)
    requires tam > 0 && k <= |t|
    ensures Necesarios(t[..k], tam) <= Necesarios(t, tam)
    decreases |t|
  {
    if k < |t| {
      NecesariosPrefijo(t[..|t| - 1], k, tam);
      assert t[..|t| - 1][..k] == t[..k];
    } else {
      assert t[..k] == t;
    }
  }

  /** What a suspension computes fits: the count of blocks, in an int, and the copy of each segment. */
  ghost predicate Suspendible(t: Tabla, tam: int) {
    && tam > 0 && Necesarios(t, tam) < 0x8000_0000
    && forall j {:trigger Punto(j)} :: Punto(j) && 0 <= j < |t| ==> Contable(t[j].limite, tam)
  }

  /** In a memory below 2^31 bytes it always does. */
  lemma {:induction false} SuspendibleHasta2G(hs: seq<Hueco>, cs: seq<Contexto>, total: nat, i: nat, tam: int32)
    requires tam > 0 && Teselado(hs, cs, total) && total < 0x8000_0000 && i < |cs|
    ensures Suspendible(cs[i].v, tam)
  {
    NecesariosCaben(hs, cs, total, i, tam);
    SegmentosBien(hs, cs, total, i);
    forall j {:trigger Punto(j)} | Punto(j) && 0 <= j < |cs[i].v| ensures Contable(cs[i].v[j].limite, tam) {
      ContableHasta2G(cs[i].v[j].limite, tam);
    }
  }

  /** The block count is at most the size of the memory. */
  lemma {:induction false} NecesariosCaben(hs: seq<Hueco>, cs: seq<Contexto>, total: nat, i: nat, tam: int)
    requires tam > 0 && Teselado(hs, cs, total) && i < |cs|
    ensures Necesarios(cs[i].v, tam) <= total
  {
    assert Desplegar(0);
    NecesariosSuma(cs[i].v, tam);
    CtxsSeparar(cs, i);
    CardinalTabla(cs[i].v);
    CardinalIntervalo(0, total);
    assert |DirsCtxs(cs)| >= |DirsTabla(cs[i].v)|;
  }

  lemma {:induction false} NecesariosSuma(t: Tabla, tam: int)
    requires tam > 0
    ensures Necesarios(t, tam) <= SumaTabla(t)
    decreases |t|
  {
    if |t| > 0 {
      NecesariosSuma(t[..|t| - 1], tam);
      TechoExacto(t[|t| - 1].limite, tam);
    }
  }

  /**
    Phase one of a suspension after `|l|` segments: exactly the blocks of the copies were
    added to the bitmap, the copies hold the segments, and no block in use was rewritten.
  */
  ghost predicate Copia(u0: seq<bool>, dev0: seq<seq<byte>>, u: seq<bool>, dev: seq<seq<byte>>,
                        l: seq<SegmentoSwap>, t: Tabla, mem: seq<byte>, tam: int)
    requires tam > 0
  {
    && |l| <= |t| && SegsValidos(l, tam)
    && BloquesIntactos(u0, dev0, dev) && |u| == |u0|
    && (forall b :: 0 <= b < |u0| && u0[b] ==> u[b])
    && Libres(u) + Necesarios(t[..|l|], tam) == Libres(u0)
    && DatosSwap(l, dev) == Datos(t[..|l|], mem)
    && CopiaMarcada(u0, u, l)
  }

  ghost predicate CopiaMarcada(u0: seq<bool>, u: seq<bool>, l: seq<SegmentoSwap>) {
    forall z {:trigger Desplegar(z)} :: Desplegar(z) ==> Marcados(u) == Marcados(u0) + BloquesDeSegs(l)
  }

  lemma {:induction false} CopiaInicial(u0: seq<bool>, dev0: seq<seq<byte>>, t: Tabla, mem: seq<byte>, tam: int)
    requires tam > 0 && |u0| == |dev0|
    ensures Copia(u0, dev0, u0, dev0, [], t, mem, tam)
  {
    SumaVacia(Marcados(u0));
    assert DatosSwap([], dev0) == Datos(t[..0], mem);
  }

  lemma {:induction false} CopiaPaso(u0: seq<bool>, dev0: seq<seq<byte>>, u: seq<bool>, dev: seq<seq<byte>>,
                                     u': seq<bool>, dev': seq<seq<byte>>,
                                     l: seq<SegmentoSwap>, ss: SegmentoSwap, t: Tabla, mem: seq<byte>, tam: int)
    requires tam > 0 && Copia(u0, dev0, u, dev, l, t, mem, tam) && |l| < |t|
    requires |u'| == |u| && BloquesIntactos(u, dev, dev')
    requires forall b :: 0 <= b < |u| && u[b] ==> u'[b]
    requires Marcados(u') == Marcados(u) + Elementos(ss.bloques)
    requires Libres(u') + |ss.bloques| == Libres(u)
    requires SegValido(ss, tam) && ss.id == t[|l|].id && ss.limite == t[|l|].limite
    requires BytesSwap(ss, dev') == Bytes(t[|l|], mem)
    ensures Copia(u0, dev0, u', dev', l + [ss], t, mem, tam)
  {
    var k := |l|;
    NecesariosHasta(t, k, tam);
    CopiaPasoMarcada(u0, u, u', l, ss);
    assert Desplegar(0);
    SegsEstables(l, u, Marcados(u0), dev, dev');
    var a, b := DatosSwap(l + [ss], dev'), Datos(t[..k + 1], mem);
    forall j {:trigger Punto(j)} | Punto(j) && 0 <= j < |a| ensures a[j] == b[j] {
      if j < k {
        assert DatosSwap(l, dev')[j] == Datos(t[..k], mem)[j];
      }
    }
    SecuenciasIguales(a, b);
  }

  lemma {:induction false} CopiaPasoMarcada(u0: seq<bool>, u: seq<bool>, u': seq<bool>, l: seq<SegmentoSwap>, ss: SegmentoSwap)
    requires CopiaMarcada(u0, u, l) && Marcados(u') == Marcados(u) + Elementos(ss.bloques)
    ensures CopiaMarcada(u0, u', l + [ss])
  {
    assert Desplegar(0);
    SegsAgregar(l, ss);
    Asociar(Marcados(u0), BloquesDeSegs(l), Elementos(ss.bloques));
  }

  /** Success: the new entry owns exactly the blocks that were taken. */
  lemma {:induction false} SuspenderPertenencia(sus: seq<ProcesoSwap>, u0: seq<bool>, u: seq<bool>, l: seq<SegmentoSwap>, pid: int)
    requires Pertenencia(sus, u0) && CopiaMarcada(u0, u, l)
    ensures Pertenencia(sus + [Entrada(pid, l)], u)
  {
    assert Desplegar(0);
    ProcesosAgregar(sus, Entrada(pid, l));
  }

  /** Success: the process's store is the one it had, now in swap; the others are as before. */
  lemma {:induction false} SuspenderVista(cs: seq<Contexto>, sus: seq<ProcesoSwap>, mem: seq<byte>, u0: seq<bool>,
                                          dev0: seq<seq<byte>>, dev: seq<seq<byte>>, i: nat, l: seq<SegmentoSwap>)
    requires Unicos(cs) && i < |cs| && !Esta(sus, cs[i].pid) && Pertenencia(sus, u0) && BloquesIntactos(u0, dev0, dev)
    requires DatosSwap(l, dev) == Datos(cs[i].v, mem)
    ensures var sus' := sus + [Entrada(cs[i].pid, l)];
      VistaDe(ConTabla(cs, i, []), sus', mem, dev)
        == VistaDe(cs, sus, mem, dev0)[i := Entrada(cs[i].pid, Almacen([], Some(Datos(cs[i].v, mem))))]
  {
    var e, cs' := Entrada(cs[i].pid, l), ConTabla(cs, i, []);
    forall k | 0 <= k < |cs| && k != i
      ensures AlmacenDe(cs'[k], sus + [e], mem, dev) == AlmacenDe(cs[k], sus, mem, dev0)
    {
      IndiceAgregar(sus, e, cs[k].pid);
      GuardadoEstable(sus, u0, dev0, dev, cs[k].pid);
    }
    IndiceAgregar(sus, e, cs[i].pid);
    VistaUna(cs, sus, mem, dev0, cs', sus + [e], mem, dev, i);
    assert Datos([], mem) == [];
  }

  /** A failed suspension may have rewritten free blocks only: no view changes. */
  lemma {:induction false} RollbackVista(cs: seq<Contexto>, sus: seq<ProcesoSwap>, mem: seq<byte>, u0: seq<bool>,
                                         dev0: seq<seq<byte>>, dev: seq<seq<byte>>)
    requires Pertenencia(sus, u0) && BloquesIntactos(u0, dev0, dev)
    ensures VistaDe(cs, sus, mem, dev) == VistaDe(cs, sus, mem, dev0)
  {
    forall k | 0 <= k < |cs| ensures AlmacenDe(cs[k], sus, mem, dev) == AlmacenDe(cs[k], sus, mem, dev0) {
      GuardadoEstable(sus, u0, dev0, dev, cs[k].pid);
    }
    VistaMisma(cs, sus, mem, dev0, cs, sus, mem, dev);
  }
}
