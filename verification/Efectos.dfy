/** Each request on Kernel Memory's state is one step of the abstract machine. */
module Efectos {
  import opened Tipos
  import opened Rangos
  import opened Huecos
  import opened Swap
  import opened Mmu
  import opened Vistas
  import opened Compactacion
  import opened MaquinaAbstracta
  import opened Tesela
  import opened Restauracion

  ghost predicate RamValida(hs: seq<Hueco>, cs: seq<Contexto>, total: int) {
    Acotados(hs) && Unicos(cs) && Teselado(hs, cs, total)
  }

  /** Every process with an entry in swap still has a context. */
  ghost predicate Propios(cs: seq<Contexto>, sus: seq<ProcesoSwap>) {
    forall k :: 0 <= k < |sus| ==> Esta(cs, sus[k].pid)
  }

  /** The abstract machine that tables, swap entries, memory bytes and swap blocks stand for. */
  ghost function MaqDe(cs: seq<Contexto>, sus: seq<ProcesoSwap>, mem: seq<byte>, dev: seq<seq<byte>>): Maquina {
    Maquina(|mem|, VistaDe(cs, sus, mem, dev))
  }

  /** The abstract machine finds a process where the context list has it. */
  lemma {:induction false} EnVista(cs: seq<Contexto>, sus: seq<ProcesoSwap>, mem: seq<byte>, dev: seq<seq<byte>>, pid: int)
    ensures Indice(VistaDe(cs, sus, mem, dev), pid) == Indice(cs, pid)
    ensures var i := Indice(cs, pid); i < |cs| ==>
      VistaDe(cs, sus, mem, dev)[i] == Entrada(pid, AlmacenDe(cs[i], sus, mem, dev))
  {
    var v := VistaDe(cs, sus, mem, dev);
    forall k | 0 <= k < |cs| ensures cs[k].pid == v[k].pid {
      assert Punto(k);
    }
    IndiceMismosPids(cs, v, pid);
    assert Punto(Indice(cs, pid));
  }

  lemma {:induction false} EnVistaIndice(cs: seq<Contexto>, sus: seq<ProcesoSwap>, mem: seq<byte>, dev: seq<seq<byte>>, i: nat)
    requires i < |cs|
    ensures VistaDe(cs, sus, mem, dev)[i] == Entrada(cs[i].pid, AlmacenDe(cs[i], sus, mem, dev))
  {
    assert Punto(i);
  }

  lemma {:induction false} PropiosConTabla(cs: seq<Contexto>, i: nat, t: Tabla, sus: seq<ProcesoSwap>)
    requires i < |cs|
    ensures Unicos(ConTabla(cs, i, t)) == Unicos(cs)
    ensures Propios(ConTabla(cs, i, t), sus) == Propios(cs, sus)
  {
    MismosPids(cs, ConTabla(cs, i, t));
  }

  lemma {:induction false} TieneContexto(cs: seq<Contexto>, sus: seq<ProcesoSwap>, pid: int)
    requires Propios(cs, sus) && Esta(sus, pid)
    ensures Esta(cs, pid)
  {
    assert Esta(cs, sus[Indice(sus, pid)].pid);
  }

  // ---------------------------------------------------------------- processes and sticks

  lemma {:induction false} NuevoEfecto(cfg: Config, hs: seq<Hueco>, cs: seq<Contexto>, sus: seq<ProcesoSwap>,
                                       mem: seq<byte>, dev: seq<seq<byte>>, pid: int)
    requires RamValida(hs, cs, |mem|) && Propios(cs, sus) && !Esta(cs, pid)
    ensures var cs' := cs + [Entrada(pid, [])];
      && RamValida(hs, cs', |mem|) && Propios(cs', sus)
      && Paso(cfg, MaqDe(cs, sus, mem, dev), NuevoProceso(pid), RBool(true), MaqDe(cs', sus, mem, dev))
  {
    var e: Contexto := Entrada(pid, []);
    ContextoNuevoTesela(hs, cs, |mem|, pid);
    IndiceAgregar(cs, e, pid);
    forall k | 0 <= k < |sus| ensures Esta(cs + [e], sus[k].pid) {
      IndiceAgregar(cs, e, sus[k].pid);
    }
    if Esta(sus, pid) {
      TieneContexto(cs, sus, pid);
    }
    SecuenciasIguales(VistaDe(cs + [e], sus, mem, dev), VistaDe(cs, sus, mem, dev) + [Entrada(pid, Almacen([], None))]);
  }

  lemma {:induction false} StickEfecto(cfg: Config, hs: seq<Hueco>, cs: seq<Contexto>, sus: seq<ProcesoSwap>,
                                       mem: seq<byte>, dev: seq<seq<byte>>, contenido: seq<byte>)
    requires RamValida(hs, cs, |mem|) && |mem| + |contenido| < LIMITE_32
    ensures Teselado(Extendida(hs, |mem|, |contenido|), cs, |mem| + |contenido|)
    ensures Paso(cfg, MaqDe(cs, sus, mem, dev), AgregarStick(contenido), RBool(true), MaqDe(cs, sus, mem + contenido, dev))
  {
    StickTesela(hs, cs, |mem|, |contenido|);
    forall k | 0 <= k < |cs| ensures AlmacenDe(cs[k], sus, mem + contenido, dev) == AlmacenDe(cs[k], sus, mem, dev) {
      SegmentosBien(hs, cs, |mem|, k);
      forall j | 0 <= j < |cs[k].v| ensures Bytes(cs[k].v[j], mem + contenido) == Bytes(cs[k].v[j], mem) {
        assert Punto(j);
        BytesAmpliada(cs[k].v[j], mem, contenido);
      }
      DatosIguales(cs[k].v, mem + contenido, cs[k].v, mem);
    }
    VistaMisma(cs, sus, mem, dev, cs, sus, mem + contenido, dev);
  }

  lemma {:induction false} BytesAmpliada(s: Segmento, mem: seq<byte>, contenido: seq<byte>)
    requires s.limite == 0 || s.base + s.limite <= |mem|
    ensures Bytes(s, mem + contenido) == Bytes(s, mem)
  {
  }

  lemma {:induction false} FinalizarEfecto(cfg: Config, hs: seq<Hueco>, cs: seq<Contexto>, sus: seq<ProcesoSwap>,
                                           sus': seq<ProcesoSwap>, mem: seq<byte>, dev: seq<seq<byte>>, i: nat)
    requires Unicos(cs) && Unicos(sus) && Propios(cs, sus) && i < |cs|
    requires Teselado(hs, ConTabla(cs, i, []), |mem|)
    requires sus' == if Esta(sus, cs[i].pid) then Sacar(sus, Indice(sus, cs[i].pid)) else sus
    ensures var cs' := Sacar(ConTabla(cs, i, []), i);
      && Unicos(cs') && Teselado(hs, cs', |mem|) && Propios(cs', sus')
      && Paso(cfg, MaqDe(cs, sus, mem, dev), Finalizar(cs[i].pid), RBool(true), MaqDe(cs', sus', mem, dev))
  {
    SacarContextoTesela(hs, ConTabla(cs, i, []), |mem|, i);
    FinalizarHuerfanos(cs, i, sus, sus');
    FinalizarVista(cs, i, sus, sus', mem, dev);
    EnVista(cs, sus, mem, dev, cs[i].pid);
    IndiceDe(cs, i);
  }

  // ---------------------------------------------------------------- segments

  lemma {:induction false} CrearEfecto(hs: seq<Hueco>, cs: seq<Contexto>, sus: seq<ProcesoSwap>, mem: seq<byte>,
                                       dev: seq<seq<byte>>, i: nat, h: nat, id: int, tam: uint32)
    requires RamValida(hs, cs, |mem|) && |mem| < LIMITE_32 && i < |cs| && h < |hs| && tam <= hs[h].tamanio
    ensures var seg := Segmento(id, hs[h].base, tam);
      var cs' := ConTabla(cs, i, cs[i].v + [seg]);
      && Reservado(hs, Ocupada(hs, h, tam), [seg])
      && Teselado(Ocupada(hs, h, tam), cs', |mem|)
      && |Bytes(seg, mem)| == tam
      && MaqDe(cs', sus, mem, dev) == Poner(MaqDe(cs, sus, mem, dev), i,
           Almacen(Datos(cs[i].v, mem) + [Dato(id, Bytes(seg, mem))], Guardado(sus, cs[i].pid, dev)))
  {
    var seg := Segmento(id, hs[h].base, tam);
    var cs' := ConTabla(cs, i, cs[i].v + [seg]);
    ReservarNada(hs);
    ReservarUno(hs, hs, [], h, id, tam);
    assert [] + [seg] == [seg];
    AnotarReserva(hs, Ocupada(hs, h, tam), [seg], cs, |mem|, i);
    DatosAgregar(cs[i].v, seg, mem);
    CambiarTabla(cs, i, cs[i].v + [seg], sus, mem, dev);
    EnVistaIndice(cs, sus, mem, dev, i);
    SegmentosBien(Ocupada(hs, h, tam), cs', |mem|, i);
    assert Punto(|cs[i].v|) && cs'[i].v[|cs[i].v|] == seg;
  }

  lemma {:induction false} CrearPaso(cfg: Config, m: Maquina, m': Maquina, pid: int, i: nat, id: int, tam: uint32, bytes: seq<byte>)
    requires i < |m.procs| && i == Indice(m.procs, pid) && |bytes| == tam
    requires !(cfg.segmentMax > 0 && tam > cfg.segmentMax) && tam <= Libre(m)
    requires m' == Poner(m, i, Almacen(m.procs[i].v.residente + [Dato(id, bytes)], m.procs[i].v.guardado))
    ensures PasoCrear(cfg, m, pid, id, tam, CrearOk, m')
  {
  }

  lemma {:induction false} EliminarEfecto(cfg: Config, hs: seq<Hueco>, cs: seq<Contexto>, sus: seq<ProcesoSwap>, mem: seq<byte>,
                                          dev: seq<seq<byte>>, pid: int, id: int)
    requires RamValida(hs, cs, |mem|) && |mem| < LIMITE_32
    requires Esta(cs, pid)
    requires IndiceSegmento(cs[Indice(cs, pid)].v, id) < |cs[Indice(cs, pid)].v|
    ensures var i := Indice(cs, pid);
      var j := IndiceSegmento(cs[i].v, id);
      var s := cs[i].v[j];
      var cs' := ConTabla(cs, i, Sacar(cs[i].v, j));
      && s.base + s.limite < LIMITE_32
      && Teselado(hs + [Hueco(s.base, s.limite)], cs', |mem|)
      && Paso(cfg, MaqDe(cs, sus, mem, dev), Eliminar(pid, id), RBool(true), MaqDe(cs', sus, mem, dev))
  {
    var i := Indice(cs, pid);
    var j := IndiceSegmento(cs[i].v, id);
    SegmentosBien(hs, cs, |mem|, i);
    assert Punto(j);
    EliminarTesela(hs, cs, |mem|, i, j);
    DatosSacar(cs[i].v, j, mem);
    CambiarTabla(cs, i, Sacar(cs[i].v, j), sus, mem, dev);
    EnVista(cs, sus, mem, dev, pid);
    IndiceEnDatos(cs[i].v, mem, id);
  }

  lemma {:induction false} EliminarRechazo(cfg: Config, cs: seq<Contexto>, sus: seq<ProcesoSwap>, mem: seq<byte>,
                                           dev: seq<seq<byte>>, pid: int, id: int)
    requires Esta(cs, pid) ==> IndiceSegmento(cs[Indice(cs, pid)].v, id) == |cs[Indice(cs, pid)].v|
    ensures var m := MaqDe(cs, sus, mem, dev); Paso(cfg, m, Eliminar(pid, id), RBool(false), m)
  {
    EnVista(cs, sus, mem, dev, pid);
    if Esta(cs, pid) {
      IndiceEnDatos(cs[Indice(cs, pid)].v, mem, id);
    }
  }

  /** Compaction is invisible. */
  lemma {:induction false} CompactarEfecto(cs0: seq<Contexto>, cs: seq<Contexto>, sus: seq<ProcesoSwap>,
                                           mem0: seq<byte>, mem: seq<byte>, dev: seq<seq<byte>>, orden: seq<Ref>)
    requires Completa(cs0, orden) && Compactado(cs0, mem0, orden, |orden|, cs, mem)
    ensures MaqDe(cs, sus, mem, dev) == MaqDe(cs0, sus, mem0, dev)
    ensures Unicos(cs) == Unicos(cs0) && Propios(cs, sus) == Propios(cs0, sus)
  {
    forall i | 0 <= i < |cs0| ensures Datos(cs0[i].v, mem0) == Datos(cs[i].v, mem) {
      TablasIguales(cs0, mem0, orden, cs, mem, i);
    }
    VistaMisma(cs0, sus, mem0, dev, cs, sus, mem, dev);
    MismosPids(cs0, cs);
  }

  // ---------------------------------------------------------------- suspension

  lemma {:induction false} SuspenderEfecto(cfg: Config, hs: seq<Hueco>, cs: seq<Contexto>, sus: seq<ProcesoSwap>, mem: seq<byte>,
                                           u0: seq<bool>, u: seq<bool>, dev0: seq<seq<byte>>, dev: seq<seq<byte>>,
                                           pid: int, l: seq<SegmentoSwap>, tam: int)
    requires RamValida(hs, cs, |mem|) && Propios(cs, sus) && Unicos(sus) && Esta(cs, pid) && !Esta(sus, pid)
    requires tam > 0 && Pertenencia(sus, u0) && |l| == |cs[Indice(cs, pid)].v|
    requires Copia(u0, dev0, u, dev, l, cs[Indice(cs, pid)].v, mem, tam)
    ensures var i := Indice(cs, pid);
      var cs', sus' := ConTabla(cs, i, []), sus + [Entrada(pid, l)];
      && Unicos(cs') && Teselado(hs + HuecosDe(cs[i].v), cs', |mem|)
      && Propios(cs', sus') && Unicos(sus') && Pertenencia(sus', u)
      && Paso(cfg, MaqDe(cs, sus, mem, dev0), Suspender(pid), RBool(true), MaqDe(cs', sus', mem, dev))
  {
    var i := Indice(cs, pid);
    var cs', e := ConTabla(cs, i, []), Entrada(pid, l);
    assert cs[i].v[..|l|] == cs[i].v;
    LiberarTesela(hs, cs, |mem|, i);
    SuspenderPertenencia(sus, u0, u, l, pid);
    SuspenderVista(cs, sus, mem, u0, dev0, dev, i, l);
    PropiosConTabla(cs, i, [], sus);
    MismosPids(cs, cs');
    IndiceAgregar(sus, e, pid);
    EnVista(cs, sus, mem, dev0, pid);
  }

  lemma {:induction false} SuspenderNada(cfg: Config, cs: seq<Contexto>, sus: seq<ProcesoSwap>, mem: seq<byte>, u0: seq<bool>,
                                         dev0: seq<seq<byte>>, dev: seq<seq<byte>>, pid: int, ok: bool)
    requires Pertenencia(sus, u0) && BloquesIntactos(u0, dev0, dev)
    requires ok ==> Esta(cs, pid) && Esta(sus, pid)
    ensures Paso(cfg, MaqDe(cs, sus, mem, dev0), Suspender(pid), RBool(ok), MaqDe(cs, sus, mem, dev))
  {
    RollbackVista(cs, sus, mem, u0, dev0, dev);
    EnVista(cs, sus, mem, dev0, pid);
  }

  lemma {:induction false} DessuspenderNada(cfg: Config, cs: seq<Contexto>, sus: seq<ProcesoSwap>, mem: seq<byte>,
                                            dev: seq<seq<byte>>, pid: int, ok: bool)
    requires Propios(cs, sus) && (ok <==> !Esta(sus, pid))
    ensures var m := MaqDe(cs, sus, mem, dev); Paso(cfg, m, Dessuspender(pid), RBool(ok), m)
  {
    EnVista(cs, sus, mem, dev, pid);
  }

  lemma {:induction false} DessuspenderEfecto(cfg: Config, cs: seq<Contexto>, cs1: seq<Contexto>, sus: seq<ProcesoSwap>,
                                              hs: seq<Hueco>, pid: int, nuevos: Tabla, mem0: seq<byte>, mem: seq<byte>, dev: seq<seq<byte>>, sano: bool)
    requires Teselado(hs, cs1, |mem|) && |mem| < LIMITE_32
    requires Unicos(cs) && Unicos(sus) && Propios(cs, sus) && Esta(cs, pid) && Esta(sus, pid)
    requires Corresponden(nuevos, sus[Indice(sus, pid)].v) && |nuevos| == |sus[Indice(sus, pid)].v|
    requires Enteros(sus[Indice(sus, pid)].v, dev)
    requires cs1 == ConTabla(cs, Indice(cs, pid), cs[Indice(cs, pid)].v + nuevos)
    requires Restaurado(cs1, Indice(cs, pid), |cs[Indice(cs, pid)].v|, |nuevos|, mem0, mem, sus[Indice(sus, pid)].v, dev, sano)
    ensures var sus' := Sacar(sus, Indice(sus, pid));
      && Unicos(cs1) && Propios(cs1, sus') && Unicos(sus')
      && PasoReal(cfg, MaqDe(cs, sus, mem0, dev), Dessuspender(pid), sano, RBool(true), MaqDe(cs1, sus', mem, dev))
  {
    var i, p := Indice(cs, pid), Indice(sus, pid);
    MoldeRestaurado(hs, cs, i, nuevos, sus[p].v, mem, dev);
    RestaurarVista(cs, cs1, sus, p, i, nuevos, mem0, mem, dev, sano);
    PropiosConTabla(cs, i, cs[i].v + nuevos, sus);
    IndiceSacar(sus, p, pid);
    PropiosSacar(cs1, sus, p);
    EnVista(cs, sus, mem0, dev, pid);
    EnVistaIndice(cs1, Sacar(sus, p), mem, dev, i);
  }

  lemma {:induction false} PropiosSacar(cs: seq<Contexto>, sus: seq<ProcesoSwap>, p: nat)
    requires Propios(cs, sus) && p < |sus|
    ensures Propios(cs, Sacar(sus, p))
  {
    forall k | 0 <= k < |sus| - 1 ensures Esta(cs, Sacar(sus, p)[k].pid) {
      assert Sacar(sus, p)[k] == sus[if k < p then k else k + 1];
    }
  }

  // ---------------------------------------------------------------- accesses

  lemma {:induction false} AccesoRechazado(cfg: Config, hs: seq<Hueco>, cs: seq<Contexto>, sus: seq<ProcesoSwap>, mem: seq<byte>,
                                           dev: seq<seq<byte>>, pid: int, dl: uint32, tam: uint32)
    requires RamValida(hs, cs, |mem|) && |mem| < LIMITE_32
    requires Esta(cs, pid) ==> Resolver(cfg.tamMax, cs[Indice(cs, pid)].v, dl, tam).None?
    ensures var m := MaqDe(cs, sus, mem, dev);
      && Paso(cfg, m, Leer(pid, dl, tam), RBytes(None), m)
      && forall datos :: |datos| == tam ==> Paso(cfg, m, Escribir(pid, dl, datos), RBool(false), m)
  {
    EnVista(cs, sus, mem, dev, pid);
    var i := Indice(cs, pid);
    if i < |cs| {
      SegmentosBien(hs, cs, |mem|, i);
      MismaResolucion(cfg.tamMax, cs[i].v, mem, dl, tam);
    }
  }

  lemma {:induction false} EscribirPasoDe(cfg: Config, m: Maquina, m': Maquina, pid: int, dl: uint32, datos: seq<byte>, k: nat, d: uint32)
    requires |datos| < LIMITE_32 && Indice(m.procs, pid) < |m.procs|
    requires var a := m.procs[Indice(m.procs, pid)].v;
      && ResolverDatos(cfg.tamMax, a.residente, dl, |datos|) == Some((k, d))
      && d + |datos| <= |a.residente[k].bytes|
      && m' == Poner(m, Indice(m.procs, pid),
           a.(residente := a.residente[k := Dato(a.residente[k].id, Pisar(a.residente[k].bytes, d, datos))]))
    ensures Paso(cfg, m, Escribir(pid, dl, datos), RBool(true), m')
  {
  }

  lemma {:induction false} EscribirEfecto(cfg: Config, hs: seq<Hueco>, cs: seq<Contexto>, sus: seq<ProcesoSwap>, mem: seq<byte>,
                                          dev: seq<seq<byte>>, pid: int, dl: uint32, datos: seq<byte>, df: uint32)
    requires RamValida(hs, cs, |mem|) && |mem| < LIMITE_32 && Esta(cs, pid)
    requires |datos| < LIMITE_32 && SinEnvolver(cfg.tamMax, dl, |datos|)
    requires Traducir(cfg.tamMax, cs[Indice(cs, pid)].v, dl, |datos|) == Some(df)
    ensures |datos| > 0 ==> df + |datos| <= |mem|
    ensures var mem' := if |datos| == 0 then mem else Pisar(mem, df, datos);
      Paso(cfg, MaqDe(cs, sus, mem, dev), Escribir(pid, dl, datos), RBool(true), MaqDe(cs, sus, mem', dev))
  {
    var i := Indice(cs, pid);
    var (k, d) := Resolver(cfg.tamMax, cs[i].v, dl, |datos|).value;
    AccesoFisico(hs, cs, mem, i, cfg.tamMax, dl, |datos|);
    EscribirEnSegmento(hs, cs, sus, mem, dev, i, k, d, datos, df);
    EnVista(cs, sus, mem, dev, pid);
    SegmentosBien(hs, cs, |mem|, i);
    MismaResolucion(cfg.tamMax, cs[i].v, mem, dl, |datos|);
    var mem' := if |datos| == 0 then mem else Pisar(mem, df, datos);
    EscribirPasoDe(cfg, MaqDe(cs, sus, mem, dev), MaqDe(cs, sus, mem', dev), pid, dl, datos, k, d);
  }

  lemma {:induction false} FalloEscribirDe(cfg: Config, m: Maquina, m': Maquina, pid: int, dl: uint32, datos: seq<byte>, k: nat, d: uint32,
                                           w: seq<byte>)
    requires |datos| < LIMITE_32 && Indice(m.procs, pid) < |m.procs|
    requires var a := m.procs[Indice(m.procs, pid)].v;
      && ResolverDatos(cfg.tamMax, a.residente, dl, |datos|) == Some((k, d))
      && d + |datos| <= |a.residente[k].bytes| && FueraIgual(a.residente[k].bytes, w, d, d + |datos|)
      && m' == Poner(m, Indice(m.procs, pid), a.(residente := a.residente[k := Dato(a.residente[k].id, w)]))
    ensures Fallo(cfg, m, Escribir(pid, dl, datos), RBool(false), m')
  {
  }

  /** A translated write that was refused half way. */
  lemma {:induction false} EscribirFallido(cfg: Config, hs: seq<Hueco>, cs: seq<Contexto>, sus: seq<ProcesoSwap>, mem: seq<byte>, mem': seq<byte>,
                                           dev: seq<seq<byte>>, pid: int, dl: uint32, datos: seq<byte>, df: uint32)
    requires RamValida(hs, cs, |mem|) && |mem| < LIMITE_32 && Esta(cs, pid)
    requires 0 < |datos| < LIMITE_32 && SinEnvolver(cfg.tamMax, dl, |datos|)
    requires Traducir(cfg.tamMax, cs[Indice(cs, pid)].v, dl, |datos|) == Some(df)
    requires FueraIgual(mem, mem', df, df + |datos|)
    ensures Fallo(cfg, MaqDe(cs, sus, mem, dev), Escribir(pid, dl, datos), RBool(false), MaqDe(cs, sus, mem', dev))
  {
    var i := Indice(cs, pid);
    var (k, d) := Resolver(cfg.tamMax, cs[i].v, dl, |datos|).value;
    AccesoFisico(hs, cs, mem, i, cfg.tamMax, dl, |datos|);
    SegmentosBien(hs, cs, |mem|, i);
    assert Punto(k);
    CambiarEnVista(hs, cs, sus, mem, mem', dev, i, k, d, |datos|);
    EnVista(cs, sus, mem, dev, pid);
    MismaResolucion(cfg.tamMax, cs[i].v, mem, dl, |datos|);
    FalloEscribirDe(cfg, MaqDe(cs, sus, mem, dev), MaqDe(cs, sus, mem', dev), pid, dl, datos, k, d, Bytes(cs[i].v[k], mem'));
  }

  /** A translated write, by whoever carries it out on the flat memory. */
  lemma {:induction false} EscribirReal(cfg: Config, hs: seq<Hueco>, cs: seq<Contexto>, sus: seq<ProcesoSwap>, mem: seq<byte>, mem': seq<byte>,
                                        dev: seq<seq<byte>>, pid: int, dl: uint32, datos: seq<byte>, df: uint32, sano: bool, ok: bool)
    requires RamValida(hs, cs, |mem|) && |mem| < LIMITE_32 && Esta(cs, pid)
    requires |datos| < LIMITE_32 && SinEnvolver(cfg.tamMax, dl, |datos|)
    requires Traducir(cfg.tamMax, cs[Indice(cs, pid)].v, dl, |datos|) == Some(df)
    requires ok ==> |datos| == 0 || df + |datos| <= |mem|
    requires ok ==> mem' == if |datos| == 0 then mem else Pisar(mem, df, datos)
    requires !ok ==> !sano && |datos| > 0 && FueraIgual(mem, mem', df, df + |datos|)
    ensures var m, m' := MaqDe(cs, sus, mem, dev), MaqDe(cs, sus, mem', dev);
      && PasoReal(cfg, m, Escribir(pid, dl, datos), sano, RBool(ok), m')
      && (ok ==> Paso(cfg, m, Escribir(pid, dl, datos), RBool(ok), m'))
  {
    if ok {
      EscribirEfecto(cfg, hs, cs, sus, mem, dev, pid, dl, datos, df);
    } else {
      EscribirFallido(cfg, hs, cs, sus, mem, mem', dev, pid, dl, datos, df);
    }
  }

  lemma {:induction false} EscribirEnSegmento(hs: seq<Hueco>, cs: seq<Contexto>, sus: seq<ProcesoSwap>, mem: seq<byte>,
                                              dev: seq<seq<byte>>, i: nat, k: nat, d: nat, datos: seq<byte>, df: nat)
    requires Teselado(hs, cs, |mem|) && |mem| < LIMITE_32 && i < |cs| && k < |cs[i].v|
    requires d + |datos| <= cs[i].v[k].limite == |Bytes(cs[i].v[k], mem)|
    requires |datos| > 0 ==> df == cs[i].v[k].base + d
    ensures |datos| > 0 ==> df + |datos| <= |mem|
    ensures var mem' := if |datos| == 0 then mem else Pisar(mem, df, datos);
      var a := AlmacenDe(cs[i], sus, mem, dev);
      && a.residente[k].id == cs[i].v[k].id && |a.residente[k].bytes| == cs[i].v[k].limite
      && MaqDe(cs, sus, mem', dev) == Poner(MaqDe(cs, sus, mem, dev), i,
           a.(residente := a.residente[k := Dato(a.residente[k].id, Pisar(a.residente[k].bytes, d, datos))]))
  {
    assert Punto(k);
    EnVistaIndice(cs, sus, mem, dev, i);
    if |datos| > 0 {
      SegmentosBien(hs, cs, |mem|, i);
      EscribirEnVista(hs, cs, sus, mem, dev, i, k, d, datos);
    } else {
      PisarNada(Bytes(cs[i].v[k], mem), d);
      assert datos == [];
      MismaEntrada(VistaDe(cs, sus, mem, dev), i, AlmacenDe(cs[i], sus, mem, dev), k);
    }
  }

  lemma {:induction false} MismaEntrada(v: Vista, i: nat, a: Almacen, k: nat)
    requires i < |v| && v[i].v == a && k < |a.residente|
    ensures v == v[i := Entrada(v[i].pid, a.(residente := a.residente[k := a.residente[k]]))]
  {
    assert a.residente[k := a.residente[k]] == a.residente;
  }

  lemma {:induction false} LeerEfecto(cfg: Config, hs: seq<Hueco>, cs: seq<Contexto>, sus: seq<ProcesoSwap>, mem: seq<byte>,
                                      dev: seq<seq<byte>>, pid: int, dl: uint32, tam: uint32, df: uint32)
    requires RamValida(hs, cs, |mem|) && |mem| < LIMITE_32 && Esta(cs, pid) && SinEnvolver(cfg.tamMax, dl, tam)
    requires Traducir(cfg.tamMax, cs[Indice(cs, pid)].v, dl, tam) == Some(df)
    ensures tam > 0 ==> df + tam <= |mem|
    ensures var m := MaqDe(cs, sus, mem, dev);
      Paso(cfg, m, Leer(pid, dl, tam), RBytes(Some(if tam == 0 then [] else mem[df..df + tam])), m)
  {
    var i := Indice(cs, pid);
    var (k, d) := Resolver(cfg.tamMax, cs[i].v, dl, tam).value;
    EnVista(cs, sus, mem, dev, pid);
    SegmentosBien(hs, cs, |mem|, i);
    MismaResolucion(cfg.tamMax, cs[i].v, mem, dl, tam);
    AccesoFisico(hs, cs, mem, i, cfg.tamMax, dl, tam);
    assert Punto(k);
    if tam > 0 {
      LeerEnVista(cs, mem, i, k, d, tam);
    }
  }
}
