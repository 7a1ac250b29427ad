/** Kernel Memory's user memory (`memoria_usuario.c`) as one object over its three parts. */
module MemoriaUsuario {
  import opened Tipos
  import opened Rangos
  import opened Huecos
  import opened MemorySticks
  import opened Swap
  import opened Mmu
  import opened Vistas
  import opened Compactacion
  import opened MaquinaAbstracta
  import opened Direcciones
  import opened Tesela
  import opened Restauracion
  import opened Efectos

  function BytesDe(contenidos: seq<seq<byte>>): nat {
    if |contenidos| == 0 then 0 else BytesDe(contenidos[..|contenidos| - 1]) + |contenidos[|contenidos| - 1]|
  }

  class KernelMemory {
    const huecos: ListaHuecos
    const fisica: MemoriaFisica
    const swap: AreaSwap
    const segmentMax: int32
    const mejorAjuste: bool
    const tamMaxCpu: uint32
    var contextos: seq<Contexto>

    /**
      Holes and resident segments tile the memory, a swap block is marked if and only if
      exactly one entry owns it, and every process with an entry in swap has a context.
    */
    ghost predicate Valid()
      reads this, huecos, fisica, swap, swap.usados
    {
      ValidRam() && swap.Valid() && Propios(contextos, swap.suspendidos)
    }

    ghost predicate ValidRam()
      reads this, huecos, fisica
    {
      fisica.Valid() && RamValida(huecos.lista, contextos, fisica.total)
    }

    /** The abstract machine this state stands for. */
    ghost function Maq(): Maquina
      reads this, fisica, swap
    {
      MaqDe(contextos, swap.suspendidos, fisica.Bytes(), swap.bloques)
    }

    ghost function Cfg(): Config {
      Config(segmentMax, tamMaxCpu)
    }

    constructor (segmentMax: int32, mejorAjuste: bool, tamMaxCpu: uint32)
      ensures Valid() && fresh(huecos) && fresh(fisica) && fresh(swap) && fresh(swap.usados)
      ensures Maq() == Maquina(0, []) && !swap.conectado
      ensures Cfg() == Config(segmentMax, tamMaxCpu)
    {
      huecos := new ListaHuecos();
      fisica := new MemoriaFisica();
      swap := new AreaSwap();
      this.segmentMax, this.mejorAjuste, this.tamMaxCpu := segmentMax, mejorAjuste, tamMaxCpu;
      contextos := [];
      new;
      VacioTeselado();
    }

    method BuscarContexto(pid: int) returns (i: nat)
      ensures i == Indice(contextos, pid)
    {
      i := 0;
      while i < |contextos|
        invariant i <= |contextos|
        invariant forall j :: 0 <= j < i ==> contextos[j].pid != pid
      {
        if contextos[i].pid == pid {
          return;
        }
        i := i + 1;
      }
    }

    method BuscarProcesoSwap(pid: int) returns (i: nat)
      ensures i == Indice(swap.suspendidos, pid)
    {
      i := 0;
      while i < |swap.suspendidos|
        invariant i <= |swap.suspendidos|
        invariant forall j :: 0 <= j < i ==> swap.suspendidos[j].pid != pid
      {
        if swap.suspendidos[i].pid == pid {
          return;
        }
        i := i + 1;
      }
    }

    /** Best or worst fit, by configuration: an index of a hole that fits, if any does. */
    method BuscarHueco(tam: uint32) returns (r: Option<nat>)
      ensures r.None? ==> forall j :: 0 <= j < |huecos.lista| ==> huecos.lista[j].tamanio < tam
      ensures r.Some? ==> r.value < |huecos.lista| && tam <= huecos.lista[r.value].tamanio
      ensures r.Some? ==> Elegido(huecos.lista, r.value, tam, mejorAjuste)
      ensures r.Some? && mejorAjuste ==> forall j :: 0 <= j < |huecos.lista| && tam <= huecos.lista[j].tamanio ==>
                huecos.lista[r.value].tamanio < huecos.lista[j].tamanio ||
                (huecos.lista[r.value].tamanio == huecos.lista[j].tamanio && r.value <= j)
      ensures r.Some? && !mejorAjuste ==> forall j :: 0 <= j < |huecos.lista| ==>
                huecos.lista[j].tamanio < huecos.lista[r.value].tamanio ||
                (huecos.lista[j].tamanio == huecos.lista[r.value].tamanio && r.value <= j)
    {
      if mejorAjuste {
        r := huecos.MejorAjuste(tam);
      } else {
        r := huecos.PeorAjuste(tam);
      }
    }

    /** A new process starts with an empty segment table. */
    method ContextoCrear(pid: int)
      requires Valid() && !Esta(contextos, pid)
      modifies this`contextos
      ensures Valid()
      ensures Paso(Cfg(), old(Maq()), NuevoProceso(pid), RBool(true), Maq())
      ensures contextos == old(contextos) + [Entrada(pid, [])]
    {
      NuevoEfecto(Cfg(), huecos.lista, contextos, swap.suspendidos, fisica.Bytes(), swap.bloques, pid);
      contextos := contextos + [Entrada(pid, [])];
    }

    /** A stick connects: its bytes become free memory and no process notices. */
    method StickAgregar(fd: int, contenido: seq<byte>)
      requires Valid() && fisica.total + |contenido| < LIMITE_32
      modifies huecos, fisica
      ensures Valid()
      ensures Paso(Cfg(), old(Maq()), AgregarStick(contenido), RBool(true), Maq())
      ensures fisica.total == old(fisica.total) + |contenido| && fisica.tamanios == old(fisica.tamanios) + [|contenido|]
      ensures contextos == old(contextos) && SeUne(old(huecos.lista), huecos.lista, old(fisica.total), |contenido|)
    {
      StickEfecto(Cfg(), huecos.lista, contextos, swap.suspendidos, fisica.Bytes(), swap.bloques, contenido);
      fisica.Agregar(fd, contenido, huecos);
    }

    /** While nothing is allocated the sticks, however many, are one hole. */
    method ConectarSticks(contenidos: seq<seq<byte>>)
      requires Valid() && huecos.lista == [] && fisica.total == 0
      requires forall n :: 0 <= n <= |contenidos| ==> BytesDe(contenidos[..n]) < LIMITE_32
      modifies huecos, fisica
      ensures Valid() && contextos == old(contextos) && fisica.total == BytesDe(contenidos)
      ensures |contenidos| > 0 ==>
                |huecos.lista| == 1 && huecos.lista[0].base == 0 && huecos.lista[0].tamanio == fisica.total
    {
      for n := 0 to |contenidos|
        invariant Valid() && contextos == old(contextos) && fisica.total == BytesDe(contenidos[..n])
        invariant n == 0 ==> huecos.lista == []
        invariant n > 0 ==> |huecos.lista| == 1 && huecos.lista[0].base == 0 && huecos.lista[0].tamanio == fisica.total
      {
        assert contenidos[..n + 1][..n] == contenidos[..n];
        assert BytesDe(contenidos[..n + 1]) < LIMITE_32;
        StickAgregar(0, contenidos[n]);
      }
      assert contenidos[..|contenidos|] == contenidos;
    }

    /** `nuevo` is the segment created when the answer is CrearOk. */
    method SegmentoCrear(pid: int, id: int, tam: uint32) returns (r: ResultadoCrear, ghost nuevo: Segmento)
      requires Valid()
      modifies this`contextos, huecos
      ensures Valid()
      ensures Paso(Cfg(), old(Maq()), Crear(pid, id, tam), RCrear(r), Maq())
      ensures r != CrearOk ==> contextos == old(contextos) && huecos.lista == old(huecos.lista)
      ensures r == CrearCompactar ==> forall j :: 0 <= j < |huecos.lista| ==> huecos.lista[j].tamanio < tam
      ensures r == CrearOk <==>
                && !(segmentMax > 0 && tam > segmentMax) && Esta(old(contextos), pid)
                && exists j :: 0 <= j < |old(huecos.lista)| && tam <= old(huecos.lista)[j].tamanio
      ensures r == CrearOk ==> nuevo.id == id && nuevo.limite == tam
      ensures r == CrearOk ==> Reservado(old(huecos.lista), huecos.lista, [nuevo])
      ensures r == CrearOk ==>
                var i := Indice(old(contextos), pid);
                i < |old(contextos)| && contextos == ConTabla(old(contextos), i, old(contextos)[i].v + [nuevo])
      ensures r == CrearOk ==>
                exists h: nat :: Elegido(old(huecos.lista), h, tam, mejorAjuste) && nuevo.base == old(huecos.lista)[h].base
                                 && SeAchica(old(huecos.lista), huecos.lista, h, tam)
    {
      nuevo := Segmento(0, 0, 0);
      LibreReportado(huecos.lista, contextos, swap.suspendidos, fisica.Bytes(), swap.bloques);
      EnVista(contextos, swap.suspendidos, fisica.Bytes(), swap.bloques, pid);
      if segmentMax > 0 && tam > segmentMax {
        return CrearError, nuevo;
      }
      var i := BuscarContexto(pid);
      if i == |contextos| {
        return CrearError, nuevo;
      }
      var h := BuscarHueco(tam);
      if h.None? {
        var total := huecos.TotalLibre();
        return if total >= tam then CrearCompactar else CrearError, nuevo;
      }
      SumaNoMenor(huecos.lista, h.value);
      ghost var m, t, hs := Maq(), contextos[i].v, huecos.lista;
      nuevo := OcuparYAnotar(i, h.value, id, tam);
      CrearPaso(Cfg(), m, Maq(), pid, i, id, tam, Bytes(nuevo, fisica.Bytes()));
      assert Elegido(hs, h.value, tam, mejorAjuste);
      r := CrearOk;
    }

    /** Takes the start of hole `h` and records it as a segment of context `i`. */
    method OcuparYAnotar(i: nat, h: nat, id: int, tam: uint32) returns (seg: Segmento)
      requires Valid() && i < |contextos|
      requires h < |huecos.lista| && tam <= huecos.lista[h].tamanio
      modifies this`contextos, huecos
      ensures Valid()
      ensures seg == Segmento(id, old(huecos.lista)[h].base, tam) && |Bytes(seg, fisica.Bytes())| == tam
      ensures contextos == ConTabla(old(contextos), i, old(contextos)[i].v + [seg])
      ensures Reservado(old(huecos.lista), huecos.lista, [seg]) && SeAchica(old(huecos.lista), huecos.lista, h, tam)
      ensures var a := AlmacenDe(old(contextos)[i], swap.suspendidos, fisica.Bytes(), swap.bloques);
        Maq() == Poner(old(Maq()), i, Almacen(a.residente + [Dato(id, Bytes(seg, fisica.Bytes()))], a.guardado))
    {
      CrearEfecto(huecos.lista, contextos, swap.suspendidos, fisica.Bytes(), swap.bloques, i, h, id, tam);
      seg := Segmento(id, huecos.lista[h].base, tam);
      PropiosConTabla(contextos, i, contextos[i].v + [seg], swap.suspendidos);
      huecos.Ocupar(h, tam);
      contextos := ConTabla(contextos, i, contextos[i].v + [seg]);
    }

    method SegmentoEliminar(pid: int, id: int) returns (ok: bool)
      requires Valid()
      modifies this`contextos, huecos
      ensures Valid()
      ensures Paso(Cfg(), old(Maq()), Eliminar(pid, id), RBool(ok), Maq())
      ensures !ok ==> contextos == old(contextos) && huecos.lista == old(huecos.lista)
      ensures ok ==>
                var i := Indice(old(contextos), pid);
                && i < |old(contextos)|
                && var j := IndiceSegmento(old(contextos)[i].v, id);
                && j < |old(contextos)[i].v|
                && var s := old(contextos)[i].v[j];
                && contextos == ConTabla(old(contextos), i, Sacar(old(contextos)[i].v, j))
                && huecos.lista == old(huecos.lista) + [Hueco(s.base, s.limite)]
    {
      var i := BuscarContexto(pid);
      if i == |contextos| {
        EliminarRechazo(Cfg(), contextos, swap.suspendidos, fisica.Bytes(), swap.bloques, pid, id);
        return false;
      }
      var j := BuscarSegmentoPorId(contextos[i].v, id);
      if j == |contextos[i].v| {
        EliminarRechazo(Cfg(), contextos, swap.suspendidos, fisica.Bytes(), swap.bloques, pid, id);
        return false;
      }
      EliminarEfecto(Cfg(), huecos.lista, contextos, swap.suspendidos, fisica.Bytes(), swap.bloques, pid, id);
      PropiosConTabla(contextos, i, Sacar(contextos[i].v, j), swap.suspendidos);
      var seg := contextos[i].v[j];
      contextos := ConTabla(contextos, i, Sacar(contextos[i].v, j));
      huecos.Liberar(seg.base, seg.limite);
      ok := true;
    }

    method MemoriaLibreTotal() returns (libre: uint32)
      requires Valid()
      ensures libre == Libre(Maq())
    {
      LibreReportado(huecos.lista, contextos, swap.suspendidos, fisica.Bytes(), swap.bloques);
      libre := huecos.TotalLibre();
    }

    // ---------------------------------------------------------------- compaction

    /** Pointers to all the segments of all the processes, in list order. */
    method JuntarSegmentos() returns (todos: seq<Ref>)
      ensures todos == Refs(contextos, |contextos|)
    {
      todos := [];
      for i := 0 to |contextos|
        invariant todos == Refs(contextos, i)
      {
        todos := todos + RefsDe(i, |contextos[i].v|);
      }
    }

    /**
      Successful compaction: no process can tell it happened, segments keep their address
      order and fill [0, destino), and the only hole left is [destino, total), if not empty.
      No CPU may be running meanwhile.  `sano` promises that every stick answers and there is
      memory for the buffers; then compaction succeeds.
    */
    method Compactar(sano: bool) returns (ok: bool)
      requires Valid()
      modifies this`contextos, huecos, fisica`sticks
      ensures sano ==> ok
      ensures fisica.Valid() && MismaForma(old(contextos), contextos)
      ensures !ok ==> huecos.lista == old(huecos.lista)
      ensures ok ==> Valid() && Maq() == old(Maq())
      ensures ok ==> OrdenConservado(old(contextos), contextos)
      ensures ok ==> SumaCtxs(contextos) <= fisica.total && SumaCtxs(contextos) == SumaCtxs(old(contextos))
      ensures ok ==> DirsCtxs(contextos) == Intervalo(0, SumaCtxs(contextos))
      ensures ok ==> huecos.lista == Reconstruida(SumaCtxs(contextos), fisica.total)
    {
      var todos := JuntarSegmentos();
      var orden := Ordenar(contextos, todos);
      ghost var cs0, mem0 := contextos, fisica.Bytes();
      RefsCompletas(cs0, |cs0|);
      PermutacionCompleta(cs0, todos, orden);
      assert DirsCtxs(contextos) <= Intervalo(0, fisica.total) by {
        assert Desplegar(0);
      }
      var destino: uint32;
      ok, destino := Deslizar(orden, sano);
      if ok {
        CoberturaFinal(cs0, mem0, orden, contextos, fisica.Bytes());
        ReconstruirTesela(contextos, destino, fisica.total);
        CompactarEfecto(cs0, contextos, swap.suspendidos, mem0, fisica.Bytes(), swap.bloques, orden);
        OrdenDeBases(cs0, mem0, orden, contextos, fisica.Bytes());
        SumaMismaForma(cs0, contextos);
        huecos.Reconstruir(destino, fisica.total);
      }
    }

    /** The loop that slides every segment down to the end of the previous one. */
    method Deslizar(orden: seq<Ref>, sano: bool) returns (ok: bool, destino: uint32)
      requires fisica.Valid() && DirsCtxs(contextos) <= Intervalo(0, fisica.total)
      requires Completa(contextos, orden) && Ordenada(contextos, orden)
      modifies this`contextos, fisica`sticks
      ensures sano ==> ok
      ensures fisica.Valid() && MismaForma(old(contextos), contextos)
      ensures ok ==> Compactado(old(contextos), old(fisica.Bytes()), orden, |orden|, contextos, fisica.Bytes())
      ensures ok ==> destino == Acum(old(contextos), orden, |orden|) && destino <= fisica.total
    {
      ghost var cs0, mem0 := contextos, fisica.Bytes();
      destino := 0;
      for k := 0 to |orden|
        invariant fisica.Valid() && |fisica.Bytes()| == |mem0|
        invariant Compactado(cs0, mem0, orden, k, contextos, fisica.Bytes())
        invariant destino == Acum(cs0, orden, k) && destino <= fisica.total
      {
        var movido;
        movido, destino := MoverSegmento(orden, k, destino, sano, cs0, mem0);
        if !movido {
          return false, destino;
        }
      }
      ok := true;
    }

    /** One segment: unless it is already in place, it is read, written at its destination,
        and only then its base is updated.  The buffer may be unavailable. */
    method MoverSegmento(orden: seq<Ref>, k: nat, destino: uint32, sano: bool, ghost cs0: seq<Contexto>, ghost mem0: seq<byte>)
      returns (ok: bool, siguiente: uint32)
      requires fisica.Valid() && |fisica.Bytes()| == |mem0| && DirsCtxs(cs0) <= Intervalo(0, fisica.total)
      requires Completa(cs0, orden) && Ordenada(cs0, orden) && k < |orden|
      requires Compactado(cs0, mem0, orden, k, contextos, fisica.Bytes())
      requires destino == Acum(cs0, orden, k)
      modifies this`contextos, fisica`sticks
      ensures sano ==> ok
      ensures fisica.Valid() && |fisica.Bytes()| == |mem0| && MismaForma(cs0, contextos)
      ensures ok ==> Compactado(cs0, mem0, orden, k + 1, contextos, fisica.Bytes())
      ensures ok ==> siguiente == Acum(cs0, orden, k + 1) && siguiente <= fisica.total
    {
      DestinoEnMemoria(cs0, orden, fisica.total, k + 1);
      var seg := Seg(contextos, orden[k]);
      siguiente := destino;
      if seg.base == destino {
        PasoQuieto(cs0, mem0, orden, k, contextos, fisica.Bytes());
        return true, destino + seg.limite;
      }
      var hayBuffer: bool := *;
      if !hayBuffer && !sano {
        return false, destino;
      }
      ok := Trasladar(orden, k, destino, sano, cs0, mem0);
      siguiente := destino + seg.limite;
    }

    method Trasladar(orden: seq<Ref>, k: nat, destino: uint32, sano: bool, ghost cs0: seq<Contexto>, ghost mem0: seq<byte>) returns (ok: bool)
      requires fisica.Valid() && |fisica.Bytes()| == |mem0| && DirsCtxs(cs0) <= Intervalo(0, fisica.total)
      requires Completa(cs0, orden) && Ordenada(cs0, orden) && k < |orden|
      requires Compactado(cs0, mem0, orden, k, contextos, fisica.Bytes())
      requires destino == Acum(cs0, orden, k) && Acum(cs0, orden, k + 1) <= fisica.total
      modifies this`contextos, fisica`sticks
      ensures sano ==> ok
      ensures fisica.Valid() && |fisica.Bytes()| == |mem0| && MismaForma(cs0, contextos)
      ensures ok ==> Compactado(cs0, mem0, orden, k + 1, contextos, fisica.Bytes())
    {
      var seg := Seg(contextos, orden[k]);
      if seg.limite > 0 {
        SegmentoEnMemoria(cs0, fisica.total, orden[k]);
      }
      ghost var cs, mem := contextos, fisica.Bytes();
      var buffer;
      ok, buffer := CopiarRam(seg.base, seg.limite, destino, sano);
      if ok {
        PasoMover(cs0, mem0, orden, k, cs, mem, buffer);
        contextos := Mover(contextos, orden[k], destino);
      }
    }

    /** Copies `tam` bytes through a buffer. */
    method CopiarRam(desde: uint32, tam: uint32, hasta: uint32, sano: bool) returns (ok: bool, buffer: seq<byte>)
      requires fisica.Valid() && desde + tam < LIMITE_32 && hasta + tam <= fisica.total
      requires tam == 0 || desde + tam <= fisica.total
      modifies fisica`sticks
      ensures fisica.Valid() && |fisica.Bytes()| == |old(fisica.Bytes())|
      ensures sano ==> ok
      ensures ok ==> |buffer| == tam && buffer == Bytes(Segmento(0, desde, tam), old(fisica.Bytes()))
      ensures ok ==> fisica.Bytes() == Pisar(old(fisica.Bytes()), hasta, buffer)
    {
      var leido, datos := fisica.Leer(desde, tam, sano);
      buffer := datos;
      if !leido {
        return false, buffer;
      }
      PisarNada(fisica.Bytes(), hasta);
      ok := fisica.Escribir(hasta, buffer, sano);
    }

    /**
      Creation as the request loop runs it: when there is room but no hole, compaction and
      one retry.  `compacto` says that compaction ran and finished.  The loop ignores
      compaction's result; only a finished one is promised anything.
    */
    method CrearCompactando(pid: int, id: int, tam: uint32, sano: bool) returns (primera: ResultadoCrear, r: ResultadoCrear, compacto: bool)
      requires Valid()
      modifies this`contextos, huecos, fisica`sticks
      ensures fisica.Valid()
      ensures primera == CrearError <==>
                (segmentMax > 0 && tam > segmentMax) || !Esta(old(contextos), pid) || tam > old(Libre(Maq()))
      ensures primera != CrearCompactar ==> r == primera && !compacto
      ensures primera == CrearCompactar && sano ==> compacto
      ensures compacto || primera != CrearCompactar ==> Valid() && Paso(Cfg(), old(Maq()), Crear(pid, id, tam), RCrear(r), Maq())
      ensures compacto ==> (r == CrearOk <==> tam > 0 || SumaCtxs(old(contextos)) < fisica.total)
      ensures compacto && tam > 0 ==> r == CrearOk
    {
      compacto := false;
      EnVista(contextos, swap.suspendidos, fisica.Bytes(), swap.bloques, pid);
      ghost var n: Segmento;
      primera, n := SegmentoCrear(pid, id, tam);
      r := primera;
      if primera == CrearCompactar {
        ghost var lleno, m := SumaCtxs(contextos), Maq();
        compacto := Compactar(sano);
        if compacto {
          r := Reintentar(pid, id, tam);
        }
      }
    }

    /** After a compaction the free bytes are one hole, so what fits in total fits. */
    method Reintentar(pid: int, id: int, tam: uint32) returns (r: ResultadoCrear)
      requires Valid() && !(segmentMax > 0 && tam > segmentMax) && Esta(contextos, pid) && tam <= Libre(Maq())
      requires SumaCtxs(contextos) <= fisica.total && huecos.lista == Reconstruida(SumaCtxs(contextos), fisica.total)
      modifies this`contextos, huecos
      ensures Valid()
      ensures Paso(Cfg(), old(Maq()), Crear(pid, id, tam), RCrear(r), Maq())
      ensures r == CrearOk <==> tam > 0 || SumaCtxs(old(contextos)) < fisica.total
    {
      LibreReportado(huecos.lista, contextos, swap.suspendidos, fisica.Bytes(), swap.bloques);
      EnVista(contextos, swap.suspendidos, fisica.Bytes(), swap.bloques, pid);
      SumaReconstruida(SumaCtxs(contextos), fisica.total);
      ghost var hs, n := huecos.lista, Segmento(0, 0, 0);
      assert |hs| > 0 ==> hs[0].tamanio >= tam;
      r, n := SegmentoCrear(pid, id, tam);
    }

    // ---------------------------------------------------------------- suspension

    /**
      All or nothing.  On failure the tables, the holes, the bitmap and the RAM are as before;
      on success exactly the blocks the segments need were taken.  `sano` promises that every
      stick and the swap module answer; then only a missing swap, an unknown process or too few
      blocks can make it fail.
    */
    method ProcesoSuspender(pid: int, sano: bool) returns (ok: bool)
      requires Valid() && (swap.conectado && Esta(contextos, pid) && !Esta(swap.suspendidos, pid) ==>
                           Suspendible(contextos[Indice(contextos, pid)].v, swap.tamBloque))
      modifies this`contextos, huecos, swap`bloques, swap`suspendidos, swap.usados
      ensures Valid()
      ensures Paso(Cfg(), old(Maq()), Suspender(pid), RBool(ok), Maq())
      ensures ok ==> SuspensionPosible(old(contextos), old(swap.suspendidos), old(swap.usados[..]), pid)
      ensures sano && SuspensionPosible(old(contextos), old(swap.suspendidos), old(swap.usados[..]), pid) ==> ok
      ensures !ok || Esta(old(swap.suspendidos), pid) ==>
                && contextos == old(contextos) && huecos.lista == old(huecos.lista)
                && swap.suspendidos == old(swap.suspendidos) && swap.usados[..] == old(swap.usados[..])
      ensures ok && !Esta(old(swap.suspendidos), pid) ==>
                var i := Indice(old(contextos), pid);
                && contextos == ConTabla(old(contextos), i, [])
                && huecos.lista == old(huecos.lista) + HuecosDe(old(contextos)[i].v)
                && SueltaEnOrden(old(huecos.lista), huecos.lista, old(contextos)[i].v)
                && |swap.suspendidos| == |old(swap.suspendidos)| + 1
                && swap.suspendidos[..|old(swap.suspendidos)|] == old(swap.suspendidos)
                && Libres(swap.usados[..]) + Necesarios(old(contextos)[i].v, swap.tamBloque) == old(Libres(swap.usados[..]))
    {
      if !swap.conectado {
        SuspenderNada(Cfg(), contextos, swap.suspendidos, fisica.Bytes(), swap.usados[..], swap.bloques, swap.bloques, pid, false);
        return false;
      }
      var i := BuscarContexto(pid);
      if i == |contextos| {
        SuspenderNada(Cfg(), contextos, swap.suspendidos, fisica.Bytes(), swap.usados[..], swap.bloques, swap.bloques, pid, false);
        return false;
      }
      var p := BuscarProcesoSwap(pid);
      if p < |swap.suspendidos| {
        SuspenderNada(Cfg(), contextos, swap.suspendidos, fisica.Bytes(), swap.usados[..], swap.bloques, swap.bloques, pid, true);
        return true;
      }
      var necesarios := ContarBloques(i);
      var libres := swap.BloquesLibres();
      if necesarios > libres {
        SuspenderNada(Cfg(), contextos, swap.suspendidos, fisica.Bytes(), swap.usados[..], swap.bloques, swap.bloques, pid, false);
        return false;
      }
      ok := SuspenderConEspacio(pid, i, sano);
    }

    /** Swap is connected, the process is known, and it is suspended already or its blocks fit. */
    ghost predicate SuspensionPosible(cs: seq<Contexto>, sus: seq<ProcesoSwap>, usados: seq<bool>, pid: int)
      reads swap
    {
      && swap.conectado && swap.tamBloque > 0 && Esta(cs, pid)
      && (Esta(sus, pid) || Necesarios(cs[Indice(cs, pid)].v, swap.tamBloque) <= Libres(usados))
    }

    /** The up-front count. */
    method ContarBloques(i: nat) returns (n: int32)
      requires i < |contextos| && Suspendible(contextos[i].v, swap.tamBloque)
      ensures n == Necesarios(contextos[i].v, swap.tamBloque)
    {
      n := 0;
      var t := contextos[i].v;
      for k := 0 to |t|
        invariant n == Necesarios(t[..k], swap.tamBloque)
      {
        NecesariosHasta(t, k, swap.tamBloque);
        assert Punto(k);
        var suma: uint32 := t[k].limite + (swap.tamBloque - 1);
        n := n + suma / swap.tamBloque;
      }
      assert t[..|t|] == t;
    }

    method SuspenderConEspacio(pid: int, i: nat, sano: bool) returns (ok: bool)
      requires Valid() && swap.conectado
      requires i == Indice(contextos, pid) && i < |contextos| && !Esta(swap.suspendidos, pid)
      requires Suspendible(contextos[i].v, swap.tamBloque)
      requires Necesarios(contextos[i].v, swap.tamBloque) <= Libres(swap.usados[..])
      modifies this`contextos, huecos, swap`bloques, swap`suspendidos, swap.usados
      ensures Valid()
      ensures sano ==> ok
      ensures Paso(Cfg(), old(Maq()), Suspender(pid), RBool(ok), Maq())
      ensures !ok ==>
                && contextos == old(contextos) && huecos.lista == old(huecos.lista)
                && swap.suspendidos == old(swap.suspendidos) && swap.usados[..] == old(swap.usados[..])
      ensures ok ==>
                && contextos == ConTabla(old(contextos), i, [])
                && huecos.lista == old(huecos.lista) + HuecosDe(old(contextos)[i].v)
                && SueltaEnOrden(old(huecos.lista), huecos.lista, old(contextos)[i].v)
                && |swap.suspendidos| == |old(swap.suspendidos)| + 1
                && swap.suspendidos[..|old(swap.suspendidos)|] == old(swap.suspendidos)
                && Libres(swap.usados[..]) + Necesarios(old(contextos)[i].v, swap.tamBloque) == old(Libres(swap.usados[..]))
    {
      ghost var u0, dev0 := swap.usados[..], swap.bloques;
      var segs;
      ok, segs := CopiarASwap(i, sano);
      if !ok {
        SuspenderNada(Cfg(), contextos, swap.suspendidos, fisica.Bytes(), u0, dev0, swap.bloques, pid, false);
        return false;
      }
      assert contextos[i].v[..|segs|] == contextos[i].v;
      SuspenderEfecto(Cfg(), huecos.lista, contextos, swap.suspendidos, fisica.Bytes(), u0, swap.usados[..], dev0, swap.bloques,
                      pid, segs, swap.tamBloque);
      LiberarTabla(i);
      swap.suspendidos := swap.suspendidos + [Entrada(pid, segs)];
    }

    /** Phase one: every segment is copied to swap; the table and the RAM are not touched. */
    method CopiarASwap(i: nat, sano: bool) returns (ok: bool, segs: seq<SegmentoSwap>)
      requires ValidRam() && swap.Valid() && swap.conectado && i < |contextos| && Suspendible(contextos[i].v, swap.tamBloque)
      requires Necesarios(contextos[i].v, swap.tamBloque) <= Libres(swap.usados[..])
      modifies swap`bloques, swap.usados
      ensures swap.ValidoBase() && BloquesIntactos(old(swap.usados[..]), old(swap.bloques), swap.bloques)
      ensures sano ==> ok
      ensures !ok ==> swap.usados[..] == old(swap.usados[..])
      ensures ok ==>
                && |segs| == |contextos[i].v|
                && Copia(old(swap.usados[..]), old(swap.bloques), swap.usados[..], swap.bloques, segs, contextos[i].v,
                         fisica.Bytes(), swap.tamBloque)
    {
      ghost var u0, dev0 := swap.usados[..], swap.bloques;
      var t := contextos[i].v;
      segs := [];
      CopiaInicial(u0, dev0, t, fisica.Bytes(), swap.tamBloque);
      SegmentosBien(huecos.lista, contextos, fisica.total, i);
      for k := 0 to |t|
        invariant swap.ValidoBase() && |segs| == k
        invariant Copia(u0, dev0, swap.usados[..], swap.bloques, segs, t, fisica.Bytes(), swap.tamBloque)
      {
        assert Punto(k);
        ok, segs := CopiarUno(t, segs, sano, u0, dev0);
        if !ok {
          return;
        }
      }
      ok := true;
    }

    /** One iteration of phase one.  When it fails, the earlier copies give their blocks back. */
    method CopiarUno(t: Tabla, previos: seq<SegmentoSwap>, sano: bool, ghost u0: seq<bool>, ghost dev0: seq<seq<byte>>)
      returns (ok: bool, segs: seq<SegmentoSwap>)
      requires fisica.Valid() && swap.ValidoBase() && swap.tamBloque > 0
      requires |previos| < |t| && Contable(t[|previos|].limite, swap.tamBloque) && Necesarios(t, swap.tamBloque) <= Libres(u0)
      requires var s := t[|previos|];
        s.base + s.limite < LIMITE_32 && (s.limite == 0 || s.base + s.limite <= fisica.total)
      requires Copia(u0, dev0, swap.usados[..], swap.bloques, previos, t, fisica.Bytes(), swap.tamBloque)
      modifies swap`bloques, swap.usados
      ensures swap.ValidoBase() && BloquesIntactos(u0, dev0, swap.bloques)
      ensures sano ==> ok
      ensures !ok ==> swap.usados[..] == u0
      ensures ok ==> |segs| == |previos| + 1
      ensures ok ==> Copia(u0, dev0, swap.usados[..], swap.bloques, segs, t, fisica.Bytes(), swap.tamBloque)
    {
      ghost var u, dev := swap.usados[..], swap.bloques;
      NecesariosHasta(t, |previos|, swap.tamBloque);
      var ss;
      ok, ss := CopiarSegmento(t[|previos|], sano);
      segs := previos + [ss];
      if ok {
        CopiaPaso(u0, dev0, u, dev, swap.usados[..], swap.bloques, previos, ss, t, fisica.Bytes(), swap.tamBloque);
      } else {
        BloquesIntactosLuego(u0, dev0, u, dev, swap.bloques);
        assert CopiaMarcada(u0, swap.usados[..], previos);
        RollbackCopia(previos, u0);
      }
    }

    /** Reads one segment and stores it; if either fails the bitmap is as before. */
    method CopiarSegmento(seg: Segmento, sano: bool) returns (ok: bool, ss: SegmentoSwap)
      requires fisica.Valid() && swap.ValidoBase() && Contable(seg.limite, swap.tamBloque)
      requires seg.base + seg.limite < LIMITE_32 && (seg.limite == 0 || seg.base + seg.limite <= fisica.total)
      requires Techo(seg.limite, swap.tamBloque) <= Libres(swap.usados[..])
      modifies swap`bloques, swap.usados
      ensures swap.ValidoBase() && BloquesIntactos(old(swap.usados[..]), old(swap.bloques), swap.bloques)
      ensures sano ==> ok
      ensures !ok ==> swap.usados[..] == old(swap.usados[..])
      ensures ok ==> ss.id == seg.id && ss.limite == seg.limite && SegValido(ss, swap.tamBloque)
      ensures ok ==> Marcados(swap.usados[..]) == old(Marcados(swap.usados[..])) + Elementos(ss.bloques)
      ensures ok ==> Libres(swap.usados[..]) + |ss.bloques| == old(Libres(swap.usados[..]))
      ensures ok ==> forall b :: 0 <= b < swap.usados.Length && old(swap.usados[b]) ==> swap.usados[b]
      ensures ok ==> BytesSwap(ss, swap.bloques) == Bytes(seg, fisica.Bytes())
    {
      ss := SegmentoSwap(seg.id, seg.limite, []);
      var leido, datos := fisica.Leer(seg.base, seg.limite, sano);
      if !leido {
        return false, ss;
      }
      ghost var u := swap.usados[..];
      ok, ss := swap.GuardarSegmento(seg.id, datos, sano);
      if ok {
        SigueUsado(u, swap.usados[..], ss.bloques);
      }
    }

    /** The segments already copied give their blocks back. */
    method RollbackCopia(segs: seq<SegmentoSwap>, ghost u0: seq<bool>)
      requires CopiaMarcada(u0, swap.usados[..], segs) && |u0| == swap.usados.Length
      modifies swap.usados
      ensures swap.usados[..] == u0
    {
      assert Desplegar(0);
      swap.LiberarBloques(segs, Marcados(u0));
      MarcadosInyectiva(swap.usados[..], u0);
    }

    /** Phase two: the segments' space becomes free and the table is emptied. */
    method LiberarTabla(i: nat)
      requires ValidRam() && i < |contextos|
      modifies this`contextos, huecos
      ensures Acotados(huecos.lista)
      ensures contextos == ConTabla(old(contextos), i, [])
      ensures huecos.lista == old(huecos.lista) + HuecosDe(old(contextos)[i].v)
      ensures SueltaEnOrden(old(huecos.lista), huecos.lista, old(contextos)[i].v)
    {
      ghost var hs := huecos.lista;
      var t := contextos[i].v;
      HuecosDeEnOrden(hs, t);
      SegmentosBien(huecos.lista, contextos, fisica.total, i);
      for k := 0 to |t|
        invariant contextos == old(contextos)
        invariant Acotados(huecos.lista) && huecos.lista == hs + HuecosDe(t[..k])
      {
        HuecosDeHasta(t, k);
        assert Punto(k);
        huecos.Liberar(t[k].base, t[k].limite);
      }
      assert t[..|t|] == t;
      contextos := ConTabla(contextos, i, []);
    }

    // ---------------------------------------------------------------- de-suspension

    /**
      On failure nothing any process or the swap area owns has changed, the free bytes are the
      same ones (the hole list may be more fragmented), and `probados` is how the holes stood
      when the next segment did not fit.  On success the segments got disjoint ranges of
      previously free bytes.  Results of reads and writes are ignored by the code: only when
      `sano` promises that all are answered are the contents surely the ones that were saved.
    */
    method ProcesoDessuspender(pid: int, sano: bool)
      returns (ok: bool, ghost nuevos: Tabla, ghost probados: seq<Hueco>)
      requires Valid()
      modifies this`contextos, huecos, fisica`sticks, swap`suspendidos, swap.usados
      ensures Valid()
      ensures PasoReal(Cfg(), old(Maq()), Dessuspender(pid), sano, RBool(ok), Maq())
      ensures !ok ==> Paso(Cfg(), old(Maq()), Dessuspender(pid), RBool(ok), Maq())
      ensures !Esta(old(swap.suspendidos), pid) || !ok ==>
                && Maq() == old(Maq()) && fisica.sticks == old(fisica.sticks) && contextos == old(contextos)
                && swap.suspendidos == old(swap.suspendidos) && swap.usados[..] == old(swap.usados[..])
                && Suma(huecos.lista) == old(Suma(huecos.lista)) && Dirs(huecos.lista) == old(Dirs(huecos.lista))
      ensures !Esta(old(swap.suspendidos), pid) ==> ok
      ensures Esta(old(swap.suspendidos), pid) ==>
                var segs := old(swap.suspendidos)[Indice(old(swap.suspendidos), pid)].v;
                && Reservado(old(huecos.lista), probados, nuevos) && Corresponden(nuevos, segs)
                && Colocados(old(huecos.lista), probados, nuevos, mejorAjuste)
                && (ok <==> |nuevos| == |segs|)
                && (!ok ==> forall h :: 0 <= h < |probados| ==> probados[h].tamanio < segs[|nuevos|].limite)
                && (!ok ==> SueltaEnOrden(probados, huecos.lista, nuevos))
      ensures ok && Esta(old(swap.suspendidos), pid) ==>
                var i := Indice(old(contextos), pid);
                && i < |old(contextos)| && contextos == ConTabla(old(contextos), i, old(contextos)[i].v + nuevos)
                && huecos.lista == probados
                && swap.suspendidos == Sacar(old(swap.suspendidos), Indice(old(swap.suspendidos), pid))
    {
      nuevos, probados := [], [];
      var p := BuscarProcesoSwap(pid);
      if p == |swap.suspendidos| {
        DessuspenderNada(Cfg(), contextos, swap.suspendidos, fisica.Bytes(), swap.bloques, pid, true);
        return true, nuevos, probados;
      }
      TieneContexto(contextos, swap.suspendidos, pid);
      var i := BuscarContexto(pid);
      var bases;
      ok, bases, probados := AsignarTentativa(swap.suspendidos[p].v);
      nuevos := bases;
      if !ok {
        DessuspenderNada(Cfg(), contextos, swap.suspendidos, fisica.Bytes(), swap.bloques, pid, false);
        return false, nuevos, probados;
      }
      AnotarReserva(old(huecos.lista), huecos.lista, bases, contextos, fisica.total, i);
      RestaurarProceso(pid, p, i, bases, sano);
    }

    /**
      Tentative placement: one hole after another, without compacting.  When some segment
      finds no hole, the space taken so far is returned.
    */
    method AsignarTentativa(segs: seq<SegmentoSwap>) returns (ok: bool, nuevos: Tabla, ghost probados: seq<Hueco>)
      requires ValidRam()
      modifies huecos
      ensures Acotados(huecos.lista) && Acotados(probados)
      ensures Reservado(old(huecos.lista), probados, nuevos) && Corresponden(nuevos, segs)
      ensures Colocados(old(huecos.lista), probados, nuevos, mejorAjuste)
      ensures ok ==> |nuevos| == |segs| && huecos.lista == probados
      ensures !ok ==>
                && |nuevos| < |segs| && ValidRam() && SueltaEnOrden(probados, huecos.lista, nuevos)
                && (forall h :: 0 <= h < |probados| ==> probados[h].tamanio < segs[|nuevos|].limite)
                && Suma(huecos.lista) == old(Suma(huecos.lista)) && Dirs(huecos.lista) == old(Dirs(huecos.lista))
    {
      ghost var antes := huecos.lista;
      nuevos := [];
      ReservarNada(antes);
      for k := 0 to |segs|
        invariant |nuevos| == k && Acotados(huecos.lista)
        invariant Reservado(antes, huecos.lista, nuevos) && Corresponden(nuevos, segs)
        invariant Colocados(antes, huecos.lista, nuevos, mejorAjuste)
      {
        var h := BuscarHueco(segs[k].limite);
        if h.None? {
          probados := huecos.lista;
          DevolverTentativa(nuevos, antes);
          return false, nuevos, probados;
        }
        ReservarUno(antes, huecos.lista, nuevos, h.value, segs[k].id, segs[k].limite);
        CorrespondeUno(nuevos, segs, huecos.lista[h.value].base);
        var base := huecos.lista[h.value].base;
        ghost var medio := huecos.lista;
        huecos.Ocupar(h.value, segs[k].limite);
        ColocarUno(antes, medio, huecos.lista, nuevos, mejorAjuste, h.value, segs[k].id, segs[k].limite);
        nuevos := nuevos + [Segmento(segs[k].id, base, segs[k].limite)];
      }
      ok, probados := true, huecos.lista;
    }

    method DevolverTentativa(nuevos: Tabla, ghost antes: seq<Hueco>)
      requires fisica.Valid() && RamValida(antes, contextos, fisica.total)
      requires Acotados(huecos.lista) && Reservado(antes, huecos.lista, nuevos)
      modifies huecos
      ensures SueltaEnOrden(old(huecos.lista), huecos.lista, nuevos)
      ensures ValidRam()
      ensures Suma(huecos.lista) == Suma(antes) && Dirs(huecos.lista) == Dirs(antes)
    {
      ghost var hs := huecos.lista;
      DevolverReserva(antes, hs, nuevos, contextos, fisica.total);
      ReservaBien(antes, hs, nuevos, contextos, fisica.total);
      for j := 0 to |nuevos|
        invariant Acotados(huecos.lista) && huecos.lista == hs + HuecosDe(nuevos[..j])
      {
        HuecosDeHasta(nuevos, j);
        assert Punto(j);
        huecos.Liberar(nuevos[j].base, nuevos[j].limite);
      }
      assert nuevos[..|nuevos|] == nuevos;
      HuecosDeEnOrden(hs, nuevos);
    }

    /** The second half of a de-suspension, once every segment has a place. */
    method RestaurarProceso(pid: int, p: nat, i: nat, nuevos: Tabla, sano: bool)
      requires fisica.Valid() && Acotados(huecos.lista) && swap.Valid()
      requires Unicos(contextos) && Propios(contextos, swap.suspendidos)
      requires p == Indice(swap.suspendidos, pid) && p < |swap.suspendidos|
      requires i == Indice(contextos, pid) && i < |contextos|
      requires Corresponden(nuevos, swap.suspendidos[p].v) && |nuevos| == |swap.suspendidos[p].v|
      requires Teselado(huecos.lista, ConTabla(contextos, i, contextos[i].v + nuevos), fisica.total)
      modifies this`contextos, fisica`sticks, swap`suspendidos, swap.usados
      ensures Valid()
      ensures contextos == ConTabla(old(contextos), i, old(contextos)[i].v + nuevos)
      ensures swap.suspendidos == Sacar(old(swap.suspendidos), p)
      ensures PasoReal(Cfg(), old(Maq()), Dessuspender(pid), sano, RBool(true), Maq())
    {
      ghost var cs0, mem0, sus := contextos, fisica.Bytes(), swap.suspendidos;
      SoltarInicio(sus, p, swap.usados[..]);
      assert sus[p].v[0..] == sus[p].v;
      SegsEnteros(sus[p].v, swap.usados[..], BloquesDe(Sacar(sus, p)), swap.bloques, swap.tamBloque);
      CopiarDesdeSwap(i, swap.suspendidos[p].v, nuevos, sano, BloquesDe(Sacar(sus, p)));
      SoltarFin(sus, p, swap.usados[..]);
      DessuspenderEfecto(Cfg(), cs0, contextos, sus, huecos.lista, pid, nuevos, mem0, fisica.Bytes(), swap.bloques, sano);
      SacarValidos(sus, p, swap.tamBloque);
      swap.suspendidos := Sacar(swap.suspendidos, p);
    }

    /** The restore loop: read the blocks, release them, write the segment, record it. */
    method CopiarDesdeSwap(i: nat, segs: seq<SegmentoSwap>, nuevos: Tabla, sano: bool, ghost resto: multiset<int>)
      requires fisica.Valid() && swap.ValidoBase() && i < |contextos|
      requires Corresponden(nuevos, segs) && |nuevos| == |segs| && SegsValidos(segs, swap.tamBloque)
      requires Teselado(huecos.lista, ConTabla(contextos, i, contextos[i].v + nuevos), fisica.total)
      requires Marcados(swap.usados[..]) == resto + BloquesDeSegs(segs[0..])
      modifies this`contextos, fisica`sticks, swap.usados
      ensures fisica.Valid() && |fisica.Bytes()| == |old(fisica.Bytes())|
      ensures contextos == ConTabla(old(contextos), i, old(contextos)[i].v + nuevos)
      ensures Marcados(swap.usados[..]) == resto + BloquesDeSegs(segs[|segs|..])
      ensures Restaurado(contextos, i, |old(contextos)[i].v|, |segs|, old(fisica.Bytes()), fisica.Bytes(), segs, swap.bloques, sano)
    {
      ghost var cs0, mem0 := contextos, fisica.Bytes();
      assert nuevos[..0] == [] && cs0[i].v + [] == cs0[i].v;
      RestauradoInicial(ConTabla(cs0, i, cs0[i].v + nuevos), i, |cs0[i].v|, mem0, segs, swap.bloques, sano);
      for k := 0 to |segs|
        invariant fisica.Valid() && |fisica.Bytes()| == |mem0|
        invariant |contextos| == |cs0| && contextos == ConTabla(cs0, i, cs0[i].v + nuevos[..k])
        invariant Marcados(swap.usados[..]) == resto + BloquesDeSegs(segs[k..])
        invariant Restaurado(ConTabla(cs0, i, cs0[i].v + nuevos), i, |cs0[i].v|, k, mem0, fisica.Bytes(), segs, swap.bloques, sano)
      {
        RestaurarUno(i, segs, nuevos, k, sano, cs0, mem0, resto);
        UnoMas(cs0[i].v, nuevos, k);
        contextos := ConTabla(contextos, i, contextos[i].v + [nuevos[k]]);
      }
      assert nuevos[..|nuevos|] == nuevos;
    }

    method RestaurarUno(i: nat, segs: seq<SegmentoSwap>, nuevos: Tabla, k: nat, sano: bool,
                        ghost cs0: seq<Contexto>, ghost mem0: seq<byte>, ghost resto: multiset<int>)
      requires fisica.Valid() && |fisica.Bytes()| == |mem0| && swap.ValidoBase() && i < |cs0| && k < |segs|
      requires Corresponden(nuevos, segs) && |nuevos| == |segs| && SegsValidos(segs, swap.tamBloque)
      requires Teselado(huecos.lista, ConTabla(cs0, i, cs0[i].v + nuevos), fisica.total)
      requires Marcados(swap.usados[..]) == resto + BloquesDeSegs(segs[k..])
      requires Restaurado(ConTabla(cs0, i, cs0[i].v + nuevos), i, |cs0[i].v|, k, mem0, fisica.Bytes(), segs, swap.bloques, sano)
      modifies fisica`sticks, swap.usados
      ensures fisica.Valid() && |fisica.Bytes()| == |mem0|
      ensures Marcados(swap.usados[..]) == resto + BloquesDeSegs(segs[k + 1..])
      ensures Restaurado(ConTabla(cs0, i, cs0[i].v + nuevos), i, |cs0[i].v|, k + 1, mem0, fisica.Bytes(), segs, swap.bloques, sano)
    {
      ghost var cs1, mem := ConTabla(cs0, i, cs0[i].v + nuevos), fisica.Bytes();
      SoltarPaso(resto, segs, k);
      LugarBien(huecos.lista, cs0, i, nuevos, k, fisica.total);
      assert Punto(k);
      RestaurarSegmento(segs[k], nuevos[k], sano, resto + BloquesDeSegs(segs[k + 1..]));
      RestaurarPaso(huecos.lista, cs1, i, |cs0[i].v|, k, mem0, mem, fisica.Bytes(), segs, swap.bloques, sano);
    }

    /** One segment back from swap; failed reads and writes go unnoticed. */
    method RestaurarSegmento(ss: SegmentoSwap, seg: Segmento, sano: bool, ghost resto: multiset<int>)
      requires fisica.Valid() && swap.ValidoBase() && SegValido(ss, swap.tamBloque) && seg.limite == ss.limite
      requires seg.base + seg.limite < LIMITE_32 && (seg.limite == 0 || seg.base + seg.limite <= fisica.total)
      requires Marcados(swap.usados[..]) == resto + Elementos(ss.bloques)
      modifies fisica`sticks, swap.usados
      ensures fisica.Valid() && Marcados(swap.usados[..]) == resto
      ensures FueraIgual(old(fisica.Bytes()), fisica.Bytes(), seg.base, seg.base + seg.limite)
      ensures sano ==> Bytes(seg, fisica.Bytes()) == BytesSwap(ss, swap.bloques)
    {
      TechoExacto(ss.limite, swap.tamBloque);
      var buffer := swap.RecuperarSegmento(ss, sano, resto);
      ghost var mem := fisica.Bytes();
      var _ := fisica.Escribir(seg.base, buffer[..ss.limite], sano);
      if seg.limite > 0 && seg.base + seg.limite <= |mem| {
        PisarEn(mem, seg.base, buffer[..ss.limite]);
      }
    }

    // ---------------------------------------------------------------- finalization

    /** Frees what the process has in memory and in swap, and forgets the process. */
    method ProcesoFinalizar(pid: int)
      requires Valid()
      modifies this`contextos, huecos, swap`suspendidos, swap.usados
      ensures Valid()
      ensures Paso(Cfg(), old(Maq()), Finalizar(pid), RBool(true), Maq())
      ensures !Esta(old(contextos), pid) ==> contextos == old(contextos) && huecos.lista == old(huecos.lista)
      ensures Esta(old(contextos), pid) ==>
                var i := Indice(old(contextos), pid);
                && contextos == Sacar(old(contextos), i)
                && huecos.lista == old(huecos.lista) + HuecosDe(old(contextos)[i].v)
                && SueltaEnOrden(old(huecos.lista), huecos.lista, old(contextos)[i].v)
      ensures swap.suspendidos == if Esta(old(swap.suspendidos), pid)
                                  then Sacar(old(swap.suspendidos), Indice(old(swap.suspendidos), pid))
                                  else old(swap.suspendidos)
    {
      ghost var cs, sus := contextos, swap.suspendidos;
      var i := BuscarContexto(pid);
      if i < |contextos| {
        FinalizarPresente(pid, i);
      } else {
        if Esta(swap.suspendidos, pid) {
          TieneContexto(contextos, swap.suspendidos, pid);
        }
        EnVista(contextos, swap.suspendidos, fisica.Bytes(), swap.bloques, pid);
        LiberarSwap(pid);
      }
    }

    method FinalizarPresente(pid: int, i: nat)
      requires Valid() && i == Indice(contextos, pid) && i < |contextos|
      modifies this`contextos, huecos, swap`suspendidos, swap.usados
      ensures Valid()
      ensures Paso(Cfg(), old(Maq()), Finalizar(pid), RBool(true), Maq())
      ensures contextos == Sacar(old(contextos), i)
      ensures huecos.lista == old(huecos.lista) + HuecosDe(old(contextos)[i].v)
      ensures SueltaEnOrden(old(huecos.lista), huecos.lista, old(contextos)[i].v)
      ensures swap.suspendidos == if Esta(old(swap.suspendidos), pid)
                                  then Sacar(old(swap.suspendidos), Indice(old(swap.suspendidos), pid))
                                  else old(swap.suspendidos)
    {
      ghost var hs, cs, sus := huecos.lista, contextos, swap.suspendidos;
      LiberarTesela(hs, cs, fisica.total, i);
      LiberarTabla(i);
      LiberarSwap(pid);
      FinalizarEfecto(Cfg(), huecos.lista, cs, sus, swap.suspendidos, fisica.Bytes(), swap.bloques, i);
      contextos := Sacar(contextos, i);
      assert contextos == Sacar(cs, i);
    }

    /** Drops the process's entry in swap, if any, and releases its blocks. */
    method LiberarSwap(pid: int)
      requires swap.Valid()
      modifies swap`suspendidos, swap.usados
      ensures swap.Valid()
      ensures swap.suspendidos == if Esta(old(swap.suspendidos), pid)
                                  then Sacar(old(swap.suspendidos), Indice(old(swap.suspendidos), pid))
                                  else old(swap.suspendidos)
      ensures !Esta(old(swap.suspendidos), pid) ==> swap.usados[..] == old(swap.usados[..])
    {
      var p := BuscarProcesoSwap(pid);
      if p < |swap.suspendidos| {
        ghost var sus := swap.suspendidos;
        SoltarInicio(sus, p, swap.usados[..]);
        assert sus[p].v[0..] == sus[p].v;
        swap.LiberarBloques(swap.suspendidos[p].v, BloquesDe(Sacar(sus, p)));
        assert sus[p].v[|sus[p].v|..] == [];
        SumaVacia(BloquesDe(Sacar(sus, p)));
        SoltarFin(sus, p, swap.usados[..]);
        SacarValidos(sus, p, swap.tamBloque);
        swap.suspendidos := Sacar(swap.suspendidos, p);
      }
    }

    // ---------------------------------------------------------------- accesses

    /** The CPU's translation on the process's current segment table; None is a fault. */
    method TraducirAcceso(pid: int, dl: uint32, tam: uint32) returns (df: Option<uint32>)
      ensures df == if Esta(contextos, pid) then Traducir(tamMaxCpu, contextos[Indice(contextos, pid)].v, dl, tam) else None
    {
      df := None;
      var i := BuscarContexto(pid);
      if i < |contextos| {
        var aceptado, direccion := TraducirDireccion(tamMaxCpu, contextos[i].v, dl, tam);
        df := if aceptado then Some(direccion) else None;
      }
    }

    /** What a device types goes to the process's segment: the CPU translates, Kernel Memory writes. */
    method EscribirLogico(pid: int, dl: uint32, datos: seq<byte>, sano: bool) returns (ok: bool)
      requires Valid() && |datos| < LIMITE_32 && SinEnvolver(tamMaxCpu, dl, |datos|)
      modifies fisica`sticks
      ensures Valid()
      ensures PasoReal(Cfg(), old(Maq()), Escribir(pid, dl, datos), sano, RBool(ok), Maq())
      ensures ok ==> Paso(Cfg(), old(Maq()), Escribir(pid, dl, datos), RBool(ok), Maq())
      ensures EscrituraNombrada(Cfg(), old(Maq()), pid, dl, datos, sano, ok, Maq())
    {
      ghost var m := Maq();
      var df := TraducirAcceso(pid, dl, |datos|);
      if df.None? {
        AccesoRechazado(Cfg(), huecos.lista, contextos, swap.suspendidos, fisica.Bytes(), swap.bloques, pid, dl, |datos|);
        EscrituraDice(Cfg(), m, pid, dl, datos, sano, false, m);
        return false;
      }
      ghost var mem := fisica.Bytes();
      EscribirEfecto(Cfg(), huecos.lista, contextos, swap.suspendidos, mem, swap.bloques, pid, dl, datos, df.value);
      ok := fisica.Escribir(df.value, datos, sano);
      EscribirReal(Cfg(), huecos.lista, contextos, swap.suspendidos, mem, fisica.Bytes(), swap.bloques, pid, dl, datos, df.value, sano, ok);
      EscrituraDice(Cfg(), m, pid, dl, datos, sano, ok, Maq());
    }

    /** What a device prints comes from the process's segment. */
    method LeerLogico(pid: int, dl: uint32, tam: uint32, sano: bool) returns (leido: Option<seq<byte>>)
      requires Valid() && SinEnvolver(tamMaxCpu, dl, tam)
      ensures PasoReal(Cfg(), Maq(), Leer(pid, dl, tam), sano, RBytes(leido), Maq())
      ensures leido.Some? ==> Paso(Cfg(), Maq(), Leer(pid, dl, tam), RBytes(leido), Maq())
      ensures LecturaNombrada(Cfg(), Maq(), pid, dl, tam, sano, leido)
    {
      var df := TraducirAcceso(pid, dl, tam);
      if df.None? {
        AccesoRechazado(Cfg(), huecos.lista, contextos, swap.suspendidos, fisica.Bytes(), swap.bloques, pid, dl, tam);
        LecturaDice(Cfg(), Maq(), pid, dl, tam, sano, None, Maq());
        return None;
      }
      LeerEfecto(Cfg(), huecos.lista, contextos, swap.suspendidos, fisica.Bytes(), swap.bloques, pid, dl, tam, df.value);
      var ok, datos := fisica.Leer(df.value, tam, sano);
      leido := if ok then Some(datos) else None;
      LecturaDice(Cfg(), Maq(), pid, dl, tam, sano, leido, Maq());
    }
  }
}
