/** Whole runs: any sequence of requests on Kernel Memory is a run of the abstract machine,
    whatever sticks, swap and CPUs answer. */
module Corridas {
  import opened Tipos
  import opened Rangos
  import opened Tesela
  import opened Vistas
  import opened MaquinaAbstracta
  import opened Efectos
  import opened MemoriaCpu
  import opened MemoriaUsuario
  import opened Accesos

  function BytesNuevos(ops: seq<Op>): nat {
    if |ops| == 0 then 0
    else (if ops[0].AgregarStick? then |ops[0].contenido| else 0) + BytesNuevos(ops[1..])
  }

  ghost predicate AccesoAdmisible(tamMax: uint32, op: Op) {
    match op
    case Escribir(_, dl, datos) => |datos| < LIMITE_32 && SinEnvolver(tamMax, dl, |datos|)
    case Leer(_, dl, tam) => SinEnvolver(tamMax, dl, tam)
    case _ => true
  }

  /** The memory is addressed with 32 bits; a suspension counts blocks and places them with an int. */
  predicate Cabe(total: nat, ops: seq<Op>) {
    total + BytesNuevos(ops) < if exists k :: 0 <= k < |ops| && ops[k].Suspender? then 0x8000_0000 else LIMITE_32
  }

  /** What the environment promises: fresh pids, a memory that fits, accesses whose limit
      check does not wrap. */
  ghost predicate Admisibles(tamMax: uint32, m: Maquina, ops: seq<Op>) {
    && Unicos(m.procs) && Cabe(m.total, ops)
    && (forall k :: 0 <= k < |ops| ==> AccesoAdmisible(tamMax, ops[k]))
    && (forall k :: 0 <= k < |ops| && ops[k].NuevoProceso? ==> !Esta(m.procs, ops[k].pid))
    && (forall j, k :: 0 <= j < k < |ops| && ops[j].NuevoProceso? && ops[k].NuevoProceso? ==> ops[j].pid != ops[k].pid)
  }

  lemma {:induction false} PasoPids(cfg: Config, m: Maquina, op: Op, sano: bool, r: Resp, m': Maquina, pid: int)
    requires PasoReal(cfg, m, op, sano, r, m') && Unicos(m.procs)
    requires op.NuevoProceso? ==> !Esta(m.procs, op.pid)
    ensures Esta(m'.procs, pid) ==> Esta(m.procs, pid) || op == NuevoProceso(pid)
  {
    match op
    case NuevoProceso(p) => IndiceAgregar(m.procs, Entrada(p, Almacen([], None)), pid);
    case Finalizar(p) =>
      if Esta(m.procs, p) {
        IndiceSacar(m.procs, Indice(m.procs, p), pid);
      }
    case Compactar =>
    case AgregarStick(_) =>
    case _ =>
      var i := Indice(m.procs, op.pid);
      if i < |m.procs| && |m'.procs| == |m.procs| {
        PonerAjeno(m, i, m'.procs[i].v, pid);
      }
  }

  lemma {:induction false} PasoTotal(cfg: Config, m: Maquina, op: Op, sano: bool, r: Resp, m': Maquina)
    requires PasoReal(cfg, m, op, sano, r, m')
    ensures m'.total == m.total + if op.AgregarStick? then |op.contenido| else 0
  {
  }

  lemma {:induction false} CabeSigue(total: nat, ops: seq<Op>)
    requires |ops| > 0 && Cabe(total, ops)
    ensures Cabe(total + if ops[0].AgregarStick? then |ops[0].contenido| else 0, ops[1..])
    ensures Cabe(total, [ops[0]])
  {
    assert [ops[0]][1..] == [];
    forall k | 0 <= k < |ops| - 1 && ops[1..][k].Suspender? ensures ops[k + 1].Suspender? {
    }
  }

  lemma {:induction false} AdmisiblesSigue(cfg: Config, m: Maquina, ops: seq<Op>, sano: bool, r: Resp, m': Maquina)
    requires Admisibles(cfg.tamMax, m, ops) && |ops| > 0 && PasoReal(cfg, m, ops[0], sano, r, m')
    ensures Admisibles(cfg.tamMax, m', ops[1..])
  {
    PasoUnicos(cfg, m, ops[0], sano, r, m');
    PasoTotal(cfg, m, ops[0], sano, r, m');
    CabeSigue(m.total, ops);
    forall k | 0 <= k < |ops| - 1 && ops[1..][k].NuevoProceso? ensures !Esta(m'.procs, ops[1..][k].pid) {
      PasoPids(cfg, m, ops[0], sano, r, m', ops[k + 1].pid);
    }
  }

  lemma {:induction false} AdmisiblesPrimera(tamMax: uint32, m: Maquina, ops: seq<Op>)
    requires Admisibles(tamMax, m, ops) && |ops| > 0
    ensures Admisibles(tamMax, m, [ops[0]])
    ensures ops[0].NuevoProceso? ==> !Esta(m.procs, ops[0].pid)
  {
    CabeSigue(m.total, ops);
  }

  /** One request fits: what the single operations ask for. */
  lemma {:induction false} CabeUna(total: nat, op: Op)
    requires Cabe(total, [op])
    ensures total < LIMITE_32 && (op.Suspender? ==> total < 0x8000_0000)
    ensures op.AgregarStick? ==> total + |op.contenido| < LIMITE_32
  {
    assert [op][1..] == [] && [op][0] == op;
  }

  lemma {:induction false} CorridaSigue(cfg: Config, traza: seq<Maquina>, ops: seq<Op>, rs: seq<Resp>, sanos: seq<bool>,
                                        op: Op, sano: bool, r: Resp, m': Maquina)
    requires Corrida(cfg, traza, ops, rs, sanos) && PidsFrescos(traza, ops)
    requires PasoReal(cfg, traza[|ops|], op, sano, r, m') && (op.NuevoProceso? ==> !Esta(traza[|ops|].procs, op.pid))
    ensures Corrida(cfg, traza + [m'], ops + [op], rs + [r], sanos + [sano]) && PidsFrescos(traza + [m'], ops + [op])
  {
  }

  /** No request of the run names this process. */
  predicate SinTocar(ops: seq<Op>, pid: int) {
    forall k :: 0 <= k < |ops| ==> !Toca(ops[k], pid)
  }

  /** Requests on this process only suspend it, read it, or bring it back with everything answering. */
  predicate SoloMueve(ops: seq<Op>, sanos: seq<bool>, pid: int)
    requires |sanos| == |ops|
  {
    forall k :: 0 <= k < |ops| ==> Conserva(ops[k], pid) && VuelveSano(ops[k], sanos[k], pid)
  }

  /**
    One request, dispatched to the operation that serves it; accesses are carried out by some
    CPU or by Kernel Memory.  `sano` promises that sticks, swap and Kernel Memory answer and
    buffers can be had.  `sigue` is false when a compaction was aborted, which leaves the
    holes unbuilt.
  */
  method Atender(km: KernelMemory, cpus: seq<CpuMemoria>, op: Op, sano: bool) returns (r: Resp, sigue: bool)
    requires km.Valid() && CpusValidas(km, cpus) && Admisibles(km.tamMaxCpu, km.Maq(), [op])
    modifies km, km.huecos, km.fisica, km.swap`bloques, km.swap`suspendidos, km.swap.usados, cpus
    ensures sigue ==> km.Valid() && CpusValidas(km, cpus) && PasoReal(km.Cfg(), old(km.Maq()), op, sano, r, km.Maq())
    ensures !sigue ==> op.Compactar? && !sano
  {
    assert [op][0] == op;
    CabeUna(km.Maq().total, op);
    sigue := true;
    if op.Escribir? {
      var ok := EscribirPorAlguno(km, cpus, op.pid, op.dl, op.datos, sano);
      r := RBool(ok);
    } else if op.Leer? {
      var leido := LeerPorAlguno(km, cpus, op.pid, op.dl, op.tam, sano);
      r := RBytes(leido);
    } else {
      r, sigue := AtenderServicio(km, cpus, op, sano);
    }
  }

  method AtenderServicio(km: KernelMemory, cpus: seq<CpuMemoria>, op: Op, sano: bool) returns (r: Resp, sigue: bool)
    requires km.Valid() && CpusValidas(km, cpus) && Admisibles(km.tamMaxCpu, km.Maq(), [op]) && !op.Escribir? && !op.Leer?
    modifies km, km.huecos, km.fisica, km.swap`bloques, km.swap`suspendidos, km.swap.usados
    ensures sigue ==> km.Valid() && CpusValidas(km, cpus) && PasoReal(km.Cfg(), old(km.Maq()), op, sano, r, km.Maq())
    ensures !sigue ==> op.Compactar? && !sano
  {
    assert [op][0] == op;
    CabeUna(km.Maq().total, op);
    ghost var antes, t := km.fisica.sticks, km.fisica.tamanios;
    sigue := true;
    match op {
      case NuevoProceso(pid) =>
        EnVista(km.contextos, km.swap.suspendidos, km.fisica.Bytes(), km.swap.bloques, pid);
        km.ContextoCrear(pid);
        r := RBool(true);
      case Crear(pid, id, tam) =>
        ghost var n: Segmento;
        var c;
        c, n := km.SegmentoCrear(pid, id, tam);
        r := RCrear(c);
      case Eliminar(pid, id) =>
        var ok := km.SegmentoEliminar(pid, id);
        r := RBool(ok);
      case Compactar =>
        sigue := km.Compactar(sano);
        r := RBool(sigue);
      case Suspender(pid) =>
        var ok := AtenderSuspender(km, pid, sano);
        r := RBool(ok);
      case Dessuspender(pid) =>
        ghost var n, l;
        var ok;
        ok, n, l := km.ProcesoDessuspender(pid, sano);
        r := RBool(ok);
      case Finalizar(pid) =>
        km.ProcesoFinalizar(pid);
        r := RBool(true);
      case AgregarStick(contenido) =>
        km.StickAgregar(0, contenido);
        r := RBool(true);
    }
    if sigue {
      SiguenValidas(km, cpus, antes, t);
    }
  }

  /** Below 2^31 bytes every process can be suspended. */
  method AtenderSuspender(km: KernelMemory, pid: int, sano: bool) returns (ok: bool)
    requires km.Valid() && km.fisica.total < 0x8000_0000
    modifies km`contextos, km.huecos, km.swap`bloques, km.swap`suspendidos, km.swap.usados
    ensures km.Valid() && Paso(km.Cfg(), old(km.Maq()), Suspender(pid), RBool(ok), km.Maq())
  {
    if km.swap.conectado && Esta(km.contextos, pid) {
      SuspendibleHasta2G(km.huecos.lista, km.contextos, km.fisica.total, Indice(km.contextos, pid), km.swap.tamBloque);
    }
    ok := km.ProcesoSuspender(pid, sano);
  }

  /**
    The refinement: whatever the hardware does, the answers and the visible states of any
    sequence of requests form a run of the abstract machine (`sanos[k]` promises that during
    request `k` all of it answers).  So a process no request names keeps its store, and one
    that is only moved around keeps its contents.  Only an aborted compaction stops the
    service before the end.
  */
  method Ejecutar(km: KernelMemory, cpus: seq<CpuMemoria>, ops: seq<Op>, sanos: seq<bool>) returns (rs: seq<Resp>, ghost traza: seq<Maquina>)
    requires km.Valid() && CpusValidas(km, cpus) && Admisibles(km.tamMaxCpu, km.Maq(), ops) && |sanos| == |ops|
    modifies km, km.huecos, km.fisica, km.swap`bloques, km.swap`suspendidos, km.swap.usados, cpus
    ensures |rs| <= |ops| && (|rs| < |ops| ==> ops[|rs|].Compactar? && !sanos[|rs|])
    ensures |traza| == |rs| + 1 && traza[0] == old(km.Maq())
    ensures Corrida(km.Cfg(), traza, ops[..|rs|], rs, sanos[..|rs|])
    ensures |rs| == |ops| ==> km.Valid() && CpusValidas(km, cpus) && traza[|ops|] == km.Maq()
    ensures |rs| == |ops| ==> forall pid :: SinTocar(ops, pid) ==> AlmacenEn(km.Maq(), pid) == old(AlmacenEn(km.Maq(), pid))
    ensures |rs| == |ops| ==>
              forall pid :: SoloMueve(ops, sanos, pid) ==> Todo(AlmacenEn(km.Maq(), pid)) == old(Todo(AlmacenEn(km.Maq(), pid)))
  {
    rs, traza := Recorrer(km, cpus, ops, sanos);
    assert Desplegar(0);
    if |rs| == |ops| {
      assert ops[..|ops|] == ops && sanos[..|ops|] == sanos;
      Consecuencias(km.Cfg(), traza, ops, rs, sanos);
    }
  }

  method Recorrer(km: KernelMemory, cpus: seq<CpuMemoria>, ops: seq<Op>, sanos: seq<bool>) returns (rs: seq<Resp>, ghost traza: seq<Maquina>)
    requires km.Valid() && CpusValidas(km, cpus) && Admisibles(km.tamMaxCpu, km.Maq(), ops) && |sanos| == |ops|
    modifies km, km.huecos, km.fisica, km.swap`bloques, km.swap`suspendidos, km.swap.usados, cpus
    ensures |rs| <= |ops| && (|rs| < |ops| ==> ops[|rs|].Compactar? && !sanos[|rs|])
    ensures |traza| == |rs| + 1 && traza[0] == old(km.Maq())
    ensures EnCurso(km.Cfg(), traza, ops, rs, sanos)
    ensures |rs| == |ops| ==> km.Valid() && CpusValidas(km, cpus) && traza[|ops|] == km.Maq()
  {
    rs, traza := [], [km.Maq()];
    EnCursoInicial(km.Cfg(), km.Maq(), ops, sanos);
    assert ops[0..] == ops;
    for k := 0 to |ops|
      invariant |rs| == k && km.Valid() && CpusValidas(km, cpus)
      invariant |traza| == k + 1 && traza[0] == old(km.Maq()) && traza[k] == km.Maq()
      invariant EnCurso(km.Cfg(), traza, ops, rs, sanos)
      invariant Admisibles(km.tamMaxCpu, km.Maq(), ops[k..])
    {
      ghost var m := km.Maq();
      AdmisiblesPrimera(km.tamMaxCpu, m, ops[k..]);
      var r, sigue := Atender(km, cpus, ops[k], sanos[k]);
      if !sigue {
        return;
      }
      AdmisiblesSigue(km.Cfg(), m, ops[k..], sanos[k], r, km.Maq());
      assert ops[k..][1..] == ops[k + 1..];
      EnCursoSigue(km.Cfg(), traza, ops, rs, sanos, r, km.Maq());
      rs, traza := rs + [r], traza + [km.Maq()];
    }
  }

  /** The requests answered so far are a run; folded. */
  ghost function EnCurso(cfg: Config, traza: seq<Maquina>, ops: seq<Op>, rs: seq<Resp>, sanos: seq<bool>): (b: bool)
    ensures forall z {:trigger Desplegar(z)} :: Desplegar(z) ==> b == EnCursoAbierto(cfg, traza, ops, rs, sanos)
  {
    var b: bool :| forall z {:trigger Desplegar(z)} :: Desplegar(z) ==> b == EnCursoAbierto(cfg, traza, ops, rs, sanos);
    b
  }

  ghost predicate EnCursoAbierto(cfg: Config, traza: seq<Maquina>, ops: seq<Op>, rs: seq<Resp>, sanos: seq<bool>) {
    && |rs| <= |ops| == |sanos|
    && Corrida(cfg, traza, ops[..|rs|], rs, sanos[..|rs|]) && PidsFrescos(traza, ops[..|rs|])
  }

  lemma {:induction false} EnCursoInicial(cfg: Config, m: Maquina, ops: seq<Op>, sanos: seq<bool>)
    requires |ops| == |sanos|
    ensures EnCurso(cfg, [m], ops, [], sanos)
  {
    assert Desplegar(0);
  }

  lemma {:induction false} EnCursoSigue(cfg: Config, traza: seq<Maquina>, ops: seq<Op>, rs: seq<Resp>, sanos: seq<bool>, r: Resp, m': Maquina)
    requires EnCurso(cfg, traza, ops, rs, sanos) && |rs| < |ops| == |sanos| && |traza| == |rs| + 1
    requires PasoReal(cfg, traza[|rs|], ops[|rs|], sanos[|rs|], r, m')
    requires ops[|rs|].NuevoProceso? ==> !Esta(traza[|rs|].procs, ops[|rs|].pid)
    ensures EnCurso(cfg, traza + [m'], ops, rs + [r], sanos)
  {
    assert Desplegar(0);
    var n := |rs|;
    assert ops[..n] + [ops[n]] == ops[..n + 1] && sanos[..n] + [sanos[n]] == sanos[..n + 1];
    CorridaSigue(cfg, traza, ops[..n], rs, sanos[..n], ops[n], sanos[n], r, m');
  }

  lemma {:induction false} Consecuencias(cfg: Config, traza: seq<Maquina>, ops: seq<Op>, rs: seq<Resp>, sanos: seq<bool>)
    requires Corrida(cfg, traza, ops, rs, sanos) && Unicos(traza[0].procs) && PidsFrescos(traza, ops)
    ensures forall pid :: SinTocar(ops, pid) ==> AlmacenEn(traza[|ops|], pid) == AlmacenEn(traza[0], pid)
    ensures forall pid :: SoloMueve(ops, sanos, pid) ==> Todo(AlmacenEn(traza[|ops|], pid)) == Todo(AlmacenEn(traza[0], pid))
  {
    forall pid | SinTocar(ops, pid) ensures AlmacenEn(traza[|ops|], pid) == AlmacenEn(traza[0], pid) {
      Privado(cfg, traza, ops, rs, sanos, pid);
    }
    forall pid | SoloMueve(ops, sanos, pid) ensures Todo(AlmacenEn(traza[|ops|], pid)) == Todo(AlmacenEn(traza[0], pid)) {
      ContenidoConstante(cfg, traza, ops, rs, sanos, pid);
    }
  }
}
