/** The Kernel Scheduler (`kernel_scheduler/src/main.c`): each method is one handler, or one turn
    of one thread, and is proved to be one step of the model and to keep its invariant. */
module Planificador {
  import opened Tipos
  import opened Listas
  import opened Planificacion
  import opened Sistemas
  import opened Pasos
  import opened Invariantes
  import opened Ejecuciones
  import opened Formas

  class KernelScheduler {
    const cfg: Config
    var procs: Procesos
    var listas: Listados
    var mutexes: seq<Mutex>
    var io: Io
    var cpus: Cpus
    var sem: Semaforos
    var compactando: bool
    var esperando: Option<int>
    var proximoPid: int
    var avisos: seq<Aviso>

    function Foto(): Sistema
      reads this
    {
      Sistema(procs, listas, mutexes, io, cpus, sem, compactando, esperando, proximoPid, avisos)
    }

    ghost predicate Valid()
      reads this
    {
      Inv(cfg, Foto())
    }

    constructor (cfg: Config)
      requires ConfigValida(cfg)
      ensures Valid() && this.cfg == cfg && Foto() == Inicial(cfg)
      ensures procs == map[] && mutexes == [] && sem == Semaforos(0, 0, 1) && !compactando && proximoPid == 0
      ensures |listas.colas| == |cfg.rr| && forall c :: 0 <= c < |listas.colas| ==> listas.colas[c] == []
    {
      this.cfg := cfg;
      procs, mutexes := map[], [];
      listas := Listados(seq(|cfg.rr|, _ => []), [], [], [], [], []);
      io := Io([], [], [], [], []);
      cpus := Cpus([], [], None);
      sem := Semaforos(0, 0, 1);
      compactando, esperando, proximoPid, avisos := false, None, 0, [];
      new;
      InicialConsistente(cfg);
    }

    // -------------------------------------------------------------- searches

    /** `buscar_proceso_en_exec`. */
    method BuscarEnExec(pid: int) returns (esta: bool)
      requires Valid()
      ensures esta <==> Ejecuta(Foto(), pid)
    {
      ExecDice(cfg, Foto(), pid);
      esta := EstaEnLista(listas.exec, pid);
    }

    method EstaEnLista(l: seq<int>, pid: int) returns (esta: bool)
      ensures esta <==> pid in l
    {
      esta := false;
      for i := 0 to |l|
        invariant !esta && pid !in l[..i]
      {
        if l[i] == pid {
          return true;
        }
      }
    }

    /** `buscar_proceso_por_pid`: every list but the out-of-range one. */
    method BuscarPorPid(pid: int) returns (esta: bool)
      requires Valid()
      ensures esta <==> Buscable(cfg, Foto(), pid)
    {
      ListaDice(cfg, Foto(), EnExec, pid);
      ListaDice(cfg, Foto(), EnBlock, pid);
      ListaDice(cfg, Foto(), EnSuspReady, pid);
      ListaDice(cfg, Foto(), EnSuspBlock, pid);
      esta := EstaEnLista(listas.exec, pid);
      if !esta { esta := EstaEnLista(listas.block, pid); }
      if !esta { esta := EstaEnLista(listas.suspReady, pid); }
      if !esta { esta := EstaEnLista(listas.suspBlock, pid); }
      if !esta { esta := BuscarEnColas(pid); }
    }

    method BuscarEnColas(pid: int) returns (esta: bool)
      requires Valid()
      ensures esta <==> pid in procs && LugarDe(cfg, procs[pid]).EnCola?
    {
      esta := false;
      for c := 0 to |listas.colas|
        invariant !esta && forall k :: 0 <= k < c ==> pid !in listas.colas[k]
      {
        esta := EstaEnLista(listas.colas[c], pid);
        if esta {
          ListaDice(cfg, Foto(), EnCola(c), pid);
          return;
        }
      }
      if pid in procs {
        SinCola(cfg, Foto(), pid);
      }
    }

    method PosicionMutex(nombre: string) returns (j: nat)
      ensures j == BuscarMutex(mutexes, nombre)
    {
      j := 0;
      assert mutexes[0..] == mutexes;
      while j < |mutexes|
        invariant j <= |mutexes| && BuscarMutex(mutexes, nombre) == j + BuscarMutex(mutexes[j..], nombre)
      {
        assert mutexes[j..][1..] == mutexes[j + 1..];
        if mutexes[j].nombre == nombre {
          return;
        }
        j := j + 1;
      }
    }

    // -------------------------------------------------------------- ready queues

    /** `encolar_en_ready`: queues `p`, and interrupts the worst running process if it is worse. */
    method EncolarEnReady(p: int) returns (planificable: bool)
      requires ConfigValida(cfg) && |listas.colas| == |cfg.rr| && p in procs && procs[p].estado == Ready
      modifies this`listas, this`avisos
      ensures Foto() == Agregado(cfg, old(Foto()), p)
      ensures planificable <==> LugarDe(cfg, procs[p]).EnCola?
    {
      if cfg.cmn {
        if procs[p].prioridad < 0 || procs[p].prioridad >= |cfg.rr| {
          listas := listas.(invalida := listas.invalida + [p]);
          return false;
        }
        listas := listas.(colas := listas.colas[procs[p].prioridad := listas.colas[procs[p].prioridad] + [p]]);
        if cfg.desalojo {
          DesalojarPeor(p);
        }
      } else {
        listas := listas.(colas := listas.colas[0 := listas.colas[0] + [p]]);
      }
      planificable := true;
    }

    /** Preemption between queues: at most one interrupt, to the worst running process. */
    method DesalojarPeor(p: int)
      requires cfg.cmn && cfg.desalojo && p in procs && Nivel(cfg, procs[p].prioridad).Some?
      modifies this`avisos
      ensures avisos == old(avisos) + AvisosDe(cfg, procs, listas.exec, p)
    {
      var peor: Option<int> := None;
      for i := 0 to |listas.exec|
        invariant peor == Peor(procs, listas.exec[..i])
        invariant avisos == old(avisos)
      {
        assert listas.exec[..i + 1][..i] == listas.exec[..i];
        if peor.None? || Prioridad(procs, listas.exec[i]) > Prioridad(procs, peor.value) {
          peor := Some(listas.exec[i]);
        }
      }
      assert listas.exec[..|listas.exec|] == listas.exec;
      if peor.Some? && Prioridad(procs, peor.value) > procs[p].prioridad {
        if peor.value in procs && procs[peor.value].cpu.Some? {
          avisos := avisos + [Aviso(procs[peor.value].cpu.value, peor.value)];
        }
      }
    }

    /** `sem_post(&sem_hay_procesos_ready)`. */
    method PostReady(planificable: bool)
      modifies this`sem
      ensures Foto() == Puesto(old(Foto()), planificable)
    {
      if planificable {
        sem := sem.(ready := sem.ready + 1);
      }
    }

    /** A new process goes through NEW to READY. */
    method CrearProceso(prioridad: int, creado: bool)
      requires Valid()
      modifies this
      ensures Valid() && Foto() == Tras(cfg, old(Foto()), Inicia(prioridad, creado))
    {
      PasoConsistente(cfg, Foto(), Inicia(prioridad, creado));
      NacerForma(cfg, Foto(), prioridad, creado);
      var p := proximoPid;
      proximoPid := proximoPid + 1;
      if creado {
        procs := procs[p := Proceso(prioridad, prioridad, Ready, None, Ninguno, 0)];
        var planificable := EncolarEnReady(p);
        PostReady(planificable);
      }
    }

    method ManejarInitProc(pid: int, prioridad: int, creado: bool)
      requires Valid()
      modifies this
      ensures Valid() && Foto() == Tras(cfg, old(Foto()), InitProc(pid, prioridad, creado))
    {
      InitForma(cfg, Foto(), pid, prioridad, creado);
      var ejecuta := BuscarEnExec(pid);
      if ejecuta {
        CrearProceso(prioridad, creado);
      }
    }

    /** First non-empty queue, in order. */
    method ObtenerCola() returns (i: nat)
      ensures i == PrimeraConProcesos(listas.colas, 0)
    {
      i := 0;
      while i < |listas.colas| && listas.colas[i] == []
        invariant i <= |listas.colas| && PrimeraConProcesos(listas.colas, 0) == PrimeraConProcesos(listas.colas, i)
      {
        i := i + 1;
      }
    }

    /** One turn of `planificador_corto_plazo`, once its three waits are over. */
    method PlanificadorCortoPlazo()
      requires Valid() && PuedePlanificar(Foto())
      modifies this
      ensures Valid() && Foto() == Tras(cfg, old(Foto()), Planifica)
    {
      PasoConsistente(cfg, Foto(), Planifica);
      PlanificarForma(cfg, Foto());
      sem := Semaforos(sem.ready - 1, sem.cpus - 1, sem.puede - 1);
      var i := ObtenerCola();
      var p := listas.colas[i][0];
      listas := listas.(colas := listas.colas[i := listas.colas[i][1..]]);
      var cpu := cpus.libres[0];
      cpus := cpus.(libres := cpus.libres[1..]);
      var proceso := procs[p].(estado := Exec, cpu := Some(cpu));
      if cfg.rr[i] {
        proceso := proceso.(reloj := Quantum(cpu));
      }
      procs := procs[p := proceso];
      listas := listas.(exec := listas.exec + [p]);
      sem := sem.(puede := sem.puede + 1);
    }

    // -------------------------------------------------------------- timers

    method HiloQuantum(pid: int)
      requires Valid()
      modifies this
      ensures Valid() && Foto() == Tras(cfg, old(Foto()), FinTimerQuantum(pid))
    {
      PasoConsistente(cfg, Foto(), FinTimerQuantum(pid));
      QuantumForma(cfg, Foto(), pid);
      var esta := BuscarPorPid(pid);
      if esta && procs[pid].reloj.Quantum? {
        var cpu := procs[pid].reloj.cpu;
        procs := procs[pid := procs[pid].(reloj := Ninguno)];
        avisos := avisos + [Aviso(cpu, pid)];
      }
    }

    method HiloSuspension(pid: int)
      requires Valid()
      modifies this
      ensures Valid() && Foto() == Tras(cfg, old(Foto()), FinTimerSuspension(pid))
    {
      PasoConsistente(cfg, Foto(), FinTimerSuspension(pid));
      SuspensionForma(cfg, Foto(), pid);
      var esta := BuscarPorPid(pid);
      if esta && procs[pid].reloj == Suspension {
        if procs[pid].estado == Block {
          listas := listas.(block := Quitar(listas.block, pid));
          procs := procs[pid := procs[pid].(reloj := Ninguno, estado := SuspBlock)];
          listas := listas.(suspBlock := listas.suspBlock + [pid]);
        } else {
          procs := procs[pid := procs[pid].(reloj := Ninguno)];
        }
      }
    }

    // -------------------------------------------------------------- CPUs

    method AtenderCpu(cpu: int)
      requires Valid() && cpu !in cpus.conectadas
      modifies this
      ensures Valid() && Foto() == Tras(cfg, old(Foto()), Conecta(cpu))
    {
      PasoConsistente(cfg, Foto(), Conecta(cpu));
      ConectarForma(cfg, Foto(), cpu);
      cpus := cpus.(conectadas := cpus.conectadas + [cpu], libres := cpus.libres + [cpu]);
      sem := sem.(cpus := sem.cpus + 1);
    }

    method DevolverCpu(cpu: int)
      modifies this`cpus, this`sem
      ensures Foto() == Devolver(old(Foto()), cpu)
    {
      cpus := cpus.(libres := cpus.libres + [cpu]);
      sem := sem.(cpus := sem.cpus + 1);
    }

    method BuscarPorCpu(cpu: int) returns (r: Option<int>)
      requires forall i :: 0 <= i < |listas.exec| ==> listas.exec[i] in procs
      ensures r == EjecutandoEn(procs, listas.exec, cpu)
    {
      assert listas.exec[0..] == listas.exec;
      for i := 0 to |listas.exec|
        invariant EjecutandoEn(procs, listas.exec, cpu) == EjecutandoEn(procs, listas.exec[i..], cpu)
      {
        assert listas.exec[i..][1..] == listas.exec[i + 1..];
        if procs[listas.exec[i]].cpu == Some(cpu) {
          return Some(listas.exec[i]);
        }
      }
      r := None;
    }

    /** A CPU leaves; the process it ran goes back to READY. */
    method Desconectar(cpu: int)
      requires Valid() && cpu in cpus.conectadas && cpus.reservada != Some(cpu)
      modifies this
      ensures Valid() && Foto() == Tras(cfg, old(Foto()), Desconecta(cpu))
    {
      PasoConsistente(cfg, Foto(), Desconecta(cpu));
      DesconectarForma(cfg, Foto(), cpu);
      EjecutanVivos(cfg, Foto());
      QuitarCpu(cpu);
      var r := BuscarPorCpu(cpu);
      if r.Some? {
        listas := listas.(exec := Quitar(listas.exec, r.value));
        procs := procs[r.value := procs[r.value].(estado := Ready, cpu := None, reloj := Ninguno)];
        var planificable := EncolarEnReady(r.value);
        PostReady(planificable);
      }
    }

    method QuitarCpu(cpu: int)
      modifies this`cpus, this`sem
      ensures Foto() == SinCpu(old(Foto()), cpu)
    {
      cpus := cpus.(conectadas := Quitar(cpus.conectadas, cpu));
      if cpu in cpus.libres {
        cpus := cpus.(libres := Quitar(cpus.libres, cpu));
        if sem.cpus > 0 {
          sem := sem.(cpus := sem.cpus - 1);
        }
      }
    }

    /** A CPU returns a process it was told to interrupt. */
    method ManejarFinQuantum(pid: int)
      requires Valid()
      modifies this
      ensures Valid() && Foto() == Tras(cfg, old(Foto()), Desaloja(pid))
    {
      PasoConsistente(cfg, Foto(), Desaloja(pid));
      FinQuantumForma(cfg, Foto(), pid);
      var ejecuta := BuscarEnExec(pid);
      if ejecuta {
        var cpu := procs[pid].cpu.value;
        listas := listas.(exec := Quitar(listas.exec, pid));
        procs := procs[pid := procs[pid].(estado := Ready, cpu := None)];
        var planificable;
        if compactando {
          planificable := EncolarAlFrente(pid);
        } else {
          planificable := EncolarEnReady(pid);
        }
        PostReady(planificable);
        DevolverCpu(cpu);
      }
    }

    /** `encolar_al_frente_de_ready`. */
    method EncolarAlFrente(p: int) returns (planificable: bool)
      requires ConfigValida(cfg) && |listas.colas| == |cfg.rr| && p in procs && procs[p].estado == Ready
      modifies this`listas
      ensures Foto() == AlFrente(cfg, old(Foto()), p)
      ensures planificable <==> LugarDe(cfg, procs[p]).EnCola?
    {
      if cfg.cmn {
        if procs[p].prioridad < 0 || procs[p].prioridad >= |cfg.rr| {
          listas := listas.(invalida := listas.invalida + [p]);
          return false;
        }
        listas := listas.(colas := listas.colas[procs[p].prioridad := [p] + listas.colas[procs[p].prioridad]]);
      } else {
        listas := listas.(colas := listas.colas[0 := [p] + listas.colas[0]]);
      }
      planificable := true;
    }

    // -------------------------------------------------------------- blocking and I/O

    /** `bloquear_proceso`. */
    method BloquearProceso(p: int)
      requires Ejecuta(Foto(), p)
      modifies this`procs, this`listas, this`cpus, this`sem
      ensures Foto() == BloquearP(cfg, old(Foto()), p)
    {
      BloquearForma(cfg, Foto(), p);
      var cpu := procs[p].cpu.value;
      listas := listas.(exec := Quitar(listas.exec, p));
      procs := procs[p := procs[p].(estado := Block, cpu := None, reloj := Suspension)];
      listas := listas.(block := listas.block + [p]);
      DevolverCpu(cpu);
    }

    /** SLEEP, STDIN and STDOUT. */
    method ManejarIo(pid: int, tipo: TipoIo)
      requires Valid()
      modifies this
      ensures Valid() && Foto() == Tras(cfg, old(Foto()), PideIo(pid, tipo))
    {
      PasoConsistente(cfg, Foto(), PideIo(pid, tipo));
      PedirIoForma(cfg, Foto(), pid, tipo);
      var ejecuta := BuscarEnExec(pid);
      if ejecuta {
        BloquearProceso(pid);
        match tipo {
          case Sleep => io := io.(sleep := io.sleep + [pid]);
          case Stdin => io := io.(stdin := io.stdin + [pid]);
          case Stdout => io := io.(stdout := io.stdout + [pid]);
        }
      }
    }

    /** A device takes the oldest request of its kind. */
    method TomarPedidoIo(tipo: TipoIo)
      requires Valid() && Cola(Foto().io, tipo) != []
      modifies this
      ensures Valid() && Foto() == Tras(cfg, old(Foto()), TomaIo(tipo))
    {
      PasoConsistente(cfg, Foto(), TomaIo(tipo));
      TomarIoForma(cfg, Foto(), tipo);
      match tipo {
        case Sleep => io := io.(servicio := io.servicio + [io.sleep[0]], sleep := io.sleep[1..]);
        case Stdin => io := io.(servicio := io.servicio + [io.stdin[0]], stdin := io.stdin[1..]);
        case Stdout => io := io.(servicio := io.servicio + [io.stdout[0]], stdout := io.stdout[1..]);
      }
    }

    /** What unlock, the death of an owner and the end of an I/O do to the process they wake. */
    method DespertarProceso(p: int, ahora: int)
      requires ConfigValida(cfg) && |listas.colas| == |cfg.rr| && p in procs
      modifies this
      ensures Foto() == DespertarP(cfg, old(Foto()), p, ahora)
    {
      DespertarForma(cfg, Foto(), p, ahora);
      match procs[p].estado {
        case Block =>
          listas := listas.(block := Quitar(listas.block, p));
          procs := procs[p := procs[p].(reloj := Ninguno, estado := Ready)];
          var planificable := EncolarEnReady(p);
          PostReady(planificable);
        case SuspBlock =>
          listas := listas.(suspBlock := Quitar(listas.suspBlock, p));
          procs := procs[p := procs[p].(reloj := Ninguno, estado := SuspReady, suspendidoEn := ahora)];
          listas := listas.(suspReady := listas.suspReady + [p]);
        case _ =>
          procs := procs[p := procs[p].(reloj := Ninguno)];
      }
    }

    /** The device answered.  `respuestas` are Kernel Memory's answers to the de-suspensions
        tried, if any, and `orden` the order in which they were tried. */
    method ManejarFinIo(p: int, ok: bool, ahora: int, respuestas: seq<bool>) returns (ghost orden: seq<int>)
      requires Valid() && p in io.servicio
      modifies this
      ensures Habilitado(cfg, old(Foto()), TerminaIo(p, ok, ahora, orden, respuestas))
      ensures Valid() && Foto() == Tras(cfg, old(Foto()), TerminaIo(p, ok, ahora, orden, respuestas))
    {
      orden := [];
      ghost var s := Foto();
      ServicioDice(cfg, s, p);
      FinIoForma(cfg, s, p, ok, ahora);
      DespiertaBien(cfg, s, p, ahora);
      var suspendido := procs[p].estado == SuspBlock;
      io := io.(servicio := Quitar(io.servicio, p));
      if !ok {
        io := io.(perdidos := io.perdidos + [p]);
        FinIoOrdenaForma(cfg, s, p, ok, ahora, orden);
        PasoConsistente(cfg, s, TerminaIo(p, ok, ahora, orden, respuestas));
        return;
      }
      DespertarProceso(p, ahora);
      if suspendido {
        orden := IntentarDessuspender(respuestas);
      }
      FinIoOrdenaForma(cfg, s, p, ok, ahora, orden);
    }

    // -------------------------------------------------------------- de-suspension

    /** `intentar_dessuspender_procesos`; `respuestas[n]` is Kernel Memory's answer to the n-th
        OP_DESSUSPENDER_PROCESO. */
    method IntentarDessuspender(respuestas: seq<bool>) returns (ghost orden: seq<int>)
      requires Valid()
      modifies this
      ensures EsOrden(old(procs), old(listas).suspReady, orden)
      ensures Valid() && Foto() == Tras(cfg, old(Foto()), HayMemoria(orden, respuestas))
    {
      ghost var s0 := Foto();
      SuspendidosVivos(cfg, s0);
      var ordenada := OrdenarSuspendidos(procs, listas.suspReady);
      OrdenForma(cfg, s0, ordenada);
      listas := listas.(suspReady := ordenada);
      orden := ordenada;
      ghost var s := Foto();
      DessuspenderInicio(cfg, s, ordenada, respuestas);
      for n := 0 to |ordenada|
        invariant Dessuspendiendo(cfg, Foto(), ordenada, n)
        invariant Foto() == DessuspenderP(cfg, s, ordenada, respuestas, n)
      {
        DessuspenderForma(cfg, s, ordenada, respuestas, n);
        if n < |respuestas| && respuestas[n] {
          DessuspenderProceso(ordenada[n]);
        }
      }
      DessuspenderFin(cfg, s0, ordenada, respuestas);
    }

    method DessuspenderProceso(p: int)
      requires ConfigValida(cfg) && |listas.colas| == |cfg.rr| && p in procs
      modifies this
      ensures var q := old(procs)[p].(estado := Ready);
        Foto() == Puesto(Agregado(cfg, old(Foto()).(procs := old(procs)[p := q],
          listas := old(listas).(suspReady := Quitar(old(listas).suspReady, p))), p), LugarDe(cfg, q).EnCola?)
    {
      listas := listas.(suspReady := Quitar(listas.suspReady, p));
      procs := procs[p := procs[p].(estado := Ready)];
      var planificable := EncolarEnReady(p);
      PostReady(planificable);
    }

    // -------------------------------------------------------------- mutexes

    method ManejarMutexCreate(pid: int, nombre: string)
      requires Valid()
      modifies this
      ensures Valid() && Foto() == Tras(cfg, old(Foto()), CreaMutex(pid, nombre))
    {
      PasoConsistente(cfg, Foto(), CreaMutex(pid, nombre));
      CrearMutexForma(cfg, Foto(), pid, nombre);
      var ejecuta := BuscarEnExec(pid);
      if ejecuta {
        var j := PosicionMutex(nombre);
        if j == |mutexes| {
          mutexes := mutexes + [Mutex(nombre, None, [], [], [])];
        }
      }
    }

    /** `mayor_prioridad_del_mutex`. */
    method MejorEnEspera(espera: seq<int>) returns (mejor: int)
      ensures mejor == MayorPrioridad(procs, espera)
    {
      mejor := -1;
      for i := 0 to |espera|
        invariant mejor == MayorPrioridad(procs, espera[..i])
      {
        assert espera[..i + 1][..i] == espera[..i];
        if mejor == -1 || Prioridad(procs, espera[i]) < mejor {
          mejor := Prioridad(procs, espera[i]);
        }
      }
      assert espera[..|espera|] == espera;
    }

    /** `aplicar_herencia`. */
    method AplicarHerencia(p: int, j: nat)
      requires cfg.cmn && |listas.colas| == |cfg.rr| && p in procs && j < |mutexes|
      requires procs[p].estado == Ready ==> Nivel(cfg, procs[p].prioridad).Some?
      modifies this`procs, this`listas, this`avisos
      ensures Foto() == HeredarP(cfg, old(Foto()), p, j)
    {
      HeredarForma(cfg, Foto(), p, j);
      var mejor := MejorEnEspera(mutexes[j].espera);
      if mejor == -1 || mejor >= procs[p].prioridad {
        return;
      }
      if procs[p].estado == Ready {
        var i := procs[p].prioridad;
        listas := listas.(colas := listas.colas[i := Quitar(listas.colas[i], p)]);
        procs := procs[p := procs[p].(prioridad := mejor)];
        var _ := EncolarEnReady(p);
      } else {
        procs := procs[p := procs[p].(prioridad := mejor)];
      }
    }

    /** `devolver_prioridad`. */
    method DevolverPrioridadDe(p: int)
      requires p in procs
      modifies this`procs
      ensures Foto() == DevolverPrioridad(old(Foto()), p)
    {
      var mejor := procs[p].original;
      for i := 0 to |mutexes|
        invariant procs == old(procs) && mejor == MejorPropia(procs, mutexes, p, i)
      {
        if mutexes[i].dueno == Some(p) {
          var candidato := MejorEnEspera(mutexes[i].espera);
          if candidato != -1 && candidato < mejor {
            mejor := candidato;
          }
        }
      }
      if mejor != procs[p].prioridad {
        procs := procs[p := procs[p].(prioridad := mejor)];
      }
    }

    method ManejarMutexLock(pid: int, nombre: string)
      requires Valid()
      modifies this
      ensures Valid() && Foto() == Tras(cfg, old(Foto()), Lock(pid, nombre))
    {
      PasoConsistente(cfg, Foto(), Lock(pid, nombre));
      LockForma(cfg, Foto(), pid, nombre);
      var ejecuta := BuscarEnExec(pid);
      if !ejecuta {
        return;
      }
      var j := PosicionMutex(nombre);
      if j == |mutexes| {
        return;
      }
      if mutexes[j].dueno.None? {
        mutexes := mutexes[j := Tomado(mutexes[j], pid)];
      } else {
        var dueno := mutexes[j].dueno.value;
        var esta := BuscarPorPid(dueno);
        mutexes := mutexes[j := Pedido(mutexes[j], pid)];
        if esta && cfg.cmn {
          AplicarHerencia(dueno, j);
        }
        BloquearProceso(pid);
      }
    }

    /** The heir of a mutex inherits from those behind it and wakes up. */
    method EntregarMutex(w: int, j: nat, ahora: int)
      requires ConfigValida(cfg) && |listas.colas| == |cfg.rr| && w in procs && j < |mutexes| && Bloqueado(procs[w])
      modifies this
      ensures Foto() == RecibirP(cfg, old(Foto()), w, j, ahora)
    {
      if cfg.cmn {
        AplicarHerencia(w, j);
      }
      DespertarProceso(w, ahora);
    }

    method ManejarMutexUnlock(pid: int, nombre: string, ahora: int)
      requires Valid()
      modifies this
      ensures Valid() && Foto() == Tras(cfg, old(Foto()), Unlock(pid, nombre, ahora))
    {
      PasoConsistente(cfg, Foto(), Unlock(pid, nombre, ahora));
      UnlockForma(cfg, Foto(), pid, nombre, ahora);
      var ejecuta := BuscarEnExec(pid);
      if !ejecuta {
        return;
      }
      var j := PosicionMutex(nombre);
      if j == |mutexes| {
        return;
      }
      if |mutexes[j].espera| > 0 {
        var w := mutexes[j].espera[0];
        mutexes := mutexes[j := Entregado(mutexes[j])];
        if cfg.cmn {
          DevolverPrioridadDe(pid);
        }
        EntregarMutex(w, j, ahora);
      } else {
        mutexes := mutexes[j := mutexes[j].(dueno := None)];
        if cfg.cmn {
          DevolverPrioridadDe(pid);
        }
      }
    }

    // -------------------------------------------------------------- the end of a process

    /** EXIT and segmentation fault. */
    method ManejarProcesoExit(pid: int, ahora: int)
      requires Valid()
      modifies this
      ensures Valid() && Foto() == Tras(cfg, old(Foto()), Termina(pid, ahora))
    {
      PasoConsistente(cfg, Foto(), Termina(pid, ahora));
      TerminarForma(cfg, Foto(), pid, ahora);
      var ejecuta := BuscarEnExec(pid);
      if !ejecuta {
        return;
      }
      var cpu := procs[pid].cpu.value;
      listas := listas.(exec := Quitar(listas.exec, pid));
      procs := procs - {pid};
      LiberarMutexDelProceso(pid, ahora, cpu);
      DevolverCpu(cpu);
    }

    /** `liberar_mutex_del_proceso`. */
    method LiberarMutexDelProceso(pid: int, ahora: int, ghost c0: int)
      requires EnCesion(cfg, Foto(), pid, c0)
      modifies this
      ensures Foto() == CederHasta(cfg, old(Foto()), pid, |old(mutexes)|, ahora)
    {
      ghost var s := Foto();
      for i := 0 to |mutexes|
        invariant |mutexes| == |s.mutexes| && EnCesion(cfg, Foto(), pid, c0)
        invariant Foto() == CederHasta(cfg, s, pid, i, ahora)
      {
        CederMutex(pid, i, ahora, c0);
      }
    }

    method CederMutex(pid: int, i: nat, ahora: int, ghost c0: int)
      requires i < |mutexes| && EnCesion(cfg, Foto(), pid, c0)
      modifies this
      ensures Foto() == Ceder(cfg, old(Foto()), pid, i, ahora) && EnCesion(cfg, Foto(), pid, c0)
    {
      CederForma(cfg, Foto(), pid, i, ahora, c0);
      if mutexes[i].dueno != Some(pid) {
        return;
      }
      if |mutexes[i].espera| == 0 {
        mutexes := mutexes[i := mutexes[i].(dueno := None)];
        return;
      }
      var siguiente := mutexes[i].espera[0];
      mutexes := mutexes[i := Entregado(mutexes[i])];
      EntregarMutex(siguiente, i, ahora);
    }

    // -------------------------------------------------------------- compaction

    /** Kernel Memory answered OP_COMPACTAR to an allocation of `pid`. */
    method PausarParaCompactar(pid: int)
      requires Valid() && Ejecuta(Foto(), pid) && sem.puede > 0
      modifies this
      ensures Valid() && Foto() == Tras(cfg, old(Foto()), PideCompactar(pid))
    {
      PasoConsistente(cfg, Foto(), PideCompactar(pid));
      CompactarForma(cfg, Foto(), pid);
      PonerEnPausa(pid);
      DesalojarTodasLasCpus();
    }

    method PonerEnPausa(pid: int)
      requires pid in procs
      modifies this
      ensures Foto() == EnPausa(old(Foto()), pid)
    {
      sem := sem.(puede := sem.puede - 1);
      esperando := Some(pid);
      cpus := cpus.(reservada := procs[pid].cpu);
      listas := listas.(exec := Quitar(listas.exec, pid));
      procs := procs[pid := procs[pid].(estado := Block, cpu := None)];
      listas := listas.(block := listas.block + [pid]);
      compactando := true;
    }

    method DesalojarTodasLasCpus()
      modifies this`avisos
      ensures Foto() == old(Foto()).(avisos := old(avisos) + AvisarATodos(procs, listas.exec))
    {
      for i := 0 to |listas.exec|
        invariant avisos == old(avisos) + AvisarATodos(procs, listas.exec[..i])
      {
        assert listas.exec[..i + 1][..i] == listas.exec[..i];
        if listas.exec[i] in procs && procs[listas.exec[i]].cpu.Some? {
          avisos := avisos + [Aviso(procs[listas.exec[i]].cpu.value, listas.exec[i])];
        }
      }
      assert listas.exec[..|listas.exec|] == listas.exec;
    }

    /** OP_FIN_COMPACTACION: the waiting process runs again on the CPU kept for it. */
    method ReanudarTrasCompactar()
      requires Valid() && compactando
      modifies this
      ensures Valid() && Foto() == Tras(cfg, old(Foto()), TerminaCompactar)
    {
      PasoConsistente(cfg, Foto(), TerminaCompactar);
      FinCompactacionForma(cfg, Foto());
      var p := esperando.value;
      procs := procs[p := procs[p].(estado := Exec, cpu := cpus.reservada)];
      listas := listas.(exec := listas.exec + [p]);
      listas := listas.(block := Quitar(listas.block, p));
      compactando := false;
      esperando := None;
      cpus := cpus.(reservada := None);
      sem := sem.(puede := sem.puede + 1);
    }
  }

  lemma {:induction false} SuspendidosVivos(cfg: Config, s: Sistema)
    requires Inv(cfg, s)
    ensures forall i :: 0 <= i < |s.listas.suspReady| ==> s.listas.suspReady[i] in s.procs
  {
    forall i | 0 <= i < |s.listas.suspReady| ensures s.listas.suspReady[i] in s.procs {
      ListaDice(cfg, s, EnSuspReady, s.listas.suspReady[i]);
    }
  }

  /** `list_sort` by priority and suspension time.  Only the order and the elements matter. */
  method OrdenarSuspendidos(m: Procesos, l: seq<int>) returns (o: seq<int>)
    requires forall i :: 0 <= i < |l| ==> l[i] in m
    ensures EsOrden(m, l, o)
  {
    o := [];
    for k := 0 to |l|
      invariant (forall i :: 0 <= i < |o| ==> o[i] in m) && EsOrden(m, l[..k], o)
    {
      var p := PosicionPara(m, o, l[k]);
      InsertarOrden(m, l, k, o, p);
      o := Insertado(o, p, l[k]);
    }
    assert l[..|l|] == l;
  }

  method PosicionPara(m: Procesos, o: seq<int>, x: int) returns (p: nat)
    requires x in m && (forall i :: 0 <= i < |o| ==> o[i] in m)
    requires forall i, j :: 0 <= i < j < |o| ==> AntesSuspendido(m, o[i], o[j])
    ensures p <= |o| && (forall q :: 0 <= q < p ==> AntesSuspendido(m, o[q], x)) && (forall q :: p <= q < |o| ==> AntesSuspendido(m, x, o[q]))
  {
    p := |o|;
    while p > 0 && !AntesSuspendido(m, o[p - 1], x)
      invariant p <= |o| && forall q :: p <= q < |o| ==> AntesSuspendido(m, x, o[q])
    {
      p := p - 1;
    }
  }

  /** `x` inserted at position `p`. */
  function Insertado(o: seq<int>, p: nat, x: int): (n: seq<int>)
    requires p <= |o|
    ensures |n| == |o| + 1
    ensures forall i :: 0 <= i < |n| ==> n[i] == if i < p then o[i] else if i == p then x else o[i - 1]
  {
    o[..p] + [x] + o[p..]
  }

  lemma {:induction false} InsertadoVeces(o: seq<int>, p: nat, y: int, x: int)
    requires p <= |o|
    ensures Veces(Insertado(o, p, y), x) == Veces(o, x) + Uno(x == y)
  {
    VecesConcat(o[..p] + [y], o[p..], x);
    VecesAgregar(o[..p], y, x);
    VecesConcat(o[..p], o[p..], x);
    assert o[..p] + o[p..] == o;
  }

  lemma {:induction false} InsertarOrden(m: Procesos, l: seq<int>, k: nat, o: seq<int>, p: nat)
    requires k < |l| && l[k] in m && p <= |o| && (forall i :: 0 <= i < |o| ==> o[i] in m) && EsOrden(m, l[..k], o)
    requires (forall q :: 0 <= q < p ==> AntesSuspendido(m, o[q], l[k])) && (forall q :: p <= q < |o| ==> AntesSuspendido(m, l[k], o[q]))
    ensures forall i :: 0 <= i < |o| + 1 ==> Insertado(o, p, l[k])[i] in m
    ensures EsOrden(m, l[..k + 1], Insertado(o, p, l[k]))
  {
    var n := Insertado(o, p, l[k]);
    forall x {:trigger Veces(n, x)} ensures Veces(n, x) == Veces(l[..k + 1], x) {
      InsertadoVeces(o, p, l[k], x);
      assert l[..k + 1] == l[..k] + [l[k]];
      VecesAgregar(l[..k], l[k], x);
      assert Veces(o, x) == Veces(l[..k], x);
    }
    InsertadoOrdenado(m, o, p, l[k]);
  }

  lemma {:induction false} InsertadoOrdenado(m: Procesos, o: seq<int>, p: nat, x: int)
    requires p <= |o| && forall i, j :: 0 <= i < j < |o| ==> AntesSuspendido(m, o[i], o[j])
    requires (forall q :: 0 <= q < p ==> AntesSuspendido(m, o[q], x)) && (forall q :: p <= q < |o| ==> AntesSuspendido(m, x, o[q]))
    ensures forall i, j :: 0 <= i < j < |o| + 1 ==> AntesSuspendido(m, Insertado(o, p, x)[i], Insertado(o, p, x)[j])
  {
  }
}
