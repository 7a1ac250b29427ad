/** Whole runs of the scheduler: what holds in every state it can reach. */
module Ejecuciones {
  import opened Tipos
  import opened Listas
  import opened Planificacion
  import opened Sistemas
  import opened Pasos
  import opened Invariantes
  import opened Prioridades
  import opened Herencia

  /** One handler or one turn of a thread.  Timer firings, device and Kernel Memory answers and
      the outcome of a sort are parameters. */
  datatype Evento =
    | Inicia(prioridad: int, creado: bool)
    | InitProc(p: int, prioridad: int, creado: bool)
    | Planifica
    | FinTimerQuantum(p: int)
    | FinTimerSuspension(p: int)
    | Conecta(c: int)
    | Desconecta(c: int)
    | Desaloja(p: int)
    | PideIo(p: int, t: TipoIo)
    | TomaIo(t: TipoIo)
    | TerminaIo(p: int, ok: bool, ahora: int, orden: seq<int>, resp: seq<bool>)
    | CreaMutex(p: int, nombre: string)
    | Lock(p: int, nombre: string)
    | Unlock(p: int, nombre: string, ahora: int)
    | Termina(p: int, ahora: int)
    | PideCompactar(p: int)
    | TerminaCompactar
    | HayMemoria(orden: seq<int>, resp: seq<bool>)

  ghost function Siguiente(cfg: Config, s: Sistema, e: Evento): Sistema {
    match e
    case Inicia(prioridad, creado) => Nacer(cfg, s, prioridad, creado)
    case InitProc(p, prioridad, creado) => if Ejecuta(s, p) then Nacer(cfg, s, prioridad, creado) else s
    case Planifica => Planificar(cfg, s)
    case FinTimerQuantum(p) => VenceQuantum(cfg, s, p)
    case FinTimerSuspension(p) => VenceSuspension(cfg, s, p)
    case Conecta(c) => ConectarCpu(s, c)
    case Desconecta(c) => DesconectarCpu(cfg, s, c)
    case Desaloja(p) => FinQuantum(cfg, s, p)
    case PideIo(p, t) => PedirIo(cfg, s, p, t)
    case TomaIo(t) => TomarIo(s, t)
    case TerminaIo(p, ok, ahora, orden, resp) => FinIo(cfg, s, p, ok, ahora, orden, resp)
    case CreaMutex(p, nombre) => MutexCreate(s, p, nombre)
    case Lock(p, nombre) => MutexLock(cfg, s, p, nombre)
    case Unlock(p, nombre, ahora) => MutexUnlock(cfg, s, p, nombre, ahora)
    case Termina(p, ahora) => Terminar(cfg, s, p, ahora)
    case PideCompactar(p) => Compactar(cfg, s, p)
    case TerminaCompactar => FinCompactacion(cfg, s)
    case HayMemoria(orden, resp) => Dessuspender(cfg, s, orden, resp)
  }

  /** When the step can happen: the semaphores it waits on are positive, a CPU connects under a
      new identifier and does not leave while it is reserved, Kernel Memory announces the end of
      a compaction only after one, and a sort sorts. */
  ghost predicate Habilitado(cfg: Config, s: Sistema, e: Evento) {
    match e
    case Planifica => PuedePlanificar(s)
    case Conecta(c) => c !in s.cpus.conectadas
    case Desconecta(c) => c in s.cpus.conectadas && s.cpus.reservada != Some(c)
    case TerminaIo(p, ok, ahora, orden, _) => FinIoOrdena(cfg, s, p, ok, ahora, orden)
    case PideCompactar(p) => s.sem.puede > 0
    case TerminaCompactar => s.compactando
    case HayMemoria(orden, _) => EsOrden(s.procs, s.listas.suspReady, orden)
    case _ => true
  }

  function Inicial(cfg: Config): Sistema {
    Sistema(map[], Listados(seq(|cfg.rr|, _ => []), [], [], [], [], []), [], Io([], [], [], [], []), Cpus([], [], None),
            Semaforos(0, 0, 1), false, None, 0, [])
  }

  lemma {:induction false} InicialInv(cfg: Config)
    requires ConfigValida(cfg)
    ensures Inv(cfg, Inicial(cfg)) && Exactas(Inicial(cfg)) && RestauradasEn(Inicial(cfg))
  {
    assert Desplegar(0);
    var s := Inicial(cfg);
    EncoladosNinguno(s.listas.colas);
    assert forall l: Lugar :: Lista(s.listas, l) == [];
  }

  /** Placement, single wake-up source, CPU and semaphore conservation, mutex order, live
      owners: one inductive invariant. */
  lemma {:induction false} PasoInv(cfg: Config, s: Sistema, e: Evento)
    requires Inv(cfg, s) && Habilitado(cfg, s, e)
    ensures Inv(cfg, Siguiente(cfg, s, e))
  {
    assert Desplegar(0);
    match e
    case Inicia(prioridad, creado) => NacerInv(cfg, s, prioridad, creado);
    case InitProc(p, prioridad, creado) => NacerInv(cfg, s, prioridad, creado);
    case Planifica => PlanificarInv(cfg, s);
    case FinTimerQuantum(p) => VenceQuantumInv(cfg, s, p);
    case FinTimerSuspension(p) => VenceSuspensionInv(cfg, s, p);
    case Conecta(c) => ConectarInv(cfg, s, c);
    case Desconecta(c) => DesconectarInv(cfg, s, c);
    case Desaloja(p) => FinQuantumInv(cfg, s, p);
    case PideIo(p, t) => PedirIoInv(cfg, s, p, t);
    case TomaIo(t) => TomarIoInv(cfg, s, t);
    case TerminaIo(p, ok, ahora, orden, resp) => FinIoInv(cfg, s, p, ok, ahora, orden, resp);
    case CreaMutex(p, nombre) => MutexCreateInv(cfg, s, p, nombre);
    case Lock(p, nombre) => LockInv(cfg, s, p, nombre);
    case Unlock(p, nombre, ahora) => UnlockInv(cfg, s, p, nombre, ahora);
    case Termina(p, ahora) => TerminarInv(cfg, s, p, ahora);
    case PideCompactar(p) => CompactarInv(cfg, s, p);
    case TerminaCompactar => FinCompactacionInv(cfg, s);
    case HayMemoria(orden, resp) => DessuspenderInv(cfg, s, orden, resp);
  }

  ghost predicate Corrida(cfg: Config, traza: seq<Sistema>, es: seq<Evento>) {
    && |traza| == |es| + 1 && traza[0] == Inicial(cfg)
    && forall k {:trigger es[k]} :: 0 <= k < |es| ==> Habilitado(cfg, traza[k], es[k]) && traza[k + 1] == Siguiente(cfg, traza[k], es[k])
  }

  lemma {:induction false} Alcanzable(cfg: Config, traza: seq<Sistema>, es: seq<Evento>, k: nat)
    requires ConfigValida(cfg) && Corrida(cfg, traza, es) && k <= |es|
    ensures Inv(cfg, traza[k])
    decreases k
  {
    assert Desplegar(0);
    if k == 0 {
      InicialInv(cfg);
    } else {
      Alcanzable(cfg, traza, es, k - 1);
      PasoInv(cfg, traza[k - 1], es[k - 1]);
    }
  }

  // ---------------------------------------------------------------- priorities over runs

  predicate TocaMutexes(e: Evento) {
    e.Lock? || e.Unlock? || e.Termina? || e.CreaMutex? || e.Inicia? || e.InitProc?
  }

  lemma {:induction false} PasoSolo(cfg: Config, s: Sistema, e: Evento)
    requires Inv(cfg, s) && Habilitado(cfg, s, e) && !TocaMutexes(e)
    ensures SoloEstados(s, Siguiente(cfg, s, e))
  {
    assert Desplegar(0);
    match e
    case Planifica => SiempreHayProceso(cfg, s);
    case PideIo(p, t) => if Ejecuta(s, p) { BloquearSolo(cfg, s, p); }
    case TerminaIo(p, ok, ahora, orden, resp) => FinIoSolo(cfg, s, p, ok, ahora, orden, resp);
    case HayMemoria(orden, resp) =>
      DessuspenderSolo(cfg, s.(listas := s.listas.(suspReady := orden)), orden, resp, |orden|);
    case Desconecta(c) => DesconectarSolo(cfg, s, c);
    case _ =>
  }

  lemma {:induction false} DesconectarSolo(cfg: Config, s: Sistema, c: int)
    requires Inv(cfg, s)
    ensures SoloEstados(s, DesconectarCpu(cfg, s, c))
  {
    assert Desplegar(0);
    var r := EjecutandoEn(s.procs, s.listas.exec, c);
    assert r.Some? ==> r.value in s.procs;
  }

  lemma {:induction false} FinIoSolo(cfg: Config, s: Sistema, p: int, ok: bool, ahora: int, orden: seq<int>, resp: seq<bool>)
    ensures SoloEstados(s, FinIo(cfg, s, p, ok, ahora, orden, resp))
  {
    if p in s.io.servicio && p in s.procs && ok {
      var s1 := s.(io := s.io.(servicio := Quitar(s.io.servicio, p)));
      DespertarSolo(cfg, s1, p, ahora);
      var s2 := Despertar(cfg, s1, p, ahora);
      DessuspenderSolo(cfg, s2.(listas := s2.listas.(suspReady := orden)), orden, resp, |orden|);
    }
  }

  lemma {:induction false} NacerExactas(cfg: Config, s: Sistema, prioridad: int, creado: bool)
    requires Inv(cfg, s)
    ensures Exactas(s) ==> Exactas(Nacer(cfg, s, prioridad, creado))
    ensures RestauradasEn(s) ==> RestauradasEn(Nacer(cfg, s, prioridad, creado))
  {
    assert Desplegar(0);
    var s', p := Nacer(cfg, s, prioridad, creado), s.proximoPid;
    if creado && Exactas(s) {
      NuevoNoPosee(cfg, s);
      NuevoNoEspera(cfg, s);
      forall q {:trigger q in s'.procs} | q in s'.procs ensures EsMinimo(s'.procs, s.mutexes, q, s'.procs[q].prioridad) {
        if q != p {
          MinimoMarco(s.procs, s.mutexes, s'.procs, s.mutexes, q, s.procs[q].prioridad);
        }
      }
    }
  }

  lemma {:induction false} NuevoNoPosee(cfg: Config, s: Sistema)
    requires Inv(cfg, s)
    ensures s.proximoPid !in s.procs && NoPosee(s.mutexes, s.proximoPid)
  {
    assert Desplegar(0);
    assert s.proximoPid !in s.procs;
  }

  lemma {:induction false} NuevoNoEspera(cfg: Config, s: Sistema)
    requires Inv(cfg, s)
    ensures NoEsperaEn(s.mutexes, s.proximoPid)
  {
    assert Desplegar(0);
    assert s.proximoPid !in s.procs;
    assert Pendiente(s.io, s.mutexes, s.esperando, s.proximoPid) + 0 == Uno(EstaBloqueado(s.procs, s.proximoPid));
    NoEsperaPor(s.mutexes, s.proximoPid);
  }

  lemma {:induction false} CrearExactas(s: Sistema, p: int, nombre: string)
    ensures Exactas(s) ==> Exactas(MutexCreate(s, p, nombre))
    ensures RestauradasEn(s) ==> RestauradasEn(MutexCreate(s, p, nombre))
  {
    assert Desplegar(0);
    if Ejecuta(s, p) && BuscarMutex(s.mutexes, nombre) == |s.mutexes| {
      var ms' := s.mutexes + [Mutex(nombre, None, [], [], [])];
      forall x | NoPosee(ms', x) ensures NoPosee(s.mutexes, x) {
        forall j | 0 <= j < |s.mutexes| ensures s.mutexes[j].dueno != Some(x) {
          assert ms'[j].dueno != Some(x);
        }
      }
      if Exactas(s) {
        forall q {:trigger q in s.procs} | q in s.procs ensures EsMinimo(s.procs, ms', q, s.procs[q].prioridad) {
          MinimoMarco(s.procs, s.mutexes, s.procs, ms', q, s.procs[q].prioridad);
        }
      }
    }
  }

  /** The hypothesis on the programs: only owners unlock. */
  predicate SoloDuenos(s: Sistema, e: Evento) {
    e.Unlock? ==> SueltaLoPropio(s, e.p, e.nombre)
  }

  /** And no lock cuts a chain of inheritance. */
  ghost predicate SinCortar(s: Sistema, e: Evento) {
    e.Lock? ==> !CortaHerencia(s, e.p, e.nombre)
  }

  lemma {:induction false} PasoRestaura(cfg: Config, s: Sistema, e: Evento)
    requires Inv(cfg, s) && Habilitado(cfg, s, e) && cfg.cmn && RestauradasEn(s) && SoloDuenos(s, e)
    ensures RestauradasEn(Siguiente(cfg, s, e))
  {
    assert Desplegar(0);
    match e
    case Inicia(prioridad, creado) => NacerExactas(cfg, s, prioridad, creado);
    case InitProc(p, prioridad, creado) => NacerExactas(cfg, s, prioridad, creado);
    case CreaMutex(p, nombre) => CrearExactas(s, p, nombre);
    case Lock(p, nombre) => LockRestaura(cfg, s, p, nombre);
    case Unlock(p, nombre, ahora) => UnlockRestaura(cfg, s, p, nombre, ahora);
    case Termina(p, ahora) => TerminarRestaura(cfg, s, p, ahora);
    case _ =>
      PasoSolo(cfg, s, e);
      SoloEstadosSigue(s, Siguiente(cfg, s, e));
  }

  lemma {:induction false} PasoExacta(cfg: Config, s: Sistema, e: Evento)
    requires Inv(cfg, s) && Habilitado(cfg, s, e) && cfg.cmn && Exactas(s) && SoloDuenos(s, e) && SinCortar(s, e)
    ensures Exactas(Siguiente(cfg, s, e))
  {
    assert Desplegar(0);
    match e
    case Inicia(prioridad, creado) => NacerExactas(cfg, s, prioridad, creado);
    case InitProc(p, prioridad, creado) => NacerExactas(cfg, s, prioridad, creado);
    case CreaMutex(p, nombre) => CrearExactas(s, p, nombre);
    case Lock(p, nombre) => LockExactaSii(cfg, s, p, nombre);
    case Unlock(p, nombre, ahora) => UnlockExacta(cfg, s, p, nombre, ahora);
    case Termina(p, ahora) => TerminarExacta(cfg, s, p, ahora);
    case _ =>
      PasoSolo(cfg, s, e);
      SoloEstadosExactas(s, Siguiente(cfg, s, e));
  }

  /** In every run of every algorithm, whoever unlocks what: no priority is ever worse than the
      original, and without multilevel queues none ever changes. */
  lemma {:induction false} NuncaPeorQueLaOriginal(cfg: Config, traza: seq<Sistema>, es: seq<Evento>, k: nat, p: int)
    requires ConfigValida(cfg) && Corrida(cfg, traza, es) && k <= |es| && p in traza[k].procs
    ensures traza[k].procs[p].prioridad <= traza[k].procs[p].original
    ensures !cfg.cmn ==> traza[k].procs[p].prioridad == traza[k].procs[p].original
  {
    Alcanzable(cfg, traza, es, k);
    assert Desplegar(0);
    assert ProcesoBien(cfg, traza[k].procs[p]);
  }

  /**
    Restoration over any multilevel run in which only owners unlock: whoever owns no mutex has
    its original priority.
  */
  lemma {:induction false} PrioridadesRestauradas(cfg: Config, traza: seq<Sistema>, es: seq<Evento>, k: nat)
    requires ConfigValida(cfg) && cfg.cmn && Corrida(cfg, traza, es) && k <= |es|
    requires forall i {:trigger es[i]} :: 0 <= i < |es| ==> SoloDuenos(traza[i], es[i])
    ensures Restauradas(traza[k].procs, traza[k].mutexes)
  {
    RestauradasHasta(cfg, traza, es, k);
  }

  lemma {:induction false} RestauradasHasta(cfg: Config, traza: seq<Sistema>, es: seq<Evento>, k: nat)
    requires ConfigValida(cfg) && cfg.cmn && Corrida(cfg, traza, es) && k <= |es|
    requires forall i {:trigger es[i]} :: 0 <= i < |es| ==> SoloDuenos(traza[i], es[i])
    ensures RestauradasEn(traza[k])
    decreases k
  {
    if k == 0 {
      InicialInv(cfg);
    } else {
      RestauradasHasta(cfg, traza, es, k - 1);
      Alcanzable(cfg, traza, es, k - 1);
      PasoRestaura(cfg, traza[k - 1], es[k - 1]);
    }
  }

  /**
    Exact inheritance over any multilevel run in which only owners unlock and no lock cuts a
    chain: in every state, each priority is the least of the original one and those of all
    waiters on the mutexes owned.
  */
  lemma {:induction false} PrioridadesExactas(cfg: Config, traza: seq<Sistema>, es: seq<Evento>, k: nat)
    requires ConfigValida(cfg) && cfg.cmn && Corrida(cfg, traza, es) && k <= |es|
    requires forall i {:trigger es[i]} :: 0 <= i < |es| ==> SoloDuenos(traza[i], es[i]) && SinCortar(traza[i], es[i])
    ensures HerenciaExacta(traza[k].procs, traza[k].mutexes)
  {
    ExactasEnCorrida(cfg, traza, es, k);
    assert Desplegar(0);
  }

  /** In particular, when only owners unlock and no waiting process ever owns a mutex. */
  lemma {:induction false} ExactasSinAnidar(cfg: Config, traza: seq<Sistema>, es: seq<Evento>, k: nat)
    requires ConfigValida(cfg) && cfg.cmn && Corrida(cfg, traza, es) && k <= |es|
    requires forall i {:trigger es[i]} :: 0 <= i < |es| ==> SoloDuenos(traza[i], es[i]) && SinAnidar(traza[i].mutexes)
    ensures HerenciaExacta(traza[k].procs, traza[k].mutexes)
  {
    forall i {:trigger es[i]} | 0 <= i < |es| ensures SinCortar(traza[i], es[i]) {
      if es[i].Lock? {
        SinAnidarNoCorta(traza[i], es[i].p, es[i].nombre);
      }
    }
    PrioridadesExactas(cfg, traza, es, k);
  }

  lemma {:induction false} ExactasEnCorrida(cfg: Config, traza: seq<Sistema>, es: seq<Evento>, k: nat)
    requires ConfigValida(cfg) && cfg.cmn && Corrida(cfg, traza, es) && k <= |es|
    requires forall i {:trigger es[i]} :: 0 <= i < |es| ==> SoloDuenos(traza[i], es[i]) && SinCortar(traza[i], es[i])
    ensures Exactas(traza[k])
    decreases k
  {
    if k == 0 {
      InicialInv(cfg);
    } else {
      ExactasEnCorrida(cfg, traza, es, k - 1);
      Alcanzable(cfg, traza, es, k - 1);
      PasoExacta(cfg, traza[k - 1], es[k - 1]);
    }
  }
}
