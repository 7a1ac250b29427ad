/** Which timer a process points to, in every reachable state. */
module Relojes {
  import opened Tipos
  import opened Listas
  import opened Planificacion
  import opened Sistemas
  import opened Pasos
  import opened Invariantes
  import opened Ejecuciones
  import opened Formas
  import opened Turnos

  /** Blocking cancels any quantum and arms the suspension timer, except for the process that
      waits for a compaction; a suspended process has no timer. */
  predicate RelojBien(q: Proceso, compacta: bool) {
    && (q.estado == Block && !compacta ==> q.reloj == Suspension)
    && (q.estado == SuspBlock || q.estado == SuspReady ==> q.reloj == Ninguno)
  }

  ghost predicate RelojesBien(s: Sistema) {
    forall p {:trigger p in s.procs} :: p in s.procs ==> RelojBien(s.procs[p], s.esperando == Some(p))
  }

  /** One record changes. */
  lemma {:induction false} RelojUno(s: Sistema, s': Sistema, p: int, q: Proceso)
    requires RelojesBien(s) && s'.procs == s.procs[p := q] && s'.esperando == s.esperando
    requires RelojBien(q, s.esperando == Some(p))
    ensures RelojesBien(s')
  {
  }

  lemma {:induction false} NacerRelojes(cfg: Config, s: Sistema, prioridad: int, creado: bool)
    requires Inv(cfg, s) && RelojesBien(s)
    ensures RelojesBien(Tras(cfg, s, Inicia(prioridad, creado)))
  {
    NacerForma(cfg, s, prioridad, creado);
    if creado {
      RelojUno(s, Tras(cfg, s, Inicia(prioridad, creado)), s.proximoPid, Proceso(prioridad, prioridad, Ready, None, Ninguno, 0));
    }
  }

  lemma {:induction false} BloquearRelojes(cfg: Config, s: Sistema, p: int)
    requires Ejecuta(s, p) && RelojesBien(s)
    ensures RelojesBien(BloquearP(cfg, s, p))
  {
    BloquearForma(cfg, s, p);
    RelojUno(s, BloquearP(cfg, s, p), p, Dormido(s.procs[p]));
  }

  lemma {:induction false} DespertarRelojes(cfg: Config, s: Sistema, p: int, ahora: int)
    requires p in s.procs && RelojesBien(s)
    ensures RelojesBien(DespertarP(cfg, s, p, ahora))
  {
    DespertarForma(cfg, s, p, ahora);
    RelojUno(s, DespertarP(cfg, s, p, ahora), p, DespertarP(cfg, s, p, ahora).procs[p]);
  }

  lemma {:induction false} HeredarRelojes(cfg: Config, s: Sistema, p: int, j: nat)
    requires cfg.cmn && p in s.procs && j < |s.mutexes| && RelojesBien(s)
    requires s.procs[p].estado == Ready ==> Nivel(cfg, s.procs[p].prioridad).Some? && |s.listas.colas| == |cfg.rr|
    ensures RelojesBien(HeredarP(cfg, s, p, j))
  {
    HeredarForma(cfg, s, p, j);
    RelojUno(s, s, p, s.procs[p]);
    RelojUno(s, s.(procs := s.procs[p := s.procs[p].(prioridad := MayorPrioridad(s.procs, s.mutexes[j].espera))]), p,
             s.procs[p].(prioridad := MayorPrioridad(s.procs, s.mutexes[j].espera)));
  }

  lemma {:induction false} RecibirRelojes(cfg: Config, s: Sistema, w: int, j: nat, ahora: int)
    requires w in s.procs && j < |s.mutexes| && Bloqueado(s.procs[w]) && RelojesBien(s)
    ensures RelojesBien(RecibirP(cfg, s, w, j, ahora))
  {
    if cfg.cmn {
      HeredarRelojes(cfg, s, w, j);
      DespertarRelojes(cfg, HeredarP(cfg, s, w, j), w, ahora);
    } else {
      DespertarRelojes(cfg, s, w, ahora);
    }
  }

  lemma {:induction false} RondaRelojes(cfg: Config, s: Sistema, orden: seq<int>, resp: seq<bool>)
    requires Inv(cfg, s) && EsOrden(s.procs, s.listas.suspReady, orden) && RelojesBien(s)
    ensures RelojesBien(Tras(cfg, s, HayMemoria(orden, resp)))
  {
    var s1 := s.(listas := s.listas.(suspReady := orden));
    OrdenForma(cfg, s, orden);
    RondaHastaRelojes(cfg, s1, orden, resp, |orden|);
    DessuspenderFin(cfg, s, orden, resp);
  }

  lemma {:induction false} RondaHastaRelojes(cfg: Config, s: Sistema, orden: seq<int>, resp: seq<bool>, n: nat)
    requires n <= |orden| && Dessuspendiendo(cfg, s, orden, 0) && RelojesBien(s)
    ensures RelojesBien(DessuspenderP(cfg, s, orden, resp, n))
    decreases n
  {
    DessuspenderInicio(cfg, s, orden, resp);
    if n > 0 {
      RondaHastaRelojes(cfg, s, orden, resp, n - 1);
      RondaHastaCrece(cfg, s, orden, resp, n - 1);
      DessuspenderForma(cfg, s, orden, resp, n - 1);
      var a, p := DessuspenderP(cfg, s, orden, resp, n - 1), orden[n - 1];
      if n - 1 < |resp| && resp[n - 1] {
        RelojUno(a, DessuspenderP(cfg, s, orden, resp, n), p, a.procs[p].(estado := Ready));
      }
    }
  }

  lemma {:induction false} FinIoRelojes(cfg: Config, s: Sistema, p: int, ok: bool, ahora: int, orden: seq<int>, resp: seq<bool>)
    requires Inv(cfg, s) && Habilitado(cfg, s, TerminaIo(p, ok, ahora, orden, resp)) && RelojesBien(s)
    ensures RelojesBien(Tras(cfg, s, TerminaIo(p, ok, ahora, orden, resp)))
  {
    if p in s.io.servicio && p in s.procs {
      FinIoForma(cfg, s, p, ok, ahora);
      var s1 := s.(io := s.io.(servicio := Quitar(s.io.servicio, p)));
      if ok {
        assert RelojesBien(s1);
        DespertarRelojes(cfg, s1, p, ahora);
        if s.procs[p].estado == SuspBlock {
          DespiertaBien(cfg, s, p, ahora);
          RondaTrasDespertar(cfg, s, p, ok, ahora, orden, resp);
          RondaRelojes(cfg, DespertarP(cfg, s1, p, ahora), orden, resp);
        }
      }
    } else {
      FinIoAjeno(cfg, s, p, ok, ahora, orden, resp);
    }
  }

  lemma {:induction false} LockRelojes(cfg: Config, s: Sistema, p: int, nombre: string)
    requires Inv(cfg, s) && RelojesBien(s)
    ensures RelojesBien(Tras(cfg, s, Lock(p, nombre)))
  {
    LockForma(cfg, s, p, nombre);
    var j := BuscarMutex(s.mutexes, nombre);
    if Ejecuta(s, p) && j < |s.mutexes| && s.mutexes[j].dueno.Some? {
      var h, s0 := s.mutexes[j].dueno.value, ConMutex(s, j, Pedido(s.mutexes[j], p));
      ColasBien(cfg, s);
      assert RelojesBien(s0);
      if cfg.cmn {
        HeredarRelojes(cfg, s0, h, j);
      }
      BloquearRelojes(cfg, if cfg.cmn then HeredarP(cfg, s0, h, j) else s0, p);
    }
  }

  lemma {:induction false} DevolverRelojes(s: Sistema, p: int)
    requires p in s.procs && RelojesBien(s)
    ensures RelojesBien(DevolverPrioridad(s, p))
  {
    var mejor := MejorPropia(s.procs, s.mutexes, p, |s.mutexes|);
    RelojUno(s, s.(procs := s.procs[p := s.procs[p].(prioridad := mejor)]), p, s.procs[p].(prioridad := mejor));
  }

  lemma {:induction false} UnlockRelojes(cfg: Config, s: Sistema, p: int, nombre: string, ahora: int)
    requires Inv(cfg, s) && RelojesBien(s)
    ensures RelojesBien(Tras(cfg, s, Unlock(p, nombre, ahora)))
  {
    UnlockForma(cfg, s, p, nombre, ahora);
    var j := BuscarMutex(s.mutexes, nombre);
    if Ejecuta(s, p) && j < |s.mutexes| {
      var mu := if s.mutexes[j].espera == [] then s.mutexes[j].(dueno := None) else Entregado(s.mutexes[j]);
      var s1 := ConMutex(s, j, mu);
      assert RelojesBien(s1);
      DevolverRelojes(s1, p);
      if s.mutexes[j].espera != [] {
        RecibirRelojes(cfg, if cfg.cmn then DevolverPrioridad(s1, p) else s1, s.mutexes[j].espera[0], j, ahora);
      }
    }
  }

  lemma {:induction false} CederRelojes(cfg: Config, s: Sistema, muerto: int, n: nat, ahora: int, c0: int)
    requires EnCesion(cfg, s, muerto, c0) && n <= |s.mutexes| && RelojesBien(s)
    ensures RelojesBien(CederHasta(cfg, s, muerto, n, ahora))
    decreases n
  {
    if n > 0 {
      CederRelojes(cfg, s, muerto, n - 1, ahora, c0);
      CederHastaInv(cfg, s, muerto, n - 1, ahora, c0);
      CederUnoRelojes(cfg, CederHasta(cfg, s, muerto, n - 1, ahora), muerto, n - 1, ahora, c0);
    }
  }

  lemma {:induction false} CederUnoRelojes(cfg: Config, s: Sistema, muerto: int, j: nat, ahora: int, c0: int)
    requires EnCesion(cfg, s, muerto, c0) && j < |s.mutexes| && RelojesBien(s)
    ensures RelojesBien(Ceder(cfg, s, muerto, j, ahora))
  {
    CederForma(cfg, s, muerto, j, ahora, c0);
    var mu := s.mutexes[j];
    if mu.dueno == Some(muerto) && mu.espera != [] {
      assert RelojesBien(ConMutex(s, j, Entregado(mu)));
      RecibirRelojes(cfg, ConMutex(s, j, Entregado(mu)), mu.espera[0], j, ahora);
    }
  }

  lemma {:induction false} TerminarRelojes(cfg: Config, s: Sistema, p: int, ahora: int)
    requires Inv(cfg, s) && RelojesBien(s)
    ensures RelojesBien(Tras(cfg, s, Termina(p, ahora)))
  {
    TerminarForma(cfg, s, p, ahora);
    if Ejecuta(s, p) {
      var s1 := s.(procs := s.procs - {p}, listas := s.listas.(exec := Quitar(s.listas.exec, p)));
      assert RelojesBien(s1);
      CederRelojes(cfg, s1, p, |s.mutexes|, ahora, s.procs[p].cpu.value);
    }
  }

  lemma {:induction false} CompactarRelojes(cfg: Config, s: Sistema, p: int)
    requires Inv(cfg, s) && RelojesBien(s) && s.sem.puede > 0
    ensures RelojesBien(Tras(cfg, s, PideCompactar(p)))
  {
    if Ejecuta(s, p) {
      CompactarForma(cfg, s, p);
      assert Desplegar(0);
    } else {
      CompactarAjeno(cfg, s, p);
    }
  }

  lemma {:induction false} PasoRelojes(cfg: Config, s: Sistema, e: Evento)
    requires Inv(cfg, s) && Habilitado(cfg, s, e) && RelojesBien(s)
    ensures RelojesBien(Siguiente(cfg, s, e))
  {
    TrasEsSiguiente(cfg, s, e);
    match e
    case Inicia(prioridad, creado) => NacerRelojes(cfg, s, prioridad, creado);
    case InitProc(p, prioridad, creado) =>
      InitForma(cfg, s, p, prioridad, creado);
      NacerRelojes(cfg, s, prioridad, creado);
    case Planifica => PlanificarForma(cfg, s);
    case FinTimerQuantum(p) => QuantumForma(cfg, s, p);
    case FinTimerSuspension(p) => SuspensionForma(cfg, s, p);
    case Conecta(c) => ConectarForma(cfg, s, c);
    case Desconecta(c) => DesconectarForma(cfg, s, c);
    case Desaloja(p) => FinQuantumForma(cfg, s, p);
    case PideIo(p, t) =>
      PedirIoForma(cfg, s, p, t);
      if Ejecuta(s, p) {
        BloquearRelojes(cfg, s, p);
      }
    case TomaIo(t) => TomarRelojes(cfg, s, t);
    case TerminaIo(p, ok, ahora, orden, resp) => FinIoRelojes(cfg, s, p, ok, ahora, orden, resp);
    case CreaMutex(p, nombre) => CrearMutexForma(cfg, s, p, nombre);
    case Lock(p, nombre) => LockRelojes(cfg, s, p, nombre);
    case Unlock(p, nombre, ahora) => UnlockRelojes(cfg, s, p, nombre, ahora);
    case Termina(p, ahora) => TerminarRelojes(cfg, s, p, ahora);
    case PideCompactar(p) => CompactarRelojes(cfg, s, p);
    case TerminaCompactar => FinCompactacionForma(cfg, s);
    case HayMemoria(orden, resp) => RondaRelojes(cfg, s, orden, resp);
  }

  lemma {:induction false} TomarRelojes(cfg: Config, s: Sistema, t: TipoIo)
    requires RelojesBien(s)
    ensures RelojesBien(Tras(cfg, s, TomaIo(t)))
  {
    assert Desplegar(0);
  }

  lemma {:induction false} RelojesSiempre(cfg: Config, traza: seq<Sistema>, es: seq<Evento>, k: nat)
    requires ConfigValida(cfg) && Corrida(cfg, traza, es) && k <= |es|
    ensures RelojesBien(traza[k])
    decreases k
  {
    if k > 0 {
      RelojesSiempre(cfg, traza, es, k - 1);
      Alcanzable(cfg, traza, es, k - 1);
      PasoRelojes(cfg, traza[k - 1], es[k - 1]);
    }
  }

  /**
    In every reachable state a blocked process that does not wait for a compaction has its
    suspension timer armed and no quantum: when the timer fires the process becomes suspended,
    and a quantum left over from before it blocked finds nothing to interrupt.
  */
  lemma {:induction false} BloqueadoConReloj(cfg: Config, traza: seq<Sistema>, es: seq<Evento>, k: nat, p: int)
    requires ConfigValida(cfg) && Corrida(cfg, traza, es) && k <= |es|
    requires p in traza[k].procs && traza[k].procs[p].estado == Block && traza[k].esperando != Some(p)
    ensures var s := traza[k];
      && s.procs[p].reloj == Suspension
      && Siguiente(cfg, s, FinTimerQuantum(p)) == s
      && var s' := Siguiente(cfg, s, FinTimerSuspension(p));
      && p in s'.procs && s'.procs[p] == s.procs[p].(estado := SuspBlock, reloj := Ninguno)
      && p !in s'.listas.block && p in s'.listas.suspBlock
      && forall x :: x != p ==> (x in s'.procs <==> x in s.procs) && (x in s.procs ==> s'.procs[x] == s.procs[x])
  {
    RelojesSiempre(cfg, traza, es, k);
    Alcanzable(cfg, traza, es, k);
    VenceBloqueado(cfg, traza[k], p);
    assert RelojBien(traza[k].procs[p], false);
  }

  /** A dispatched process runs on the first free CPU, with a quantum on it exactly when its queue is
      round robin; it keeps the timer it had otherwise. */
  lemma {:induction false} DespachoConReloj(cfg: Config, s: Sistema, p: int)
    requires Inv(cfg, s) && PuedePlanificar(s)
    requires p in s.procs && s.procs[p].estado == Ready
    requires p in Siguiente(cfg, s, Planifica).procs && Siguiente(cfg, s, Planifica).procs[p].estado == Exec
    ensures var q, q' := s.procs[p], Siguiente(cfg, s, Planifica).procs[p];
      && s.cpus.libres != [] && q'.cpu == Some(s.cpus.libres[0]) && q'.prioridad == q.prioridad && q'.original == q.original
      && var c := if cfg.cmn then q.prioridad else 0;
      && 0 <= c < |cfg.rr|
      && q'.reloj == if cfg.rr[c] then Quantum(s.cpus.libres[0]) else q.reloj
  {
    TrasEsSiguiente(cfg, s, Planifica);
    PlanificarForma(cfg, s);
    var i := PrimeraConProcesos(s.listas.colas, 0);
    ListaDice(cfg, s, EnCola(i), p);
  }

  lemma {:induction false} VenceBloqueado(cfg: Config, s: Sistema, p: int)
    requires Inv(cfg, s) && p in s.procs && s.procs[p].estado == Block && s.procs[p].reloj == Suspension
    ensures Siguiente(cfg, s, FinTimerQuantum(p)) == s
    ensures var s' := Siguiente(cfg, s, FinTimerSuspension(p));
      && s'.procs == s.procs[p := s.procs[p].(estado := SuspBlock, reloj := Ninguno)]
      && p !in s'.listas.block && p in s'.listas.suspBlock
  {
    TrasEsSiguiente(cfg, s, FinTimerQuantum(p));
    TrasEsSiguiente(cfg, s, FinTimerSuspension(p));
    QuantumForma(cfg, s, p);
    SuspensionForma(cfg, s, p);
    ListaDice(cfg, s, EnBlock, p);
    EnBlockUnaVez(cfg, s, p);
    QuitarRespeta(s.listas.block, p);
  }

  lemma {:induction false} EnBlockUnaVez(cfg: Config, s: Sistema, p: int)
    requires Inv(cfg, s)
    ensures Veces(s.listas.block, p) <= 1
  {
    assert Desplegar(0);
    assert Cuantos(s.listas, EnBlock, p) <= 1;
  }
}
