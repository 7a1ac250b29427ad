/** The steps of the scheduler field by field, as the handlers carry them out. */
module Formas {
  import opened Tipos
  import opened Listas
  import opened Planificacion
  import opened Sistemas
  import opened Pasos
  import opened Invariantes
  import opened Herencia
  import opened Ejecuciones

  /** The state after a step, folded. */
  ghost function Tras(cfg: Config, s: Sistema, e: Evento): (r: Sistema)
    ensures forall z {:trigger Desplegar(z)} :: Desplegar(z) ==> r == Siguiente(cfg, s, e)
  {
    var r: Sistema :| forall z {:trigger Desplegar(z)} :: Desplegar(z) ==> r == Siguiente(cfg, s, e);
    r
  }

  /** Folding changes nothing: `Tras` is `Siguiente`. */
  lemma {:induction false} TrasEsSiguiente(cfg: Config, s: Sistema, e: Evento)
    ensures Tras(cfg, s, e) == Siguiente(cfg, s, e)
  {
    assert Desplegar(0);
  }

  lemma {:induction false} PasoConsistente(cfg: Config, s: Sistema, e: Evento)
    requires Inv(cfg, s) && Habilitado(cfg, s, e)
    ensures Inv(cfg, Tras(cfg, s, e))
    ensures ConfigValida(cfg) && |s.listas.colas| == |cfg.rr|
  {
    assert Desplegar(0);
    PasoInv(cfg, s, e);
  }

  ghost function BloquearP(cfg: Config, s: Sistema, p: int): (r: Sistema)
    requires Ejecuta(s, p)
    ensures forall z {:trigger Desplegar(z)} :: Desplegar(z) ==> r == Bloquear(cfg, s, p)
  {
    var r: Sistema :| forall z {:trigger Desplegar(z)} :: Desplegar(z) ==> r == Bloquear(cfg, s, p);
    r
  }

  ghost function DespertarP(cfg: Config, s: Sistema, p: int, ahora: int): (r: Sistema)
    requires p in s.procs
    ensures forall z {:trigger Desplegar(z)} :: Desplegar(z) ==> r == Despertar(cfg, s, p, ahora)
  {
    var r: Sistema :| forall z {:trigger Desplegar(z)} :: Desplegar(z) ==> r == Despertar(cfg, s, p, ahora);
    r
  }

  ghost function HeredarP(cfg: Config, s: Sistema, p: int, j: nat): (r: Sistema)
    requires p in s.procs && j < |s.mutexes|
    ensures r.procs.Keys == s.procs.Keys && r.mutexes == s.mutexes && |r.listas.colas| == |s.listas.colas|
    ensures forall z {:trigger Desplegar(z)} :: Desplegar(z) ==> r == Heredar(cfg, s, p, j)
  {
    HeredarConserva(cfg, s, p, j);
    var w := Heredar(cfg, s, p, j);
    assert |w.listas.colas| == |s.listas.colas|;
    var r: Sistema :| r.procs.Keys == s.procs.Keys && r.mutexes == s.mutexes && |r.listas.colas| == |s.listas.colas| &&
      forall z {:trigger Desplegar(z)} :: Desplegar(z) ==> r == Heredar(cfg, s, p, j);
    r
  }

  ghost function RecibirP(cfg: Config, s: Sistema, w: int, j: nat, ahora: int): Sistema
    requires w in s.procs && j < |s.mutexes|
  {
    DespertarP(cfg, if cfg.cmn then HeredarP(cfg, s, w, j) else s, w, ahora)
  }

  lemma {:induction false} InicialConsistente(cfg: Config)
    requires ConfigValida(cfg)
    ensures Inv(cfg, Inicial(cfg))
  {
    assert Desplegar(0);
    InicialInv(cfg);
  }

  // ---------------------------------------------------------------- what the lists say

  lemma {:induction false} ListaDice(cfg: Config, s: Sistema, l: Lugar, p: int)
    requires Inv(cfg, s)
    ensures p in Lista(s.listas, l) <==> EstaEn(cfg, s.procs, l, p)
  {
    assert Desplegar(0);
    Miembro(cfg, s.procs, s.listas, l, p);
  }

  lemma {:induction false} ColasBien(cfg: Config, s: Sistema)
    requires Inv(cfg, s)
    ensures ConfigValida(cfg) && |s.listas.colas| == |cfg.rr|
  {
    assert Desplegar(0);
  }

  lemma {:induction false} ExecDice(cfg: Config, s: Sistema, p: int)
    requires Inv(cfg, s)
    ensures p in s.listas.exec <==> Ejecuta(s, p)
    ensures ConfigValida(cfg) && |s.listas.colas| == |cfg.rr|
  {
    ListaDice(cfg, s, EnExec, p);
    assert Desplegar(0);
    if p in s.procs {
      assert ProcesoBien(cfg, s.procs[p]);
    }
  }

  lemma {:induction false} SinCola(cfg: Config, s: Sistema, pid: int)
    requires Inv(cfg, s) && pid in s.procs
    requires forall k :: 0 <= k < |s.listas.colas| ==> pid !in s.listas.colas[k]
    ensures !LugarDe(cfg, s.procs[pid]).EnCola?
  {
    assert Desplegar(0);
    Presente(cfg, s.procs, s.listas, pid);
  }

  lemma {:induction false} EjecutanVivos(cfg: Config, s: Sistema)
    requires Inv(cfg, s)
    ensures forall i :: 0 <= i < |s.listas.exec| ==> s.listas.exec[i] in s.procs
  {
    assert Desplegar(0);
    forall i | 0 <= i < |s.listas.exec| ensures s.listas.exec[i] in s.procs {
      ListaDice(cfg, s, EnExec, s.listas.exec[i]);
    }
  }

  // ---------------------------------------------------------------- ready lists

  /** `p` added at the end of the ready list of its priority, and the interrupt that sends. */
  function Agregado(cfg: Config, s: Sistema, p: int): Sistema
    requires p in s.procs
  {
    var l := LugarDe(cfg, s.procs[p]);
    s.(listas := ConLista(s.listas, l, Lista(s.listas, l) + [p]), avisos := s.avisos + AvisosDe(cfg, s.procs, s.listas.exec, p))
  }

  function Puesto(s: Sistema, planificable: bool): Sistema {
    s.(sem := s.sem.(ready := s.sem.ready + Uno(planificable)))
  }

  /** Out of its list with a new record, as the handlers do it: remove, update, add. */
  lemma {:induction false} EncolarEnPartes(cfg: Config, s: Sistema, p: int, q: Proceso)
    requires p in s.procs && q.estado == Ready
    ensures Encolar(cfg, s, p, q) == Agregado(cfg, s.(procs := s.procs[p := q], listas := Sacado(cfg, s.procs, s.listas, p)), p)
  {
  }

  lemma {:induction false} AReadyEnPartes(cfg: Config, s: Sistema, p: int, q: Proceso)
    requires p in s.procs && q.estado == Ready
    ensures AReady(cfg, s, p, q)
         == Puesto(Agregado(cfg, s.(procs := s.procs[p := q], listas := Sacado(cfg, s.procs, s.listas, p)), p), LugarDe(cfg, q).EnCola?)
  {
    EncolarEnPartes(cfg, s, p, q);
  }

  lemma {:induction false} NacerForma(cfg: Config, s: Sistema, prioridad: int, creado: bool)
    requires Inv(cfg, s)
    ensures s.proximoPid !in s.procs
    ensures var q := Proceso(prioridad, prioridad, Ready, None, Ninguno, 0);
      var s1 := s.(proximoPid := s.proximoPid + 1);
      Tras(cfg, s, Inicia(prioridad, creado))
        == if creado then Puesto(Agregado(cfg, s1.(procs := s.procs[s.proximoPid := q]), s.proximoPid), LugarDe(cfg, q).EnCola?) else s1
  {
    assert Desplegar(0);
    NuevoNoPosee(cfg, s);
  }

  lemma {:induction false} InitForma(cfg: Config, s: Sistema, p: int, prioridad: int, creado: bool)
    ensures Tras(cfg, s, InitProc(p, prioridad, creado)) == if Ejecuta(s, p) then Tras(cfg, s, Inicia(prioridad, creado)) else s
  {
    assert Desplegar(0);
  }

  lemma {:induction false} PlanificarForma(cfg: Config, s: Sistema)
    requires Inv(cfg, s) && PuedePlanificar(s)
    ensures var i := PrimeraConProcesos(s.listas.colas, 0);
      && i < |s.listas.colas| == |cfg.rr| && s.listas.colas[i][0] in s.procs && s.cpus.libres != []
      && var p := s.listas.colas[i][0];
      && var q := s.procs[p].(estado := Exec, cpu := Some(s.cpus.libres[0]));
      && Tras(cfg, s, Planifica) == s.(procs := s.procs[p := if cfg.rr[i] then q.(reloj := Quantum(s.cpus.libres[0])) else q],
           listas := s.listas.(colas := s.listas.colas[i := s.listas.colas[i][1..]], exec := s.listas.exec + [p]),
           cpus := s.cpus.(libres := s.cpus.libres[1..]), sem := s.sem.(ready := s.sem.ready - 1, cpus := s.sem.cpus - 1))
  {
    assert Desplegar(0);
    SiempreHayProceso(cfg, s);
  }

  // ---------------------------------------------------------------- timers and CPUs

  lemma {:induction false} SuspensionForma(cfg: Config, s: Sistema, p: int)
    ensures Tras(cfg, s, FinTimerSuspension(p)) ==
      if !Buscable(cfg, s, p) || s.procs[p].reloj != Suspension then s
      else if s.procs[p].estado != Block then s.(procs := s.procs[p := s.procs[p].(reloj := Ninguno)])
      else s.(procs := s.procs[p := s.procs[p].(reloj := Ninguno, estado := SuspBlock)],
              listas := s.listas.(block := Quitar(s.listas.block, p), suspBlock := s.listas.suspBlock + [p]))
  {
    assert Desplegar(0);
  }

  lemma {:induction false} QuantumForma(cfg: Config, s: Sistema, p: int)
    ensures Tras(cfg, s, FinTimerQuantum(p)) ==
      if Buscable(cfg, s, p) && s.procs[p].reloj.Quantum? then
        s.(procs := s.procs[p := s.procs[p].(reloj := Ninguno)], avisos := s.avisos + [Aviso(s.procs[p].reloj.cpu, p)])
      else s
  {
    assert Desplegar(0);
  }

  lemma {:induction false} ConectarForma(cfg: Config, s: Sistema, c: int)
    ensures Tras(cfg, s, Conecta(c)) == s.(cpus := s.cpus.(conectadas := s.cpus.conectadas + [c], libres := s.cpus.libres + [c]),
                                           sem := s.sem.(cpus := s.sem.cpus + 1))
  {
    assert Desplegar(0);
  }

  lemma {:induction false} DesconectarForma(cfg: Config, s: Sistema, c: int)
    requires Inv(cfg, s)
    ensures var r, s1 := EjecutandoEn(s.procs, s.listas.exec, c), SinCpu(s, c);
      && (r.Some? ==> r.value in s.procs)
      && Tras(cfg, s, Desconecta(c)) ==
           if r.None? then s1
           else
             var q := s.procs[r.value].(estado := Ready, cpu := None, reloj := Ninguno);
             Puesto(Agregado(cfg, s1.(procs := s1.procs[r.value := q],
                    listas := s1.listas.(exec := Quitar(s1.listas.exec, r.value))), r.value), LugarDe(cfg, q).EnCola?)
  {
    var r := EjecutandoEn(s.procs, s.listas.exec, c);
    assert Desplegar(0);
    if r.Some? {
      ExecDice(cfg, s, r.value);
      AReadyEnPartes(cfg, SinCpu(s, c), r.value, s.procs[r.value].(estado := Ready, cpu := None, reloj := Ninguno));
    }
  }

  /** `p` put at the front of the queue of its priority. */
  function AlFrente(cfg: Config, s: Sistema, p: int): Sistema
    requires p in s.procs
  {
    var l := LugarDe(cfg, s.procs[p]);
    s.(listas := ConLista(s.listas, l, if l == EnInvalida then Lista(s.listas, l) + [p] else [p] + Lista(s.listas, l)))
  }

  lemma {:induction false} FinQuantumForma(cfg: Config, s: Sistema, p: int)
    requires Inv(cfg, s)
    ensures Tras(cfg, s, Desaloja(p)) ==
      if !Ejecuta(s, p) then s
      else
        var q := s.procs[p].(estado := Ready, cpu := None);
        var s1 := s.(procs := s.procs[p := q], listas := s.listas.(exec := Quitar(s.listas.exec, p)));
        Devolver(Puesto(if s.compactando then AlFrente(cfg, s1, p) else Agregado(cfg, s1, p), LugarDe(cfg, q).EnCola?), s.procs[p].cpu.value)
  {
    assert Desplegar(0);
    if Ejecuta(s, p) {
      assert ProcesoBien(cfg, s.procs[p]);
      EncolarEnPartes(cfg, s, p, s.procs[p].(estado := Ready, cpu := None));
    }
  }

  // ---------------------------------------------------------------- blocking

  lemma {:induction false} BloquearForma(cfg: Config, s: Sistema, p: int)
    requires Ejecuta(s, p)
    ensures BloquearP(cfg, s, p) == Devolver(s.(procs := s.procs[p := Dormido(s.procs[p])],
              listas := s.listas.(exec := Quitar(s.listas.exec, p), block := s.listas.block + [p])), s.procs[p].cpu.value)
  {
    assert Desplegar(0);
  }

  lemma {:induction false} DespertarForma(cfg: Config, s: Sistema, p: int, ahora: int)
    requires p in s.procs
    ensures DespertarP(cfg, s, p, ahora) ==
      match s.procs[p].estado
      case Block =>
        var q := s.procs[p].(reloj := Ninguno, estado := Ready);
        Puesto(Agregado(cfg, s.(procs := s.procs[p := q], listas := s.listas.(block := Quitar(s.listas.block, p))), p), LugarDe(cfg, q).EnCola?)
      case SuspBlock =>
        s.(procs := s.procs[p := s.procs[p].(reloj := Ninguno, estado := SuspReady, suspendidoEn := ahora)],
           listas := s.listas.(suspBlock := Quitar(s.listas.suspBlock, p), suspReady := s.listas.suspReady + [p]))
      case _ => s.(procs := s.procs[p := s.procs[p].(reloj := Ninguno)])
  {
    assert Desplegar(0);
    if s.procs[p].estado == Block {
      AReadyEnPartes(cfg, s, p, s.procs[p].(reloj := Ninguno, estado := Ready));
    }
  }

  lemma {:induction false} PedirIoForma(cfg: Config, s: Sistema, p: int, t: TipoIo)
    ensures Tras(cfg, s, PideIo(p, t)) ==
      if !Ejecuta(s, p) then s
      else
        var s1 := BloquearP(cfg, s, p);
        s1.(io := ConCola(s1.io, t, Cola(s1.io, t) + [p]))
  {
    assert Desplegar(0);
  }

  lemma {:induction false} TomarIoForma(cfg: Config, s: Sistema, t: TipoIo)
    requires Cola(s.io, t) != []
    ensures Tras(cfg, s, TomaIo(t)) ==
      s.(io := ConCola(s.io, t, Cola(s.io, t)[1..]).(servicio := s.io.servicio + [Cola(s.io, t)[0]]))
  {
    assert Desplegar(0);
  }

  /** An I/O request in service belongs to a blocked process. */
  lemma {:induction false} ServicioDice(cfg: Config, s: Sistema, p: int)
    requires Inv(cfg, s) && p in s.io.servicio
    ensures p in s.procs && Bloqueado(s.procs[p]) && ConfigValida(cfg) && |s.listas.colas| == |cfg.rr|
  {
    assert Desplegar(0);
    FinServicio(cfg, s, p);
    NoEspera(cfg, s.(io := s.io.(servicio := Quitar(s.io.servicio, p))), p, 0, 0, None);
  }

  /** After the wake-up the state is consistent again. */
  lemma {:induction false} DespiertaBien(cfg: Config, s: Sistema, p: int, ahora: int)
    requires Inv(cfg, s) && p in s.io.servicio && p in s.procs
    ensures Inv(cfg, DespertarP(cfg, s.(io := s.io.(servicio := Quitar(s.io.servicio, p))), p, ahora))
  {
    var s1 := s.(io := s.io.(servicio := Quitar(s.io.servicio, p)));
    assert Desplegar(0);
    FinServicio(cfg, s, p);
    DespertarInv(cfg, s1, p, ahora, 0, 0, None);
    InvHasta(cfg, Despertar(cfg, s1, p, ahora), p, 0);
  }

  /** The wake-up, and then the round of de-suspensions, if any. */
  lemma {:induction false} FinIoForma(cfg: Config, s: Sistema, p: int, ok: bool, ahora: int)
    requires p in s.io.servicio && p in s.procs
    ensures var s1 := s.(io := s.io.(servicio := Quitar(s.io.servicio, p)));
      forall orden, resp ::
        Tras(cfg, s, TerminaIo(p, ok, ahora, orden, resp)) ==
          if !ok then s1.(io := s1.io.(perdidos := s1.io.perdidos + [p]))
          else if s.procs[p].estado == SuspBlock then Tras(cfg, DespertarP(cfg, s1, p, ahora), HayMemoria(orden, resp))
          else DespertarP(cfg, s1, p, ahora)
  {
    assert Desplegar(0);
  }

  lemma {:induction false} FinIoOrdenaForma(cfg: Config, s: Sistema, p: int, ok: bool, ahora: int, orden: seq<int>)
    requires p in s.io.servicio && p in s.procs
    requires ok && s.procs[p].estado == SuspBlock ==>
               var s2 := DespertarP(cfg, s.(io := s.io.(servicio := Quitar(s.io.servicio, p))), p, ahora);
               EsOrden(s2.procs, s2.listas.suspReady, orden)
    ensures forall resp :: Habilitado(cfg, s, TerminaIo(p, ok, ahora, orden, resp))
  {
    assert Desplegar(0);
  }

  // ---------------------------------------------------------------- de-suspension

  /** State of the de-suspension loop: `n` tried, the rest still where they were. */
  ghost predicate Dessuspendiendo(cfg: Config, s: Sistema, orden: seq<int>, n: nat) {
    && n <= |orden| && Inv(cfg, s)
    && (forall i, j :: 0 <= i < j < |orden| ==> orden[i] != orden[j])
    && forall k :: n <= k < |orden| ==> orden[k] in s.procs && s.procs[orden[k]].estado == SuspReady
  }

  lemma {:induction false} OrdenForma(cfg: Config, s: Sistema, orden: seq<int>)
    requires Inv(cfg, s) && EsOrden(s.procs, s.listas.suspReady, orden)
    ensures Dessuspendiendo(cfg, s.(listas := s.listas.(suspReady := orden)), orden, 0)
  {
    assert Desplegar(0);
    OrdenarInv(cfg, s, orden);
    var s1 := s.(listas := s.listas.(suspReady := orden));
    forall k | 0 <= k < |orden| ensures orden[k] in s.procs && s.procs[orden[k]].estado == SuspReady {
      Miembro(cfg, s1.procs, s1.listas, EnSuspReady, orden[k]);
    }
    forall i, j | 0 <= i < j < |orden| ensures orden[i] != orden[j] {
      assert Cuantos(s1.listas, EnSuspReady, orden[i]) <= 1;
      Distintos(orden, i, j);
    }
  }

  /** The loop so far: the first `n` answers applied, folded. */
  ghost function DessuspenderP(cfg: Config, s: Sistema, orden: seq<int>, resp: seq<bool>, n: nat): (r: Sistema)
    requires n <= |orden|
    ensures forall z {:trigger Desplegar(z)} :: Desplegar(z) ==> r == DessuspenderHasta(cfg, s, orden, resp, n)
  {
    var r: Sistema :| forall z {:trigger Desplegar(z)} :: Desplegar(z) ==> r == DessuspenderHasta(cfg, s, orden, resp, n);
    r
  }

  lemma {:induction false} DessuspenderInicio(cfg: Config, s: Sistema, orden: seq<int>, resp: seq<bool>)
    ensures DessuspenderP(cfg, s, orden, resp, 0) == s
  {
    assert Desplegar(0);
  }

  lemma {:induction false} DessuspenderFin(cfg: Config, s: Sistema, orden: seq<int>, resp: seq<bool>)
    ensures DessuspenderP(cfg, s.(listas := s.listas.(suspReady := orden)), orden, resp, |orden|) == Tras(cfg, s, HayMemoria(orden, resp))
  {
    assert Desplegar(0);
  }

  lemma {:induction false} DessuspenderForma(cfg: Config, s0: Sistema, orden: seq<int>, resp: seq<bool>, n: nat)
    requires n < |orden| && Dessuspendiendo(cfg, DessuspenderP(cfg, s0, orden, resp, n), orden, n)
    ensures ConfigValida(cfg)
    ensures var s, s' := DessuspenderP(cfg, s0, orden, resp, n), DessuspenderP(cfg, s0, orden, resp, n + 1);
      && Dessuspendiendo(cfg, s', orden, n + 1)
      && orden[n] in s.procs && |s.listas.colas| == |cfg.rr|
      && var q := s.procs[orden[n]].(estado := Ready);
      s' == if !(n < |resp| && resp[n]) then s
            else Puesto(Agregado(cfg, s.(procs := s.procs[orden[n] := q],
                        listas := s.listas.(suspReady := Quitar(s.listas.suspReady, orden[n]))), orden[n]), LugarDe(cfg, q).EnCola?)
  {
    var s := DessuspenderP(cfg, s0, orden, resp, n);
    ColasBien(cfg, s);
    AReadyEnPartes(cfg, s, orden[n], s.procs[orden[n]].(estado := Ready));
    assert Desplegar(0);
    DessuspenderUnoInv(cfg, s, orden[n], n < |resp| && resp[n]);
  }

  // ---------------------------------------------------------------- compaction

  /** The process blocked, its CPU reserved and planning stopped; the interrupts come next. */
  function EnPausa(s: Sistema, p: int): Sistema
    requires p in s.procs
  {
    s.(procs := s.procs[p := s.procs[p].(estado := Block, cpu := None)],
       listas := s.listas.(exec := Quitar(s.listas.exec, p), block := s.listas.block + [p]),
       cpus := s.cpus.(reservada := s.procs[p].cpu), esperando := Some(p), compactando := true,
       sem := s.sem.(puede := s.sem.puede - 1))
  }

  lemma {:induction false} CompactarForma(cfg: Config, s: Sistema, p: int)
    requires Ejecuta(s, p)
    ensures var s1 := EnPausa(s, p);
      Tras(cfg, s, PideCompactar(p)) == s1.(avisos := s1.avisos + AvisarATodos(s1.procs, s1.listas.exec))
  {
    assert Desplegar(0);
  }

  lemma {:induction false} FinCompactacionForma(cfg: Config, s: Sistema)
    requires Inv(cfg, s) && s.compactando
    ensures s.esperando.Some? && s.esperando.value in s.procs
    ensures var p := s.esperando.value;
      Tras(cfg, s, TerminaCompactar) == s.(procs := s.procs[p := s.procs[p].(estado := Exec, cpu := s.cpus.reservada)],
        listas := s.listas.(block := Quitar(s.listas.block, p), exec := s.listas.exec + [p]),
        cpus := s.cpus.(reservada := None), esperando := None, compactando := false, sem := s.sem.(puede := s.sem.puede + 1))
  {
    assert Desplegar(0);
  }

  // ---------------------------------------------------------------- mutexes

  lemma {:induction false} CrearMutexForma(cfg: Config, s: Sistema, p: int, nombre: string)
    ensures Tras(cfg, s, CreaMutex(p, nombre)) ==
      if !Ejecuta(s, p) || BuscarMutex(s.mutexes, nombre) < |s.mutexes| then s
      else s.(mutexes := s.mutexes + [Mutex(nombre, None, [], [], [])])
  {
    assert Desplegar(0);
  }

  lemma {:induction false} HeredarForma(cfg: Config, s: Sistema, p: int, j: nat)
    requires cfg.cmn && p in s.procs && j < |s.mutexes|
    requires s.procs[p].estado == Ready ==> Nivel(cfg, s.procs[p].prioridad).Some? && |s.listas.colas| == |cfg.rr|
    ensures var mejor := MayorPrioridad(s.procs, s.mutexes[j].espera);
      var m := s.procs[p := s.procs[p].(prioridad := mejor)];
      var i := s.procs[p].prioridad;
      HeredarP(cfg, s, p, j) ==
        if mejor == -1 || mejor >= i then s
        else if s.procs[p].estado != Ready then s.(procs := m)
        else Agregado(cfg, s.(procs := m, listas := s.listas.(colas := s.listas.colas[i := Quitar(s.listas.colas[i], p)])), p)
  {
    var mejor := MayorPrioridad(s.procs, s.mutexes[j].espera);
    assert Desplegar(0);
    if s.procs[p].estado == Ready {
      EncolarEnPartes(cfg, s, p, s.procs[p].(prioridad := mejor));
    }
  }

  lemma {:induction false} LockForma(cfg: Config, s: Sistema, p: int, nombre: string)
    requires Inv(cfg, s)
    ensures var j := BuscarMutex(s.mutexes, nombre);
      if !Ejecuta(s, p) || j == |s.mutexes| then Tras(cfg, s, Lock(p, nombre)) == s
      else if s.mutexes[j].dueno.None? then Tras(cfg, s, Lock(p, nombre)) == ConMutex(s, j, Tomado(s.mutexes[j], p))
      else
        && var h, s0 := s.mutexes[j].dueno.value, ConMutex(s, j, Pedido(s.mutexes[j], p));
        && Buscable(cfg, s, h) && Nivel(cfg, s.procs[h].prioridad).Some?
        && var s1 := if cfg.cmn then HeredarP(cfg, s0, h, j) else s0;
        && Ejecuta(s1, p) && Tras(cfg, s, Lock(p, nombre)) == BloquearP(cfg, s1, p)
  {
    assert Desplegar(0);
    var j := BuscarMutex(s.mutexes, nombre);
    if Ejecuta(s, p) && j < |s.mutexes| && s.mutexes[j].dueno.Some? {
      LockEsperaInv(cfg, s, p, j);
      DuenoBuscable(cfg, s, j);
      assert ProcesoBien(cfg, s.procs[s.mutexes[j].dueno.value]);
      NivelVivo(cfg, s.procs[s.mutexes[j].dueno.value]);
    }
  }

  lemma {:induction false} UnlockForma(cfg: Config, s: Sistema, p: int, nombre: string, ahora: int)
    requires Inv(cfg, s)
    ensures var j := BuscarMutex(s.mutexes, nombre);
      if !Ejecuta(s, p) || j == |s.mutexes| then Tras(cfg, s, Unlock(p, nombre, ahora)) == s
      else if s.mutexes[j].espera == [] then
        var s1 := ConMutex(s, j, s.mutexes[j].(dueno := None));
        Tras(cfg, s, Unlock(p, nombre, ahora)) == if cfg.cmn then DevolverPrioridad(s1, p) else s1
      else
        && var w, s1 := s.mutexes[j].espera[0], ConMutex(s, j, Entregado(s.mutexes[j]));
        && var s2 := if cfg.cmn then DevolverPrioridad(s1, p) else s1;
        && w in s2.procs && Bloqueado(s2.procs[w])
        && Tras(cfg, s, Unlock(p, nombre, ahora)) == RecibirP(cfg, s2, w, j, ahora)
  {
    var j := BuscarMutex(s.mutexes, nombre);
    if Ejecuta(s, p) && j < |s.mutexes| && s.mutexes[j].espera != [] {
      EntregaDice(cfg, s, p, j);
    }
    assert Desplegar(0);
  }

  lemma {:induction false} EntregaDice(cfg: Config, s: Sistema, p: int, j: nat)
    requires Inv(cfg, s) && Ejecuta(s, p) && j < |s.mutexes| && s.mutexes[j].espera != []
    ensures var w, s1 := s.mutexes[j].espera[0], ConMutex(s, j, Entregado(s.mutexes[j]));
      var s2 := if cfg.cmn then DevolverPrioridad(s1, p) else s1;
      w in s2.procs && Bloqueado(s2.procs[w])
  {
    assert Desplegar(0);
    EntregarInv(cfg, s, j, 0, 0, None);
  }

  /** The dead process is out of every list; its mutexes come next. */
  lemma {:induction false} TerminarForma(cfg: Config, s: Sistema, p: int, ahora: int)
    requires Inv(cfg, s)
    ensures !Ejecuta(s, p) ==> Tras(cfg, s, Termina(p, ahora)) == s
    ensures Ejecuta(s, p) ==>
              var s1 := s.(procs := s.procs - {p}, listas := s.listas.(exec := Quitar(s.listas.exec, p)));
              && EnCesion(cfg, s1, p, s.procs[p].cpu.value)
              && Tras(cfg, s, Termina(p, ahora)) == Devolver(CederHasta(cfg, s1, p, |s.mutexes|, ahora), s.procs[p].cpu.value)
  {
    assert Desplegar(0);
    if Ejecuta(s, p) {
      var c := s.procs[p].cpu.value;
      var s1 := s.(procs := s.procs - {p}, listas := s.listas.(exec := Quitar(s.listas.exec, p)));
      InvDesde(cfg, s, p, c);
      SalirInv(cfg, s, p, c);
      SinDeuda(s1.procs, s1.io, s1.mutexes, s1.esperando, p, 0);
    }
  }

  /** One mutex of the dead process. */
  lemma {:induction false} CederForma(cfg: Config, s: Sistema, muerto: int, j: nat, ahora: int, c0: int)
    requires EnCesion(cfg, s, muerto, c0) && j < |s.mutexes|
    ensures EnCesion(cfg, Ceder(cfg, s, muerto, j, ahora), muerto, c0)
    ensures ConfigValida(cfg) && |s.listas.colas| == |cfg.rr|
    ensures var mu := s.mutexes[j];
      if mu.dueno != Some(muerto) then Ceder(cfg, s, muerto, j, ahora) == s
      else if mu.espera == [] then Ceder(cfg, s, muerto, j, ahora) == ConMutex(s, j, mu.(dueno := None))
      else
        && mu.espera[0] in s.procs && Bloqueado(s.procs[mu.espera[0]])
        && Ceder(cfg, s, muerto, j, ahora) == RecibirP(cfg, ConMutex(s, j, Entregado(mu)), mu.espera[0], j, ahora)
  {
    CederCesion(cfg, s, muerto, j, ahora, c0);
    assert Desplegar(0);
    if s.mutexes[j].dueno == Some(muerto) && s.mutexes[j].espera != [] {
      EntregarInv(cfg, s, j, c0, 1, Some(muerto));
    }
  }
}
