/** Every step of the scheduler keeps the invariant. */
module Invariantes {
  import opened Tipos
  import opened Listas
  import opened Planificacion
  import opened Sistemas
  import opened Pasos

  // ---------------------------------------------------------------- building blocks

  /** A process that can be planned has a priority in range. */
  lemma {:induction false} NivelVivo(cfg: Config, q: Proceso)
    requires ProcesoBien(cfg, q) && Nivel(cfg, q.original).Some?
    ensures Nivel(cfg, q.prioridad).Some?
  {
  }

  lemma {:induction false} AReadyInv(cfg: Config, s: Sistema, p: int, q: Proceso, d: int, c0: int, dc: int, muerto: Option<int>)
    requires InvSalvo(cfg, s, p, d, c0, dc, muerto) && p in s.procs && s.procs[p].estado != Ready && s.esperando != Some(p)
    requires ProcesoBien(cfg, q) && q.original == s.procs[p].original && q.estado == Ready
    requires s.procs[p].estado == Exec ==> s.procs[p].cpu == Some(c0)
    ensures InvSalvo(cfg, AReady(cfg, s, p, q), p, d - Uno(Bloqueado(s.procs[p])), c0, dc + Uno(s.procs[p].estado == Exec), muerto)
  {
    assert Desplegar(0);
    ReubicarInv(cfg, s, AReady(cfg, s, p, q), p, q, p, d, c0, dc, muerto);
  }

  lemma {:induction false} DevolverInv(cfg: Config, s: Sistema, p: int, d: int, c0: int, muerto: Option<int>)
    requires InvSalvo(cfg, s, p, d, c0, 1, muerto)
    ensures InvSalvo(cfg, Devolver(s, c0), p, d, 0, 0, muerto)
  {
    assert Desplegar(0);
    LiberarCpu(s.procs, s.listas.exec, s.cpus, c0);
  }

  lemma {:induction false} BloquearInv(cfg: Config, s: Sistema, p: int, d: int, c0: int, muerto: Option<int>)
    requires InvSalvo(cfg, s, p, d, c0, 0, muerto) && Ejecuta(s, p) && s.procs[p].cpu == Some(c0)
    ensures InvSalvo(cfg, Bloquear(cfg, s, p), p, d + 1, 0, 0, muerto)
  {
    assert Desplegar(0);
    var q := Dormido(s.procs[p]);
    var s1 := s.(procs := s.procs[p := q], listas := Mover(cfg, s.procs, s.listas, p, q));
    ReubicarInv(cfg, s, s1, p, q, p, d, c0, 0, muerto);
    DevolverInv(cfg, s1, p, d + 1, c0, muerto);
  }

  /** A process that owes one pending place is not the one that waits for a compaction. */
  lemma {:induction false} NoEspera(cfg: Config, s: Sistema, w: int, c0: int, dc: int, muerto: Option<int>)
    requires InvSalvo(cfg, s, w, 1, c0, dc, muerto)
    ensures EstaBloqueado(s.procs, w) && s.esperando != Some(w)
  {
    assert Desplegar(0);
    assert Pendiente(s.io, s.mutexes, s.esperando, w) + 1 == Uno(EstaBloqueado(s.procs, w));
  }

  lemma {:induction false} DespertarInv(cfg: Config, s: Sistema, w: int, ahora: int, c0: int, dc: int, muerto: Option<int>)
    requires InvSalvo(cfg, s, w, 1, c0, dc, muerto) && w in s.procs
    ensures InvSalvo(cfg, Despertar(cfg, s, w, ahora), w, 0, c0, dc, muerto)
  {
    assert Desplegar(0);
    NoEspera(cfg, s, w, c0, dc, muerto);
    var q := s.procs[w].(reloj := Ninguno);
    if s.procs[w].estado == Block {
      AReadyInv(cfg, s, w, q.(estado := Ready), 1, c0, dc, muerto);
    } else {
      ReubicarInv(cfg, s, Despertar(cfg, s, w, ahora), w, q.(estado := SuspReady, suspendidoEn := ahora), w, 1, c0, dc, muerto);
    }
  }

  // ---------------------------------------------------------------- processes and planning

  lemma {:induction false} NacerInv(cfg: Config, s: Sistema, prioridad: int, creado: bool)
    requires Inv(cfg, s)
    ensures Inv(cfg, Nacer(cfg, s, prioridad, creado))
  {
    assert Desplegar(0);
    var p := s.proximoPid;
    var q := Proceso(prioridad, prioridad, Ready, None, Ninguno, 0);
    if creado {
      assert p !in s.procs;
      IngresarUbica(cfg, s.procs, s.listas, p, q);
      IngresarEncola(cfg, s.listas, p, q);
      NacerCpus(cfg, s, p, q);
      SinDeuda(s.procs, s.io, s.mutexes, s.esperando, 0, p);
      AnotarPendencia(s.procs, s.io, s.mutexes, s.esperando, p, q, p, 0);
      SinDeuda(s.procs[p := q], s.io, s.mutexes, s.esperando, p, 0);
      DuenosTras(cfg, s.procs, s.mutexes, None, p, q);
    }
  }

  lemma {:induction false} NacerCpus(cfg: Config, s: Sistema, p: int, q: Proceso)
    requires Inv(cfg, s) && p !in s.procs && q.estado == Ready && q.cpu == None
    ensures CpusBien(s.procs[p := q], Ingresar(cfg, s.listas, p, q).exec, s.cpus, 0, 0)
  {
    assert Desplegar(0);
    var m := s.procs[p := q];
    LugarExiste(cfg, s.listas, q);
    assert Ingresar(cfg, s.listas, p, q).exec == s.listas.exec;
    forall c {:trigger Atada(m, s.listas.exec, s.cpus, c)}
      ensures Atada(m, s.listas.exec, s.cpus, c) == Veces(s.cpus.conectadas, c)
    {
      EnUsoMarco(s.procs, m, s.listas.exec, c);
      assert Atada(s.procs, s.listas.exec, s.cpus, c) + 0 == Veces(s.cpus.conectadas, c);
    }
  }

  /** When the three semaphores let the planner through there is a ready process and a free
      CPU: the branch that finds no process is never taken. */
  lemma {:induction false} SiempreHayProceso(cfg: Config, s: Sistema)
    requires Inv(cfg, s) && PuedePlanificar(s)
    ensures var i := PrimeraConProcesos(s.listas.colas, 0);
      && i < |s.listas.colas| && s.listas.colas[i][0] in s.procs && s.cpus.libres != []
      && EstaEn(cfg, s.procs, EnCola(i), s.listas.colas[i][0])
  {
    assert Desplegar(0);
    var i := PrimeraConProcesos(s.listas.colas, 0);
    if i == |s.listas.colas| {
      EncoladosNinguno(s.listas.colas);
    }
    Miembro(cfg, s.procs, s.listas, EnCola(i), s.listas.colas[i][0]);
  }

  lemma {:induction false} TomarCpu(m: Procesos, exec: seq<int>, cpus: Cpus)
    requires CpusBien(m, exec, cpus, 0, 0) && cpus.libres != []
    ensures CpusBien(m, exec, cpus.(libres := cpus.libres[1..]), cpus.libres[0], 1)
  {
    var c0, cpus' := cpus.libres[0], cpus.(libres := cpus.libres[1..]);
    CpusSinDeuda(m, exec, cpus, 0, c0);
    forall c ensures Veces(cpus'.libres, c) == Veces(cpus.libres, c) + if c == c0 then -1 else 0 {
      VecesResto(cpus.libres, c);
    }
    AtadaMas(m, exec, cpus, cpus', c0, 0, -1, 0);
  }

  lemma {:induction false} PlanificarInv(cfg: Config, s: Sistema)
    requires Inv(cfg, s) && PuedePlanificar(s)
    ensures Inv(cfg, Planificar(cfg, s))
  {
    assert Desplegar(0);
    SiempreHayProceso(cfg, s);
    var i := PrimeraConProcesos(s.listas.colas, 0);
    var p, c := s.listas.colas[i][0], s.cpus.libres[0];
    var q := Despachado(cfg, s.procs[p], i, c);
    InvDesde(cfg, s, p, 0);
    TomarCpu(s.procs, s.listas.exec, s.cpus);
    var s1 := s.(cpus := s.cpus.(libres := s.cpus.libres[1..]), sem := s.sem.(cpus := s.sem.cpus - 1));
    assert ProcesoBien(cfg, s.procs[p]);
    ReubicarInv(cfg, s1, Planificar(cfg, s), p, q, p, 0, c, 1, None);
    InvHasta(cfg, Planificar(cfg, s), p, c);
  }

  // ---------------------------------------------------------------- timers and CPUs

  lemma {:induction false} VenceQuantumInv(cfg: Config, s: Sistema, p: int)
    requires Inv(cfg, s)
    ensures Inv(cfg, VenceQuantum(cfg, s, p))
  {
    assert Desplegar(0);
    if p in s.procs {
      AnotarInv(cfg, s, s.(procs := s.procs[p := s.procs[p].(reloj := Ninguno)], avisos := VenceQuantum(cfg, s, p).avisos),
                p, s.procs[p].(reloj := Ninguno), 0, 0, 0, 0, None);
    }
  }

  lemma {:induction false} VenceSuspensionInv(cfg: Config, s: Sistema, p: int)
    requires Inv(cfg, s)
    ensures Inv(cfg, VenceSuspension(cfg, s, p))
  {
    assert Desplegar(0);
    if Buscable(cfg, s, p) && s.procs[p].reloj == Suspension {
      assert ProcesoBien(cfg, s.procs[p]);
      InvDesde(cfg, s, p, 0);
      ReubicarInv(cfg, s, VenceSuspension(cfg, s, p), p, s.procs[p].(reloj := Ninguno, estado := SuspBlock), p, 0, 0, 0, None);
      InvHasta(cfg, VenceSuspension(cfg, s, p), p, 0);
    }
  }

  lemma {:induction false} ConectarInv(cfg: Config, s: Sistema, c: int)
    requires Inv(cfg, s) && c !in s.cpus.conectadas
    ensures Inv(cfg, ConectarCpu(s, c))
  {
    assert Desplegar(0);
    var cpus' := ConectarCpu(s, c).cpus;
    CpusSinDeuda(s.procs, s.listas.exec, s.cpus, 0, c);
    VecesMiembro(s.cpus.conectadas, c);
    forall x ensures Veces(cpus'.libres, x) == Veces(s.cpus.libres, x) + (if x == c then 1 else 0)
             ensures Veces(cpus'.conectadas, x) == Veces(s.cpus.conectadas, x) + (if x == c then 1 else 0)
    {
      VecesAgregar(s.cpus.libres, c, x);
      VecesAgregar(s.cpus.conectadas, c, x);
    }
    AtadaMas(s.procs, s.listas.exec, s.cpus, cpus', c, 0, 1, 1);
    CpusSinDeuda(s.procs, s.listas.exec, cpus', c, 0);
  }

  lemma {:induction false} SinCpuInv(cfg: Config, s: Sistema, c: int)
    requires Inv(cfg, s) && c in s.cpus.conectadas && s.cpus.reservada != Some(c)
    ensures InvSalvo(cfg, SinCpu(s, c), 0, 0, c, -1 + Uno(c in s.cpus.libres), None)
    ensures EnUso(s.procs, s.listas.exec, c) == Uno(c !in s.cpus.libres)
  {
    assert Desplegar(0);
    var cpus', enLibres := SinCpu(s, c).cpus, c in s.cpus.libres;
    CpusSinDeuda(s.procs, s.listas.exec, s.cpus, 0, c);
    forall x ensures Veces(cpus'.libres, x) == Veces(s.cpus.libres, x) + (if x == c then -Uno(enLibres) else 0)
             ensures Veces(cpus'.conectadas, x) == Veces(s.cpus.conectadas, x) + (if x == c then -1 else 0)
    {
      VecesQuitar(s.cpus.conectadas, c, x);
      if enLibres {
        VecesQuitar(s.cpus.libres, c, x);
      }
    }
    if enLibres {
      QuitarLargo(s.cpus.libres, c);
    }
    AtadaMas(s.procs, s.listas.exec, s.cpus, cpus', c, 0, -Uno(enLibres), -1);
    VecesMiembro(s.cpus.conectadas, c);
    VecesMiembro(s.cpus.libres, c);
    assert Atada(s.procs, s.listas.exec, s.cpus, c) + 0 == Veces(s.cpus.conectadas, c) <= 1;
  }

  lemma {:induction false} NadieUsa(m: Procesos, l: seq<int>, c: int)
    requires forall x :: x in l ==> !Usa(m, x, c)
    ensures EnUso(m, l, c) == 0
    decreases |l|
  {
    if |l| > 0 {
      NadieUsa(m, l[..|l| - 1], c);
    }
  }

  lemma {:induction false} DesconectarInv(cfg: Config, s: Sistema, c: int)
    requires Inv(cfg, s) && c in s.cpus.conectadas && s.cpus.reservada != Some(c)
    ensures Inv(cfg, DesconectarCpu(cfg, s, c))
  {
    assert Desplegar(0);
    SinCpuInv(cfg, s, c);
    var s1, r := SinCpu(s, c), EjecutandoEn(s.procs, s.listas.exec, c);
    if r.None? {
      NadieUsa(s.procs, s.listas.exec, c);
      InvHasta(cfg, s1, 0, c);
    } else {
      var p := r.value;
      EnUsoAlguno(s.procs, s.listas.exec, p, c);
      Miembro(cfg, s.procs, s.listas, EnExec, p);
      assert ProcesoBien(cfg, s.procs[p]);
      SinDeuda(s1.procs, s1.io, s1.mutexes, s1.esperando, 0, p);
      AReadyInv(cfg, s1, p, s.procs[p].(estado := Ready, cpu := None, reloj := Ninguno), 0, c, -1, None);
      InvHasta(cfg, DesconectarCpu(cfg, s, c), p, c);
    }
  }

  lemma {:induction false} FinQuantumInv(cfg: Config, s: Sistema, p: int)
    requires Inv(cfg, s)
    ensures Inv(cfg, FinQuantum(cfg, s, p))
  {
    assert Desplegar(0);
    if Ejecuta(s, p) {
      var q, c := s.procs[p].(estado := Ready, cpu := None), s.procs[p].cpu.value;
      assert ProcesoBien(cfg, s.procs[p]);
      InvDesde(cfg, s, p, c);
      var s1 := if s.compactando
                then s.(procs := s.procs[p := q], listas := MoverAlFrente(cfg, s.procs, s.listas, p, q))
                else Encolar(cfg, s, p, q);
      ReubicarInv(cfg, s, Postear(cfg, s1, q), p, q, p, 0, c, 0, None);
      DevolverInv(cfg, Postear(cfg, s1, q), p, 0, c, None);
      InvHasta(cfg, FinQuantum(cfg, s, p), p, 0);
    }
  }

  // ---------------------------------------------------------------- I/O

  lemma {:induction false} ColaMas(io: Io, t: TipoIo, v: seq<int>, p: int, k: int, ms: seq<Mutex>, e: Option<int>)
    requires forall x :: Veces(v, x) == Veces(Cola(io, t), x) + if x == p then k else 0
    ensures forall x {:trigger Pendiente(ConCola(io, t, v), ms, e, x)} ::
              Pendiente(ConCola(io, t, v), ms, e, x) == Pendiente(io, ms, e, x) + if x == p then k else 0
  {
  }

  lemma {:induction false} PedirIoInv(cfg: Config, s: Sistema, p: int, t: TipoIo)
    requires Inv(cfg, s)
    ensures Inv(cfg, PedirIo(cfg, s, p, t))
  {
    assert Desplegar(0);
    if Ejecuta(s, p) {
      var s1 := Bloquear(cfg, s, p);
      InvDesde(cfg, s, p, s.procs[p].cpu.value);
      BloquearInv(cfg, s, p, 0, s.procs[p].cpu.value, None);
      var io' := ConCola(s1.io, t, Cola(s1.io, t) + [p]);
      forall x ensures Veces(Cola(s1.io, t) + [p], x) == Veces(Cola(s1.io, t), x) + if x == p then 1 else 0 {
        VecesAgregar(Cola(s1.io, t), p, x);
      }
      ColaMas(s1.io, t, Cola(s1.io, t) + [p], p, 1, s1.mutexes, s1.esperando);
      PendienteMas(s1.procs, s1.io, s1.mutexes, s1.esperando, io', s1.mutexes, s1.esperando, p, 1, 1);
      InvHasta(cfg, PedirIo(cfg, s, p, t), p, 0);
    }
  }

  lemma {:induction false} TomarIoInv(cfg: Config, s: Sistema, t: TipoIo)
    requires Inv(cfg, s)
    ensures Inv(cfg, TomarIo(s, t))
  {
    assert Desplegar(0);
    if Cola(s.io, t) != [] {
      var p, v := Cola(s.io, t)[0], Cola(s.io, t)[1..];
      var io1 := ConCola(s.io, t, v);
      forall x ensures Veces(v, x) == Veces(Cola(s.io, t), x) + if x == p then -1 else 0 {
        VecesResto(Cola(s.io, t), x);
      }
      ColaMas(s.io, t, v, p, -1, s.mutexes, s.esperando);
      SinDeuda(s.procs, s.io, s.mutexes, s.esperando, 0, p);
      PendienteMas(s.procs, s.io, s.mutexes, s.esperando, io1, s.mutexes, s.esperando, p, 0, -1);
      ServicioMas(s.procs, io1, s.mutexes, s.esperando, p);
      SinDeuda(s.procs, TomarIo(s, t).io, s.mutexes, s.esperando, p, 0);
    }
  }

  lemma {:induction false} ServicioMas(m: Procesos, io: Io, ms: seq<Mutex>, e: Option<int>, p: int)
    requires Pendencia(m, io, ms, e, p, 1)
    ensures Pendencia(m, io.(servicio := io.servicio + [p]), ms, e, p, 0)
  {
    var io1 := io.(servicio := io.servicio + [p]);
    forall x {:trigger Pendiente(io1, ms, e, x)}
      ensures Pendiente(io1, ms, e, x) == Pendiente(io, ms, e, x) + if x == p then 1 else 0
    {
      VecesAgregar(io.servicio, p, x);
    }
    PendienteMas(m, io, ms, e, io1, ms, e, p, 1, 1);
  }

  lemma {:induction false} FinServicio(cfg: Config, s: Sistema, p: int)
    requires Inv(cfg, s) && p in s.io.servicio
    ensures InvSalvo(cfg, s.(io := s.io.(servicio := Quitar(s.io.servicio, p))), p, 1, 0, 0, None)
  {
    assert Desplegar(0);
    var io1 := s.io.(servicio := Quitar(s.io.servicio, p));
    forall x {:trigger Pendiente(io1, s.mutexes, s.esperando, x)}
      ensures Pendiente(io1, s.mutexes, s.esperando, x) == Pendiente(s.io, s.mutexes, s.esperando, x) + if x == p then -1 else 0
    {
      VecesQuitar(s.io.servicio, p, x);
    }
    SinDeuda(s.procs, s.io, s.mutexes, s.esperando, 0, p);
    PendienteMas(s.procs, s.io, s.mutexes, s.esperando, io1, s.mutexes, s.esperando, p, 0, -1);
  }

  lemma {:induction false} PerderInv(cfg: Config, s: Sistema, p: int)
    requires InvSalvo(cfg, s, p, 1, 0, 0, None)
    ensures InvSalvo(cfg, s.(io := s.io.(perdidos := s.io.perdidos + [p])), p, 0, 0, 0, None)
  {
    assert Desplegar(0);
    var io1 := s.io.(perdidos := s.io.perdidos + [p]);
    forall x {:trigger Pendiente(io1, s.mutexes, s.esperando, x)}
      ensures Pendiente(io1, s.mutexes, s.esperando, x) == Pendiente(s.io, s.mutexes, s.esperando, x) + if x == p then 1 else 0
    {
      VecesAgregar(s.io.perdidos, p, x);
    }
    PendienteMas(s.procs, s.io, s.mutexes, s.esperando, io1, s.mutexes, s.esperando, p, 1, 1);
  }

  /** The answer comes for a process that was in service, hence blocked and waiting for nothing else. */
  lemma {:induction false} FinIoInv(cfg: Config, s: Sistema, p: int, ok: bool, ahora: int, orden: seq<int>, resp: seq<bool>)
    requires Inv(cfg, s)
    requires FinIoOrdena(cfg, s, p, ok, ahora, orden)
    ensures Inv(cfg, FinIo(cfg, s, p, ok, ahora, orden, resp))
  {
    assert Desplegar(0);
    if p in s.io.servicio && p in s.procs {
      var s1 := s.(io := s.io.(servicio := Quitar(s.io.servicio, p)));
      FinServicio(cfg, s, p);
      if !ok {
        PerderInv(cfg, s1, p);
        InvHasta(cfg, FinIo(cfg, s, p, ok, ahora, orden, resp), p, 0);
      } else {
        var s2 := Despertar(cfg, s1, p, ahora);
        DespertarInv(cfg, s1, p, ahora, 0, 0, None);
        InvHasta(cfg, s2, p, 0);
        if s.procs[p].estado == SuspBlock {
          DessuspenderInv(cfg, s2, orden, resp);
        }
      }
    }
  }

  /** The sort made after the I/O of a suspended process sorts what is then suspended and ready. */
  ghost predicate FinIoOrdena(cfg: Config, s: Sistema, p: int, ok: bool, ahora: int, orden: seq<int>) {
    p in s.io.servicio && p in s.procs && ok && s.procs[p].estado == SuspBlock ==>
      var s2 := Despertar(cfg, s.(io := s.io.(servicio := Quitar(s.io.servicio, p))), p, ahora);
      EsOrden(s2.procs, s2.listas.suspReady, orden)
  }

  // ---------------------------------------------------------------- de-suspension

  lemma {:induction false} OrdenarInv(cfg: Config, s: Sistema, orden: seq<int>)
    requires Inv(cfg, s) && EsOrden(s.procs, s.listas.suspReady, orden)
    ensures Inv(cfg, s.(listas := s.listas.(suspReady := orden)))
  {
    assert Desplegar(0);
    var l := s.listas.(suspReady := orden);
    forall k: Lugar, x: int {:trigger Cuantos(l, k, x)} ensures Cuantos(l, k, x) == Uno(EstaEn(cfg, s.procs, k, x)) {
      assert Cuantos(s.listas, k, x) == Uno(EstaEn(cfg, s.procs, k, x));
      assert k == EnSuspReady ==> Veces(orden, x) == Veces(s.listas.suspReady, x);
      assert k != EnSuspReady ==> Lista(l, k) == Lista(s.listas, k);
    }
  }

  lemma {:induction false} DessuspenderUnoInv(cfg: Config, s: Sistema, p: int, ok: bool)
    requires Inv(cfg, s) && p in s.procs && s.procs[p].estado == SuspReady
    ensures Inv(cfg, DessuspenderUno(cfg, s, p, ok))
  {
    assert Desplegar(0);
    if ok {
      InvDesde(cfg, s, p, 0);
      assert ProcesoBien(cfg, s.procs[p]);
      AReadyInv(cfg, s, p, s.procs[p].(estado := Ready), 0, 0, 0, None);
      InvHasta(cfg, DessuspenderUno(cfg, s, p, ok), p, 0);
    }
  }

  /** Those still to be tried have not moved. */
  lemma {:induction false} DessuspenderHastaInv(cfg: Config, s: Sistema, orden: seq<int>, resp: seq<bool>, n: nat)
    requires Inv(cfg, s) && s.listas.suspReady == orden && n <= |orden|
    ensures Inv(cfg, DessuspenderHasta(cfg, s, orden, resp, n))
    ensures forall k :: n <= k < |orden| ==>
              orden[k] in DessuspenderHasta(cfg, s, orden, resp, n).procs
              && DessuspenderHasta(cfg, s, orden, resp, n).procs[orden[k]].estado == SuspReady
    decreases n
  {
    assert Desplegar(0);
    if n == 0 {
      forall k | 0 <= k < |orden| ensures orden[k] in s.procs && s.procs[orden[k]].estado == SuspReady {
        Miembro(cfg, s.procs, s.listas, EnSuspReady, orden[k]);
      }
    } else {
      DessuspenderHastaInv(cfg, s, orden, resp, n - 1);
      var s1, p := DessuspenderHasta(cfg, s, orden, resp, n - 1), orden[n - 1];
      DessuspenderUnoInv(cfg, s1, p, n - 1 < |resp| && resp[n - 1]);
      forall k | n <= k < |orden| ensures orden[k] != p {
        assert Cuantos(s.listas, EnSuspReady, p) <= 1;
        Distintos(orden, n - 1, k);
      }
    }
  }

  lemma {:induction false} DessuspenderInv(cfg: Config, s: Sistema, orden: seq<int>, resp: seq<bool>)
    requires Inv(cfg, s) && EsOrden(s.procs, s.listas.suspReady, orden)
    ensures Inv(cfg, Dessuspender(cfg, s, orden, resp))
  {
    assert Desplegar(0);
    OrdenarInv(cfg, s, orden);
    DessuspenderHastaInv(cfg, s.(listas := s.listas.(suspReady := orden)), orden, resp, |orden|);
  }

  // ---------------------------------------------------------------- compaction

  lemma {:induction false} ReservarCpu(m: Procesos, exec: seq<int>, cpus: Cpus, c: int)
    requires CpusBien(m, exec, cpus, c, 1) && cpus.reservada == None
    ensures CpusBien(m, exec, cpus.(reservada := Some(c)), c, 0)
  {
    AtadaMas(m, exec, cpus, cpus.(reservada := Some(c)), c, 1, 1, 0);
  }

  lemma {:induction false} EsperarCompactacion(m: Procesos, io: Io, ms: seq<Mutex>, p: int)
    requires Pendencia(m, io, ms, None, p, 1)
    ensures Pendencia(m, io, ms, Some(p), p, 0)
  {
    PendienteMas(m, io, ms, None, io, ms, Some(p), p, 1, 1);
  }

  /** A blocked process that is pending nowhere takes the compaction slot and its CPU is kept. */
  lemma {:induction false} PausarInv(cfg: Config, s: Sistema, s': Sistema, p: int, c: int)
    requires InvSalvo(cfg, s, p, 1, c, 1, None) && s.sem.puede > 0
    requires p in s.procs && s.procs[p].estado == Block && s.procs[p].reloj != Suspension
    requires s' == s.(cpus := s.cpus.(reservada := Some(c)), esperando := Some(p), compactando := true,
                      sem := s.sem.(puede := s.sem.puede - 1), avisos := s'.avisos)
    ensures InvSalvo(cfg, s', p, 0, c, 0, None)
  {
    assert Desplegar(0);
    ReservarCpu(s.procs, s.listas.exec, s.cpus, c);
    EsperarCompactacion(s.procs, s.io, s.mutexes, p);
  }

  lemma {:induction false} CompactarInv(cfg: Config, s: Sistema, p: int)
    requires Inv(cfg, s) && s.sem.puede > 0
    ensures Inv(cfg, Compactar(cfg, s, p))
  {
    if Ejecuta(s, p) {
      var q, c := s.procs[p].(estado := Block, cpu := None), s.procs[p].cpu.value;
      var s1 := s.(procs := s.procs[p := q], listas := Mover(cfg, s.procs, s.listas, p, q));
      EjecutaBien(cfg, s, p);
      InvDesde(cfg, s, p, c);
      ReubicarInv(cfg, s, s1, p, q, p, 0, c, 0, None);
      PausarInv(cfg, s1, Compactar(cfg, s, p), p, c);
      InvHasta(cfg, Compactar(cfg, s, p), p, c);
    }
  }

  /** A running process has a sound record, no suspension timer, and waits for no compaction. */
  lemma {:induction false} EjecutaBien(cfg: Config, s: Sistema, p: int)
    requires Inv(cfg, s) && Ejecuta(s, p)
    ensures ProcesoBien(cfg, s.procs[p]) && s.procs[p].reloj != Suspension && s.esperando != Some(p)
    ensures ConfigValida(cfg) && |s.listas.colas| == |cfg.rr|
  {
    assert Desplegar(0);
    assert ProcesoBien(cfg, s.procs[p]);
  }

  lemma {:induction false} FinCompactacionInv(cfg: Config, s: Sistema)
    requires Inv(cfg, s) && s.compactando
    ensures Inv(cfg, FinCompactacion(cfg, s))
  {
    assert Desplegar(0);
    var p, c := s.esperando.value, s.cpus.reservada.value;
    var q := s.procs[p].(estado := Exec, cpu := s.cpus.reservada);
    assert ProcesoBien(cfg, s.procs[p]);
    InvDesde(cfg, s, p, c);
    var cpus1 := s.cpus.(reservada := None);
    AtadaMas(s.procs, s.listas.exec, s.cpus, cpus1, c, 0, -1, 0);
    PendienteMas(s.procs, s.io, s.mutexes, Some(p), s.io, s.mutexes, None, p, 0, -1);
    var s1 := s.(cpus := cpus1, esperando := None, compactando := false, sem := s.sem.(puede := s.sem.puede + 1));
    ReubicarInv(cfg, s1, FinCompactacion(cfg, s), p, q, p, 1, c, 1, None);
    InvHasta(cfg, FinCompactacion(cfg, s), p, c);
  }

  // ---------------------------------------------------------------- mutexes

  /** A process that can be planned, with a sound record. */
  predicate Vivo(cfg: Config, m: Procesos, w: int) {
    w in m && ProcesoBien(cfg, m[w]) && Nivel(cfg, m[w].original).Some?
  }

  predicate EsperaViva(cfg: Config, m: Procesos, espera: seq<int>) {
    forall i :: 0 <= i < |espera| ==> Vivo(cfg, m, espera[i])
  }

  /** In every step each waiter is blocked, or is the process about to block. */
  lemma {:induction false} EsperanVivos(cfg: Config, s: Sistema, y: int, d: int, c0: int, dc: int, muerto: Option<int>, j: nat)
    requires InvSalvo(cfg, s, y, d, c0, dc, muerto) && j < |s.mutexes|
    requires d < 0 ==> y in s.procs && s.procs[y].estado == Exec
    ensures EsperaViva(cfg, s.procs, s.mutexes[j].espera)
  {
    assert Desplegar(0);
    var espera := s.mutexes[j].espera;
    forall i | 0 <= i < |espera| ensures Vivo(cfg, s.procs, espera[i]) {
      var w := espera[i];
      VecesMiembro(espera, w);
      EsperasAlguna(s.mutexes, j, w);
      assert Pendiente(s.io, s.mutexes, s.esperando, w) + (if w == y then d else 0) == Uno(EstaBloqueado(s.procs, w));
      assert w in s.procs;
    }
  }

  /** With the -1 convention: the answer is -1 for no waiters, and otherwise the least priority. */
  lemma {:induction false} MayorEsMinima(cfg: Config, m: Procesos, espera: seq<int>)
    requires cfg.cmn && EsperaViva(cfg, m, espera)
    ensures var r := MayorPrioridad(m, espera);
      if espera == [] then r == -1
      else
        && r >= 0
        && (exists i :: 0 <= i < |espera| && m[espera[i]].prioridad == r)
        && (forall i :: 0 <= i < |espera| ==> r <= m[espera[i]].prioridad)
    decreases |espera|
  {
    if espera != [] {
      var n := |espera| - 1;
      MayorEsMinima(cfg, m, espera[..n]);
      assert Vivo(cfg, m, espera[n]);
      if n > 0 {
        var i :| 0 <= i < n && m[espera[..n][i]].prioridad == MayorPrioridad(m, espera[..n]);
        assert espera[i] == espera[..n][i];
      }
    }
  }

  lemma {:induction false} HeredarInv(cfg: Config, s: Sistema, p: int, j: nat, y: int, d: int, c0: int, dc: int, muerto: Option<int>)
    requires InvSalvo(cfg, s, y, d, c0, dc, muerto) && cfg.cmn && j < |s.mutexes|
    requires d < 0 ==> y in s.procs && s.procs[y].estado == Exec
    requires p in s.procs && Nivel(cfg, s.procs[p].original).Some?
    ensures InvSalvo(cfg, Heredar(cfg, s, p, j), y, d, c0, dc, muerto)
  {
    assert Desplegar(0);
    var mejor := MayorPrioridad(s.procs, s.mutexes[j].espera);
    EsperanVivos(cfg, s, y, d, c0, dc, muerto, j);
    MayorEsMinima(cfg, s.procs, s.mutexes[j].espera);
    if mejor != -1 && mejor < s.procs[p].prioridad {
      var q, s' := s.procs[p].(prioridad := mejor), Heredar(cfg, s, p, j);
      assert ProcesoBien(cfg, s.procs[p]);
      NivelVivo(cfg, s.procs[p]);
      NivelVivo(cfg, q);
      if s.procs[p].estado == Ready {
        ReubicarInv(cfg, s, s', p, q, y, d, c0, dc, muerto);
      } else {
        AnotarInv(cfg, s, s', p, q, y, d, c0, dc, muerto);
      }
    }
  }

  /** What stays of a process through inheritance. */
  lemma {:induction false} HeredarConserva(cfg: Config, s: Sistema, p: int, j: nat)
    requires p in s.procs && j < |s.mutexes|
    ensures var s' := Heredar(cfg, s, p, j);
      && s'.procs.Keys == s.procs.Keys && s'.mutexes == s.mutexes && s'.cpus == s.cpus
      && (forall x :: x in s.procs && x != p ==> s'.procs[x] == s.procs[x])
      && s'.procs[p] == s.procs[p].(prioridad := s'.procs[p].prioridad)
  {
  }

  lemma {:induction false} MejorPropiaRango(cfg: Config, s: Sistema, p: int, n: nat, y: int, d: int)
    requires InvSalvo(cfg, s, y, d, 0, 0, None) && d >= 0 && cfg.cmn && p in s.procs && n <= |s.mutexes|
    requires Nivel(cfg, s.procs[p].original).Some?
    ensures 0 <= MejorPropia(s.procs, s.mutexes, p, n) <= s.procs[p].original
    decreases n
  {
    assert Desplegar(0);
    if n > 0 {
      MejorPropiaRango(cfg, s, p, n - 1, y, d);
      EsperanVivos(cfg, s, y, d, 0, 0, None, n - 1);
      MayorEsMinima(cfg, s.procs, s.mutexes[n - 1].espera);
    }
  }

  lemma {:induction false} DevolverPrioridadInv(cfg: Config, s: Sistema, p: int, y: int, d: int)
    requires InvSalvo(cfg, s, y, d, 0, 0, None) && d >= 0 && cfg.cmn && Ejecuta(s, p)
    ensures InvSalvo(cfg, DevolverPrioridad(s, p), y, d, 0, 0, None)
  {
    assert Desplegar(0);
    assert ProcesoBien(cfg, s.procs[p]);
    MejorPropiaRango(cfg, s, p, |s.mutexes|, y, d);
    var q := s.procs[p].(prioridad := MejorPropia(s.procs, s.mutexes, p, |s.mutexes|));
    if q != s.procs[p] {
      AnotarInv(cfg, s, DevolverPrioridad(s, p), p, q, y, d, 0, 0, None);
    }
  }

  // Replacing one mutex.

  lemma {:induction false} ConMutexBien(ms: seq<Mutex>, j: nat, mu: Mutex)
    requires MutexesBien(ms) && j < |ms| && MutexBien(mu) && mu.nombre == ms[j].nombre
    ensures MutexesBien(ms[j := mu])
  {
  }

  /** The mutex changes and `k` more waits of `p` appear in its queue. */
  lemma {:induction false} ConMutexInv(cfg: Config, s: Sistema, j: nat, mu: Mutex, p: int, d: int, k: int, c0: int, dc: int, muerto: Option<int>)
    requires InvSalvo(cfg, s, p, d, c0, dc, muerto) && j < |s.mutexes|
    requires MutexBien(mu) && mu.nombre == s.mutexes[j].nombre
    requires forall x :: Veces(mu.espera, x) == Veces(s.mutexes[j].espera, x) + if x == p then k else 0
    requires mu.dueno.Some? ==> mu.dueno == muerto || (mu.dueno.value in s.procs && Nivel(cfg, s.procs[mu.dueno.value].original).Some?)
    ensures InvSalvo(cfg, ConMutex(s, j, mu), p, d - k, c0, dc, muerto)
  {
    assert Desplegar(0);
    var ms' := s.mutexes[j := mu];
    ConMutexBien(s.mutexes, j, mu);
    forall x {:trigger Pendiente(s.io, ms', s.esperando, x)}
      ensures Pendiente(s.io, ms', s.esperando, x) == Pendiente(s.io, s.mutexes, s.esperando, x) + if x == p then k else 0
    {
      EsperasCambia(s.mutexes, j, mu, x);
    }
    PendienteMas(s.procs, s.io, s.mutexes, s.esperando, s.io, ms', s.esperando, p, d, k);
  }

  /** Handing the mutex to its first waiter, who now owes its wake-up. */
  lemma {:induction false} EntregarInv(cfg: Config, s: Sistema, j: nat, c0: int, dc: int, muerto: Option<int>)
    requires InvSalvo(cfg, s, 0, 0, c0, dc, muerto) && j < |s.mutexes| && s.mutexes[j].espera != []
    ensures var w := s.mutexes[j].espera[0];
      && w in s.procs && Nivel(cfg, s.procs[w].original).Some? && Bloqueado(s.procs[w])
      && InvSalvo(cfg, ConMutex(s, j, Entregado(s.mutexes[j])), w, 1, c0, dc, muerto)
  {
    assert Desplegar(0);
    var mu, w := s.mutexes[j], s.mutexes[j].espera[0];
    EsperanVivos(cfg, s, 0, 0, c0, dc, muerto, j);
    SinDeuda(s.procs, s.io, s.mutexes, s.esperando, 0, w);
    assert mu.espera == [w] + mu.espera[1..];
    forall x ensures Veces(Entregado(mu).espera, x) == Veces(mu.espera, x) + if x == w then -1 else 0 {
      VecesResto(mu.espera, x);
    }
    ConMutexInv(cfg, s, j, Entregado(mu), w, 0, -1, c0, dc, muerto);
    NoEspera(cfg, ConMutex(s, j, Entregado(mu)), w, c0, dc, muerto);
  }

  lemma {:induction false} RecibirInv(cfg: Config, s: Sistema, w: int, j: nat, ahora: int, c0: int, dc: int, muerto: Option<int>)
    requires InvSalvo(cfg, s, w, 1, c0, dc, muerto) && j < |s.mutexes|
    requires w in s.procs && Nivel(cfg, s.procs[w].original).Some?
    ensures InvSalvo(cfg, Recibir(cfg, s, w, j, ahora), 0, 0, c0, dc, muerto)
  {
    assert Desplegar(0);
    var s1 := if cfg.cmn then Heredar(cfg, s, w, j) else s;
    if cfg.cmn {
      HeredarInv(cfg, s, w, j, w, 1, c0, dc, muerto);
      HeredarConserva(cfg, s, w, j);
    }
    DespertarInv(cfg, s1, w, ahora, c0, dc, muerto);
    SinDeuda(Recibir(cfg, s, w, j, ahora).procs, s1.io, s1.mutexes, s1.esperando, w, 0);
  }

  lemma {:induction false} NuevoMutexPendencia(m: Procesos, io: Io, ms: seq<Mutex>, e: Option<int>, mu: Mutex)
    requires Pendencia(m, io, ms, e, 0, 0) && mu.espera == []
    ensures Pendencia(m, io, ms + [mu], e, 0, 0)
  {
    forall x {:trigger Pendiente(io, ms + [mu], e, x)}
      ensures Pendiente(io, ms + [mu], e, x) == Pendiente(io, ms, e, x) + if x == 0 then 0 else 0
    {
      assert (ms + [mu])[..|ms|] == ms;
    }
    PendienteMas(m, io, ms, e, io, ms + [mu], e, 0, 0, 0);
  }

  lemma {:induction false} NuevoMutexBien(cfg: Config, m: Procesos, ms: seq<Mutex>, nombre: string)
    requires MutexesBien(ms) && Duenos(cfg, m, ms, None) && BuscarMutex(ms, nombre) == |ms|
    ensures MutexesBien(ms + [Mutex(nombre, None, [], [], [])])
    ensures Duenos(cfg, m, ms + [Mutex(nombre, None, [], [], [])], None)
  {
  }

  lemma {:induction false} MutexCreateInv(cfg: Config, s: Sistema, p: int, nombre: string)
    requires Inv(cfg, s)
    ensures Inv(cfg, MutexCreate(s, p, nombre))
  {
    if Ejecuta(s, p) && BuscarMutex(s.mutexes, nombre) == |s.mutexes| {
      assert Desplegar(0);
      NuevoMutexPendencia(s.procs, s.io, s.mutexes, s.esperando, Mutex(nombre, None, [], [], []));
      NuevoMutexBien(cfg, s.procs, s.mutexes, nombre);
    }
  }

  lemma {:induction false} LockInv(cfg: Config, s: Sistema, p: int, nombre: string)
    requires Inv(cfg, s)
    ensures Inv(cfg, MutexLock(cfg, s, p, nombre))
  {
    assert Desplegar(0);
    var j := BuscarMutex(s.mutexes, nombre);
    if Ejecuta(s, p) && j < |s.mutexes| {
      assert ProcesoBien(cfg, s.procs[p]);
      if s.mutexes[j].dueno.None? {
        ConMutexInv(cfg, s, j, Tomado(s.mutexes[j], p), 0, 0, 0, 0, 0, None);
      } else {
        LockEsperaInv(cfg, s, p, j);
        InvHasta(cfg, MutexLock(cfg, s, p, nombre), p, 0);
      }
    }
  }

  lemma {:induction false} LockEsperaInv(cfg: Config, s: Sistema, p: int, j: nat)
    requires Inv(cfg, s) && Ejecuta(s, p) && j < |s.mutexes| && s.mutexes[j].dueno.Some?
    ensures var s1 := HeredarDueno(cfg, ConMutex(s, j, Pedido(s.mutexes[j], p)), j);
      Ejecuta(s1, p) && InvSalvo(cfg, Bloquear(cfg, s1, p), p, 0, 0, 0, None)
  {
    assert Desplegar(0);
    var mu := Pedido(s.mutexes[j], p);
    var s0 := ConMutex(s, j, mu);
    InvDesde(cfg, s, p, 0);
    forall x ensures Veces(mu.espera, x) == Veces(s.mutexes[j].espera, x) + if x == p then 1 else 0 {
      VecesAgregar(s.mutexes[j].espera, p, x);
    }
    ConMutexInv(cfg, s, j, mu, p, 0, 1, 0, 0, None);
    var s1 := HeredarDueno(cfg, s0, j);
    HeredarDuenoInv(cfg, s0, p, j);
    CpusSinDeuda(s1.procs, s1.listas.exec, s1.cpus, 0, s1.procs[p].cpu.value);
    BloquearInv(cfg, s1, p, -1, s1.procs[p].cpu.value, None);
  }

  lemma {:induction false} HeredarDuenoInv(cfg: Config, s: Sistema, p: int, j: nat)
    requires InvSalvo(cfg, s, p, -1, 0, 0, None) && Ejecuta(s, p) && j < |s.mutexes| && s.mutexes[j].dueno.Some?
    ensures InvSalvo(cfg, HeredarDueno(cfg, s, j), p, -1, 0, 0, None) && Ejecuta(HeredarDueno(cfg, s, j), p)
  {
    assert Desplegar(0);
    var h := s.mutexes[j].dueno.value;
    if cfg.cmn && Buscable(cfg, s, h) {
      HeredarInv(cfg, s, h, j, p, -1, 0, 0, None);
      HeredarConserva(cfg, s, h, j);
    }
  }

  lemma {:induction false} UnlockInv(cfg: Config, s: Sistema, p: int, nombre: string, ahora: int)
    requires Inv(cfg, s)
    ensures Inv(cfg, MutexUnlock(cfg, s, p, nombre, ahora))
  {
    assert Desplegar(0);
    var j := BuscarMutex(s.mutexes, nombre);
    if Ejecuta(s, p) && j < |s.mutexes| {
      if s.mutexes[j].espera == [] {
        var mu := s.mutexes[j].(dueno := None);
        ConMutexInv(cfg, s, j, mu, 0, 0, 0, 0, 0, None);
        if cfg.cmn {
          DevolverPrioridadInv(cfg, ConMutex(s, j, mu), p, 0, 0);
        }
      } else {
        UnlockCedeInv(cfg, s, p, j, ahora);
      }
    }
  }

  lemma {:induction false} UnlockCedeInv(cfg: Config, s: Sistema, p: int, j: nat, ahora: int)
    requires Inv(cfg, s) && Ejecuta(s, p) && j < |s.mutexes| && s.mutexes[j].espera != []
    ensures var w := s.mutexes[j].espera[0];
      var s1 := ConMutex(s, j, Entregado(s.mutexes[j]));
      var s2 := if cfg.cmn then DevolverPrioridad(s1, p) else s1;
      w in s2.procs && w != p && Inv(cfg, Recibir(cfg, s2, w, j, ahora))
  {
    assert Desplegar(0);
    var w, s1 := s.mutexes[j].espera[0], ConMutex(s, j, Entregado(s.mutexes[j]));
    EntregarInv(cfg, s, j, 0, 0, None);
    if cfg.cmn {
      DevolverPrioridadInv(cfg, s1, p, w, 1);
      RecibirInv(cfg, DevolverPrioridad(s1, p), w, j, ahora, 0, 0, None);
    } else {
      RecibirInv(cfg, s1, w, j, ahora, 0, 0, None);
    }
  }

  lemma {:induction false} CederInv(cfg: Config, s: Sistema, muerto: int, j: nat, ahora: int, c0: int)
    requires InvSalvo(cfg, s, 0, 0, c0, 1, Some(muerto)) && j < |s.mutexes| && muerto !in s.procs
    ensures InvSalvo(cfg, Ceder(cfg, s, muerto, j, ahora), 0, 0, c0, 1, Some(muerto))
    ensures var r := Ceder(cfg, s, muerto, j, ahora);
      && r.procs.Keys == s.procs.Keys && |r.mutexes| == |s.mutexes| && r.mutexes[j].dueno != Some(muerto)
      && r.mutexes == s.mutexes[j := r.mutexes[j]]
  {
    assert Desplegar(0);
    var mu := s.mutexes[j];
    if mu.dueno == Some(muerto) {
      if mu.espera == [] {
        ConMutexInv(cfg, s, j, mu.(dueno := None), 0, 0, 0, c0, 1, Some(muerto));
      } else {
        EntregarInv(cfg, s, j, c0, 1, Some(muerto));
        RecibirInv(cfg, ConMutex(s, j, Entregado(mu)), mu.espera[0], j, ahora, c0, 1, Some(muerto));
        RecibirMutexes(cfg, ConMutex(s, j, Entregado(mu)), mu.espera[0], j, ahora);
      }
    }
  }

  lemma {:induction false} RecibirMutexes(cfg: Config, s: Sistema, w: int, j: nat, ahora: int)
    requires w in s.procs && j < |s.mutexes|
    ensures Recibir(cfg, s, w, j, ahora).mutexes == s.mutexes
    ensures Recibir(cfg, s, w, j, ahora).procs.Keys == s.procs.Keys
  {
  }

  /** The dead process owns none of the first `n` mutexes. */
  ghost predicate Soltados(ms: seq<Mutex>, muerto: int, n: nat) {
    n <= |ms| && forall k :: 0 <= k < n ==> ms[k].dueno != Some(muerto)
  }

  /** While a dead process's mutexes are handed over: all is well but for what it still owns
      and for its CPU, given back at the end. */
  ghost predicate EnCesion(cfg: Config, s: Sistema, muerto: int, c0: int) {
    forall z {:trigger Desplegar(z)} :: Desplegar(z) ==> InvSalvo(cfg, s, 0, 0, c0, 1, Some(muerto)) && muerto !in s.procs
  }

  lemma {:induction false} CederCesion(cfg: Config, s: Sistema, muerto: int, j: nat, ahora: int, c0: int)
    requires EnCesion(cfg, s, muerto, c0) && j < |s.mutexes|
    ensures EnCesion(cfg, Ceder(cfg, s, muerto, j, ahora), muerto, c0)
    ensures Soltados(s.mutexes, muerto, j) ==> Soltados(Ceder(cfg, s, muerto, j, ahora).mutexes, muerto, j + 1)
  {
    assert Desplegar(0);
    CederInv(cfg, s, muerto, j, ahora, c0);
    if Soltados(s.mutexes, muerto, j) {
      SoltarOtro(s.mutexes, Ceder(cfg, s, muerto, j, ahora).mutexes, muerto, j);
    }
  }

  /** Whoever dies ends up owning nothing: every mutex it held was handed over or freed. */
  lemma {:induction false} CederHastaInv(cfg: Config, s: Sistema, muerto: int, n: nat, ahora: int, c0: int)
    requires EnCesion(cfg, s, muerto, c0) && n <= |s.mutexes|
    ensures EnCesion(cfg, CederHasta(cfg, s, muerto, n, ahora), muerto, c0)
    ensures Soltados(CederHasta(cfg, s, muerto, n, ahora).mutexes, muerto, n)
    decreases n
  {
    if n > 0 {
      CederHastaInv(cfg, s, muerto, n - 1, ahora, c0);
      CederCesion(cfg, CederHasta(cfg, s, muerto, n - 1, ahora), muerto, n - 1, ahora, c0);
    }
  }

  lemma {:induction false} SoltarOtro(ms: seq<Mutex>, ms': seq<Mutex>, muerto: int, n: nat)
    requires Soltados(ms, muerto, n) && n < |ms| && |ms'| == |ms|
    requires ms'[n].dueno != Some(muerto) && ms' == ms[n := ms'[n]]
    ensures Soltados(ms', muerto, n + 1)
  {
  }

  lemma {:induction false} SalirInv(cfg: Config, s: Sistema, p: int, c0: int)
    requires InvSalvo(cfg, s, p, 0, c0, 0, None) && Ejecuta(s, p) && s.procs[p].cpu == Some(c0)
    ensures InvSalvo(cfg, s.(procs := s.procs - {p}, listas := Sacado(cfg, s.procs, s.listas, p)), p, 0, c0, 1, Some(p))
  {
    assert Desplegar(0);
    RetirarUbica(cfg, s.procs, s.listas, p);
    SacadoEncola(cfg, s.procs, s.listas, p);
    SacarCpus(cfg, s.procs, s.listas, s.cpus, p, c0);
    assert ProcesoBien(cfg, s.procs[p]);
  }

  lemma {:induction false} TerminarInv(cfg: Config, s: Sistema, p: int, ahora: int)
    requires Inv(cfg, s)
    ensures Inv(cfg, Terminar(cfg, s, p, ahora))
  {
    assert Desplegar(0);
    if Ejecuta(s, p) {
      var c := s.procs[p].cpu.value;
      InvDesde(cfg, s, p, c);
      SalirInv(cfg, s, p, c);
      var s1 := s.(procs := s.procs - {p}, listas := Sacado(cfg, s.procs, s.listas, p));
      SinDeuda(s1.procs, s1.io, s1.mutexes, s1.esperando, p, 0);
      CederHastaInv(cfg, s1, p, |s.mutexes|, ahora, c);
      TerminarFin(cfg, CederHasta(cfg, s1, p, |s.mutexes|, ahora), p, c);
    }
  }

  lemma {:induction false} TerminarFin(cfg: Config, s: Sistema, muerto: int, c0: int)
    requires EnCesion(cfg, s, muerto, c0) && Soltados(s.mutexes, muerto, |s.mutexes|)
    ensures Inv(cfg, Devolver(s, c0))
  {
    assert Desplegar(0);
    DevolverInv(cfg, s, 0, 0, c0, Some(muerto));
  }
}
