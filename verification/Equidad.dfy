/** What users of the scheduler see: mutex order, dispatch order, CPUs, interrupts, lost I/O. */
module Equidad {
  import opened Tipos
  import opened Listas
  import opened Planificacion
  import opened Sistemas
  import opened Pasos
  import opened Invariantes
  import opened Ejecuciones

  // ---------------------------------------------------------------- where a process is

  /** In every reachable state a live process is exactly once in the list of its state and in no
      other list; it is pending in exactly one place if it is blocked, and in none otherwise. */
  lemma {:induction false} UnSoloLugar(cfg: Config, traza: seq<Sistema>, es: seq<Evento>, k: nat, p: int)
    requires ConfigValida(cfg) && Corrida(cfg, traza, es) && k <= |es| && p in traza[k].procs
    ensures var s := traza[k];
      && (forall l: Lugar :: Veces(Lista(s.listas, l), p) == if l == LugarDe(cfg, s.procs[p]) then 1 else 0)
      && Pendiente(s.io, s.mutexes, s.esperando, p) == if Bloqueado(s.procs[p]) then 1 else 0
  {
    assert Desplegar(0);
    Alcanzable(cfg, traza, es, k);
    var s := traza[k];
    forall l: Lugar ensures Veces(Lista(s.listas, l), p) == if l == LugarDe(cfg, s.procs[p]) then 1 else 0 {
      assert Cuantos(s.listas, l, p) == Uno(EstaEn(cfg, s.procs, l, p));
    }
    assert Pendiente(s.io, s.mutexes, s.esperando, p) + 0 == Uno(EstaBloqueado(s.procs, p));
  }

  /** The same by fields: each list holds the processes of its state and no others; a ready one
      is in the queue of its priority (in the only queue without multilevel queues) or, when its
      priority is out of range, in the list that is never planned. */
  lemma {:induction false} CadaListaLosSuyos(cfg: Config, traza: seq<Sistema>, es: seq<Evento>, k: nat, p: int)
    requires ConfigValida(cfg) && Corrida(cfg, traza, es) && k <= |es|
    ensures var s := traza[k];
      && |s.listas.colas| == |cfg.rr|
      && (p in s.listas.exec <==> p in s.procs && s.procs[p].estado == Exec)
      && (p in s.listas.block <==> p in s.procs && s.procs[p].estado == Block)
      && (p in s.listas.suspReady <==> p in s.procs && s.procs[p].estado == SuspReady)
      && (p in s.listas.suspBlock <==> p in s.procs && s.procs[p].estado == SuspBlock)
      && (forall c :: 0 <= c < |s.listas.colas| ==>
            (p in s.listas.colas[c] <==>
               p in s.procs && s.procs[p].estado == Ready && c == if cfg.cmn then s.procs[p].prioridad else 0))
      && (p in s.listas.invalida <==>
            p in s.procs && s.procs[p].estado == Ready && cfg.cmn && !(0 <= s.procs[p].prioridad < |cfg.rr|))
  {
    Alcanzable(cfg, traza, es, k);
    var s := traza[k];
    assert Desplegar(0);
    Miembro(cfg, s.procs, s.listas, EnExec, p);
    Miembro(cfg, s.procs, s.listas, EnBlock, p);
    Miembro(cfg, s.procs, s.listas, EnSuspReady, p);
    Miembro(cfg, s.procs, s.listas, EnSuspBlock, p);
    Miembro(cfg, s.procs, s.listas, EnInvalida, p);
    forall c | 0 <= c < |s.listas.colas|
      ensures p in s.listas.colas[c] <==>
               p in s.procs && s.procs[p].estado == Ready && c == if cfg.cmn then s.procs[p].prioridad else 0
    {
      Miembro(cfg, s.procs, s.listas, EnCola(c), p);
    }
  }

  // ---------------------------------------------------------------- mutex order

  predicate EsPrefijo(a: seq<int>, b: seq<int>) {
    |a| <= |b| && b[..|a|] == a
  }

  /** Requests and grants are only ever appended. */
  predicate Prolonga(a: Mutex, b: Mutex) {
    a.nombre == b.nombre && EsPrefijo(a.pedidos, b.pedidos) && EsPrefijo(a.otorgados, b.otorgados)
  }

  ghost predicate ProlonganTodos(ms: seq<Mutex>, ms': seq<Mutex>) {
    |ms| <= |ms'| && forall j :: 0 <= j < |ms| ==> Prolonga(ms[j], ms'[j])
  }

  lemma {:induction false} ProlongaTransitiva(a: Mutex, b: Mutex, c: Mutex)
    requires Prolonga(a, b) && Prolonga(b, c)
    ensures Prolonga(a, c)
  {
    assert c.pedidos[..|a.pedidos|] == c.pedidos[..|b.pedidos|][..|a.pedidos|];
    assert c.otorgados[..|a.otorgados|] == c.otorgados[..|b.otorgados|][..|a.otorgados|];
  }

  lemma {:induction false} ProlonganTransitiva(a: seq<Mutex>, b: seq<Mutex>, c: seq<Mutex>)
    requires ProlonganTodos(a, b) && ProlonganTodos(b, c)
    ensures ProlonganTodos(a, c)
  {
    forall j | 0 <= j < |a| ensures Prolonga(a[j], c[j]) {
      ProlongaTransitiva(a[j], b[j], c[j]);
    }
  }

  lemma {:induction false} ProlonganUno(ms: seq<Mutex>, j: nat, mu: Mutex)
    requires j < |ms| && Prolonga(ms[j], mu)
    ensures ProlonganTodos(ms, ms[j := mu])
  {
    forall k | 0 <= k < |ms| ensures Prolonga(ms[k], ms[j := mu][k]) {
      PrefijoPropio(ms[k].pedidos);
      PrefijoPropio(ms[k].otorgados);
    }
  }

  lemma {:induction false} PrefijoPropio(a: seq<int>)
    ensures EsPrefijo(a, a) && forall x :: EsPrefijo(a, a + [x])
  {
  }

  lemma {:induction false} ProlonganIguales(ms: seq<Mutex>)
    ensures ProlonganTodos(ms, ms)
  {
    forall k | 0 <= k < |ms| ensures Prolonga(ms[k], ms[k]) {
      PrefijoPropio(ms[k].pedidos);
      PrefijoPropio(ms[k].otorgados);
    }
  }

  lemma {:induction false} MutexProlonga(mu: Mutex, p: int)
    ensures Prolonga(mu, Tomado(mu, p)) && Prolonga(mu, Pedido(mu, p)) && Prolonga(mu, mu.(dueno := None))
    ensures mu.espera != [] ==> Prolonga(mu, Entregado(mu))
  {
    PrefijoPropio(mu.pedidos);
    PrefijoPropio(mu.otorgados);
  }

  lemma {:induction false} LockProlonga(cfg: Config, s: Sistema, p: int, nombre: string)
    ensures ProlonganTodos(s.mutexes, MutexLock(cfg, s, p, nombre).mutexes)
  {
    var j := BuscarMutex(s.mutexes, nombre);
    ProlonganIguales(s.mutexes);
    if Ejecuta(s, p) && j < |s.mutexes| {
      MutexProlonga(s.mutexes[j], p);
      ProlonganUno(s.mutexes, j, Tomado(s.mutexes[j], p));
      ProlonganUno(s.mutexes, j, Pedido(s.mutexes[j], p));
      HeredarDuenoMutexes(cfg, ConMutex(s, j, Pedido(s.mutexes[j], p)), j);
    }
  }

  lemma {:induction false} HeredarDuenoMutexes(cfg: Config, s: Sistema, j: nat)
    requires j < |s.mutexes|
    ensures HeredarDueno(cfg, s, j).mutexes == s.mutexes
  {
  }

  lemma {:induction false} UnlockProlonga(cfg: Config, s: Sistema, p: int, nombre: string, ahora: int)
    ensures ProlonganTodos(s.mutexes, MutexUnlock(cfg, s, p, nombre, ahora).mutexes)
  {
    var j := BuscarMutex(s.mutexes, nombre);
    ProlonganIguales(s.mutexes);
    if Ejecuta(s, p) && j < |s.mutexes| {
      MutexProlonga(s.mutexes[j], p);
      if s.mutexes[j].espera == [] {
        ProlonganUno(s.mutexes, j, s.mutexes[j].(dueno := None));
      } else {
        ProlonganUno(s.mutexes, j, Entregado(s.mutexes[j]));
        var s1 := ConMutex(s, j, Entregado(s.mutexes[j]));
        var s2 := if cfg.cmn then DevolverPrioridad(s1, p) else s1;
        if s.mutexes[j].espera[0] in s2.procs {
          RecibirMutexes(cfg, s2, s.mutexes[j].espera[0], j, ahora);
        }
      }
    }
  }

  lemma {:induction false} CederProlonga(cfg: Config, s: Sistema, muerto: int, j: nat, ahora: int)
    requires j < |s.mutexes|
    ensures ProlonganTodos(s.mutexes, Ceder(cfg, s, muerto, j, ahora).mutexes)
  {
    assert Desplegar(0);
    ProlonganIguales(s.mutexes);
    var mu := s.mutexes[j];
    MutexProlonga(mu, muerto);
    if mu.dueno == Some(muerto) {
      if mu.espera == [] {
        ProlonganUno(s.mutexes, j, mu.(dueno := None));
      } else {
        ProlonganUno(s.mutexes, j, Entregado(mu));
        if mu.espera[0] in s.procs {
          RecibirMutexes(cfg, ConMutex(s, j, Entregado(mu)), mu.espera[0], j, ahora);
        }
      }
    }
  }

  lemma {:induction false} CederHastaProlonga(cfg: Config, s: Sistema, muerto: int, n: nat, ahora: int)
    requires n <= |s.mutexes|
    ensures ProlonganTodos(s.mutexes, CederHasta(cfg, s, muerto, n, ahora).mutexes)
    decreases n
  {
    if n == 0 {
      ProlonganIguales(s.mutexes);
    } else {
      CederHastaProlonga(cfg, s, muerto, n - 1, ahora);
      var r := CederHasta(cfg, s, muerto, n - 1, ahora);
      CederProlonga(cfg, r, muerto, n - 1, ahora);
      ProlonganTransitiva(s.mutexes, r.mutexes, Ceder(cfg, r, muerto, n - 1, ahora).mutexes);
    }
  }

  lemma {:induction false} PasoProlonga(cfg: Config, s: Sistema, e: Evento)
    requires Inv(cfg, s) && Habilitado(cfg, s, e)
    ensures ProlonganTodos(s.mutexes, Siguiente(cfg, s, e).mutexes)
  {
    assert Desplegar(0);
    ProlonganIguales(s.mutexes);
    match e
    case Lock(p, nombre) => LockProlonga(cfg, s, p, nombre);
    case Unlock(p, nombre, ahora) => UnlockProlonga(cfg, s, p, nombre, ahora);
    case Termina(p, ahora) =>
      if Ejecuta(s, p) {
        CederHastaProlonga(cfg, s.(procs := s.procs - {p}, listas := Sacado(cfg, s.procs, s.listas, p)), p, |s.mutexes|, ahora);
      }
    case CreaMutex(p, nombre) =>
      forall k | 0 <= k < |s.mutexes| ensures Prolonga(s.mutexes[k], MutexCreate(s, p, nombre).mutexes[k]) {
        PrefijoPropio(s.mutexes[k].pedidos);
        PrefijoPropio(s.mutexes[k].otorgados);
      }
    case Inicia(_, _) =>
    case InitProc(_, _, _) =>
    case _ => PasoSolo(cfg, s, e);
  }

  lemma {:induction false} CorridaProlonga(cfg: Config, traza: seq<Sistema>, es: seq<Evento>, i: nat, k: nat)
    requires ConfigValida(cfg) && Corrida(cfg, traza, es) && i <= k <= |es|
    ensures ProlonganTodos(traza[i].mutexes, traza[k].mutexes)
    decreases k
  {
    if i == k {
      ProlonganIguales(traza[i].mutexes);
    } else {
      CorridaProlonga(cfg, traza, es, i, k - 1);
      Alcanzable(cfg, traza, es, k - 1);
      PasoProlonga(cfg, traza[k - 1], es[k - 1]);
      ProlonganTransitiva(traza[i].mutexes, traza[k - 1].mutexes, traza[k].mutexes);
    }
  }

  /**
    No overtaking, in any run whatsoever: the process that is `t`-th in a mutex's queue now is,
    at any later time, either still queued with exactly the grants made since then taken off
    its distance, or was granted the mutex in its turn.
  */
  lemma {:induction false} TurnoRespetado(cfg: Config, traza: seq<Sistema>, es: seq<Evento>, i: nat, k: nat, j: nat, t: nat)
    requires ConfigValida(cfg) && Corrida(cfg, traza, es) && i <= k <= |es|
    requires j < |traza[i].mutexes| && t < |traza[i].mutexes[j].espera|
    ensures j < |traza[k].mutexes|
    ensures var a, b := traza[i].mutexes[j], traza[k].mutexes[j];
      var turno := |a.otorgados| + t;
      if turno < |b.otorgados| then b.otorgados[turno] == a.espera[t]
      else |a.otorgados| <= |b.otorgados| && turno - |b.otorgados| < |b.espera| && b.espera[turno - |b.otorgados|] == a.espera[t]
  {
    assert Desplegar(0);
    CorridaProlonga(cfg, traza, es, i, k);
    Alcanzable(cfg, traza, es, i);
    Alcanzable(cfg, traza, es, k);
    var a, b := traza[i].mutexes[j], traza[k].mutexes[j];
    assert MutexBien(a) && MutexBien(b) && Prolonga(a, b);
    var turno := |a.otorgados| + t;
    assert a.pedidos[turno] == a.espera[t];
    assert b.pedidos[..|a.pedidos|][turno] == b.pedidos[turno];
    assert b.pedidos[turno] == (b.otorgados + b.espera)[turno];
  }

  // ---------------------------------------------------------------- dispatch

  /** The planner can act exactly when no compaction is under way, a CPU is free and some
      process in a ready queue waits for one. */
  lemma {:induction false} CuandoPlanifica(cfg: Config, s: Sistema)
    requires Inv(cfg, s)
    ensures PuedePlanificar(s) <==>
              !s.compactando && s.cpus.libres != [] && exists i :: 0 <= i < |s.listas.colas| && s.listas.colas[i] != []
  {
    assert Desplegar(0);
    if forall i :: 0 <= i < |s.listas.colas| ==> s.listas.colas[i] == [] {
      EncoladosNinguno(s.listas.colas);
    } else {
      var i :| 0 <= i < |s.listas.colas| && s.listas.colas[i] != [];
      EncoladosAlguno(s.listas.colas, i);
    }
  }

  /** The head of queue `i` is dispatched to the first free CPU, and no process waits in a ready
      list with a better priority. */
  ghost predicate DespachaPrimero(cfg: Config, s: Sistema, i: nat) {
    && i < |s.listas.colas| && s.listas.colas[i] != [] && s.cpus.libres != []
    && var p := s.listas.colas[i][0];
    && p in s.procs && s.procs[p].estado == Ready
    && Planificar(cfg, s).procs == s.procs[p := Despachado(cfg, s.procs[p], i, s.cpus.libres[0])]
    && Planificar(cfg, s).listas.colas == s.listas.colas[i := s.listas.colas[i][1..]]
    && Planificar(cfg, s).listas.exec == s.listas.exec + [p]
    && Planificar(cfg, s).cpus.libres == s.cpus.libres[1..]
    && (cfg.cmn ==> forall x :: x in s.procs && s.procs[x].estado == Ready && Nivel(cfg, s.procs[x].prioridad).Some? ==>
          s.procs[p].prioridad <= s.procs[x].prioridad)
  }

  /** Each dispatch takes the head of its queue, which has the least priority value of all the
      ready processes, and never during a compaction. */
  lemma {:induction false} DespachoOrdenado(cfg: Config, s: Sistema)
    requires Inv(cfg, s) && PuedePlanificar(s)
    ensures !s.compactando && exists i: nat :: DespachaPrimero(cfg, s, i)
    ensures cfg.cmn ==> forall i, x :: 0 <= i < |s.listas.colas| && x in s.listas.colas[i] ==> x in s.procs && s.procs[x].prioridad == i
  {
    assert Desplegar(0);
    SiempreHayProceso(cfg, s);
    var i := PrimeraConProcesos(s.listas.colas, 0);
    var p := s.listas.colas[i][0];
    forall x | x in s.procs && s.procs[x].estado == Ready && Nivel(cfg, s.procs[x].prioridad).Some? && cfg.cmn
      ensures s.procs[p].prioridad <= s.procs[x].prioridad
    {
      Presente(cfg, s.procs, s.listas, x);
      assert s.listas.colas[s.procs[x].prioridad] != [];
    }
    assert DespachaPrimero(cfg, s, i);
    forall k, x | 0 <= k < |s.listas.colas| && x in s.listas.colas[k]
      ensures cfg.cmn ==> x in s.procs && s.procs[x].prioridad == k
    {
      Miembro(cfg, s.procs, s.listas, EnCola(k), x);
    }
  }

  // ---------------------------------------------------------------- interrupts

  /** `peor` is listed, no listed process has a worse priority, and it is the first with that one. */
  predicate EsElPeor(m: Procesos, exec: seq<int>, peor: int) {
    && (exists i :: 0 <= i < |exec| && exec[i] == peor && forall k :: 0 <= k < i ==> Prioridad(m, exec[k]) < Prioridad(m, peor))
    && (forall i :: 0 <= i < |exec| ==> Prioridad(m, exec[i]) <= Prioridad(m, peor))
  }

  lemma {:induction false} PeorEsPeor(m: Procesos, exec: seq<int>)
    ensures Peor(m, exec).None? <==> exec == []
    ensures Peor(m, exec).Some? ==> EsElPeor(m, exec, Peor(m, exec).value)
    decreases |exec|
  {
    if |exec| > 0 {
      var n := |exec| - 1;
      PeorEsPeor(m, exec[..n]);
      if Peor(m, exec[..n]).Some? {
        PeorMasUno(m, exec, Peor(m, exec[..n]).value);
      }
    }
  }

  lemma {:induction false} PeorMasUno(m: Procesos, exec: seq<int>, r: int)
    requires |exec| > 0 && EsElPeor(m, exec[..|exec| - 1], r)
    ensures var x := exec[|exec| - 1]; EsElPeor(m, exec, if Prioridad(m, x) > Prioridad(m, r) then x else r)
  {
    var n := |exec| - 1;
    var i :| 0 <= i < n && exec[..n][i] == r && forall k :: 0 <= k < i ==> Prioridad(m, exec[..n][k]) < Prioridad(m, r);
    assert exec[i] == r;
    forall k | 0 <= k < i ensures Prioridad(m, exec[k]) < Prioridad(m, r) {
      assert exec[..n][k] == exec[k];
    }
    forall k | 0 <= k < n ensures Prioridad(m, exec[k]) <= Prioridad(m, r) {
      assert exec[..n][k] == exec[k];
    }
  }

  /** Queueing a process interrupts a CPU if and only if preemption between queues is on and some
      running process has a strictly worse priority; it is a running process of the worst
      priority that is interrupted, on the CPU it runs on. */
  lemma {:induction false} AvisoAlPeor(cfg: Config, s: Sistema, p: int)
    requires Inv(cfg, s) && p in s.procs && Nivel(cfg, s.procs[p].prioridad).Some?
    ensures var avisos := AvisosDe(cfg, s.procs, s.listas.exec, p);
      && (avisos != [] <==>
            && cfg.cmn && cfg.desalojo
            && exists x :: x in s.procs && s.procs[x].estado == Exec && s.procs[x].prioridad > s.procs[p].prioridad)
      && (avisos != [] ==>
            && |avisos| == 1 && Ejecuta(s, avisos[0].pid) && s.procs[avisos[0].pid].cpu == Some(avisos[0].cpu)
            && s.procs[avisos[0].pid].prioridad > s.procs[p].prioridad
            && forall x :: x in s.procs && s.procs[x].estado == Exec ==> s.procs[x].prioridad <= s.procs[avisos[0].pid].prioridad)
  {
    assert Desplegar(0);
    PeorEsPeor(s.procs, s.listas.exec);
    var peor := Peor(s.procs, s.listas.exec);
    forall x ensures x in s.listas.exec <==> x in s.procs && s.procs[x].estado == Exec {
      Miembro(cfg, s.procs, s.listas, EnExec, x);
    }
    if peor.Some? {
      assert ProcesoBien(cfg, s.procs[peor.value]);
    }
  }

  /** Pausing for a compaction interrupts every process still running, on its CPU. */
  lemma {:induction false} TodosAvisados(cfg: Config, s: Sistema, p: int, q: int)
    requires Inv(cfg, s) && s.sem.puede > 0 && Ejecuta(s, p) && Ejecuta(Compactar(cfg, s, p), q)
    ensures q != p && Ejecuta(s, q)
    ensures |s.avisos| <= |Compactar(cfg, s, p).avisos|
    ensures Aviso(s.procs[q].cpu.value, q) in Compactar(cfg, s, p).avisos[|s.avisos|..]
  {
    assert Desplegar(0);
    var s' := Compactar(cfg, s, p);
    CompactarInv(cfg, s, p);
    Miembro(cfg, s'.procs, s'.listas, EnExec, q);
    AvisadoSiListado(s'.procs, s'.listas.exec, q);
  }

  /** Exactly one interrupt for each, in the order of the list. */
  lemma {:induction false} UnAvisoPorProceso(m: Procesos, exec: seq<int>)
    requires forall i :: 0 <= i < |exec| ==> exec[i] in m && m[exec[i]].cpu.Some?
    ensures |AvisarATodos(m, exec)| == |exec|
    ensures forall i :: 0 <= i < |exec| ==> AvisarATodos(m, exec)[i] == Aviso(m[exec[i]].cpu.value, exec[i])
    decreases |exec|
  {
    if |exec| > 0 {
      UnAvisoPorProceso(m, exec[..|exec| - 1]);
    }
  }

  lemma {:induction false} AvisadoSiListado(m: Procesos, exec: seq<int>, q: int)
    requires q in exec && q in m && m[q].cpu.Some?
    ensures Aviso(m[q].cpu.value, q) in AvisarATodos(m, exec)
    decreases |exec|
  {
    if exec[|exec| - 1] != q {
      AvisadoSiListado(m, exec[..|exec| - 1], q);
    }
  }

  // ---------------------------------------------------------------- CPUs

  lemma {:induction false} EnUsoTestigo(m: Procesos, l: seq<int>, c: int) returns (p: int)
    requires EnUso(m, l, c) > 0
    ensures p in l && Usa(m, p, c)
    decreases |l|
  {
    if Usa(m, l[|l| - 1], c) {
      p := l[|l| - 1];
    } else {
      p := EnUsoTestigo(m, l[..|l| - 1], c);
    }
  }

  /** Two running processes never share a CPU. */
  lemma {:induction false} CpuPropia(cfg: Config, s: Sistema, p: int, q: int)
    requires Inv(cfg, s) && Ejecuta(s, p) && Ejecuta(s, q) && p != q
    ensures s.procs[p].cpu != s.procs[q].cpu
    ensures s.procs[p].cpu.value in s.cpus.conectadas && s.procs[p].cpu.value !in s.cpus.libres
    ensures s.procs[p].cpu != s.cpus.reservada
  {
    assert Desplegar(0);
    var c, l := s.procs[p].cpu.value, s.listas.exec;
    Miembro(cfg, s.procs, s.listas, EnExec, p);
    Miembro(cfg, s.procs, s.listas, EnExec, q);
    EnUsoQuitar(s.procs, l, p, c);
    VecesQuitar(l, p, q);
    VecesMiembro(l, q);
    VecesMiembro(Quitar(l, p), q);
    if Usa(s.procs, q, c) {
      EnUsoAlguno(s.procs, Quitar(l, p), q, c);
    }
    assert Atada(s.procs, l, s.cpus, c) + 0 == Veces(s.cpus.conectadas, c) <= 1;
    VecesMiembro(s.cpus.conectadas, c);
    VecesMiembro(s.cpus.libres, c);
  }

  /** Every connected CPU is free, or runs a process, or is kept for the one that waits for a
      compaction, and only one of the three. */
  lemma {:induction false} CpuEnUnLugar(cfg: Config, s: Sistema, c: int)
    requires Inv(cfg, s) && c in s.cpus.conectadas
    ensures var libre, corre, reservada :=
        c in s.cpus.libres, (exists p :: Ejecuta(s, p) && s.procs[p].cpu == Some(c)), s.cpus.reservada == Some(c);
      Uno(libre) + Uno(corre) + Uno(reservada) == 1
  {
    assert Desplegar(0);
    var l := s.listas.exec;
    VecesMiembro(s.cpus.conectadas, c);
    VecesMiembro(s.cpus.libres, c);
    assert Atada(s.procs, l, s.cpus, c) + 0 == Veces(s.cpus.conectadas, c) <= 1;
    if EnUso(s.procs, l, c) > 0 {
      var p := EnUsoTestigo(s.procs, l, c);
      Miembro(cfg, s.procs, s.listas, EnExec, p);
    } else {
      forall p | Ejecuta(s, p) ensures s.procs[p].cpu != Some(c) {
        Miembro(cfg, s.procs, s.listas, EnExec, p);
        if Usa(s.procs, p, c) {
          EnUsoAlguno(s.procs, l, p, c);
        }
      }
    }
  }

  // ---------------------------------------------------------------- lost I/O

  /** A device answered with an error for a process it was serving. */
  predicate Falla(s: Sistema, e: Evento) {
    e.TerminaIo? && !e.ok && e.p in s.io.servicio && e.p in s.procs
  }

  lemma {:induction false} PasoPerdidos(cfg: Config, s: Sistema, e: Evento)
    requires Inv(cfg, s) && Habilitado(cfg, s, e)
    ensures Siguiente(cfg, s, e).io.perdidos == s.io.perdidos + if Falla(s, e) then [e.p] else []
  {
    assert Desplegar(0);
    match e
    case TerminaIo(p, ok, ahora, orden, resp) => FinIoPerdidos(cfg, s, p, ok, ahora, orden, resp);
    case HayMemoria(orden, resp) => DessuspenderIo(cfg, s.(listas := s.listas.(suspReady := orden)), orden, resp, |orden|);
    case Termina(p, ahora) =>
      if Ejecuta(s, p) {
        CederHastaIo(cfg, s.(procs := s.procs - {p}, listas := Sacado(cfg, s.procs, s.listas, p)), p, |s.mutexes|, ahora);
      }
    case Lock(p, nombre) => LockIo(cfg, s, p, nombre);
    case Unlock(p, nombre, ahora) => UnlockIo(cfg, s, p, nombre, ahora);
    case Desaloja(p) => DesalojaIo(cfg, s, p);
    case Desconecta(c) => DesconectaIo(cfg, s, c);
    case PideIo(p, t) => PedirIoPerdidos(cfg, s, p, t);
    case _ =>
  }

  lemma {:induction false} DesalojaIo(cfg: Config, s: Sistema, p: int)
    ensures FinQuantum(cfg, s, p).io == s.io
  {
  }

  lemma {:induction false} DesconectaIo(cfg: Config, s: Sistema, c: int)
    requires Inv(cfg, s)
    ensures DesconectarCpu(cfg, s, c).io == s.io
  {
    assert Desplegar(0);
  }

  lemma {:induction false} PedirIoPerdidos(cfg: Config, s: Sistema, p: int, t: TipoIo)
    ensures PedirIo(cfg, s, p, t).io.perdidos == s.io.perdidos
  {
  }

  lemma {:induction false} LockIo(cfg: Config, s: Sistema, p: int, nombre: string)
    ensures MutexLock(cfg, s, p, nombre).io == s.io
  {
  }

  lemma {:induction false} UnlockIo(cfg: Config, s: Sistema, p: int, nombre: string, ahora: int)
    ensures MutexUnlock(cfg, s, p, nombre, ahora).io == s.io
  {
  }

  lemma {:induction false} FinIoPerdidos(cfg: Config, s: Sistema, p: int, ok: bool, ahora: int, orden: seq<int>, resp: seq<bool>)
    ensures FinIo(cfg, s, p, ok, ahora, orden, resp).io.perdidos
         == s.io.perdidos + if p in s.io.servicio && p in s.procs && !ok then [p] else []
  {
    if p in s.io.servicio && p in s.procs && ok {
      var s2 := Despertar(cfg, s.(io := s.io.(servicio := Quitar(s.io.servicio, p))), p, ahora);
      DessuspenderIo(cfg, s2.(listas := s2.listas.(suspReady := orden)), orden, resp, |orden|);
    }
  }

  lemma {:induction false} DessuspenderIo(cfg: Config, s: Sistema, orden: seq<int>, resp: seq<bool>, n: nat)
    requires n <= |orden|
    ensures DessuspenderHasta(cfg, s, orden, resp, n).io == s.io
    decreases n
  {
    if n > 0 {
      DessuspenderIo(cfg, s, orden, resp, n - 1);
    }
  }

  lemma {:induction false} CederHastaIo(cfg: Config, s: Sistema, muerto: int, n: nat, ahora: int)
    requires n <= |s.mutexes|
    ensures CederHasta(cfg, s, muerto, n, ahora).io == s.io
    decreases n
  {
    if n > 0 {
      CederHastaIo(cfg, s, muerto, n - 1, ahora);
      CederIo(cfg, CederHasta(cfg, s, muerto, n - 1, ahora), muerto, n - 1, ahora);
    }
  }

  lemma {:induction false} CederIo(cfg: Config, s: Sistema, muerto: int, j: nat, ahora: int)
    requires j < |s.mutexes|
    ensures Ceder(cfg, s, muerto, j, ahora).io == s.io
  {
    assert Desplegar(0);
  }

  lemma {:induction false} PerdidosCrecen(cfg: Config, traza: seq<Sistema>, es: seq<Evento>, i: nat, k: nat)
    requires ConfigValida(cfg) && Corrida(cfg, traza, es) && i <= k <= |es|
    ensures EsPrefijo(traza[i].io.perdidos, traza[k].io.perdidos)
    decreases k
  {
    PrefijoPropio(traza[i].io.perdidos);
    if i < k {
      PerdidosCrecen(cfg, traza, es, i, k - 1);
      Alcanzable(cfg, traza, es, k - 1);
      PasoPerdidos(cfg, traza[k - 1], es[k - 1]);
    }
  }

  lemma {:induction false} PerdidoBloqueado(cfg: Config, s: Sistema, p: int)
    requires Inv(cfg, s) && p in s.io.perdidos
    ensures p in s.procs && Bloqueado(s.procs[p])
  {
    assert Desplegar(0);
    VecesMiembro(s.io.perdidos, p);
    assert Pendiente(s.io, s.mutexes, s.esperando, p) + 0 == Uno(EstaBloqueado(s.procs, p));
  }

  /** When a device answers a process's request with an error, no later event ever wakes that
      process: it stays blocked, or suspended and blocked, for the rest of every run. */
  lemma {:induction false} ErrorBloqueaParaSiempre(cfg: Config, traza: seq<Sistema>, es: seq<Evento>, i: nat, k: nat)
    requires ConfigValida(cfg) && Corrida(cfg, traza, es) && i < k <= |es| && Falla(traza[i], es[i])
    ensures es[i].p in traza[k].procs && Bloqueado(traza[k].procs[es[i].p])
  {
    var p := es[i].p;
    Alcanzable(cfg, traza, es, i);
    PasoPerdidos(cfg, traza[i], es[i]);
    var despues := traza[i + 1].io.perdidos;
    assert despues[|despues| - 1] == p;
    PerdidosCrecen(cfg, traza, es, i + 1, k);
    assert traza[k].io.perdidos[|despues| - 1] == traza[k].io.perdidos[..|despues|][|despues| - 1];
    Alcanzable(cfg, traza, es, k);
    PerdidoBloqueado(cfg, traza[k], p);
  }

  /** What a blocked process waits for, if not for a device that failed it. */
  predicate EsperaAlgo(s: Sistema, p: int) {
    || p in s.io.sleep || p in s.io.stdin || p in s.io.stdout || p in s.io.servicio || s.esperando == Some(p)
    || exists j :: 0 <= j < |s.mutexes| && p in s.mutexes[j].espera
  }

  lemma {:induction false} EsperaEnMutex(ms: seq<Mutex>, p: int)
    requires Esperas(ms, p) > 0
    ensures exists j :: 0 <= j < |ms| && p in ms[j].espera
    decreases |ms|
  {
    var n := |ms| - 1;
    VecesMiembro(ms[n].espera, p);
    if p !in ms[n].espera {
      EsperaEnMutex(ms[..n], p);
      var j :| 0 <= j < n && p in ms[..n][j].espera;
      assert p in ms[j].espera;
    }
  }

  lemma {:induction false} EsperaDe(cfg: Config, s: Sistema, p: int)
    requires Inv(cfg, s) && p in s.procs && Bloqueado(s.procs[p]) && p !in s.io.perdidos
    ensures EsperaAlgo(s, p)
  {
    assert Desplegar(0);
    assert Pendiente(s.io, s.mutexes, s.esperando, p) + 0 == Uno(EstaBloqueado(s.procs, p));
    VecesMiembro(s.io.sleep, p);
    VecesMiembro(s.io.stdin, p);
    VecesMiembro(s.io.stdout, p);
    VecesMiembro(s.io.servicio, p);
    VecesMiembro(s.io.perdidos, p);
    if Esperas(s.mutexes, p) > 0 {
      EsperaEnMutex(s.mutexes, p);
    }
  }

  /** In every reachable state a blocked process waits for an I/O, a mutex or the compaction,
      unless a device once answered it with an error. */
  lemma {:induction false} BloqueadoPorAlgo(cfg: Config, traza: seq<Sistema>, es: seq<Evento>, k: nat, p: int)
    requires ConfigValida(cfg) && Corrida(cfg, traza, es) && k <= |es|
    requires p in traza[k].procs && Bloqueado(traza[k].procs[p])
    ensures EsperaAlgo(traza[k], p) || exists i :: 0 <= i < k && Falla(traza[i], es[i]) && es[i].p == p
  {
    Alcanzable(cfg, traza, es, k);
    if p in traza[k].io.perdidos {
      PerdidoPorFalla(cfg, traza, es, k, p);
    } else {
      EsperaDe(cfg, traza[k], p);
    }
  }

  lemma {:induction false} PerdidoPorFalla(cfg: Config, traza: seq<Sistema>, es: seq<Evento>, k: nat, p: int)
    requires ConfigValida(cfg) && Corrida(cfg, traza, es) && k <= |es| && p in traza[k].io.perdidos
    ensures exists i :: 0 <= i < k && Falla(traza[i], es[i]) && es[i].p == p
    decreases k
  {
    assert k > 0;
    Alcanzable(cfg, traza, es, k - 1);
    PasoPerdidos(cfg, traza[k - 1], es[k - 1]);
    if p in traza[k - 1].io.perdidos {
      PerdidoPorFalla(cfg, traza, es, k - 1, p);
    } else {
      assert Falla(traza[k - 1], es[k - 1]) && es[k - 1].p == p;
    }
  }
}
