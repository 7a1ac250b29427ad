/** The whole scheduler state and the invariant its handlers keep. */
module Sistemas {
  import opened Tipos
  import opened Listas
  import opened Planificacion

  /** I/O requests waiting by device type, those a device is serving, and those a device
      answered with an error: nothing will ever wake these last ones. */
  datatype Io = Io(sleep: seq<int>, stdin: seq<int>, stdout: seq<int>, servicio: seq<int>, perdidos: seq<int>)

  /** `reservada` is the CPU kept for the process that waits for a compaction. */
  datatype Cpus = Cpus(conectadas: seq<int>, libres: seq<int>, reservada: Option<int>)

  /** sem_hay_procesos_ready, sem_hay_cpus_libres and sem_puede_planificar. */
  datatype Semaforos = Semaforos(ready: int, cpus: int, puede: int)

  datatype Sistema = Sistema(
    procs: Procesos,
    listas: Listados,
    mutexes: seq<Mutex>,
    io: Io,
    cpus: Cpus,
    sem: Semaforos,
    compactando: bool,
    esperando: Option<int>,
    proximoPid: int,
    avisos: seq<Aviso>)

  // ---------------------------------------------------------------- what a blocked process waits for

  function Esperas(ms: seq<Mutex>, x: int): nat {
    if |ms| == 0 then 0 else Esperas(ms[..|ms| - 1], x) + Veces(ms[|ms| - 1].espera, x)
  }

  lemma {:induction false} EsperasCambia(ms: seq<Mutex>, j: nat, mu: Mutex, x: int)
    requires j < |ms|
    ensures Esperas(ms[j := mu], x) + Veces(ms[j].espera, x) == Esperas(ms, x) + Veces(mu.espera, x)
    decreases |ms|
  {
    var n := |ms| - 1;
    if j < n {
      EsperasCambia(ms[..n], j, mu, x);
      assert ms[j := mu][..n] == ms[..n][j := mu];
    } else {
      assert ms[j := mu][..n] == ms[..n];
    }
  }

  lemma {:induction false} EsperasAlguna(ms: seq<Mutex>, j: nat, x: int)
    requires j < |ms|
    ensures Veces(ms[j].espera, x) <= Esperas(ms, x)
    decreases |ms|
  {
    if j < |ms| - 1 {
      EsperasAlguna(ms[..|ms| - 1], j, x);
    }
  }

  /** In how many places process `x` is pending: I/O queues, I/O in service, mutex queues,
      the compaction slot, and I/O that failed. */
  function Pendiente(io: Io, ms: seq<Mutex>, esperando: Option<int>, x: int): nat {
    Veces(io.sleep, x) + Veces(io.stdin, x) + Veces(io.stdout, x) + Veces(io.servicio, x) + Veces(io.perdidos, x)
    + Esperas(ms, x) + Uno(esperando == Some(x))
  }

  predicate Bloqueado(q: Proceso) {
    q.estado == Block || q.estado == SuspBlock
  }

  predicate EstaBloqueado(m: Procesos, x: int) {
    x in m && Bloqueado(m[x])
  }

  /**
    With d = 0: a blocked process is pending in exactly one place, and any other in none.
    In the middle of a handler, process `y` may be off by `d`.
  */
  ghost predicate Pendencia(m: Procesos, io: Io, ms: seq<Mutex>, esperando: Option<int>, y: int, d: int) {
    forall x {:trigger Pendiente(io, ms, esperando, x)} ::
      Pendiente(io, ms, esperando, x) + (if x == y then d else 0) == Uno(EstaBloqueado(m, x))
  }

  lemma {:induction false} SinDeuda(m: Procesos, io: Io, ms: seq<Mutex>, esperando: Option<int>, y: int, z: int)
    requires Pendencia(m, io, ms, esperando, y, 0)
    ensures Pendencia(m, io, ms, esperando, z, 0)
  {
  }

  lemma {:induction false} AnotarPendencia(m: Procesos, io: Io, ms: seq<Mutex>, esperando: Option<int>, p: int, q: Proceso, y: int, d: int)
    requires Pendencia(m, io, ms, esperando, y, d)
    requires y == p || Bloqueado(q) == EstaBloqueado(m, p)
    ensures Pendencia(m[p := q], io, ms, esperando, y, d + Uno(Bloqueado(q)) - Uno(EstaBloqueado(m, p)))
  {
  }

  /** Process `p` is pending in `k` more places. */
  lemma {:induction false} PendienteMas(m: Procesos, io: Io, ms: seq<Mutex>, e: Option<int>,
                                        io': Io, ms': seq<Mutex>, e': Option<int>, p: int, d: int, k: int)
    requires Pendencia(m, io, ms, e, p, d)
    requires forall x {:trigger Pendiente(io', ms', e', x)} ::
               Pendiente(io', ms', e', x) == Pendiente(io, ms, e, x) + if x == p then k else 0
    ensures Pendencia(m, io', ms', e', p, d - k)
  {
  }

  // ---------------------------------------------------------------- CPUs

  /** In how many places CPU `c` is accounted for: free, running a process, or reserved. */
  function Atada(m: Procesos, exec: seq<int>, cpus: Cpus, c: int): nat {
    Veces(cpus.libres, c) + EnUso(m, exec, c) + Uno(cpus.reservada == Some(c))
  }

  /** With d = 0: every connected CPU is in exactly one of those places, and no other CPU is.
      In the middle of a handler, CPU `c0` may be off by `d`. */
  ghost predicate CpusBien(m: Procesos, exec: seq<int>, cpus: Cpus, c0: int, d: int) {
    forall c {:trigger Atada(m, exec, cpus, c)} ::
      Atada(m, exec, cpus, c) + (if c == c0 then d else 0) == Veces(cpus.conectadas, c)
  }

  lemma {:induction false} MoverCpus(cfg: Config, m: Procesos, l: Listados, cpus: Cpus, p: int, q: Proceso, c0: int, d: int)
    requires ConfigValida(cfg) && Ubicacion(cfg, m, l) && p in m && CpusBien(m, l.exec, cpus, c0, d)
    requires m[p].estado == Exec ==> m[p].cpu == Some(c0)
    requires q.estado == Exec ==> q.cpu == Some(c0)
    ensures CpusBien(m[p := q], Mover(cfg, m, l, p, q).exec, cpus, c0, d + Uno(m[p].estado == Exec) - Uno(q.estado == Exec))
    ensures CpusBien(m[p := q], MoverAlFrente(cfg, m, l, p, q).exec, cpus, c0, d + Uno(m[p].estado == Exec) - Uno(q.estado == Exec))
  {
    var e, f := Mover(cfg, m, l, p, q).exec, MoverAlFrente(cfg, m, l, p, q).exec;
    var k := d + Uno(m[p].estado == Exec) - Uno(q.estado == Exec);
    forall c {:trigger Atada(m[p := q], e, cpus, c)}
      ensures Atada(m[p := q], e, cpus, c) + (if c == c0 then k else 0) == Veces(cpus.conectadas, c)
    {
      MoverUso(cfg, m, l, p, q, c);
      assert Atada(m, l.exec, cpus, c) + (if c == c0 then d else 0) == Veces(cpus.conectadas, c);
    }
    forall c {:trigger Atada(m[p := q], f, cpus, c)}
      ensures Atada(m[p := q], f, cpus, c) + (if c == c0 then k else 0) == Veces(cpus.conectadas, c)
    {
      MoverUso(cfg, m, l, p, q, c);
      assert Atada(m, l.exec, cpus, c) + (if c == c0 then d else 0) == Veces(cpus.conectadas, c);
    }
  }

  lemma {:induction false} SacarCpus(cfg: Config, m: Procesos, l: Listados, cpus: Cpus, p: int, c0: int)
    requires ConfigValida(cfg) && Ubicacion(cfg, m, l) && p in m && CpusBien(m, l.exec, cpus, c0, 0)
    requires m[p].estado == Exec && m[p].cpu == Some(c0)
    ensures CpusBien(m - {p}, Sacado(cfg, m, l, p).exec, cpus, c0, 1)
  {
    var e := Sacado(cfg, m, l, p).exec;
    forall c {:trigger Atada(m - {p}, e, cpus, c)}
      ensures Atada(m - {p}, e, cpus, c) + (if c == c0 then 1 else 0) == Veces(cpus.conectadas, c)
    {
      RetirarUso(cfg, m, l, p, c);
      assert Atada(m, l.exec, cpus, c) + 0 == Veces(cpus.conectadas, c);
    }
  }

  lemma {:induction false} AnotarCpus(m: Procesos, exec: seq<int>, cpus: Cpus, p: int, q: Proceso, c0: int, d: int)
    requires p in m && q.cpu == m[p].cpu && CpusBien(m, exec, cpus, c0, d)
    ensures CpusBien(m[p := q], exec, cpus, c0, d)
  {
    forall c {:trigger Atada(m[p := q], exec, cpus, c)}
      ensures Atada(m[p := q], exec, cpus, c) + (if c == c0 then d else 0) == Veces(cpus.conectadas, c)
    {
      AnotarUso(m, exec, p, q, c);
      assert Atada(m, exec, cpus, c) + (if c == c0 then d else 0) == Veces(cpus.conectadas, c);
    }
  }

  /** CPU `c0` is accounted for in `k` more places, of `k'` more connections. */
  lemma {:induction false} AtadaMas(m: Procesos, exec: seq<int>, cpus: Cpus, cpus': Cpus, c0: int, d: int, k: int, k': int)
    requires CpusBien(m, exec, cpus, c0, d)
    requires forall c :: Veces(cpus'.libres, c) + Uno(cpus'.reservada == Some(c))
                      == Veces(cpus.libres, c) + Uno(cpus.reservada == Some(c)) + if c == c0 then k else 0
    requires forall c :: Veces(cpus'.conectadas, c) == Veces(cpus.conectadas, c) + if c == c0 then k' else 0
    ensures CpusBien(m, exec, cpus', c0, d - k + k')
  {
    forall c {:trigger Atada(m, exec, cpus', c)}
      ensures Atada(m, exec, cpus', c) + (if c == c0 then d - k + k' else 0) == Veces(cpus'.conectadas, c)
    {
      assert Atada(m, exec, cpus, c) + (if c == c0 then d else 0) == Veces(cpus.conectadas, c);
    }
  }

  /** The handler gives the CPU back. */
  lemma {:induction false} LiberarCpu(m: Procesos, exec: seq<int>, cpus: Cpus, c0: int)
    requires CpusBien(m, exec, cpus, c0, 1)
    ensures CpusBien(m, exec, cpus.(libres := cpus.libres + [c0]), 0, 0)
  {
    var cpus' := cpus.(libres := cpus.libres + [c0]);
    forall c ensures Veces(cpus'.libres, c) == Veces(cpus.libres, c) + if c == c0 then 1 else 0 {
      VecesAgregar(cpus.libres, c0, c);
    }
    AtadaMas(m, exec, cpus, cpus', c0, 1, 1, 0);
    CpusSinDeuda(m, exec, cpus', c0, 0);
  }

  lemma {:induction false} CpusSinDeuda(m: Procesos, exec: seq<int>, cpus: Cpus, c0: int, c1: int)
    requires CpusBien(m, exec, cpus, c0, 0)
    ensures CpusBien(m, exec, cpus, c1, 0)
  {
    forall c {:trigger Atada(m, exec, cpus, c)} ensures Atada(m, exec, cpus, c) == Veces(cpus.conectadas, c) {
      assert Atada(m, exec, cpus, c) + (if c == c0 then 0 else 0) == Veces(cpus.conectadas, c);
    }
  }

  // ---------------------------------------------------------------- records, pause, mutexes

  /**
    A process has a CPU exactly while it runs; only a blocked one has a suspension timer; its
    priority was never lowered below the original; out-of-range priorities are never planned
    and stay as given.
  */
  predicate ProcesoBien(cfg: Config, q: Proceso) {
    && (q.estado == Exec <==> q.cpu.Some?)
    && (q.reloj == Suspension ==> q.estado == Block)
    && q.prioridad <= q.original
    && (!cfg.cmn ==> q.prioridad == q.original)
    && (Nivel(cfg, q.original).None? ==> q.prioridad == q.original && q.estado == Ready)
    && (cfg.cmn && Nivel(cfg, q.original).Some? ==> 0 <= q.prioridad)
  }

  ghost predicate Registros(cfg: Config, m: Procesos, proximo: int) {
    forall p {:trigger p in m} :: p in m ==> ProcesoBien(cfg, m[p]) && p < proximo
  }

  /** Planning is paused exactly while one blocked process, with no suspension timer, waits for
      a compaction and its CPU is kept for it. */
  ghost predicate Pausa(m: Procesos, compactando: bool, esperando: Option<int>, reservada: Option<int>, puede: int) {
    && (compactando <==> esperando.Some?) && (compactando <==> reservada.Some?)
    && puede == Uno(!compactando)
    && (esperando.Some? ==> esperando.value in m && m[esperando.value].estado == Block && m[esperando.value].reloj != Suspension)
  }

  /** Requests are granted in order: what was asked is what was granted plus what waits.  A free
      mutex has no waiters, and an owner is the last one it was granted to. */
  predicate MutexBien(mu: Mutex) {
    && mu.pedidos == mu.otorgados + mu.espera
    && (mu.dueno.None? ==> mu.espera == [])
    && (mu.dueno.Some? ==> mu.otorgados != [] && mu.otorgados[|mu.otorgados| - 1] == mu.dueno.value)
  }

  ghost predicate MutexesBien(ms: seq<Mutex>) {
    && (forall j :: 0 <= j < |ms| ==> MutexBien(ms[j]))
    && forall i, j :: 0 <= i < j < |ms| ==> ms[i].nombre != ms[j].nombre
  }

  /** Owners are live processes that can be planned; `muerto` may still own some while its
      mutexes are being handed over. */
  ghost predicate Duenos(cfg: Config, m: Procesos, ms: seq<Mutex>, muerto: Option<int>) {
    forall j :: 0 <= j < |ms| && ms[j].dueno.Some? ==>
      ms[j].dueno == muerto || (ms[j].dueno.value in m && Nivel(cfg, m[ms[j].dueno.value].original).Some?)
  }

  ghost predicate SemaforosBien(l: Listados, cpus: Cpus, sem: Semaforos) {
    sem.ready == Encolados(l.colas) && sem.cpus == |cpus.libres|
  }

  ghost predicate InvAbierto(cfg: Config, s: Sistema, p: int, d: int, c0: int, dc: int, muerto: Option<int>) {
    && ConfigValida(cfg)
    && Ubicacion(cfg, s.procs, s.listas)
    && Pendencia(s.procs, s.io, s.mutexes, s.esperando, p, d)
    && SinRepetidos(s.cpus.conectadas) && CpusBien(s.procs, s.listas.exec, s.cpus, c0, dc)
    && Registros(cfg, s.procs, s.proximoPid)
    && Pausa(s.procs, s.compactando, s.esperando, s.cpus.reservada, s.sem.puede)
    && SemaforosBien(s.listas, s.cpus, s.sem)
    && MutexesBien(s.mutexes)
    && Duenos(cfg, s.procs, s.mutexes, muerto)
  }

  /** The invariant, except that `p` may be off by `d` in what it waits for and CPU `c0` by `dc`;
      folded. */
  ghost function InvSalvo(cfg: Config, s: Sistema, p: int, d: int, c0: int, dc: int, muerto: Option<int>): (b: bool)
    ensures forall z {:trigger Desplegar(z)} :: Desplegar(z) ==> b == InvAbierto(cfg, s, p, d, c0, dc, muerto)
  {
    var b: bool :| forall z {:trigger Desplegar(z)} :: Desplegar(z) ==> b == InvAbierto(cfg, s, p, d, c0, dc, muerto);
    b
  }

  ghost predicate Inv(cfg: Config, s: Sistema) {
    InvSalvo(cfg, s, 0, 0, 0, 0, None)
  }

  lemma {:induction false} InvDesde(cfg: Config, s: Sistema, p: int, c0: int)
    requires Inv(cfg, s)
    ensures InvSalvo(cfg, s, p, 0, c0, 0, None)
  {
    assert Desplegar(0);
    SinDeuda(s.procs, s.io, s.mutexes, s.esperando, 0, p);
    CpusSinDeuda(s.procs, s.listas.exec, s.cpus, 0, c0);
  }

  lemma {:induction false} InvHasta(cfg: Config, s: Sistema, p: int, c0: int)
    requires InvSalvo(cfg, s, p, 0, c0, 0, None)
    ensures Inv(cfg, s)
  {
    assert Desplegar(0);
    SinDeuda(s.procs, s.io, s.mutexes, s.esperando, p, 0);
    CpusSinDeuda(s.procs, s.listas.exec, s.cpus, c0, 0);
  }

  // ---------------------------------------------------------------- the two moves keep it

  /** What changes when `p` goes from its list to another: its record, the lists, one semaphore. */
  ghost predicate Reubicado(cfg: Config, s: Sistema, s': Sistema, p: int, q: Proceso)
    requires p in s.procs
  {
    && (s'.listas == Mover(cfg, s.procs, s.listas, p, q) || s'.listas == MoverAlFrente(cfg, s.procs, s.listas, p, q))
    && s'.sem.ready == s.sem.ready + Uno(LugarDe(cfg, q).EnCola?) - Uno(LugarDe(cfg, s.procs[p]).EnCola?)
    && s'.procs == s.procs[p := q]
    && s'.mutexes == s.mutexes && s'.io == s.io && s'.cpus == s.cpus && s'.sem.cpus == s.sem.cpus && s'.sem.puede == s.sem.puede
    && s'.compactando == s.compactando && s'.esperando == s.esperando && s'.proximoPid == s.proximoPid
  }

  lemma {:induction false} ReubicarInv(cfg: Config, s: Sistema, s': Sistema, p: int, q: Proceso,
                                       y: int, d: int, c0: int, dc: int, muerto: Option<int>)
    requires InvSalvo(cfg, s, y, d, c0, dc, muerto) && p in s.procs && Reubicado(cfg, s, s', p, q)
    requires ProcesoBien(cfg, q) && q.original == s.procs[p].original && s.esperando != Some(p)
    requires y == p || Bloqueado(q) == Bloqueado(s.procs[p])
    requires s.procs[p].estado == Exec ==> s.procs[p].cpu == Some(c0)
    requires q.estado == Exec ==> q.cpu == Some(c0)
    ensures InvSalvo(cfg, s', y, d + Uno(Bloqueado(q)) - Uno(Bloqueado(s.procs[p])),
                     c0, dc + Uno(s.procs[p].estado == Exec) - Uno(q.estado == Exec), muerto)
  {
    assert Desplegar(0);
    MoverUbica(cfg, s.procs, s.listas, p, q);
    MoverEncola(cfg, s.procs, s.listas, p, q);
    MoverCpus(cfg, s.procs, s.listas, s.cpus, p, q, c0, dc);
    AnotarPendencia(s.procs, s.io, s.mutexes, s.esperando, p, q, y, d);
    DuenosTras(cfg, s.procs, s.mutexes, muerto, p, q);
  }

  lemma {:induction false} DuenosTras(cfg: Config, m: Procesos, ms: seq<Mutex>, muerto: Option<int>, p: int, q: Proceso)
    requires Duenos(cfg, m, ms, muerto) && (p in m ==> q.original == m[p].original)
    ensures Duenos(cfg, m[p := q], ms, muerto)
  {
  }

  /** What changes when only the record of `p` does. */
  ghost predicate Anotado(s: Sistema, s': Sistema, p: int, q: Proceso) {
    s' == s.(procs := s.procs[p := q], avisos := s'.avisos)
  }

  lemma {:induction false} AnotarInv(cfg: Config, s: Sistema, s': Sistema, p: int, q: Proceso,
                                     y: int, d: int, c0: int, dc: int, muerto: Option<int>)
    requires InvSalvo(cfg, s, y, d, c0, dc, muerto) && p in s.procs && Anotado(s, s', p, q)
    requires ProcesoBien(cfg, q) && q.original == s.procs[p].original && q.cpu == s.procs[p].cpu && q.estado == s.procs[p].estado
    requires LugarDe(cfg, q) == LugarDe(cfg, s.procs[p]) && (s.esperando == Some(p) ==> q.reloj != Suspension)
    ensures InvSalvo(cfg, s', y, d, c0, dc, muerto)
  {
    assert Desplegar(0);
    AnotarUbica(cfg, s.procs, s.listas, p, q);
    AnotarCpus(s.procs, s.listas.exec, s.cpus, p, q, c0, dc);
    AnotarPendencia(s.procs, s.io, s.mutexes, s.esperando, p, q, y, d);
    DuenosTras(cfg, s.procs, s.mutexes, muerto, p, q);
  }
}
