/**
  The Kernel Scheduler's state (`kernel_scheduler/src/main.c`) and the two moves every
  handler is made of: a process leaves the list of its state for the list of another, or
  its record changes in place.  Processes are named by pid, CPUs by socket.
*/
module Planificacion {
  import opened Tipos
  import opened Listas

  /** `rr[i]` says that queue `i` is round robin.  `cmn` is the multilevel algorithm; FIFO
      and RR have the single queue `lista_ready`. */
  datatype Config = Config(cmn: bool, rr: seq<bool>, desalojo: bool)

  predicate ConfigValida(cfg: Config) {
    !cfg.cmn ==> |cfg.rr| == 1
  }

  /** NEW and EXIT last less than one step. */
  datatype Estado = Ready | Exec | Block | SuspReady | SuspBlock

  /** The timer a process points to; a timer it no longer points to does nothing when it fires. */
  datatype Reloj = Ninguno | Quantum(cpu: int) | Suspension

  datatype Proceso = Proceso(prioridad: int, original: int, estado: Estado, cpu: Option<int>, reloj: Reloj, suspendidoEn: int)

  type Procesos = map<int, Proceso>

  /** `pedidos` and `otorgados` are its history: who asked for it and who got it, in order. */
  datatype Mutex = Mutex(nombre: string, dueno: Option<int>, espera: seq<int>, pedidos: seq<int>, otorgados: seq<int>)

  datatype TipoIo = Sleep | Stdin | Stdout

  /** OP_INTERRUMPIR_PROCESO sent to a CPU. */
  datatype Aviso = Aviso(cpu: int, pid: int)

  /** The lists of states: the ready queues, the out-of-range ready list, and the others. */
  datatype Listados = Listados(
    colas: seq<seq<int>>,
    invalida: seq<int>,
    exec: seq<int>,
    block: seq<int>,
    suspReady: seq<int>,
    suspBlock: seq<int>)

  // ---------------------------------------------------------------- places

  datatype Lugar = EnCola(nivel: nat) | EnInvalida | EnExec | EnBlock | EnSuspReady | EnSuspBlock

  /** The ready queue a priority goes to; None is out of range. */
  function Nivel(cfg: Config, prioridad: int): Option<nat> {
    if !cfg.cmn then Some(0)
    else if 0 <= prioridad < |cfg.rr| then Some(prioridad)
    else None
  }

  /** The list that matches a process's state. */
  function LugarDe(cfg: Config, q: Proceso): Lugar {
    match q.estado
    case Ready => (match Nivel(cfg, q.prioridad) case Some(i) => EnCola(i) case None => EnInvalida)
    case Exec => EnExec
    case Block => EnBlock
    case SuspReady => EnSuspReady
    case SuspBlock => EnSuspBlock
  }

  function Lista(s: Listados, l: Lugar): seq<int> {
    match l
    case EnCola(i) => if i < |s.colas| then s.colas[i] else []
    case EnInvalida => s.invalida
    case EnExec => s.exec
    case EnBlock => s.block
    case EnSuspReady => s.suspReady
    case EnSuspBlock => s.suspBlock
  }

  function ConLista(s: Listados, l: Lugar, v: seq<int>): Listados {
    match l
    case EnCola(i) => if i < |s.colas| then s.(colas := s.colas[i := v]) else s
    case EnInvalida => s.(invalida := v)
    case EnExec => s.(exec := v)
    case EnBlock => s.(block := v)
    case EnSuspReady => s.(suspReady := v)
    case EnSuspBlock => s.(suspBlock := v)
  }

  predicate Existe(s: Listados, l: Lugar) {
    l.EnCola? ==> l.nivel < |s.colas|
  }

  lemma {:induction false} ListaCambiada(s: Listados, l: Lugar, v: seq<int>, k: Lugar)
    requires Existe(s, l)
    ensures Lista(ConLista(s, l, v), k) == if k == l then v else Lista(s, k)
  {
  }

  // ---------------------------------------------------------------- moves

  /** Out of the list of its present state, to the end of the list of its new one. */
  function Mover(cfg: Config, m: Procesos, s: Listados, p: int, q: Proceso): Listados
    requires p in m
  {
    var s1 := Sacado(cfg, m, s, p);
    ConLista(s1, LugarDe(cfg, q), Lista(s1, LugarDe(cfg, q)) + [p])
  }

  /** As Mover, but to the front of the list. */
  function MoverAlFrente(cfg: Config, m: Procesos, s: Listados, p: int, q: Proceso): Listados
    requires p in m
  {
    var s1 := Sacado(cfg, m, s, p);
    ConLista(s1, LugarDe(cfg, q), [p] + Lista(s1, LugarDe(cfg, q)))
  }

  /** A process leaves the list of its state. */
  function Sacado(cfg: Config, m: Procesos, s: Listados, p: int): Listados
    requires p in m
  {
    var l := LugarDe(cfg, m[p]);
    ConLista(s, l, Quitar(Lista(s, l), p))
  }

  /** A process that does not exist yet enters the list of its state. */
  function Ingresar(cfg: Config, s: Listados, p: int, q: Proceso): Listados {
    ConLista(s, LugarDe(cfg, q), Lista(s, LugarDe(cfg, q)) + [p])
  }

  // ---------------------------------------------------------------- placement

  predicate EstaEn(cfg: Config, m: Procesos, l: Lugar, p: int) {
    p in m && LugarDe(cfg, m[p]) == l
  }

  function Cuantos(s: Listados, l: Lugar, p: int): nat {
    Veces(Lista(s, l), p)
  }

  /** Every process is exactly once in the list that matches its state, and in no other. */
  ghost predicate Ubicacion(cfg: Config, m: Procesos, s: Listados) {
    && |s.colas| == |cfg.rr|
    && forall l: Lugar, p: int {:trigger Cuantos(s, l, p)} :: Cuantos(s, l, p) == Uno(EstaEn(cfg, m, l, p))
  }

  lemma {:induction false} LugarExiste(cfg: Config, s: Listados, q: Proceso)
    requires ConfigValida(cfg) && |s.colas| == |cfg.rr|
    ensures Existe(s, LugarDe(cfg, q))
  {
  }

  lemma {:induction false} Presente(cfg: Config, m: Procesos, s: Listados, p: int)
    requires Ubicacion(cfg, m, s) && p in m
    ensures p in Lista(s, LugarDe(cfg, m[p]))
  {
    Miembro(cfg, m, s, LugarDe(cfg, m[p]), p);
  }

  lemma {:induction false} Miembro(cfg: Config, m: Procesos, s: Listados, l: Lugar, p: int)
    requires Ubicacion(cfg, m, s)
    ensures p in Lista(s, l) <==> EstaEn(cfg, m, l, p)
  {
    VecesMiembro(Lista(s, l), p);
    assert Cuantos(s, l, p) == Uno(EstaEn(cfg, m, l, p));
  }

  lemma {:induction false} SacadoCuantos(cfg: Config, m: Procesos, s: Listados, p: int, l: Lugar, x: int)
    requires ConfigValida(cfg) && Ubicacion(cfg, m, s) && p in m
    ensures |Sacado(cfg, m, s, p).colas| == |s.colas|
    ensures Cuantos(Sacado(cfg, m, s, p), l, x) == Uno(EstaEn(cfg, m, l, x) && x != p)
  {
    var a := LugarDe(cfg, m[p]);
    LugarExiste(cfg, s, m[p]);
    Presente(cfg, m, s, p);
    ListaCambiada(s, a, Quitar(Lista(s, a), p), l);
    VecesQuitar(Lista(s, a), p, x);
    assert Cuantos(s, l, x) == Uno(EstaEn(cfg, m, l, x));
  }

  /** One more at either end of a list. */
  lemma {:induction false} AgregarCuantos(s: Listados, b: Lugar, p: int, l: Lugar, x: int)
    requires Existe(s, b)
    ensures Cuantos(ConLista(s, b, Lista(s, b) + [p]), l, x) == Cuantos(s, l, x) + Uno(l == b && x == p)
    ensures Cuantos(ConLista(s, b, [p] + Lista(s, b)), l, x) == Cuantos(s, l, x) + Uno(l == b && x == p)
    ensures |ConLista(s, b, Lista(s, b) + [p]).colas| == |ConLista(s, b, [p] + Lista(s, b)).colas| == |s.colas|
  {
    ListaCambiada(s, b, Lista(s, b) + [p], l);
    ListaCambiada(s, b, [p] + Lista(s, b), l);
    VecesAgregar(Lista(s, b), p, x);
    VecesFrente(Lista(s, b), p, x);
  }

  lemma {:induction false} MoverCuantos(cfg: Config, m: Procesos, s: Listados, p: int, q: Proceso, l: Lugar, x: int)
    requires ConfigValida(cfg) && Ubicacion(cfg, m, s) && p in m
    ensures Cuantos(Mover(cfg, m, s, p, q), l, x) == Uno(EstaEn(cfg, m[p := q], l, x))
    ensures Cuantos(MoverAlFrente(cfg, m, s, p, q), l, x) == Uno(EstaEn(cfg, m[p := q], l, x))
    ensures |Mover(cfg, m, s, p, q).colas| == |MoverAlFrente(cfg, m, s, p, q).colas| == |s.colas|
  {
    var s1, b := Sacado(cfg, m, s, p), LugarDe(cfg, q);
    SacadoCuantos(cfg, m, s, p, l, x);
    LugarExiste(cfg, s1, q);
    EstaTras(cfg, m, p, q, l, x);
    AgregarCuantos(s1, b, p, l, x);
  }

  lemma {:induction false} MoverUbica(cfg: Config, m: Procesos, s: Listados, p: int, q: Proceso)
    requires ConfigValida(cfg) && Ubicacion(cfg, m, s) && p in m
    ensures Ubicacion(cfg, m[p := q], Mover(cfg, m, s, p, q))
    ensures Ubicacion(cfg, m[p := q], MoverAlFrente(cfg, m, s, p, q))
  {
    MoverCuantos(cfg, m, s, p, q, EnExec, p);
    forall l, x {:trigger Cuantos(Mover(cfg, m, s, p, q), l, x)}
      ensures Cuantos(Mover(cfg, m, s, p, q), l, x) == Uno(EstaEn(cfg, m[p := q], l, x))
    {
      MoverCuantos(cfg, m, s, p, q, l, x);
    }
    forall l, x {:trigger Cuantos(MoverAlFrente(cfg, m, s, p, q), l, x)}
      ensures Cuantos(MoverAlFrente(cfg, m, s, p, q), l, x) == Uno(EstaEn(cfg, m[p := q], l, x))
    {
      MoverCuantos(cfg, m, s, p, q, l, x);
    }
  }

  /** A record changes without changing its list. */
  lemma {:induction false} AnotarUbica(cfg: Config, m: Procesos, s: Listados, p: int, q: Proceso)
    requires Ubicacion(cfg, m, s) && p in m && LugarDe(cfg, q) == LugarDe(cfg, m[p])
    ensures Ubicacion(cfg, m[p := q], s)
  {
  }

  lemma {:induction false} IngresarCuantos(cfg: Config, m: Procesos, s: Listados, p: int, q: Proceso, l: Lugar, x: int)
    requires ConfigValida(cfg) && Ubicacion(cfg, m, s) && p !in m
    ensures Cuantos(Ingresar(cfg, s, p, q), l, x) == Uno(EstaEn(cfg, m[p := q], l, x))
    ensures |Ingresar(cfg, s, p, q).colas| == |s.colas|
  {
    var b := LugarDe(cfg, q);
    LugarExiste(cfg, s, q);
    EstaTras(cfg, m, p, q, l, x);
    calc {
      Cuantos(Ingresar(cfg, s, p, q), l, x);
      { AgregarCuantos(s, b, p, l, x); }
      Cuantos(s, l, x) + Uno(l == b && x == p);
      Uno(EstaEn(cfg, m, l, x)) + Uno(l == b && x == p);
    }
  }

  lemma {:induction false} EstaTras(cfg: Config, m: Procesos, p: int, q: Proceso, l: Lugar, x: int)
    ensures EstaEn(cfg, m[p := q], l, x) <==> if x == p then l == LugarDe(cfg, q) else EstaEn(cfg, m, l, x)
  {
  }

  lemma {:induction false} IngresarUbica(cfg: Config, m: Procesos, s: Listados, p: int, q: Proceso)
    requires ConfigValida(cfg) && Ubicacion(cfg, m, s) && p !in m
    ensures Ubicacion(cfg, m[p := q], Ingresar(cfg, s, p, q))
  {
    IngresarCuantos(cfg, m, s, p, q, EnExec, p);
    forall l, x {:trigger Cuantos(Ingresar(cfg, s, p, q), l, x)}
      ensures Cuantos(Ingresar(cfg, s, p, q), l, x) == Uno(EstaEn(cfg, m[p := q], l, x))
    {
      IngresarCuantos(cfg, m, s, p, q, l, x);
    }
  }

  /** A process leaves for good. */
  lemma {:induction false} RetirarUbica(cfg: Config, m: Procesos, s: Listados, p: int)
    requires ConfigValida(cfg) && Ubicacion(cfg, m, s) && p in m
    ensures Ubicacion(cfg, m - {p}, Sacado(cfg, m, s, p))
  {
    SacadoCuantos(cfg, m, s, p, EnExec, p);
    forall l, x {:trigger Cuantos(Sacado(cfg, m, s, p), l, x)}
      ensures Cuantos(Sacado(cfg, m, s, p), l, x) == Uno(EstaEn(cfg, m - {p}, l, x))
    {
      SacadoCuantos(cfg, m, s, p, l, x);
    }
  }

  // ---------------------------------------------------------------- queued processes

  /** Processes in the ready queues. */
  function Encolados(colas: seq<seq<int>>): nat {
    if |colas| == 0 then 0 else Encolados(colas[..|colas| - 1]) + |colas[|colas| - 1]|
  }

  lemma {:induction false} EncoladosCambia(colas: seq<seq<int>>, i: nat, v: seq<int>)
    requires i < |colas|
    ensures Encolados(colas[i := v]) + |colas[i]| == Encolados(colas) + |v|
    decreases |colas|
  {
    var n := |colas| - 1;
    if i < n {
      EncoladosCambia(colas[..n], i, v);
      assert colas[i := v][..n] == colas[..n][i := v];
    } else {
      assert colas[i := v][..n] == colas[..n];
    }
  }

  lemma {:induction false} EncoladosNinguno(colas: seq<seq<int>>)
    requires forall i :: 0 <= i < |colas| ==> colas[i] == []
    ensures Encolados(colas) == 0
    decreases |colas|
  {
    if |colas| > 0 {
      EncoladosNinguno(colas[..|colas| - 1]);
    }
  }

  lemma {:induction false} EncoladosAlguno(colas: seq<seq<int>>, i: nat)
    requires i < |colas|
    ensures Encolados(colas) >= |colas[i]|
    decreases |colas|
  {
    if i < |colas| - 1 {
      EncoladosAlguno(colas[..|colas| - 1], i);
    }
  }

  lemma {:induction false} ConListaEncolados(s: Listados, l: Lugar, v: seq<int>)
    requires Existe(s, l)
    ensures Encolados(ConLista(s, l, v).colas) + (if l.EnCola? then |Lista(s, l)| else 0)
         == Encolados(s.colas) + (if l.EnCola? then |v| else 0)
  {
    if l.EnCola? {
      EncoladosCambia(s.colas, l.nivel, v);
    }
  }

  lemma {:induction false} SacadoEncola(cfg: Config, m: Procesos, s: Listados, p: int)
    requires ConfigValida(cfg) && Ubicacion(cfg, m, s) && p in m
    ensures Encolados(Sacado(cfg, m, s, p).colas) + Uno(LugarDe(cfg, m[p]).EnCola?) == Encolados(s.colas)
    ensures |Sacado(cfg, m, s, p).colas| == |s.colas|
  {
    var a := LugarDe(cfg, m[p]);
    LugarExiste(cfg, s, m[p]);
    Presente(cfg, m, s, p);
    QuitarLargo(Lista(s, a), p);
    ConListaEncolados(s, a, Quitar(Lista(s, a), p));
  }

  lemma {:induction false} MoverEncola(cfg: Config, m: Procesos, s: Listados, p: int, q: Proceso)
    requires ConfigValida(cfg) && Ubicacion(cfg, m, s) && p in m
    ensures Encolados(Mover(cfg, m, s, p, q).colas) + Uno(LugarDe(cfg, m[p]).EnCola?)
         == Encolados(s.colas) + Uno(LugarDe(cfg, q).EnCola?)
    ensures Encolados(MoverAlFrente(cfg, m, s, p, q).colas) + Uno(LugarDe(cfg, m[p]).EnCola?)
         == Encolados(s.colas) + Uno(LugarDe(cfg, q).EnCola?)
  {
    var s1, b := Sacado(cfg, m, s, p), LugarDe(cfg, q);
    SacadoEncola(cfg, m, s, p);
    LugarExiste(cfg, s1, q);
    ConListaEncolados(s1, b, Lista(s1, b) + [p]);
    ConListaEncolados(s1, b, [p] + Lista(s1, b));
  }

  lemma {:induction false} IngresarEncola(cfg: Config, s: Listados, p: int, q: Proceso)
    requires ConfigValida(cfg) && |s.colas| == |cfg.rr|
    ensures Encolados(Ingresar(cfg, s, p, q).colas) == Encolados(s.colas) + Uno(LugarDe(cfg, q).EnCola?)
  {
    LugarExiste(cfg, s, q);
    ConListaEncolados(s, LugarDe(cfg, q), Lista(s, LugarDe(cfg, q)) + [p]);
  }

  // ---------------------------------------------------------------- CPUs in use

  predicate Usa(m: Procesos, p: int, c: int) {
    p in m && m[p].cpu == Some(c)
  }

  /** How many of the listed processes are bound to CPU `c`. */
  function EnUso(m: Procesos, l: seq<int>, c: int): nat {
    if |l| == 0 then 0 else EnUso(m, l[..|l| - 1], c) + Uno(Usa(m, l[|l| - 1], c))
  }

  lemma {:induction false} EnUsoConcat(m: Procesos, a: seq<int>, b: seq<int>, c: int)
    ensures EnUso(m, a + b, c) == EnUso(m, a, c) + EnUso(m, b, c)
    decreases |b|
  {
    if |b| == 0 {
      assert a + b == a;
    } else {
      EnUsoConcat(m, a, b[..|b| - 1], c);
      assert (a + b)[..|a + b| - 1] == a + b[..|b| - 1];
    }
  }

  lemma {:induction false} EnUsoUno(m: Procesos, p: int, c: int)
    ensures EnUso(m, [p], c) == Uno(Usa(m, p, c))
  {
    assert [p][..0] == [];
  }

  lemma {:induction false} EnUsoQuitar(m: Procesos, l: seq<int>, p: int, c: int)
    requires p in l
    ensures EnUso(m, l, c) == EnUso(m, Quitar(l, p), c) + Uno(Usa(m, p, c))
    decreases |l|
  {
    assert l == [l[0]] + l[1..];
    EnUsoConcat(m, [l[0]], l[1..], c);
    EnUsoUno(m, l[0], c);
    if l[0] != p {
      EnUsoQuitar(m, l[1..], p, c);
      EnUsoConcat(m, [l[0]], Quitar(l[1..], p), c);
    }
  }

  /** Only the records of the listed processes matter. */
  lemma {:induction false} EnUsoMarco(m: Procesos, r: Procesos, l: seq<int>, c: int)
    requires forall x :: x in l ==> Usa(m, x, c) == Usa(r, x, c)
    ensures EnUso(m, l, c) == EnUso(r, l, c)
    decreases |l|
  {
    if |l| > 0 {
      EnUsoMarco(m, r, l[..|l| - 1], c);
    }
  }

  /** A bound CPU is in use by some listed process. */
  lemma {:induction false} EnUsoAlguno(m: Procesos, l: seq<int>, p: int, c: int)
    requires p in l && Usa(m, p, c)
    ensures EnUso(m, l, c) >= 1
  {
    EnUsoQuitar(m, l, p, c);
  }

  /** The exec list of a moved process: it leaves with its CPU or arrives with it. */
  lemma {:induction false} MoverUso(cfg: Config, m: Procesos, s: Listados, p: int, q: Proceso, c: int)
    requires ConfigValida(cfg) && Ubicacion(cfg, m, s) && p in m
    ensures EnUso(m[p := q], Mover(cfg, m, s, p, q).exec, c) + Uno(m[p].estado == Exec && m[p].cpu == Some(c))
         == EnUso(m, s.exec, c) + Uno(q.estado == Exec && q.cpu == Some(c))
    ensures EnUso(m[p := q], MoverAlFrente(cfg, m, s, p, q).exec, c) + Uno(m[p].estado == Exec && m[p].cpu == Some(c))
         == EnUso(m, s.exec, c) + Uno(q.estado == Exec && q.cpu == Some(c))
  {
    var r, e := m[p := q], Sacado(cfg, m, s, p).exec;
    SacadoUso(cfg, m, s, p, c);
    SinElSacado(cfg, m, s, p, r, c);
    UsoConUno(r, e, p, q, c);
    MoverExec(cfg, m, s, p, q);
  }

  lemma {:induction false} UsoConUno(r: Procesos, e: seq<int>, p: int, q: Proceso, c: int)
    requires p in r && r[p] == q
    ensures EnUso(r, e + if q.estado == Exec then [p] else [], c) == EnUso(r, e, c) + Uno(q.estado == Exec && q.cpu == Some(c))
    ensures EnUso(r, (if q.estado == Exec then [p] else []) + e, c) == EnUso(r, e, c) + Uno(q.estado == Exec && q.cpu == Some(c))
  {
    EnUsoConcat(r, e, [p], c);
    EnUsoConcat(r, [p], e, c);
    EnUsoUno(r, p, c);
    assert e + [] == e && [] + e == e;
  }

  lemma {:induction false} MoverExec(cfg: Config, m: Procesos, s: Listados, p: int, q: Proceso)
    requires ConfigValida(cfg) && |s.colas| == |cfg.rr| && p in m
    ensures Mover(cfg, m, s, p, q).exec == Sacado(cfg, m, s, p).exec + if q.estado == Exec then [p] else []
    ensures MoverAlFrente(cfg, m, s, p, q).exec == (if q.estado == Exec then [p] else []) + Sacado(cfg, m, s, p).exec
  {
  }

  /** Who is left in exec does not depend on the record of the one who left. */
  lemma {:induction false} SinElSacado(cfg: Config, m: Procesos, s: Listados, p: int, r: Procesos, c: int)
    requires ConfigValida(cfg) && Ubicacion(cfg, m, s) && p in m
    requires forall x :: x != p ==> Usa(m, x, c) == Usa(r, x, c)
    ensures EnUso(m, Sacado(cfg, m, s, p).exec, c) == EnUso(r, Sacado(cfg, m, s, p).exec, c)
  {
    var e := Sacado(cfg, m, s, p).exec;
    SacadoCuantos(cfg, m, s, p, EnExec, p);
    VecesMiembro(e, p);
    assert Lista(Sacado(cfg, m, s, p), EnExec) == e;
    EnUsoMarco(m, r, e, c);
  }

  lemma {:induction false} SacadoUso(cfg: Config, m: Procesos, s: Listados, p: int, c: int)
    requires ConfigValida(cfg) && Ubicacion(cfg, m, s) && p in m
    ensures EnUso(m, Sacado(cfg, m, s, p).exec, c) + Uno(m[p].estado == Exec && m[p].cpu == Some(c)) == EnUso(m, s.exec, c)
  {
    LugarExiste(cfg, s, m[p]);
    if m[p].estado == Exec {
      Presente(cfg, m, s, p);
      EnUsoQuitar(m, s.exec, p, c);
    }
  }

  lemma {:induction false} RetirarUso(cfg: Config, m: Procesos, s: Listados, p: int, c: int)
    requires ConfigValida(cfg) && Ubicacion(cfg, m, s) && p in m
    ensures EnUso(m - {p}, Sacado(cfg, m, s, p).exec, c) + Uno(m[p].estado == Exec && m[p].cpu == Some(c))
         == EnUso(m, s.exec, c)
  {
    SacadoUso(cfg, m, s, p, c);
    SinElSacado(cfg, m, s, p, m - {p}, c);
  }

  /** A record that keeps its CPU keeps the count. */
  lemma {:induction false} AnotarUso(m: Procesos, l: seq<int>, p: int, q: Proceso, c: int)
    requires p in m && q.cpu == m[p].cpu
    ensures EnUso(m[p := q], l, c) == EnUso(m, l, c)
  {
    EnUsoMarco(m, m[p := q], l, c);
  }
}
