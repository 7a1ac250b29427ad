/** What each handler of the scheduler does to its state, one handler per step. */
module Pasos {
  import opened Tipos
  import opened Listas
  import opened Planificacion
  import opened Sistemas

  // ---------------------------------------------------------------- ready queues

  function Prioridad(m: Procesos, x: int): int {
    if x in m then m[x].prioridad else 0
  }

  /** The running process with the worst priority; the first one among equals. */
  function Peor(m: Procesos, exec: seq<int>): Option<int> {
    if |exec| == 0 then None
    else
      var r, x := Peor(m, exec[..|exec| - 1]), exec[|exec| - 1];
      if r.None? || Prioridad(m, x) > Prioridad(m, r.value) then Some(x) else r
  }

  /** The interrupt that queueing `p` sends, if any. */
  function AvisosDe(cfg: Config, m: Procesos, exec: seq<int>, p: int): seq<Aviso> {
    var peor := Peor(m, exec);
    if cfg.cmn && cfg.desalojo && Nivel(cfg, Prioridad(m, p)).Some? && peor.Some?
       && Prioridad(m, peor.value) > Prioridad(m, p) && peor.value in m && m[peor.value].cpu.Some?
    then [Aviso(m[peor.value].cpu.value, peor.value)] else []
  }

  /** `encolar_en_ready`: `p` leaves its list, with record `q`, for the ready list of its priority. */
  function Encolar(cfg: Config, s: Sistema, p: int, q: Proceso): Sistema
    requires p in s.procs
  {
    var m, l := s.procs[p := q], Mover(cfg, s.procs, s.listas, p, q);
    s.(procs := m, listas := l, avisos := s.avisos + AvisosDe(cfg, m, l.exec, p))
  }

  /** `sem_post(&sem_hay_procesos_ready)`, when the process can be planned. */
  function Postear(cfg: Config, s: Sistema, q: Proceso): Sistema {
    s.(sem := s.sem.(ready := s.sem.ready + Uno(LugarDe(cfg, q).EnCola?)))
  }

  function AReady(cfg: Config, s: Sistema, p: int, q: Proceso): Sistema
    requires p in s.procs
  {
    Postear(cfg, Encolar(cfg, s, p, q), q)
  }

  /** A new process, or one that Kernel Memory could not create: its pid is spent either way. */
  function Nacer(cfg: Config, s: Sistema, prioridad: int, creado: bool): Sistema {
    var p := s.proximoPid;
    var q := Proceso(prioridad, prioridad, Ready, None, Ninguno, 0);
    if !creado then s.(proximoPid := p + 1)
    else
      var m, l := s.procs[p := q], Ingresar(cfg, s.listas, p, q);
      Postear(cfg, s.(procs := m, listas := l, proximoPid := p + 1, avisos := s.avisos + AvisosDe(cfg, m, l.exec, p)), q)
  }

  /** First non-empty ready queue from `i` on, or |colas|. */
  function PrimeraConProcesos(colas: seq<seq<int>>, i: nat): (r: nat)
    requires i <= |colas|
    ensures i <= r <= |colas|
    ensures r < |colas| ==> colas[r] != []
    ensures forall k :: i <= k < r ==> colas[k] == []
    decreases |colas| - i
  {
    if i == |colas| then i
    else if colas[i] != [] then i
    else PrimeraConProcesos(colas, i + 1)
  }

  predicate PuedePlanificar(s: Sistema) {
    s.sem.ready > 0 && s.sem.cpus > 0 && s.sem.puede > 0
  }

  function Despachado(cfg: Config, q: Proceso, i: nat, c: int): Proceso {
    q.(estado := Exec, cpu := Some(c), reloj := if i < |cfg.rr| && cfg.rr[i] then Quantum(c) else q.reloj)
  }

  /** One turn of the short-term planner. */
  function Planificar(cfg: Config, s: Sistema): Sistema {
    var i := PrimeraConProcesos(s.listas.colas, 0);
    var s1 := s.(sem := s.sem.(ready := s.sem.ready - 1));
    if i == |s.listas.colas| || s.listas.colas[i][0] !in s.procs || s.cpus.libres == [] then s1
    else
      var p, c := s.listas.colas[i][0], s.cpus.libres[0];
      var q := Despachado(cfg, s.procs[p], i, c);
      s1.(procs := s.procs[p := q], listas := Mover(cfg, s.procs, s.listas, p, q),
          cpus := s.cpus.(libres := s.cpus.libres[1..]), sem := s1.sem.(cpus := s.sem.cpus - 1))
  }

  // ---------------------------------------------------------------- timers

  /** A process `buscar_proceso_por_pid` finds. */
  predicate Buscable(cfg: Config, s: Sistema, p: int) {
    p in s.procs && LugarDe(cfg, s.procs[p]) != EnInvalida
  }

  function VenceQuantum(cfg: Config, s: Sistema, p: int): Sistema {
    if Buscable(cfg, s, p) && s.procs[p].reloj.Quantum? then
      s.(procs := s.procs[p := s.procs[p].(reloj := Ninguno)], avisos := s.avisos + [Aviso(s.procs[p].reloj.cpu, p)])
    else s
  }

  function VenceSuspension(cfg: Config, s: Sistema, p: int): Sistema {
    if Buscable(cfg, s, p) && s.procs[p].reloj == Suspension then
      var q := s.procs[p].(reloj := Ninguno);
      if s.procs[p].estado == Block then
        var q1 := q.(estado := SuspBlock);
        s.(procs := s.procs[p := q1], listas := Mover(cfg, s.procs, s.listas, p, q1))
      else s.(procs := s.procs[p := q])
    else s
  }

  // ---------------------------------------------------------------- CPUs

  function ConectarCpu(s: Sistema, c: int): Sistema {
    s.(cpus := s.cpus.(conectadas := s.cpus.conectadas + [c], libres := s.cpus.libres + [c]), sem := s.sem.(cpus := s.sem.cpus + 1))
  }

  /** The first listed process bound to CPU `c`. */
  function EjecutandoEn(m: Procesos, exec: seq<int>, c: int): (r: Option<int>)
    ensures r.Some? ==> r.value in exec && Usa(m, r.value, c)
    ensures r.None? ==> forall x :: x in exec ==> !Usa(m, x, c)
  {
    if |exec| == 0 then None
    else if Usa(m, exec[0], c) then Some(exec[0])
    else EjecutandoEn(m, exec[1..], c)
  }

  function SinCpu(s: Sistema, c: int): Sistema {
    var s1 := s.(cpus := s.cpus.(conectadas := Quitar(s.cpus.conectadas, c)));
    if c in s.cpus.libres then
      s1.(cpus := s1.cpus.(libres := Quitar(s.cpus.libres, c)), sem := s.sem.(cpus := if s.sem.cpus > 0 then s.sem.cpus - 1 else s.sem.cpus))
    else s1
  }

  function DesconectarCpu(cfg: Config, s: Sistema, c: int): Sistema {
    var s1 := SinCpu(s, c);
    match EjecutandoEn(s.procs, s.listas.exec, c)
    case None => s1
    case Some(p) => AReady(cfg, s1, p, s.procs[p].(estado := Ready, cpu := None, reloj := Ninguno))
  }

  function Devolver(s: Sistema, c: int): Sistema {
    s.(cpus := s.cpus.(libres := s.cpus.libres + [c]), sem := s.sem.(cpus := s.sem.cpus + 1))
  }

  predicate Ejecuta(s: Sistema, p: int) {
    p in s.procs && s.procs[p].estado == Exec && s.procs[p].cpu.Some?
  }

  /** A CPU gives back a process it was told to interrupt; ahead of its queue during a compaction. */
  function FinQuantum(cfg: Config, s: Sistema, p: int): Sistema {
    if !Ejecuta(s, p) then s
    else
      var q := s.procs[p].(estado := Ready, cpu := None);
      var s1 := if s.compactando
                then s.(procs := s.procs[p := q], listas := MoverAlFrente(cfg, s.procs, s.listas, p, q))
                else Encolar(cfg, s, p, q);
      Devolver(Postear(cfg, s1, q), s.procs[p].cpu.value)
  }

  // ---------------------------------------------------------------- blocking and waking up

  function Dormido(q: Proceso): Proceso {
    q.(estado := Block, cpu := None, reloj := Suspension)
  }

  /** `bloquear_proceso`. */
  function Bloquear(cfg: Config, s: Sistema, p: int): Sistema
    requires Ejecuta(s, p)
  {
    var q := Dormido(s.procs[p]);
    Devolver(s.(procs := s.procs[p := q], listas := Mover(cfg, s.procs, s.listas, p, q)), s.procs[p].cpu.value)
  }

  /** A blocked process got what it waited for. */
  function Despertar(cfg: Config, s: Sistema, p: int, ahora: int): Sistema
    requires p in s.procs
  {
    var q := s.procs[p].(reloj := Ninguno);
    match q.estado
    case Block => AReady(cfg, s, p, q.(estado := Ready))
    case SuspBlock =>
      var q1 := q.(estado := SuspReady, suspendidoEn := ahora);
      s.(procs := s.procs[p := q1], listas := Mover(cfg, s.procs, s.listas, p, q1))
    case _ => s.(procs := s.procs[p := q])
  }

  function Cola(io: Io, t: TipoIo): seq<int> {
    match t
    case Sleep => io.sleep
    case Stdin => io.stdin
    case Stdout => io.stdout
  }

  function ConCola(io: Io, t: TipoIo, v: seq<int>): Io {
    match t
    case Sleep => io.(sleep := v)
    case Stdin => io.(stdin := v)
    case Stdout => io.(stdout := v)
  }

  function PedirIo(cfg: Config, s: Sistema, p: int, t: TipoIo): Sistema {
    if !Ejecuta(s, p) then s
    else
      var s1 := Bloquear(cfg, s, p);
      s1.(io := ConCola(s1.io, t, Cola(s1.io, t) + [p]))
  }

  function TomarIo(s: Sistema, t: TipoIo): Sistema {
    if Cola(s.io, t) == [] then s
    else
      var p := Cola(s.io, t)[0];
      s.(io := ConCola(s.io, t, Cola(s.io, t)[1..]).(servicio := s.io.servicio + [p]))
  }

  /** The device answers.  On an error the process stays blocked for good. */
  function FinIo(cfg: Config, s: Sistema, p: int, ok: bool, ahora: int, orden: seq<int>, resp: seq<bool>): Sistema {
    if p !in s.io.servicio || p !in s.procs then s
    else
      var s1 := s.(io := s.io.(servicio := Quitar(s.io.servicio, p)));
      if !ok then s1.(io := s1.io.(perdidos := s1.io.perdidos + [p]))
      else
        var s2 := Despertar(cfg, s1, p, ahora);
        if s.procs[p].estado == SuspBlock then Dessuspender(cfg, s2, orden, resp) else s2
  }

  // ---------------------------------------------------------------- de-suspension

  predicate AntesSuspendido(m: Procesos, a: int, b: int) {
    a in m && b in m &&
    (m[a].prioridad < m[b].prioridad || (m[a].prioridad == m[b].prioridad && m[a].suspendidoEn <= m[b].suspendidoEn))
  }

  /** `orden` is a result of sorting `l` by priority and suspension time. */
  ghost predicate EsOrden(m: Procesos, l: seq<int>, orden: seq<int>) {
    && (forall x {:trigger Veces(orden, x)} :: Veces(orden, x) == Veces(l, x))
    && forall i, j :: 0 <= i < j < |orden| ==> AntesSuspendido(m, orden[i], orden[j])
  }

  /** `intentar_dessuspender_procesos`: in that order, each one Kernel Memory accepts becomes ready. */
  function Dessuspender(cfg: Config, s: Sistema, orden: seq<int>, resp: seq<bool>): Sistema {
    DessuspenderHasta(cfg, s.(listas := s.listas.(suspReady := orden)), orden, resp, |orden|)
  }

  function DessuspenderHasta(cfg: Config, s: Sistema, orden: seq<int>, resp: seq<bool>, n: nat): Sistema
    requires n <= |orden|
  {
    if n == 0 then s else DessuspenderUno(cfg, DessuspenderHasta(cfg, s, orden, resp, n - 1), orden[n - 1], n - 1 < |resp| && resp[n - 1])
  }

  function DessuspenderUno(cfg: Config, s: Sistema, p: int, ok: bool): Sistema {
    if ok && p in s.procs then AReady(cfg, s, p, s.procs[p].(estado := Ready)) else s
  }

  // ---------------------------------------------------------------- mutexes

  /** Position of the mutex of that name, or |ms|. */
  function BuscarMutex(ms: seq<Mutex>, nombre: string): (j: nat)
    ensures j <= |ms|
    ensures j < |ms| ==> ms[j].nombre == nombre
    ensures forall k :: 0 <= k < j ==> ms[k].nombre != nombre
  {
    if |ms| == 0 then 0
    else if ms[0].nombre == nombre then 0
    else 1 + BuscarMutex(ms[1..], nombre)
  }

  /** `mayor_prioridad_del_mutex`: the best priority among the waiters; -1 stands for none. */
  function MayorPrioridad(m: Procesos, espera: seq<int>): int {
    if |espera| == 0 then -1
    else
      var mejor, x := MayorPrioridad(m, espera[..|espera| - 1]), Prioridad(m, espera[|espera| - 1]);
      if mejor == -1 || x < mejor then x else mejor
  }

  /** `aplicar_herencia`. */
  function Heredar(cfg: Config, s: Sistema, p: int, j: nat): Sistema
    requires p in s.procs && j < |s.mutexes|
  {
    var mejor := MayorPrioridad(s.procs, s.mutexes[j].espera);
    if mejor == -1 || mejor >= s.procs[p].prioridad then s
    else
      var q := s.procs[p].(prioridad := mejor);
      if s.procs[p].estado == Ready then Encolar(cfg, s, p, q) else s.(procs := s.procs[p := q])
  }

  /** The best of the original priority and those of the waiters on the first `n` mutexes it owns. */
  function MejorPropia(m: Procesos, ms: seq<Mutex>, p: int, n: nat): int
    requires p in m && n <= |ms|
  {
    if n == 0 then m[p].original
    else
      var mejor := MejorPropia(m, ms, p, n - 1);
      if ms[n - 1].dueno != Some(p) then mejor
      else
        var candidato := MayorPrioridad(m, ms[n - 1].espera);
        if candidato != -1 && candidato < mejor then candidato else mejor
  }

  /** `devolver_prioridad`. */
  function DevolverPrioridad(s: Sistema, p: int): Sistema
    requires p in s.procs
  {
    var mejor := MejorPropia(s.procs, s.mutexes, p, |s.mutexes|);
    if mejor == s.procs[p].prioridad then s
    else s.(procs := s.procs[p := s.procs[p].(prioridad := mejor)])
  }

  /** The first waiter becomes the owner. */
  function Entregado(mu: Mutex): Mutex
    requires mu.espera != []
  {
    mu.(dueno := Some(mu.espera[0]), espera := mu.espera[1..], otorgados := mu.otorgados + [mu.espera[0]])
  }

  function ConMutex(s: Sistema, j: nat, mu: Mutex): Sistema
    requires j < |s.mutexes|
  {
    s.(mutexes := s.mutexes[j := mu])
  }

  function MutexCreate(s: Sistema, p: int, nombre: string): Sistema {
    if !Ejecuta(s, p) || BuscarMutex(s.mutexes, nombre) < |s.mutexes| then s
    else s.(mutexes := s.mutexes + [Mutex(nombre, None, [], [], [])])
  }

  function Tomado(mu: Mutex, p: int): Mutex {
    mu.(dueno := Some(p), pedidos := mu.pedidos + [p], otorgados := mu.otorgados + [p])
  }

  function Pedido(mu: Mutex, p: int): Mutex {
    mu.(espera := mu.espera + [p], pedidos := mu.pedidos + [p])
  }

  /** The owner, if it is found, inherits from the waiters. */
  function HeredarDueno(cfg: Config, s: Sistema, j: nat): Sistema
    requires j < |s.mutexes|
  {
    if cfg.cmn && s.mutexes[j].dueno.Some? && Buscable(cfg, s, s.mutexes[j].dueno.value)
    then Heredar(cfg, s, s.mutexes[j].dueno.value, j) else s
  }

  function MutexLock(cfg: Config, s: Sistema, p: int, nombre: string): Sistema {
    var j := BuscarMutex(s.mutexes, nombre);
    if !Ejecuta(s, p) || j == |s.mutexes| then s
    else if s.mutexes[j].dueno.None? then ConMutex(s, j, Tomado(s.mutexes[j], p))
    else
      var s1 := HeredarDueno(cfg, ConMutex(s, j, Pedido(s.mutexes[j], p)), j);
      if Ejecuta(s1, p) then Bloquear(cfg, s1, p) else s1
  }

  /** The new owner inherits from those still waiting, and wakes up. */
  function Recibir(cfg: Config, s: Sistema, w: int, j: nat, ahora: int): Sistema
    requires w in s.procs && j < |s.mutexes|
  {
    var s1 := if cfg.cmn then Heredar(cfg, s, w, j) else s;
    Despertar(cfg, s1, w, ahora)
  }

  function MutexUnlock(cfg: Config, s: Sistema, p: int, nombre: string, ahora: int): Sistema {
    var j := BuscarMutex(s.mutexes, nombre);
    if !Ejecuta(s, p) || j == |s.mutexes| then s
    else if s.mutexes[j].espera == [] then
      var s1 := ConMutex(s, j, s.mutexes[j].(dueno := None));
      if cfg.cmn then DevolverPrioridad(s1, p) else s1
    else
      var w := s.mutexes[j].espera[0];
      var s1 := ConMutex(s, j, Entregado(s.mutexes[j]));
      var s2 := if cfg.cmn then DevolverPrioridad(s1, p) else s1;
      if w in s.procs then Recibir(cfg, s2, w, j, ahora) else s2
  }

  /** A dead owner's mutex goes to its first waiter, or becomes free. */
  function Cedido(cfg: Config, s: Sistema, muerto: int, j: nat, ahora: int): Sistema
    requires j < |s.mutexes|
  {
    var mu := s.mutexes[j];
    if mu.dueno != Some(muerto) then s
    else if mu.espera == [] then ConMutex(s, j, mu.(dueno := None))
    else if mu.espera[0] !in s.procs then ConMutex(s, j, Entregado(mu))
    else Recibir(cfg, ConMutex(s, j, Entregado(mu)), mu.espera[0], j, ahora)
  }

  /** The same, folded. */
  ghost function Ceder(cfg: Config, s: Sistema, muerto: int, j: nat, ahora: int): (r: Sistema)
    requires j < |s.mutexes|
    ensures |r.mutexes| == |s.mutexes|
    ensures forall z {:trigger Desplegar(z)} :: Desplegar(z) ==> r == Cedido(cfg, s, muerto, j, ahora)
  {
    var w := Cedido(cfg, s, muerto, j, ahora);
    assert |w.mutexes| == |s.mutexes|;
    var r: Sistema :| |r.mutexes| == |s.mutexes| &&
      forall z {:trigger Desplegar(z)} :: Desplegar(z) ==> r == Cedido(cfg, s, muerto, j, ahora);
    r
  }

  /** `liberar_mutex_del_proceso`, over the first `n` mutexes. */
  ghost function CederHasta(cfg: Config, s: Sistema, muerto: int, n: nat, ahora: int): (r: Sistema)
    requires n <= |s.mutexes|
    ensures |r.mutexes| == |s.mutexes|
  {
    if n == 0 then s else Ceder(cfg, CederHasta(cfg, s, muerto, n - 1, ahora), muerto, n - 1, ahora)
  }

  /** EXIT or a segmentation fault. */
  ghost function Terminar(cfg: Config, s: Sistema, p: int, ahora: int): Sistema {
    if !Ejecuta(s, p) then s
    else
      var s1 := s.(procs := s.procs - {p}, listas := Sacado(cfg, s.procs, s.listas, p));
      Devolver(CederHasta(cfg, s1, p, |s.mutexes|, ahora), s.procs[p].cpu.value)
  }

  // ---------------------------------------------------------------- compaction

  function AvisarATodos(m: Procesos, exec: seq<int>): seq<Aviso> {
    if |exec| == 0 then []
    else
      var x := exec[|exec| - 1];
      AvisarATodos(m, exec[..|exec| - 1]) + if x in m && m[x].cpu.Some? then [Aviso(m[x].cpu.value, x)] else []
  }

  /** Kernel Memory asked to compact for `p`: planning stops and every other CPU is interrupted. */
  function Compactar(cfg: Config, s: Sistema, p: int): Sistema {
    if !Ejecuta(s, p) then s
    else
      var q := s.procs[p].(estado := Block, cpu := None);
      var m, l := s.procs[p := q], Mover(cfg, s.procs, s.listas, p, q);
      s.(procs := m, listas := l, cpus := s.cpus.(reservada := s.procs[p].cpu), esperando := Some(p), compactando := true,
         sem := s.sem.(puede := s.sem.puede - 1), avisos := s.avisos + AvisarATodos(m, l.exec))
  }

  function FinCompactacion(cfg: Config, s: Sistema): Sistema {
    var s1 := if s.esperando.Some? && s.esperando.value in s.procs then
                var p := s.esperando.value;
                var q := s.procs[p].(estado := Exec, cpu := s.cpus.reservada);
                s.(procs := s.procs[p := q], listas := Mover(cfg, s.procs, s.listas, p, q),
                   cpus := s.cpus.(reservada := None), esperando := None)
              else s;
    s1.(compactando := false, sem := s1.sem.(puede := s1.sem.puede + 1))
  }
}
