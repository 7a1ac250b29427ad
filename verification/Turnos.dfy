/**
  Who goes first, by positions: in a ready queue, among the free CPUs, and in the queues of
  the devices.
*/
module Turnos {
  import opened Tipos
  import opened Listas
  import opened Planificacion
  import opened Sistemas
  import opened Pasos
  import opened Invariantes
  import opened Ejecuciones
  import opened Formas
  import opened Equidad

  // ---------------------------------------------------------------- positions in a list

  /** `a` stands somewhere ahead of `b`. */
  predicate Antes(l: seq<int>, a: int, b: int) {
    exists i, j :: 0 <= i < j < |l| && l[i] == a && l[j] == b
  }

  /** Those in both lists stand in the same order. */
  ghost predicate RespetaOrden(l: seq<int>, r: seq<int>) {
    forall a, b {:trigger Antes(l, a, b)} :: Antes(l, a, b) && a in r && b in r ==> Antes(r, a, b)
  }

  /** Whoever is new stands behind all those who were there. */
  ghost predicate EntranDetras(l: seq<int>, r: seq<int>) {
    forall a, b {:trigger Antes(r, a, b)} :: a in l && a in r && b !in l && b in r ==> Antes(r, a, b)
  }

  /** Only `p` is new, ahead of all the others. */
  ghost predicate EntraDelante(l: seq<int>, r: seq<int>, p: int) {
    && (forall b {:trigger b in r} :: b in r ==> b in l || b == p)
    && (forall a {:trigger Antes(r, p, a)} :: a in l && p in r && p !in l ==> a in r && Antes(r, p, a))
  }

  lemma {:induction false} AgregarRespeta(l: seq<int>, t: seq<int>)
    ensures RespetaOrden(l, l + t) && EntranDetras(l, l + t)
  {
    var r := l + t;
    forall a, b {:trigger Antes(l, a, b)} | Antes(l, a, b) ensures Antes(r, a, b) {
      var i, j :| 0 <= i < j < |l| && l[i] == a && l[j] == b;
      assert r[i] == a && r[j] == b;
    }
    forall a, b {:trigger Antes(r, a, b)} | a in l && b !in l && b in r ensures Antes(r, a, b) {
      var i :| 0 <= i < |l| && l[i] == a;
      var j :| 0 <= j < |r| && r[j] == b;
      assert r[i] == a && j >= |l|;
    }
  }

  lemma {:induction false} FrenteRespeta(l: seq<int>, p: int)
    ensures RespetaOrden(l, [p] + l) && EntraDelante(l, [p] + l, p)
  {
    var r := [p] + l;
    forall a, b {:trigger Antes(l, a, b)} | Antes(l, a, b) ensures Antes(r, a, b) {
      var i, j :| 0 <= i < j < |l| && l[i] == a && l[j] == b;
      assert r[i + 1] == a && r[j + 1] == b;
    }
    forall a {:trigger Antes(r, p, a)} | a in l ensures a in r && Antes(r, p, a) {
      var i :| 0 <= i < |l| && l[i] == a;
      assert r[0] == p && r[i + 1] == a;
    }
  }

  lemma {:induction false} QuitarAntes(l: seq<int>, x: int, a: int, b: int)
    requires Antes(l, a, b) && a != x && b != x
    ensures Antes(Quitar(l, x), a, b)
    decreases |l|
  {
    var i, j :| 0 <= i < j < |l| && l[i] == a && l[j] == b;
    var r := Quitar(l, x);
    if l[0] == x {
      assert r[i - 1] == a && r[j - 1] == b;
    } else if i > 0 {
      assert l[1..][i - 1] == a && l[1..][j - 1] == b;
      QuitarAntes(l[1..], x, a, b);
      var u, v :| 0 <= u < v < |Quitar(l[1..], x)| && Quitar(l[1..], x)[u] == a && Quitar(l[1..], x)[v] == b;
      assert r[u + 1] == a && r[v + 1] == b;
    } else {
      assert l[1..][j - 1] == b;
      QuitarQueda(l[1..], x, b);
      var v :| 0 <= v < |Quitar(l[1..], x)| && Quitar(l[1..], x)[v] == b;
      assert r[0] == a && r[v + 1] == b;
    }
  }

  lemma {:induction false} QuitarQueda(l: seq<int>, x: int, b: int)
    requires b in l && b != x
    ensures b in Quitar(l, x)
    decreases |l|
  {
    if l[0] != x && l[0] != b {
      QuitarQueda(l[1..], x, b);
    }
  }

  /** A removal keeps the order of the others. */
  lemma {:induction false} QuitarRespeta(l: seq<int>, x: int)
    requires x in l && Veces(l, x) <= 1
    ensures RespetaOrden(l, Quitar(l, x)) && EntranDetras(l, Quitar(l, x)) && x !in Quitar(l, x)
    ensures forall y :: y in Quitar(l, x) ==> y in l
  {
    var r := Quitar(l, x);
    VecesQuitar(l, x, x);
    VecesMiembro(r, x);
    forall a, b {:trigger Antes(l, a, b)} | Antes(l, a, b) && a in r && b in r ensures Antes(r, a, b) {
      QuitarAntes(l, x, a, b);
    }
    forall b | b in r ensures b in l {
      VecesQuitar(l, x, b);
      VecesMiembro(r, b);
      VecesMiembro(l, b);
    }
  }

  lemma {:induction false} PrimeroSale(l: seq<int>)
    requires |l| > 0 && Veces(l, l[0]) <= 1
    ensures RespetaOrden(l, l[1..]) && EntranDetras(l, l[1..]) && l[0] !in l[1..]
  {
    assert Quitar(l, l[0]) == l[1..];
    QuitarRespeta(l, l[0]);
  }

  // ---------------------------------------------------------------- entering a ready queue

  /** The interrupt that entering sends: to the first of the running processes of the worst
      priority, on its CPU, exactly when queues preempt and that priority is strictly worse. */
  ghost predicate AvisaAlPeor(cfg: Config, s: Sistema, s': Sistema, p: int)
    requires p in s.procs
  {
    var exec, v := s.listas.exec, s.procs[p].prioridad;
    if cfg.cmn && cfg.desalojo && 0 <= v < |cfg.rr| && exists i :: 0 <= i < |exec| && Prioridad(s.procs, exec[i]) > v then
      && |s'.avisos| == |s.avisos| + 1 && s.avisos <= s'.avisos
      && var a := s'.avisos[|s.avisos|];
      && a.pid in s.procs && s.procs[a.pid].cpu == Some(a.cpu) && EsElPeor(s.procs, exec, a.pid)
    else s'.avisos == s.avisos
  }

  /** Entering: last in the queue of its priority, or in the list that is never planned, and the
      other lists and queues as they were. */
  lemma {:induction false} EntrarEnReady(cfg: Config, s: Sistema, p: int)
    requires ConfigValida(cfg) && |s.listas.colas| == |cfg.rr| && p in s.procs && s.procs[p].estado == Ready
    requires forall i :: 0 <= i < |s.listas.exec| ==> s.listas.exec[i] in s.procs && s.procs[s.listas.exec[i]].cpu.Some?
    ensures var s', c := Agregado(cfg, s, p), if cfg.cmn then s.procs[p].prioridad else 0;
      && s' == s.(listas := s'.listas, avisos := s'.avisos)
      && s'.listas == (if 0 <= c < |s.listas.colas| then s.listas.(colas := s'.listas.colas) else s.listas.(invalida := s.listas.invalida + [p]))
      && |s'.listas.colas| == |s.listas.colas|
      && (forall i :: 0 <= i < |s.listas.colas| ==> s'.listas.colas[i] == s.listas.colas[i] + if i == c then [p] else [])
      && AvisaAlPeor(cfg, s, s', p)
  {
    PeorEsPeor(s.procs, s.listas.exec);
  }

  // ---------------------------------------------------------------- one step on the ready queues

  /** Every queue is what it was with something, or nothing, after it. */
  ghost predicate CrecenColas(a: Listados, b: Listados) {
    |a.colas| == |b.colas| && forall i :: 0 <= i < |a.colas| ==> a.colas[i] <= b.colas[i]
  }

  /** And so is the list of free CPUs. */
  ghost predicate SoloCrecen(s: Sistema, s': Sistema) {
    CrecenColas(s.listas, s'.listas) && s.cpus.libres <= s'.cpus.libres
  }

  lemma {:induction false} CrecenSiguen(a: Sistema, b: Sistema, c: Sistema)
    requires SoloCrecen(a, b) && SoloCrecen(b, c)
    ensures SoloCrecen(a, c)
  {
    forall i | 0 <= i < |a.listas.colas| ensures a.listas.colas[i] <= c.listas.colas[i] {
      assert a.listas.colas[i] <= b.listas.colas[i] && b.listas.colas[i] <= c.listas.colas[i];
    }
  }

  lemma {:induction false} AgregadoCrece(cfg: Config, s: Sistema, p: int)
    requires p in s.procs
    ensures SoloCrecen(s, Agregado(cfg, s, p))
  {
  }

  lemma {:induction false} NacerCrece(cfg: Config, s: Sistema, prioridad: int, creado: bool)
    requires Inv(cfg, s)
    ensures SoloCrecen(s, Tras(cfg, s, Inicia(prioridad, creado)))
  {
    NacerForma(cfg, s, prioridad, creado);
    if creado {
      var q := Proceso(prioridad, prioridad, Ready, None, Ninguno, 0);
      var s1 := s.(proximoPid := s.proximoPid + 1);
      AgregadoCrece(cfg, s1.(procs := s.procs[s.proximoPid := q]), s.proximoPid);
    }
  }

  lemma {:induction false} DesconectarCrece(cfg: Config, s: Sistema, c: int)
    requires Inv(cfg, s)
    ensures CrecenColas(s.listas, Tras(cfg, s, Desconecta(c)).listas)
    ensures Tras(cfg, s, Desconecta(c)).cpus == SinCpu(s, c).cpus
  {
    DesconectarForma(cfg, s, c);
    var r, s1 := EjecutandoEn(s.procs, s.listas.exec, c), SinCpu(s, c);
    if r.Some? {
      var q := s.procs[r.value].(estado := Ready, cpu := None, reloj := Ninguno);
      AgregadoCrece(cfg, s1.(procs := s1.procs[r.value := q], listas := s1.listas.(exec := Quitar(s1.listas.exec, r.value))), r.value);
    }
  }

  lemma {:induction false} DespertarCrece(cfg: Config, s: Sistema, p: int, ahora: int)
    requires p in s.procs
    ensures SoloCrecen(s, DespertarP(cfg, s, p, ahora))
  {
    DespertarForma(cfg, s, p, ahora);
    if s.procs[p].estado == Block {
      var q := s.procs[p].(reloj := Ninguno, estado := Ready);
      AgregadoCrece(cfg, s.(procs := s.procs[p := q], listas := s.listas.(block := Quitar(s.listas.block, p))), p);
    }
  }

  lemma {:induction false} RecibirCrece(cfg: Config, s: Sistema, w: int, j: nat, ahora: int)
    requires w in s.procs && j < |s.mutexes| && Bloqueado(s.procs[w])
    ensures SoloCrecen(s, RecibirP(cfg, s, w, j, ahora))
  {
    if cfg.cmn {
      HeredarForma(cfg, s, w, j);
      DespertarCrece(cfg, HeredarP(cfg, s, w, j), w, ahora);
    } else {
      DespertarCrece(cfg, s, w, ahora);
    }
  }

  lemma {:induction false} RondaCrece(cfg: Config, s: Sistema, orden: seq<int>, resp: seq<bool>)
    requires Inv(cfg, s) && EsOrden(s.procs, s.listas.suspReady, orden)
    ensures SoloCrecen(s, Tras(cfg, s, HayMemoria(orden, resp)))
  {
    var s1 := s.(listas := s.listas.(suspReady := orden));
    OrdenForma(cfg, s, orden);
    RondaHastaCrece(cfg, s1, orden, resp, |orden|);
    DessuspenderFin(cfg, s, orden, resp);
  }

  lemma {:induction false} RondaHastaCrece(cfg: Config, s: Sistema, orden: seq<int>, resp: seq<bool>, n: nat)
    requires n <= |orden| && Dessuspendiendo(cfg, s, orden, 0)
    ensures Dessuspendiendo(cfg, DessuspenderP(cfg, s, orden, resp, n), orden, n)
    ensures SoloCrecen(s, DessuspenderP(cfg, s, orden, resp, n))
    decreases n
  {
    DessuspenderInicio(cfg, s, orden, resp);
    if n > 0 {
      RondaHastaCrece(cfg, s, orden, resp, n - 1);
      DessuspenderForma(cfg, s, orden, resp, n - 1);
      var a, p := DessuspenderP(cfg, s, orden, resp, n - 1), orden[n - 1];
      AgregadoCrece(cfg, a.(procs := a.procs[p := a.procs[p].(estado := Ready)],
                            listas := a.listas.(suspReady := Quitar(a.listas.suspReady, p))), p);
      CrecenSiguen(s, a, DessuspenderP(cfg, s, orden, resp, n));
    }
  }

  lemma {:induction false} FinIoCrece(cfg: Config, s: Sistema, p: int, ok: bool, ahora: int, orden: seq<int>, resp: seq<bool>)
    requires Inv(cfg, s) && Habilitado(cfg, s, TerminaIo(p, ok, ahora, orden, resp)) && p in s.io.servicio && p in s.procs
    ensures SoloCrecen(s, Tras(cfg, s, TerminaIo(p, ok, ahora, orden, resp)))
  {
    FinIoForma(cfg, s, p, ok, ahora);
    if ok {
      var s1 := s.(io := s.io.(servicio := Quitar(s.io.servicio, p)));
      DespertarCrece(cfg, s1, p, ahora);
      if s.procs[p].estado == SuspBlock {
        DespiertaBien(cfg, s, p, ahora);
        RondaTrasDespertar(cfg, s, p, ok, ahora, orden, resp);
        RondaCrece(cfg, DespertarP(cfg, s1, p, ahora), orden, resp);
        CrecenSiguen(s1, DespertarP(cfg, s1, p, ahora), Tras(cfg, DespertarP(cfg, s1, p, ahora), HayMemoria(orden, resp)));
      }
    }
  }

  lemma {:induction false} RondaTrasDespertar(cfg: Config, s: Sistema, p: int, ok: bool, ahora: int, orden: seq<int>, resp: seq<bool>)
    requires Habilitado(cfg, s, TerminaIo(p, ok, ahora, orden, resp)) && p in s.io.servicio && p in s.procs
    requires ok && s.procs[p].estado == SuspBlock
    ensures var s2 := DespertarP(cfg, s.(io := s.io.(servicio := Quitar(s.io.servicio, p))), p, ahora);
      EsOrden(s2.procs, s2.listas.suspReady, orden)
  {
    assert Desplegar(0);
  }

  lemma {:induction false} UnlockCrece(cfg: Config, s: Sistema, p: int, nombre: string, ahora: int)
    requires Inv(cfg, s)
    ensures SoloCrecen(s, Tras(cfg, s, Unlock(p, nombre, ahora)))
  {
    UnlockForma(cfg, s, p, nombre, ahora);
    var j := BuscarMutex(s.mutexes, nombre);
    if Ejecuta(s, p) && j < |s.mutexes| && s.mutexes[j].espera != [] {
      var w, s1 := s.mutexes[j].espera[0], ConMutex(s, j, Entregado(s.mutexes[j]));
      RecibirCrece(cfg, if cfg.cmn then DevolverPrioridad(s1, p) else s1, w, j, ahora);
    }
  }

  lemma {:induction false} CederCrece(cfg: Config, s: Sistema, muerto: int, n: nat, ahora: int, c0: int)
    requires EnCesion(cfg, s, muerto, c0) && n <= |s.mutexes|
    ensures SoloCrecen(s, CederHasta(cfg, s, muerto, n, ahora))
    decreases n
  {
    if n > 0 {
      CederCrece(cfg, s, muerto, n - 1, ahora, c0);
      CederHastaInv(cfg, s, muerto, n - 1, ahora, c0);
      var a := CederHasta(cfg, s, muerto, n - 1, ahora);
      CederUnoCrece(cfg, a, muerto, n - 1, ahora, c0);
      CrecenSiguen(s, a, CederHasta(cfg, s, muerto, n, ahora));
    }
  }

  lemma {:induction false} CederUnoCrece(cfg: Config, s: Sistema, muerto: int, j: nat, ahora: int, c0: int)
    requires EnCesion(cfg, s, muerto, c0) && j < |s.mutexes|
    ensures SoloCrecen(s, Ceder(cfg, s, muerto, j, ahora))
  {
    CederForma(cfg, s, muerto, j, ahora, c0);
    var mu := s.mutexes[j];
    if mu.dueno == Some(muerto) && mu.espera != [] {
      RecibirCrece(cfg, ConMutex(s, j, Entregado(mu)), mu.espera[0], j, ahora);
    }
  }

  lemma {:induction false} TerminarCrece(cfg: Config, s: Sistema, p: int, ahora: int)
    requires Inv(cfg, s)
    ensures SoloCrecen(s, Tras(cfg, s, Termina(p, ahora)))
  {
    TerminarForma(cfg, s, p, ahora);
    if Ejecuta(s, p) {
      var s1 := s.(procs := s.procs - {p}, listas := s.listas.(exec := Quitar(s.listas.exec, p)));
      CederCrece(cfg, s1, p, |s.mutexes|, ahora, s.procs[p].cpu.value);
    }
  }

  /** Events that leave the queues alone or add to their ends. */
  predicate Encola(e: Evento) {
    !e.Planifica? && !e.Desaloja? && !e.Lock? && !e.Desconecta?
  }

  lemma {:induction false} PasoCrece(cfg: Config, s: Sistema, e: Evento)
    requires Inv(cfg, s) && Habilitado(cfg, s, e) && Encola(e)
    ensures SoloCrecen(s, Tras(cfg, s, e))
  {
    match e
    case Inicia(prioridad, creado) => NacerCrece(cfg, s, prioridad, creado);
    case InitProc(p, prioridad, creado) =>
      InitForma(cfg, s, p, prioridad, creado);
      NacerCrece(cfg, s, prioridad, creado);
    case FinTimerQuantum(p) => QuantumForma(cfg, s, p);
    case FinTimerSuspension(p) => SuspensionForma(cfg, s, p);
    case Conecta(c) => ConectarForma(cfg, s, c);
    case PideIo(p, t) =>
      PedirIoForma(cfg, s, p, t);
      if Ejecuta(s, p) {
        BloquearForma(cfg, s, p);
      }
    case TomaIo(t) => QuietoSinPedidos(cfg, s, t);
    case TerminaIo(p, ok, ahora, orden, resp) =>
      if p in s.io.servicio && p in s.procs {
        FinIoCrece(cfg, s, p, ok, ahora, orden, resp);
      } else {
        FinIoAjeno(cfg, s, p, ok, ahora, orden, resp);
      }
    case CreaMutex(p, nombre) => CrearMutexForma(cfg, s, p, nombre);
    case Unlock(p, nombre, ahora) => UnlockCrece(cfg, s, p, nombre, ahora);
    case Termina(p, ahora) => TerminarCrece(cfg, s, p, ahora);
    case PideCompactar(p) =>
      if Ejecuta(s, p) {
        CompactarForma(cfg, s, p);
      } else {
        CompactarAjeno(cfg, s, p);
      }
    case TerminaCompactar => FinCompactacionForma(cfg, s);
    case HayMemoria(orden, resp) => RondaCrece(cfg, s, orden, resp);
  }

  lemma {:induction false} QuietoSinPedidos(cfg: Config, s: Sistema, t: TipoIo)
    ensures Tras(cfg, s, TomaIo(t)).listas == s.listas && Tras(cfg, s, TomaIo(t)).cpus == s.cpus
  {
    assert Desplegar(0);
  }

  lemma {:induction false} FinIoAjeno(cfg: Config, s: Sistema, p: int, ok: bool, ahora: int, orden: seq<int>, resp: seq<bool>)
    requires p !in s.io.servicio || p !in s.procs
    ensures Tras(cfg, s, TerminaIo(p, ok, ahora, orden, resp)) == s
  {
    assert Desplegar(0);
  }

  lemma {:induction false} CompactarAjeno(cfg: Config, s: Sistema, p: int)
    requires !Ejecuta(s, p)
    ensures Tras(cfg, s, PideCompactar(p)) == s
  {
    assert Desplegar(0);
  }

  lemma {:induction false} UnaVez(cfg: Config, s: Sistema, i: nat, x: int)
    requires Inv(cfg, s) && i < |s.listas.colas|
    ensures Veces(s.listas.colas[i], x) <= 1
  {
    assert Desplegar(0);
    assert Cuantos(s.listas, EnCola(i), x) <= 1;
  }

  /** What one step does to one ready queue: those who stay keep their order; whoever comes in
      stands behind all of them, or ahead of all of them when `vuelve` is the process a CPU
      gives back during a compaction; and only the head leaves, unless a lock raised the one
      that does to a better queue. */
  ghost predicate Turno(l: seq<int>, r: seq<int>, vuelve: Option<int>, e: Evento) {
    && RespetaOrden(l, r)
    && (match vuelve case None => EntranDetras(l, r) case Some(p) => EntraDelante(l, r, p))
    && forall a {:trigger a in r} :: a in l && a !in r ==> e.Lock? || (e.Planifica? && |l| > 0 && a == l[0])
  }

  function Vuelve(s: Sistema, e: Evento): Option<int> {
    if e.Desaloja? && s.compactando then Some(e.p) else None
  }

  ghost predicate Turnos(a: Listados, b: Listados, vuelve: Option<int>, e: Evento) {
    |a.colas| == |b.colas| && forall i :: 0 <= i < |a.colas| ==> Turno(a.colas[i], b.colas[i], vuelve, e)
  }

  lemma {:induction false} Crecido(l: seq<int>, r: seq<int>, e: Evento)
    requires l <= r
    ensures Turno(l, r, None, e)
    ensures l == r ==> forall p :: Turno(l, r, Some(p), e)
  {
    assert r == l + r[|l|..];
    AgregarRespeta(l, r[|l|..]);
  }

  lemma {:induction false} CrecidoTurnos(a: Listados, b: Listados, e: Evento)
    requires CrecenColas(a, b)
    ensures Turnos(a, b, None, e)
  {
    forall i | 0 <= i < |a.colas| ensures Turno(a.colas[i], b.colas[i], None, e) {
      Crecido(a.colas[i], b.colas[i], e);
    }
  }

  lemma {:induction false} PlanificaTurnos(cfg: Config, s: Sistema)
    requires Inv(cfg, s) && PuedePlanificar(s)
    ensures Turnos(s.listas, Tras(cfg, s, Planifica).listas, None, Planifica)
  {
    PlanificarForma(cfg, s);
    var c := PrimeraConProcesos(s.listas.colas, 0);
    var b := Tras(cfg, s, Planifica).listas;
    forall i | 0 <= i < |s.listas.colas| ensures Turno(s.listas.colas[i], b.colas[i], None, Planifica) {
      if i == c {
        UnaVez(cfg, s, c, s.listas.colas[c][0]);
        PrimeroSale(s.listas.colas[c]);
      } else {
        Crecido(s.listas.colas[i], b.colas[i], Planifica);
      }
    }
  }

  lemma {:induction false} DesalojaTurnos(cfg: Config, s: Sistema, p: int)
    requires Inv(cfg, s)
    ensures Turnos(s.listas, Tras(cfg, s, Desaloja(p)).listas, Vuelve(s, Desaloja(p)), Desaloja(p))
  {
    FinQuantumForma(cfg, s, p);
    var b, e := Tras(cfg, s, Desaloja(p)).listas, Desaloja(p);
    if Ejecuta(s, p) && !s.compactando {
      var q := s.procs[p].(estado := Ready, cpu := None);
      AgregadoCrece(cfg, s.(procs := s.procs[p := q], listas := s.listas.(exec := Quitar(s.listas.exec, p))), p);
      CrecidoTurnos(s.listas, b, e);
    } else if Ejecuta(s, p) {
      forall i | 0 <= i < |s.listas.colas| ensures Turno(s.listas.colas[i], b.colas[i], Some(p), e) {
        Crecido(s.listas.colas[i], s.listas.colas[i], e);
        FrenteRespeta(s.listas.colas[i], p);
        assert forall a :: a in s.listas.colas[i] ==> a in [p] + s.listas.colas[i];
      }
    } else {
      forall i | 0 <= i < |s.listas.colas| ensures Turno(s.listas.colas[i], b.colas[i], Vuelve(s, e), e) {
        Crecido(s.listas.colas[i], s.listas.colas[i], e);
      }
    }
  }

  lemma {:induction false} HeredaTurnos(cfg: Config, s: Sistema, h: int, j: nat, e: Evento)
    requires cfg.cmn && h in s.procs && j < |s.mutexes| && e.Lock?
    requires s.procs[h].estado == Ready ==>
               && Nivel(cfg, s.procs[h].prioridad).Some? && |s.listas.colas| == |cfg.rr|
               && h in s.listas.colas[s.procs[h].prioridad] && Veces(s.listas.colas[s.procs[h].prioridad], h) <= 1
    ensures Turnos(s.listas, HeredarP(cfg, s, h, j).listas, None, e)
  {
    HeredarForma(cfg, s, h, j);
    var b := HeredarP(cfg, s, h, j).listas;
    forall i | 0 <= i < |s.listas.colas| ensures |s.listas.colas| == |b.colas| && Turno(s.listas.colas[i], b.colas[i], None, e) {
      Crecido(s.listas.colas[i], s.listas.colas[i], e);
      if s.procs[h].estado == Ready && i == s.procs[h].prioridad {
        QuitarRespeta(s.listas.colas[i], h);
      } else {
        Crecido(s.listas.colas[i], b.colas[i], e);
      }
    }
  }

  lemma {:induction false} LockTurnos(cfg: Config, s: Sistema, p: int, nombre: string)
    requires Inv(cfg, s)
    ensures Turnos(s.listas, Tras(cfg, s, Lock(p, nombre)).listas, None, Lock(p, nombre))
  {
    LockForma(cfg, s, p, nombre);
    var j, e := BuscarMutex(s.mutexes, nombre), Lock(p, nombre);
    CrecidoTurnos(s.listas, s.listas, e);
    if Ejecuta(s, p) && j < |s.mutexes| && s.mutexes[j].dueno.Some? {
      var h, s0 := s.mutexes[j].dueno.value, ConMutex(s, j, Pedido(s.mutexes[j], p));
      BloquearForma(cfg, if cfg.cmn then HeredarP(cfg, s0, h, j) else s0, p);
      if cfg.cmn {
        ColasBien(cfg, s);
        ListaDice(cfg, s, EnCola(Nivel(cfg, s.procs[h].prioridad).value), h);
        if s.procs[h].estado == Ready {
          UnaVez(cfg, s, s.procs[h].prioridad, h);
        }
        HeredaTurnos(cfg, s0, h, j, e);
      }
    }
  }

  /** Every step treats every ready queue so. */
  lemma {:induction false} PasoTurnos(cfg: Config, s: Sistema, e: Evento)
    requires Inv(cfg, s) && Habilitado(cfg, s, e)
    ensures Turnos(s.listas, Siguiente(cfg, s, e).listas, Vuelve(s, e), e)
  {
    TrasEsSiguiente(cfg, s, e);
    match e
    case Planifica => PlanificaTurnos(cfg, s);
    case Desaloja(p) => DesalojaTurnos(cfg, s, p);
    case Lock(p, nombre) => LockTurnos(cfg, s, p, nombre);
    case Desconecta(c) =>
      DesconectarCrece(cfg, s, c);
      CrecidoTurnos(s.listas, Tras(cfg, s, e).listas, e);
    case _ =>
      PasoCrece(cfg, s, e);
      CrecidoTurnos(s.listas, Tras(cfg, s, e).listas, e);
  }

  // ---------------------------------------------------------------- over runs

  /** `b` is not put ahead of its queue by a CPU that returns it during a compaction. */
  predicate NoVuelve(s: Sistema, e: Evento, b: int) {
    Vuelve(s, e) != Some(b)
  }

  /**
    First come, first served: whoever is ahead of `b` in a ready queue stays ahead of it, at
    every later time, for as long as it is in that queue, whatever happens to `b`, which may
    even leave and come back, unless a CPU returns it during a compaction.
  */
  lemma {:induction false} PrimeroEnLlegar(cfg: Config, traza: seq<Sistema>, es: seq<Evento>, i: nat, n: nat, c: nat, a: int, b: int)
    requires ConfigValida(cfg) && Corrida(cfg, traza, es) && i <= n <= |es|
    requires forall k {:trigger traza[k]} :: i <= k <= n ==> c < |traza[k].listas.colas| && a in traza[k].listas.colas[c]
    requires forall k {:trigger es[k]} :: i <= k < n ==> NoVuelve(traza[k], es[k], b)
    requires Antes(traza[i].listas.colas[c], a, b)
    ensures b in traza[n].listas.colas[c] ==> Antes(traza[n].listas.colas[c], a, b)
    decreases n
  {
    if i < n {
      PrimeroEnLlegar(cfg, traza, es, i, n - 1, c, a, b);
      Alcanzable(cfg, traza, es, n - 1);
      PasoTurnos(cfg, traza[n - 1], es[n - 1]);
      var l, r := traza[n - 1].listas.colas[c], traza[n].listas.colas[c];
      assert Turno(l, r, Vuelve(traza[n - 1], es[n - 1]), es[n - 1]);
      if b in l {
        assert Antes(l, a, b);
      }
    }
  }

  /** So no dispatch ever takes `b` from that queue while `a` is in it. */
  lemma {:induction false} NadieSeAdelanta(cfg: Config, traza: seq<Sistema>, es: seq<Evento>, i: nat, n: nat, c: nat, a: int, b: int)
    requires ConfigValida(cfg) && Corrida(cfg, traza, es) && i <= n < |es| && es[n] == Planifica
    requires forall k {:trigger traza[k]} :: i <= k <= n ==> c < |traza[k].listas.colas| && a in traza[k].listas.colas[c]
    requires forall k {:trigger es[k]} :: i <= k < n ==> NoVuelve(traza[k], es[k], b)
    requires Antes(traza[i].listas.colas[c], a, b) && b in traza[n].listas.colas[c]
    ensures c < |traza[n + 1].listas.colas| && b in traza[n + 1].listas.colas[c]
  {
    PrimeroEnLlegar(cfg, traza, es, i, n, c, a, b);
    Alcanzable(cfg, traza, es, n);
    PasoTurnos(cfg, traza[n], es[n]);
    var l, r := traza[n].listas.colas[c], traza[n + 1].listas.colas[c];
    assert Turno(l, r, None, Planifica);
    UnaVez(cfg, traza[n], c, l[0]);
    var u, v :| 0 <= u < v < |l| && l[u] == a && l[v] == b;
    Distintos(l, 0, v);
  }

  // ---------------------------------------------------------------- free CPUs

  /** Free CPUs keep their order, one that becomes free goes last, and only the first is ever
      taken for a process; any may leave the system. */
  ghost predicate TurnoCpus(l: seq<int>, r: seq<int>, e: Evento) {
    && RespetaOrden(l, r) && EntranDetras(l, r)
    && forall c {:trigger c in r} :: c in l && c !in r ==> e == Desconecta(c) || (e.Planifica? && |l| > 0 && c == l[0])
  }

  lemma {:induction false} CpuUnaVez(cfg: Config, s: Sistema, c: int)
    requires Inv(cfg, s)
    ensures Veces(s.cpus.libres, c) <= 1
  {
    assert Desplegar(0);
    assert Atada(s.procs, s.listas.exec, s.cpus, c) + 0 == Veces(s.cpus.conectadas, c);
  }

  lemma {:induction false} CpuDeMas(l: seq<int>, r: seq<int>, e: Evento)
    requires l <= r
    ensures TurnoCpus(l, r, e)
  {
    Crecido(l, r, e);
  }

  lemma {:induction false} LockCpus(cfg: Config, s: Sistema, p: int, nombre: string)
    requires Inv(cfg, s)
    ensures s.cpus.libres <= Tras(cfg, s, Lock(p, nombre)).cpus.libres
  {
    LockForma(cfg, s, p, nombre);
    var j := BuscarMutex(s.mutexes, nombre);
    if Ejecuta(s, p) && j < |s.mutexes| && s.mutexes[j].dueno.Some? {
      var h, s0 := s.mutexes[j].dueno.value, ConMutex(s, j, Pedido(s.mutexes[j], p));
      ColasBien(cfg, s);
      BloquearForma(cfg, if cfg.cmn then HeredarP(cfg, s0, h, j) else s0, p);
      if cfg.cmn {
        HeredarForma(cfg, s0, h, j);
      }
    }
  }

  lemma {:induction false} PasoCpus(cfg: Config, s: Sistema, e: Evento)
    requires Inv(cfg, s) && Habilitado(cfg, s, e)
    ensures TurnoCpus(s.cpus.libres, Siguiente(cfg, s, e).cpus.libres, e)
  {
    TrasEsSiguiente(cfg, s, e);
    var l := s.cpus.libres;
    match e
    case Planifica =>
      PlanificarForma(cfg, s);
      CpuUnaVez(cfg, s, l[0]);
      PrimeroSale(l);
    case Desaloja(p) =>
      FinQuantumForma(cfg, s, p);
      CpuDeMas(l, Tras(cfg, s, e).cpus.libres, e);
    case Lock(p, nombre) =>
      LockCpus(cfg, s, p, nombre);
      CpuDeMas(l, Tras(cfg, s, e).cpus.libres, e);
    case Desconecta(c) =>
      DesconectarCrece(cfg, s, c);
      if c in l {
        CpuUnaVez(cfg, s, c);
        QuitarRespeta(l, c);
        forall x | x in l && x != c ensures x in Quitar(l, c) {
          QuitarQueda(l, c, x);
        }
      } else {
        CpuDeMas(l, l, e);
      }
    case _ =>
      PasoCrece(cfg, s, e);
      CpuDeMas(l, Tras(cfg, s, e).cpus.libres, e);
  }

  // ---------------------------------------------------------------- I/O queues

  /** Who waits for a device of that kind. */
  function Fila(s: Sistema, t: TipoIo): seq<int> {
    match t
    case Sleep => s.io.sleep
    case Stdin => s.io.stdin
    case Stdout => s.io.stdout
  }

  /** Who asks for that kind of I/O in this step. */
  function Pide(s: Sistema, e: Evento, t: TipoIo): seq<int> {
    if e.PideIo? && e.t == t && e.p in s.procs && s.procs[e.p].estado == Exec then [e.p] else []
  }

  /** Whom a device of that kind begins to serve in this step. */
  function Atiende(s: Sistema, s': Sistema, e: Evento, t: TipoIo): seq<int> {
    if e == TomaIo(t) && |s.io.servicio| < |s'.io.servicio| then s'.io.servicio[|s.io.servicio|..] else []
  }

  /** The processes that asked for that kind of I/O in the first `k` events, in order. */
  ghost function Pidieron(traza: seq<Sistema>, es: seq<Evento>, t: TipoIo, k: nat): seq<int>
    requires k <= |es| && |traza| == |es| + 1
  {
    if k == 0 then [] else Pidieron(traza, es, t, k - 1) + Pide(traza[k - 1], es[k - 1], t)
  }

  /** Those a device of that kind began to serve. */
  ghost function Atendidos(traza: seq<Sistema>, es: seq<Evento>, t: TipoIo, k: nat): seq<int>
    requires k <= |es| && |traza| == |es| + 1
  {
    if k == 0 then [] else Atendidos(traza, es, t, k - 1) + Atiende(traza[k - 1], traza[k], es[k - 1], t)
  }

  /** What a step does to the queue of one kind of device. */
  ghost predicate PasoDeFila(s: Sistema, s': Sistema, e: Evento, t: TipoIo) {
    if e.PideIo? && e.t == t && e.p in s.procs && s.procs[e.p].estado == Exec then Fila(s', t) == Fila(s, t) + [e.p]
    else if e == TomaIo(t) && Fila(s, t) != [] then
      Fila(s, t) == [Fila(s, t)[0]] + Fila(s', t) && s'.io.servicio == s.io.servicio + [Fila(s, t)[0]]
    else Fila(s', t) == Fila(s, t) && (e == TomaIo(t) ==> s'.io.servicio == s.io.servicio)
  }

  lemma {:induction false} PasoFilas(cfg: Config, s: Sistema, e: Evento, t: TipoIo)
    requires Inv(cfg, s) && Habilitado(cfg, s, e)
    ensures PasoDeFila(s, Siguiente(cfg, s, e), e, t)
  {
    if e.PideIo? {
      PideFilas(cfg, s, e.p, e.t, t);
    } else if e.TomaIo? {
      TomaFilas(cfg, s, e.t, t);
    } else {
      FilasQuietas(cfg, s, e, t);
    }
  }

  lemma {:induction false} TomaFilas(cfg: Config, s: Sistema, u: TipoIo, t: TipoIo)
    ensures PasoDeFila(s, TomarIo(s, u), TomaIo(u), t)
  {
  }

  lemma {:induction false} FilasQuietas(cfg: Config, s: Sistema, e: Evento, t: TipoIo)
    requires Inv(cfg, s) && Habilitado(cfg, s, e) && !e.PideIo? && !e.TomaIo?
    ensures Fila(Siguiente(cfg, s, e), t) == Fila(s, t)
  {
    match e
    case TerminaIo(p, ok, ahora, orden, resp) => FinIoFilas(cfg, s, p, ok, ahora, orden, resp);
    case HayMemoria(orden, resp) => DessuspenderIo(cfg, s.(listas := s.listas.(suspReady := orden)), orden, resp, |orden|);
    case Termina(p, ahora) =>
      if Ejecuta(s, p) {
        CederHastaIo(cfg, s.(procs := s.procs - {p}, listas := Sacado(cfg, s.procs, s.listas, p)), p, |s.mutexes|, ahora);
      }
    case Lock(p, nombre) => LockIo(cfg, s, p, nombre);
    case Unlock(p, nombre, ahora) => UnlockIo(cfg, s, p, nombre, ahora);
    case Desaloja(p) => DesalojaIo(cfg, s, p);
    case Desconecta(c) => DesconectaIo(cfg, s, c);
    case _ =>
  }

  lemma {:induction false} PideFilas(cfg: Config, s: Sistema, p: int, u: TipoIo, t: TipoIo)
    requires Inv(cfg, s)
    ensures PasoDeFila(s, PedirIo(cfg, s, p, u), PideIo(p, u), t)
  {
    assert Desplegar(0);
    if p in s.procs {
      assert ProcesoBien(cfg, s.procs[p]);
    }
  }

  lemma {:induction false} FinIoFilas(cfg: Config, s: Sistema, p: int, ok: bool, ahora: int, orden: seq<int>, resp: seq<bool>)
    ensures forall t :: Fila(FinIo(cfg, s, p, ok, ahora, orden, resp), t) == Fila(s, t)
  {
    if p in s.io.servicio && p in s.procs && ok {
      var s2 := Despertar(cfg, s.(io := s.io.(servicio := Quitar(s.io.servicio, p))), p, ahora);
      DessuspenderIo(cfg, s2.(listas := s2.listas.(suspReady := orden)), orden, resp, |orden|);
    }
  }

  lemma {:induction false} PasoPorOrden(s: Sistema, s': Sistema, e: Evento, t: TipoIo)
    requires PasoDeFila(s, s', e, t)
    ensures Fila(s, t) + Pide(s, e, t) == Atiende(s, s', e, t) + Fila(s', t)
  {
  }

  lemma {:induction false} Encadenar(pedidos: seq<int>, hechos: seq<int>, fila: seq<int>, pide: seq<int>, atiende: seq<int>, fila': seq<int>)
    requires pedidos == hechos + fila && fila + pide == atiende + fila'
    ensures pedidos + pide == (hechos + atiende) + fila'
  {
    assert (hechos + fila) + pide == hechos + (fila + pide);
    assert hechos + (atiende + fila') == (hechos + atiende) + fila';
  }

  /** In every run and for every kind of device: those served are those who asked, in the order
      in which they asked, and the rest wait in that order. */
  lemma {:induction false} IoPorOrden(cfg: Config, traza: seq<Sistema>, es: seq<Evento>, t: TipoIo, k: nat)
    requires ConfigValida(cfg) && Corrida(cfg, traza, es) && k <= |es|
    ensures Pidieron(traza, es, t, k) == Atendidos(traza, es, t, k) + Fila(traza[k], t)
    decreases k
  {
    if k > 0 {
      IoPorOrden(cfg, traza, es, t, k - 1);
      Alcanzable(cfg, traza, es, k - 1);
      PasoFilas(cfg, traza[k - 1], es[k - 1], t);
      PasoPorOrden(traza[k - 1], traza[k], es[k - 1], t);
      Encadenar(Pidieron(traza, es, t, k - 1), Atendidos(traza, es, t, k - 1), Fila(traza[k - 1], t),
                Pide(traza[k - 1], es[k - 1], t), Atiende(traza[k - 1], traza[k], es[k - 1], t), Fila(traza[k], t));
    } else {
      assert traza[0] == Inicial(cfg);
    }
  }

  // ---------------------------------------------------------------- the pause, field by field

  /** A compaction blocks the process that asked for memory, keeps its CPU for it, stops the planner
      and interrupts each of the others once, in the order of the list; nothing else changes. */
  lemma {:induction false} PausaPorCampos(cfg: Config, s: Sistema, p: int)
    requires Inv(cfg, s) && s.sem.puede > 0 && Ejecuta(s, p)
    ensures var s' := Siguiente(cfg, s, PideCompactar(p));
      && s'.procs == s.procs[p := s.procs[p].(estado := Block, cpu := None)]
      && s' == s.(procs := s'.procs, listas := s'.listas, cpus := s.cpus.(reservada := s.procs[p].cpu), esperando := Some(p),
                  compactando := true, sem := s.sem.(puede := s.sem.puede - 1), avisos := s'.avisos)
      && s'.listas == s.listas.(exec := s'.listas.exec, block := s.listas.block + [p])
      && RespetaOrden(s.listas.exec, s'.listas.exec) && (forall x :: x in s'.listas.exec <==> x in s.listas.exec && x != p)
      && |s'.avisos| == |s.avisos| + |s'.listas.exec| && s.avisos <= s'.avisos
      && forall i :: 0 <= i < |s'.listas.exec| ==>
           && s'.listas.exec[i] in s.procs
           && s'.avisos[|s.avisos| + i].pid == s'.listas.exec[i]
           && Some(s'.avisos[|s.avisos| + i].cpu) == s.procs[s'.listas.exec[i]].cpu
  {
    TrasEsSiguiente(cfg, s, PideCompactar(p));
    CompactarForma(cfg, s, p);
    var exec := s.listas.exec;
    ExecDice(cfg, s, p);
    EnExecUnaVez(cfg, s, p);
    QuitarRespeta(exec, p);
    var s1 := EnPausa(s, p);
    forall x ensures x in Quitar(exec, p) <==> x in exec && x != p {
      if x in exec && x != p {
        QuitarQueda(exec, p, x);
      }
    }
    forall i | 0 <= i < |Quitar(exec, p)|
      ensures Quitar(exec, p)[i] in s1.procs && s1.procs[Quitar(exec, p)[i]].cpu.Some? && Quitar(exec, p)[i] != p
    {
      ExecDice(cfg, s, Quitar(exec, p)[i]);
    }
    UnAvisoPorProceso(s1.procs, s1.listas.exec);
  }

  lemma {:induction false} EnExecUnaVez(cfg: Config, s: Sistema, p: int)
    requires Inv(cfg, s)
    ensures Veces(s.listas.exec, p) <= 1
  {
    assert Desplegar(0);
    assert Cuantos(s.listas, EnExec, p) <= 1;
  }
}
