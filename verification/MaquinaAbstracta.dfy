/**
  The memory service as its users see it: every process owns a private list of
  (id, bytes) segments.  There are no addresses, holes, sticks or blocks here; the only
  global quantity is how many bytes are free.
*/
module MaquinaAbstracta {
  import opened Tipos
  import opened Vistas
  import opened Mmu

  datatype Maquina = Maquina(total: nat, procs: Vista)

  /** SEGMENT_MAX_SIZE as Kernel Memory and as the CPU read it. */
  datatype Config = Config(segmentMax: int, tamMax: uint32)

  datatype ResultadoCrear = CrearOk | CrearCompactar | CrearError

  datatype Op =
    | NuevoProceso(pid: int)
    | Crear(pid: int, id: int, tam: uint32)
    | Eliminar(pid: int, id: int)
    | Compactar
    | Suspender(pid: int)
    | Dessuspender(pid: int)
    | Finalizar(pid: int)
    | AgregarStick(contenido: seq<byte>)
    | Escribir(pid: int, dl: uint32, datos: seq<byte>)
    | Leer(pid: int, dl: uint32, tam: uint32)

  datatype Resp = RBool(ok: bool) | RCrear(r: ResultadoCrear) | RBytes(leido: Option<seq<byte>>)

  function Libre(m: Maquina): int {
    m.total - OcupadoTotal(m.procs)
  }

  ghost function IndiceDato(d: seq<Dato>, id: int): (i: nat)
    ensures i <= |d|
    ensures i < |d| ==> d[i].id == id
    ensures forall j :: 0 <= j < i ==> d[j].id != id
  {
    IndiceDatoExiste(d, id);
    var i: nat :| i <= |d| && (i < |d| ==> d[i].id == id) && forall j :: 0 <= j < i ==> d[j].id != id;
    i
  }

  lemma {:induction false} IndiceDatoExiste(d: seq<Dato>, id: int)
    ensures exists i: nat :: i <= |d| && (i < |d| ==> d[i].id == id) && forall j :: 0 <= j < i ==> d[j].id != id
  {
    var i := 0;
    while i < |d| && d[i].id != id
      invariant i <= |d| && forall j :: 0 <= j < i ==> d[j].id != id
    {
      i := i + 1;
    }
  }

  /** Segment and offset a logical access reaches, from ids and lengths alone. */
  ghost function ResolverDatos(tamMax: uint32, d: seq<Dato>, dl: uint32, tam: uint32): (r: Option<(nat, uint32)>)
    ensures r.Some? ==> r.value.0 < |d| && tamMax > 0
  {
    if tamMax == 0 then None
    else
      var i := IndiceDato(d, AInt(dl / tamMax));
      if i == |d| || SumaU32(dl % tamMax, tam) > |d[i].bytes| then None
      else Some((i, dl % tamMax))
  }

  ghost predicate SinEnvolver(tamMax: uint32, dl: uint32, tam: nat) {
    tamMax > 0 ==> (dl % tamMax) + tam < LIMITE_32
  }

  ghost function Poner(m: Maquina, i: nat, a: Almacen): Maquina
    requires i < |m.procs|
  {
    m.(procs := m.procs[i := Entrada(m.procs[i].pid, a)])
  }

  ghost function AlmacenEn(m: Maquina, pid: int): Option<Almacen> {
    var i := Indice(m.procs, pid);
    if i < |m.procs| then Some(m.procs[i].v) else None
  }

  /** One segment more, with the requested id and length and whatever the memory held. */
  ghost predicate PasoCrear(cfg: Config, m: Maquina, pid: int, id: int, tam: uint32, r: ResultadoCrear, m': Maquina) {
    var i := Indice(m.procs, pid);
    && (r == CrearError <==> (cfg.segmentMax > 0 && tam > cfg.segmentMax) || i == |m.procs| || tam > Libre(m))
    && (r != CrearOk ==> m' == m)
    && (r == CrearOk ==>
          && |m'.procs| == |m.procs|
          && var a, a' := m.procs[i].v, m'.procs[i].v;
          && |a'.residente| == |a.residente| + 1
          && var nuevo := a'.residente[|a.residente|];
          && nuevo.id == id && |nuevo.bytes| == tam
          && m' == Poner(m, i, Almacen(a.residente + [nuevo], a.guardado)))
  }

  ghost predicate PasoEliminar(m: Maquina, pid: int, id: int, ok: bool, m': Maquina) {
    var i := Indice(m.procs, pid);
    && (ok <==> i < |m.procs| && IndiceDato(m.procs[i].v.residente, id) < |m.procs[i].v.residente|)
    && (!ok ==> m' == m)
    && (ok ==>
          var a := m.procs[i].v;
          m' == Poner(m, i, Almacen(Sacar(a.residente, IndiceDato(a.residente, id)), a.guardado)))
  }

  ghost predicate PasoSuspender(m: Maquina, pid: int, ok: bool, m': Maquina) {
    var i := Indice(m.procs, pid);
    && (ok ==> i < |m.procs|)
    && m' == if ok && m.procs[i].v.guardado.None?
             then Poner(m, i, Almacen([], Some(m.procs[i].v.residente)))
             else m
  }

  ghost predicate PasoDessuspender(m: Maquina, pid: int, ok: bool, m': Maquina) {
    var i := Indice(m.procs, pid);
    var suspendido := i < |m.procs| && m.procs[i].v.guardado.Some?;
    && (!suspendido ==> ok)
    && m' == if ok && suspendido
             then Poner(m, i, Almacen(m.procs[i].v.residente + m.procs[i].v.guardado.value, None))
             else m
  }

  ghost predicate PasoEscribir(cfg: Config, m: Maquina, pid: int, dl: uint32, datos: seq<byte>, ok: bool, m': Maquina)
    requires |datos| < LIMITE_32
  {
    var i := Indice(m.procs, pid);
    if i == |m.procs| || ResolverDatos(cfg.tamMax, m.procs[i].v.residente, dl, |datos|).None? then
      !ok && m' == m
    else
      var a := m.procs[i].v;
      var (k, d) := ResolverDatos(cfg.tamMax, a.residente, dl, |datos|).value;
      && ok && d + |datos| <= |a.residente[k].bytes|
      && m' == Poner(m, i, a.(residente := a.residente[k := Dato(a.residente[k].id, Pisar(a.residente[k].bytes, d, datos))]))
  }

  ghost predicate PasoLeer(cfg: Config, m: Maquina, pid: int, dl: uint32, tam: uint32, r: Option<seq<byte>>, m': Maquina) {
    var i := Indice(m.procs, pid);
    && m' == m
    && if i == |m.procs| || ResolverDatos(cfg.tamMax, m.procs[i].v.residente, dl, tam).None? then r == None
       else
         var a := m.procs[i].v;
         var (k, d) := ResolverDatos(cfg.tamMax, a.residente, dl, tam).value;
         d + tam <= |a.residente[k].bytes| && r == Some(a.residente[k].bytes[d..d + tam])
  }

  ghost predicate PasoFinalizar(m: Maquina, pid: int, m': Maquina) {
    var i := Indice(m.procs, pid);
    m' == if i < |m.procs| then m.(procs := Sacar(m.procs, i)) else m
  }

  /** One completed request: `r` is the answer, `m'` what the users see afterwards. */
  ghost predicate Paso(cfg: Config, m: Maquina, op: Op, r: Resp, m': Maquina) {
    match op
    case NuevoProceso(pid) => m' == m.(procs := m.procs + [Entrada(pid, Almacen([], None))]) && r == RBool(true)
    case Crear(pid, id, tam) => r.RCrear? && PasoCrear(cfg, m, pid, id, tam, r.r, m')
    case Eliminar(pid, id) => r.RBool? && PasoEliminar(m, pid, id, r.ok, m')
    case Compactar => r == RBool(true) && m' == m
    case Suspender(pid) => r.RBool? && PasoSuspender(m, pid, r.ok, m')
    case Dessuspender(pid) => r.RBool? && PasoDessuspender(m, pid, r.ok, m')
    case Finalizar(pid) => r == RBool(true) && PasoFinalizar(m, pid, m')
    case AgregarStick(contenido) => m' == m.(total := m.total + |contenido|) && r == RBool(true)
    case Escribir(pid, dl, datos) => |datos| < LIMITE_32 && r.RBool? && PasoEscribir(cfg, m, pid, dl, datos, r.ok, m')
    case Leer(pid, dl, tam) => r.RBytes? && PasoLeer(cfg, m, pid, dl, tam, r.leido, m')
  }

  /** Same ids and lengths, whatever the bytes. */
  ghost predicate MismoMolde(a: seq<Dato>, b: seq<Dato>) {
    |a| == |b| && forall i :: 0 <= i < |a| ==> a[i].id == b[i].id && |a[i].bytes| == |b[i].bytes|
  }

  /** A write refused by a stick half way: only the stretch being written may have changed. */
  ghost predicate FalloEscribir(cfg: Config, m: Maquina, pid: int, dl: uint32, datos: seq<byte>, m': Maquina)
    requires |datos| < LIMITE_32
  {
    var i := Indice(m.procs, pid);
    && i < |m.procs| == |m'.procs| && ResolverDatos(cfg.tamMax, m.procs[i].v.residente, dl, |datos|).Some?
    && var a := m.procs[i].v;
    && var (k, d) := ResolverDatos(cfg.tamMax, a.residente, dl, |datos|).value;
    && k < |m'.procs[i].v.residente| && d + |datos| <= |a.residente[k].bytes|
    && var w := m'.procs[i].v.residente[k].bytes;
    && FueraIgual(a.residente[k].bytes, w, d, d + |datos|)
    && m' == Poner(m, i, a.(residente := a.residente[k := Dato(a.residente[k].id, w)]))
  }

  /** A process brought back while blocks or sticks do not answer: its segments are all there,
      but the bytes of those that were in swap may not be the saved ones. */
  ghost predicate FalloDessuspender(m: Maquina, pid: int, m': Maquina) {
    var i := Indice(m.procs, pid);
    && i < |m.procs| == |m'.procs| && m.procs[i].v.guardado.Some?
    && var a := m.procs[i].v;
    && |a.residente| <= |m'.procs[i].v.residente|
    && var w := m'.procs[i].v.residente[|a.residente|..];
    && MismoMolde(w, a.guardado.value)
    && m' == Poner(m, i, Almacen(a.residente + w, None))
  }

  /** What a request may do instead when sticks or swap do not answer. */
  ghost predicate Fallo(cfg: Config, m: Maquina, op: Op, r: Resp, m': Maquina) {
    match op
    case Dessuspender(pid) => r == RBool(true) && FalloDessuspender(m, pid, m')
    case Escribir(pid, dl, datos) => |datos| < LIMITE_32 && r == RBool(false) && FalloEscribir(cfg, m, pid, dl, datos, m')
    case Leer(_, _, _) => r == RBytes(None) && m' == m
    case _ => false
  }

  /** One request served by real hardware; `sano` when all of it answers. */
  ghost predicate PasoReal(cfg: Config, m: Maquina, op: Op, sano: bool, r: Resp, m': Maquina) {
    Paso(cfg, m, op, r, m') || (!sano && Fallo(cfg, m, op, r, m'))
  }

  /** A run: answer `k` and state `k + 1` follow from state `k` by request `k`, during which
      the hardware surely answers when `sanos[k]`. */
  ghost predicate Corrida(cfg: Config, traza: seq<Maquina>, ops: seq<Op>, rs: seq<Resp>, sanos: seq<bool>) {
    && |traza| == |ops| + 1 && |rs| == |sanos| == |ops|
    && forall k :: 0 <= k < |ops| ==> PasoReal(cfg, traza[k], ops[k], sanos[k], rs[k], traza[k + 1])
  }

  /** The request names this process. */
  predicate Toca(op: Op, pid: int) {
    match op
    case Compactar => false
    case AgregarStick(_) => false
    case _ => op.pid == pid
  }

  /** Requests that may move a process's bytes around but never change them. */
  predicate Conserva(op: Op, pid: int) {
    !Toca(op, pid) || op.Suspender? || op.Dessuspender? || op.Leer?
  }

  /** While this process is brought back everything answers. */
  predicate VuelveSano(op: Op, sano: bool, pid: int) {
    op == Dessuspender(pid) ==> sano
  }

  /** New processes get pids that are not in use. */
  ghost predicate PidsFrescos(traza: seq<Maquina>, ops: seq<Op>)
    requires |traza| == |ops| + 1
  {
    forall k :: 0 <= k < |ops| && ops[k].NuevoProceso? ==> !Esta(traza[k].procs, ops[k].pid)
  }

  // ---------------------------------------------------------------- properties of every run

  lemma {:induction false} PasoUnicos(cfg: Config, m: Maquina, op: Op, sano: bool, r: Resp, m': Maquina)
    requires PasoReal(cfg, m, op, sano, r, m') && Unicos(m.procs)
    requires op.NuevoProceso? ==> !Esta(m.procs, op.pid)
    ensures Unicos(m'.procs)
  {
    if op.NuevoProceso? {
      IndiceAgregar(m.procs, Entrada(op.pid, Almacen([], None)), op.pid);
    } else if op.Finalizar? && Esta(m.procs, op.pid) {
      IndiceSacar(m.procs, Indice(m.procs, op.pid), op.pid);
    }
  }

  lemma {:induction false} PonerAjeno(m: Maquina, i: nat, a: Almacen, pid: int)
    requires Unicos(m.procs) && i < |m.procs|
    ensures AlmacenEn(Poner(m, i, a), pid) == if m.procs[i].pid == pid then Some(a) else AlmacenEn(m, pid)
    ensures Indice(Poner(m, i, a).procs, pid) == Indice(m.procs, pid)
  {
    IndiceMismosPids(m.procs, Poner(m, i, a).procs, pid);
    if m.procs[i].pid == pid {
      IndiceDe(m.procs, i);
    }
  }

  /** A request on one process never changes the store of another. */
  lemma {:induction false} PasoAjeno(cfg: Config, m: Maquina, op: Op, sano: bool, r: Resp, m': Maquina, pid: int)
    requires PasoReal(cfg, m, op, sano, r, m') && Unicos(m.procs) && !Toca(op, pid)
    requires op.NuevoProceso? ==> !Esta(m.procs, op.pid)
    ensures AlmacenEn(m', pid) == AlmacenEn(m, pid)
  {
    match op
    case NuevoProceso(p) => IndiceAgregar(m.procs, Entrada(p, Almacen([], None)), pid);
    case Finalizar(p) =>
      if Esta(m.procs, p) {
        IndiceSacar(m.procs, Indice(m.procs, p), pid);
      }
    case Compactar =>
    case AgregarStick(_) =>
    case _ =>
      var i := Indice(m.procs, op.pid);
      if i < |m.procs| && |m'.procs| == |m.procs| {
        PonerAjeno(m, i, m'.procs[i].v, pid);
      }
  }

  /** Everything a process owns, in memory or in swap. */
  ghost function Todo(a: Option<Almacen>): seq<Dato> {
    match a
    case None => []
    case Some(s) => s.residente + match s.guardado { case None => [] case Some(g) => g }
  }

  /** A suspended process has nothing left in memory. */
  ghost predicate SinMezcla(a: Option<Almacen>) {
    a.Some? && a.value.guardado.Some? ==> a.value.residente == []
  }

  lemma {:induction false} PasoConserva(cfg: Config, m: Maquina, op: Op, sano: bool, r: Resp, m': Maquina, pid: int)
    requires PasoReal(cfg, m, op, sano, r, m') && Unicos(m.procs) && Conserva(op, pid) && VuelveSano(op, sano, pid)
    requires op.NuevoProceso? ==> !Esta(m.procs, op.pid)
    ensures Todo(AlmacenEn(m', pid)) == Todo(AlmacenEn(m, pid))
    ensures SinMezcla(AlmacenEn(m, pid)) ==> SinMezcla(AlmacenEn(m', pid))
    ensures AlmacenEn(m', pid).Some? == AlmacenEn(m, pid).Some?
  {
    if !Toca(op, pid) {
      PasoAjeno(cfg, m, op, sano, r, m', pid);
    } else if m' != m {
      var i := Indice(m.procs, pid);
      PonerAjeno(m, i, m'.procs[i].v, pid);
    }
  }

  /**
    Over any run: whatever other processes do, however often this one is suspended, brought
    back or compacted, and whatever fails meanwhile, what it owns does not change, provided
    that sticks and swap answer each time it is brought back.
  */
  lemma {:induction false} ContenidoConstante(cfg: Config, traza: seq<Maquina>, ops: seq<Op>, rs: seq<Resp>, sanos: seq<bool>, pid: int)
    requires Corrida(cfg, traza, ops, rs, sanos) && Unicos(traza[0].procs) && PidsFrescos(traza, ops)
    requires forall k :: 0 <= k < |ops| ==> Conserva(ops[k], pid) && VuelveSano(ops[k], sanos[k], pid)
    ensures Todo(AlmacenEn(traza[|ops|], pid)) == Todo(AlmacenEn(traza[0], pid))
    ensures SinMezcla(AlmacenEn(traza[0], pid)) ==> SinMezcla(AlmacenEn(traza[|ops|], pid))
    ensures AlmacenEn(traza[|ops|], pid).Some? == AlmacenEn(traza[0], pid).Some?
    ensures Unicos(traza[|ops|].procs)
    decreases |ops|
  {
    var n := |ops|;
    if n > 0 {
      ContenidoConstante(cfg, traza[..n], ops[..n - 1], rs[..n - 1], sanos[..n - 1], pid);
      PasoUnicos(cfg, traza[n - 1], ops[n - 1], sanos[n - 1], rs[n - 1], traza[n]);
      PasoConserva(cfg, traza[n - 1], ops[n - 1], sanos[n - 1], rs[n - 1], traza[n], pid);
    }
  }

  /** Isolation over runs: requests on other processes, failed or not, leave this one's store
      untouched. */
  lemma {:induction false} Privado(cfg: Config, traza: seq<Maquina>, ops: seq<Op>, rs: seq<Resp>, sanos: seq<bool>, pid: int)
    requires Corrida(cfg, traza, ops, rs, sanos) && Unicos(traza[0].procs) && PidsFrescos(traza, ops)
    requires forall k :: 0 <= k < |ops| ==> !Toca(ops[k], pid)
    ensures AlmacenEn(traza[|ops|], pid) == AlmacenEn(traza[0], pid)
    ensures Unicos(traza[|ops|].procs)
    decreases |ops|
  {
    var n := |ops|;
    if n > 0 {
      Privado(cfg, traza[..n], ops[..n - 1], rs[..n - 1], sanos[..n - 1], pid);
      PasoUnicos(cfg, traza[n - 1], ops[n - 1], sanos[n - 1], rs[n - 1], traza[n]);
      PasoAjeno(cfg, traza[n - 1], ops[n - 1], sanos[n - 1], rs[n - 1], traza[n], pid);
    }
  }

  /** The stretch of a run between its first and its last request. */
  lemma {:induction false} CorridaInterior(cfg: Config, traza: seq<Maquina>, ops: seq<Op>, rs: seq<Resp>, sanos: seq<bool>)
    requires Corrida(cfg, traza, ops, rs, sanos) && PidsFrescos(traza, ops) && |ops| >= 2
    ensures var n := |ops|;
      && Corrida(cfg, traza[1..n], ops[1..n - 1], rs[1..n - 1], sanos[1..n - 1])
      && PidsFrescos(traza[1..n], ops[1..n - 1])
      && traza[1..n][0] == traza[1] && traza[1..n][n - 2] == traza[n - 1]
  {
  }

  /**
    Swap round trip: a process that was in memory, was suspended, and is later brought back
    with every device answering, after any requests on other processes (failed ones too) and
    any compactions, has the same ids,
    limits and contents in the same order, and nothing left in swap.
  */
  lemma {:induction false} IdaYVuelta(cfg: Config, traza: seq<Maquina>, ops: seq<Op>, rs: seq<Resp>, sanos: seq<bool>, pid: int)
    requires Corrida(cfg, traza, ops, rs, sanos) && Unicos(traza[0].procs) && PidsFrescos(traza, ops)
    requires |ops| >= 2 && ops[0] == Suspender(pid) && ops[|ops| - 1] == Dessuspender(pid)
    requires rs[0] == RBool(true) && rs[|ops| - 1] == RBool(true) && sanos[|ops| - 1]
    requires forall k :: 0 < k < |ops| - 1 ==> !Toca(ops[k], pid)
    requires AlmacenEn(traza[0], pid).Some? && AlmacenEn(traza[0], pid).value.guardado.None?
    ensures AlmacenEn(traza[|ops|], pid) == AlmacenEn(traza[0], pid)
  {
    var n := |ops|;
    var i := Indice(traza[0].procs, pid);
    PasoUnicos(cfg, traza[0], ops[0], sanos[0], rs[0], traza[1]);
    PonerAjeno(traza[0], i, traza[1].procs[i].v, pid);
    CorridaInterior(cfg, traza, ops, rs, sanos);
    Privado(cfg, traza[1..n], ops[1..n - 1], rs[1..n - 1], sanos[1..n - 1], pid);
    var j := Indice(traza[n - 1].procs, pid);
    PonerAjeno(traza[n - 1], j, traza[n].procs[j].v, pid);
    var r := traza[0].procs[i].v.residente;
    assert [] + r == r;
  }

  /**
    What was written is what is read: after an accepted write, through any sequence of
    requests that do not create, delete or write segments of this process, a read of the
    same range answers the bytes written, unless the hardware refuses it.
  */
  lemma {:induction false} LoEscritoSeLee(cfg: Config, traza: seq<Maquina>, ops: seq<Op>, rs: seq<Resp>, sanos: seq<bool>, pid: int,
                                          dl: uint32, datos: seq<byte>)
    requires Corrida(cfg, traza, ops, rs, sanos) && Unicos(traza[0].procs) && PidsFrescos(traza, ops)
    requires |ops| >= 2 && ops[0] == Escribir(pid, dl, datos) && rs[0] == RBool(true)
    requires |datos| < LIMITE_32 && ops[|ops| - 1] == Leer(pid, dl, |datos|)
    requires forall k :: 0 < k < |ops| - 1 ==> Conserva(ops[k], pid) && VuelveSano(ops[k], sanos[k], pid)
    requires AlmacenEn(traza[0], pid).Some? && AlmacenEn(traza[0], pid).value.guardado.None?
    ensures AlmacenEn(traza[|ops| - 1], pid).Some?
    ensures AlmacenEn(traza[|ops| - 1], pid).value.guardado.None? ==>
              rs[|ops| - 1] == RBytes(Some(datos)) || (rs[|ops| - 1] == RBytes(None) && !sanos[|ops| - 1])
  {
    var n := |ops|;
    EscrituraAceptada(cfg, traza[0], pid, dl, datos, sanos[0], traza[1]);
    EnMedio(cfg, traza, ops, rs, sanos, pid);
    LeerTrasEscribir(cfg, traza[0], traza[1], traza[n - 1], traza[n], pid, dl, datos, sanos[n - 1], rs[n - 1]);
  }

  /** Between the first request and the last, what the process owns does not change. */
  lemma {:induction false} EnMedio(cfg: Config, traza: seq<Maquina>, ops: seq<Op>, rs: seq<Resp>, sanos: seq<bool>, pid: int)
    requires Corrida(cfg, traza, ops, rs, sanos) && PidsFrescos(traza, ops) && |ops| >= 2 && Unicos(traza[1].procs)
    requires forall k :: 0 < k < |ops| - 1 ==> Conserva(ops[k], pid) && VuelveSano(ops[k], sanos[k], pid)
    ensures Todo(AlmacenEn(traza[|ops| - 1], pid)) == Todo(AlmacenEn(traza[1], pid))
    ensures AlmacenEn(traza[|ops| - 1], pid).Some? == AlmacenEn(traza[1], pid).Some?
  {
    var n := |ops|;
    CorridaInterior(cfg, traza, ops, rs, sanos);
    ContenidoConstante(cfg, traza[1..n], ops[1..n - 1], rs[1..n - 1], sanos[1..n - 1], pid);
  }

  lemma {:induction false} EscrituraAceptada(cfg: Config, m0: Maquina, pid: int, dl: uint32, datos: seq<byte>, sano: bool, m1: Maquina)
    requires |datos| < LIMITE_32 && PasoReal(cfg, m0, Escribir(pid, dl, datos), sano, RBool(true), m1) && Unicos(m0.procs)
    ensures PasoEscribir(cfg, m0, pid, dl, datos, true, m1) && Unicos(m1.procs) && Indice(m1.procs, pid) == Indice(m0.procs, pid)
  {
    PasoUnicos(cfg, m0, Escribir(pid, dl, datos), sano, RBool(true), m1);
    var i := Indice(m0.procs, pid);
    PonerAjeno(m0, i, m1.procs[i].v, pid);
  }

  lemma {:induction false} LeerTrasEscribir(cfg: Config, m0: Maquina, m1: Maquina, m2: Maquina, m3: Maquina,
                                            pid: int, dl: uint32, datos: seq<byte>, sano: bool, r: Resp)
    requires |datos| < LIMITE_32 && PasoEscribir(cfg, m0, pid, dl, datos, true, m1)
    requires PasoReal(cfg, m2, Leer(pid, dl, |datos|), sano, r, m3)
    requires AlmacenEn(m0, pid).Some? && AlmacenEn(m0, pid).value.guardado.None?
    requires Indice(m1.procs, pid) == Indice(m0.procs, pid)
    requires Todo(AlmacenEn(m2, pid)) == Todo(AlmacenEn(m1, pid)) && AlmacenEn(m2, pid).Some?
    ensures AlmacenEn(m2, pid).value.guardado.None? ==> r == RBytes(Some(datos)) || (r == RBytes(None) && !sano)
  {
    var a, b, c := AlmacenEn(m0, pid).value, AlmacenEn(m1, pid).value, AlmacenEn(m2, pid).value;
    if c.guardado.None? {
      assert c.residente == Todo(Some(c)) && b.residente == Todo(Some(b));
      var (k, d) := ResolverDatos(cfg.tamMax, a.residente, dl, |datos|).value;
      ResolverMismos(cfg.tamMax, a.residente, b.residente, dl, |datos|);
      PisarEn(a.residente[k].bytes, d, datos);
    }
  }

  /** Only ids and lengths decide which accesses are accepted, and where they fall. */
  lemma {:induction false} ResolverMismos(tamMax: uint32, a: seq<Dato>, b: seq<Dato>, dl: uint32, tam: uint32)
    requires MismoMolde(a, b)
    ensures ResolverDatos(tamMax, a, dl, tam) == ResolverDatos(tamMax, b, dl, tam)
  {
    if tamMax > 0 {
      IndiceDatoMismosIds(a, b, AInt(dl / tamMax));
    }
  }

  lemma {:induction false} IndiceDatoMismosIds(a: seq<Dato>, b: seq<Dato>, id: int)
    requires |a| == |b| && forall i :: 0 <= i < |a| ==> a[i].id == b[i].id
    ensures IndiceDato(a, id) == IndiceDato(b, id)
  {
    var i, j := IndiceDato(a, id), IndiceDato(b, id);
    assert i < |a| ==> a[i].id == b[i].id;
    assert j < |a| ==> a[j].id == b[j].id;
  }
}
