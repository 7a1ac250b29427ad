/** Who owns a mutex and who waits for it, step by step and over runs. */
module Exclusion {
  import opened Tipos
  import opened Listas
  import opened Planificacion
  import opened Sistemas
  import opened Pasos
  import opened Invariantes
  import opened Prioridades
  import opened Ejecuciones
  import opened Formas

  predicate Corre(s: Sistema, p: int) {
    p in s.procs && s.procs[p].estado == Exec
  }

  /** The owner lets go: the first waiter owns it next, or nobody does. */
  predicate Suelto(mu: Mutex, mu': Mutex) {
    if mu.espera == [] then mu'.dueno == None && mu'.espera == []
    else mu'.dueno == Some(mu.espera[0]) && [mu.espera[0]] + mu'.espera == mu.espera
  }

  /** What one event does to one mutex: a running process takes it if it is free and waits at
      the end otherwise; an unlock, and the end of its owner, let go of it; nothing else
      touches it. */
  predicate PasoDeMutex(s: Sistema, e: Evento, mu: Mutex, mu': Mutex) {
    && mu'.nombre == mu.nombre
    && if e.Lock? && Corre(s, e.p) && e.nombre == mu.nombre then
         if mu.dueno.None? then mu'.dueno == Some(e.p) && mu'.espera == [] else mu'.dueno == mu.dueno && mu'.espera == mu.espera + [e.p]
       else if e.Unlock? && Corre(s, e.p) && e.nombre == mu.nombre then Suelto(mu, mu')
       else if e.Termina? && Corre(s, e.p) && mu.dueno == Some(e.p) then Suelto(mu, mu')
       else mu'.dueno == mu.dueno && mu'.espera == mu.espera
  }

  lemma {:induction false} CorreEjecuta(cfg: Config, s: Sistema, p: int)
    requires Inv(cfg, s)
    ensures Corre(s, p) <==> Ejecuta(s, p)
  {
    assert Desplegar(0);
    if p in s.procs {
      assert ProcesoBien(cfg, s.procs[p]);
    }
  }

  /** A name picks out one mutex, and a free one has no waiters. */
  lemma {:induction false} MutexUnico(cfg: Config, s: Sistema, nombre: string, j: nat)
    requires Inv(cfg, s) && j < |s.mutexes|
    ensures s.mutexes[j].nombre == nombre <==> j == BuscarMutex(s.mutexes, nombre)
    ensures s.mutexes[j].dueno.None? ==> s.mutexes[j].espera == []
  {
    assert Desplegar(0);
    assert MutexBien(s.mutexes[j]);
  }

  lemma {:induction false} LockMutexes(cfg: Config, s: Sistema, p: int, nombre: string, j: nat)
    requires Inv(cfg, s) && j < |s.mutexes|
    ensures |Tras(cfg, s, Lock(p, nombre)).mutexes| == |s.mutexes|
    ensures PasoDeMutex(s, Lock(p, nombre), s.mutexes[j], Tras(cfg, s, Lock(p, nombre)).mutexes[j])
  {
    LockForma(cfg, s, p, nombre);
    CorreEjecuta(cfg, s, p);
    MutexUnico(cfg, s, nombre, j);
    var i := BuscarMutex(s.mutexes, nombre);
    if Ejecuta(s, p) && i < |s.mutexes| && s.mutexes[i].dueno.Some? {
      var h, s0 := s.mutexes[i].dueno.value, ConMutex(s, i, Pedido(s.mutexes[i], p));
      BloquearForma(cfg, if cfg.cmn then HeredarP(cfg, s0, h, i) else s0, p);
    }
  }

  lemma {:induction false} RecibirMutexesP(cfg: Config, s: Sistema, w: int, j: nat, ahora: int)
    requires w in s.procs && j < |s.mutexes|
    ensures RecibirP(cfg, s, w, j, ahora).mutexes == s.mutexes
  {
    DespertarForma(cfg, if cfg.cmn then HeredarP(cfg, s, w, j) else s, w, ahora);
  }

  lemma {:induction false} UnlockLista(cfg: Config, s: Sistema, p: int, nombre: string, ahora: int)
    requires Inv(cfg, s)
    ensures var i := BuscarMutex(s.mutexes, nombre);
      Tras(cfg, s, Unlock(p, nombre, ahora)).mutexes ==
        if !Ejecuta(s, p) || i == |s.mutexes| then s.mutexes
        else s.mutexes[i := if s.mutexes[i].espera == [] then s.mutexes[i].(dueno := None) else Entregado(s.mutexes[i])]
  {
    UnlockForma(cfg, s, p, nombre, ahora);
    var i := BuscarMutex(s.mutexes, nombre);
    if Ejecuta(s, p) && i < |s.mutexes| && s.mutexes[i].espera != [] {
      var s1 := ConMutex(s, i, Entregado(s.mutexes[i]));
      RecibirMutexesP(cfg, if cfg.cmn then DevolverPrioridad(s1, p) else s1, s.mutexes[i].espera[0], i, ahora);
    }
  }

  lemma {:induction false} UnlockMutexes(cfg: Config, s: Sistema, p: int, nombre: string, ahora: int, j: nat)
    requires Inv(cfg, s) && j < |s.mutexes|
    ensures |Tras(cfg, s, Unlock(p, nombre, ahora)).mutexes| == |s.mutexes|
    ensures PasoDeMutex(s, Unlock(p, nombre, ahora), s.mutexes[j], Tras(cfg, s, Unlock(p, nombre, ahora)).mutexes[j])
  {
    UnlockLista(cfg, s, p, nombre, ahora);
    CorreEjecuta(cfg, s, p);
    MutexUnico(cfg, s, nombre, j);
  }

  /** The dead process lets go of the mutexes looked at so far; the others are as they were. */
  lemma {:induction false} CederMutexes(cfg: Config, s: Sistema, muerto: int, n: nat, ahora: int, c0: int, j: nat)
    requires EnCesion(cfg, s, muerto, c0) && n <= |s.mutexes| && j < |s.mutexes|
    ensures var mu, mu' := s.mutexes[j], CederHasta(cfg, s, muerto, n, ahora).mutexes[j];
      if j < n && mu.dueno == Some(muerto) then mu'.nombre == mu.nombre && Suelto(mu, mu') else mu' == mu
    decreases n
  {
    if n > 0 {
      CederHastaInv(cfg, s, muerto, n - 1, ahora, c0);
      CederMutexes(cfg, s, muerto, n - 1, ahora, c0, j);
      CederUnMutex(cfg, CederHasta(cfg, s, muerto, n - 1, ahora), muerto, n - 1, ahora, c0, j);
    }
  }

  lemma {:induction false} CederUnMutex(cfg: Config, s: Sistema, muerto: int, i: nat, ahora: int, c0: int, j: nat)
    requires EnCesion(cfg, s, muerto, c0) && i < |s.mutexes| && j < |s.mutexes|
    ensures var mu, mu' := s.mutexes[j], Ceder(cfg, s, muerto, i, ahora).mutexes[j];
      if j == i && mu.dueno == Some(muerto) then mu'.nombre == mu.nombre && Suelto(mu, mu') else mu' == mu
  {
    CederForma(cfg, s, muerto, i, ahora, c0);
    var mu := s.mutexes[i];
    if mu.dueno == Some(muerto) && mu.espera != [] {
      var s1 := ConMutex(s, i, Entregado(mu));
      RecibirMutexesP(cfg, s1, mu.espera[0], i, ahora);
    }
  }

  lemma {:induction false} TerminarMutexes(cfg: Config, s: Sistema, p: int, ahora: int, j: nat)
    requires Inv(cfg, s) && j < |s.mutexes|
    ensures |Tras(cfg, s, Termina(p, ahora)).mutexes| == |s.mutexes|
    ensures PasoDeMutex(s, Termina(p, ahora), s.mutexes[j], Tras(cfg, s, Termina(p, ahora)).mutexes[j])
  {
    TerminarForma(cfg, s, p, ahora);
    CorreEjecuta(cfg, s, p);
    if Ejecuta(s, p) {
      var s1 := s.(procs := s.procs - {p}, listas := s.listas.(exec := Quitar(s.listas.exec, p)));
      CederMutexes(cfg, s1, p, |s.mutexes|, ahora, s.procs[p].cpu.value, j);
    }
  }

  /** The whole protocol: every event does that, and nothing more, to every mutex; a new one is free. */
  lemma {:induction false} PasoMutexes(cfg: Config, s: Sistema, e: Evento, j: nat)
    requires Inv(cfg, s) && Habilitado(cfg, s, e) && j < |s.mutexes|
    ensures var ms' := Siguiente(cfg, s, e).mutexes;
      && |s.mutexes| <= |ms'| <= |s.mutexes| + (if e.CreaMutex? then 1 else 0)
      && PasoDeMutex(s, e, s.mutexes[j], ms'[j])
      && (|ms'| > |s.mutexes| ==> ms'[|s.mutexes|].nombre == e.nombre && ms'[|s.mutexes|].dueno == None && ms'[|s.mutexes|].espera == [])
  {
    TrasEsSiguiente(cfg, s, e);
    match e
    case Lock(p, nombre) => LockMutexes(cfg, s, p, nombre, j);
    case Unlock(p, nombre, ahora) => UnlockMutexes(cfg, s, p, nombre, ahora, j);
    case Termina(p, ahora) => TerminarMutexes(cfg, s, p, ahora, j);
    case CreaMutex(p, nombre) => CrearMutexForma(cfg, s, p, nombre);
    case Inicia(prioridad, creado) => NacerForma(cfg, s, prioridad, creado);
    case InitProc(p, prioridad, creado) =>
      InitForma(cfg, s, p, prioridad, creado);
      NacerForma(cfg, s, prioridad, creado);
    case _ => PasoSolo(cfg, s, e);
  }

  /**
    Mutual exclusion over runs: whoever owns a mutex owns it until someone unlocks it or it
    ends, whatever else happens, and everyone else who asks for it meanwhile waits.
  */
  lemma {:induction false} DuenoHastaQueSuelta(cfg: Config, traza: seq<Sistema>, es: seq<Evento>, i: nat, n: nat, j: nat, p: int)
    requires ConfigValida(cfg) && Corrida(cfg, traza, es) && i <= n <= |es|
    requires j < |traza[i].mutexes| && traza[i].mutexes[j].dueno == Some(p)
    requires forall k {:trigger es[k]} :: i <= k < n ==>
               !(es[k].Unlock? && es[k].nombre == traza[i].mutexes[j].nombre) && !(es[k].Termina? && es[k].p == p)
    ensures j < |traza[n].mutexes| && traza[n].mutexes[j].nombre == traza[i].mutexes[j].nombre
    ensures traza[n].mutexes[j].dueno == Some(p)
    ensures |traza[i].mutexes[j].espera| <= |traza[n].mutexes[j].espera|
    decreases n
  {
    if i < n {
      DuenoHastaQueSuelta(cfg, traza, es, i, n - 1, j, p);
      Alcanzable(cfg, traza, es, n - 1);
      PasoMutexes(cfg, traza[n - 1], es[n - 1], j);
    }
  }
}
