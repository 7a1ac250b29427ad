/** Priority inheritance and restoration over the mutexes. */
module Prioridades {
  import opened Tipos
  import opened Listas
  import opened Planificacion
  import opened Sistemas
  import opened Pasos
  import opened Invariantes

  /** Waiter `i` of mutex `j`, which `p` owns. */
  predicate Aporta(m: Procesos, ms: seq<Mutex>, p: int, j: int, i: int) {
    0 <= j < |ms| && ms[j].dueno == Some(p) && 0 <= i < |ms[j].espera| && ms[j].espera[i] in m
  }

  /** `v` is the least of the original priority of `p` and those of all waiters on its mutexes. */
  ghost predicate EsMinimo(m: Procesos, ms: seq<Mutex>, p: int, v: int)
    requires p in m
  {
    && v <= m[p].original
    && (forall j, i {:trigger Aporta(m, ms, p, j, i)} :: Aporta(m, ms, p, j, i) ==> v <= m[ms[j].espera[i]].prioridad)
    && (v == m[p].original || exists j, i {:trigger Aporta(m, ms, p, j, i)} ::
          Aporta(m, ms, p, j, i) && m[ms[j].espera[i]].prioridad == v)
  }

  /** Exact inheritance: every process has exactly that priority. */
  ghost predicate HerenciaExacta(m: Procesos, ms: seq<Mutex>) {
    forall p {:trigger p in m} :: p in m ==> EsMinimo(m, ms, p, m[p].prioridad)
  }

  predicate NoPosee(ms: seq<Mutex>, p: int) {
    forall j :: 0 <= j < |ms| ==> ms[j].dueno != Some(p)
  }

  predicate NoEsperaEn(ms: seq<Mutex>, p: int) {
    forall j, i :: 0 <= j < |ms| && 0 <= i < |ms[j].espera| ==> ms[j].espera[i] != p
  }

  /** No process waits for a mutex while it owns one. */
  ghost predicate SinAnidar(ms: seq<Mutex>) {
    forall p :: NoPosee(ms, p) || NoEsperaEn(ms, p)
  }

  /** A process that owns no mutex has its original priority. */
  ghost predicate Restauradas(m: Procesos, ms: seq<Mutex>) {
    forall p {:trigger p in m} :: p in m && NoPosee(ms, p) ==> m[p].prioridad == m[p].original
  }

  // ---------------------------------------------------------------- the least priority

  /** What `devolver_prioridad` computes is that least priority. */
  lemma {:induction false} MejorEsMinimo(cfg: Config, m: Procesos, ms: seq<Mutex>, p: int, n: nat)
    requires cfg.cmn && p in m && n <= |ms|
    requires forall j :: 0 <= j < n ==> EsperaViva(cfg, m, ms[j].espera)
    ensures EsMinimo(m, ms[..n], p, MejorPropia(m, ms, p, n))
    decreases n
  {
    if n > 0 {
      MejorEsMinimo(cfg, m, ms, p, n - 1);
      MayorEsMinima(cfg, m, ms[n - 1].espera);
      MinimoMasUno(cfg, m, ms, p, n, MejorPropia(m, ms, p, n - 1));
    }
  }

  lemma {:induction false} MinimoMasUno(cfg: Config, m: Procesos, ms: seq<Mutex>, p: int, n: nat, v: int)
    requires cfg.cmn && p in m && 0 < n <= |ms| && EsMinimo(m, ms[..n - 1], p, v)
    requires EsperaViva(cfg, m, ms[n - 1].espera)
    ensures var c := MayorPrioridad(m, ms[n - 1].espera);
      EsMinimo(m, ms[..n], p, if ms[n - 1].dueno == Some(p) && c != -1 && c < v then c else v)
  {
    var espera, c := ms[n - 1].espera, MayorPrioridad(m, ms[n - 1].espera);
    var r := if ms[n - 1].dueno == Some(p) && c != -1 && c < v then c else v;
    MayorEsMinima(cfg, m, espera);
    forall j, i {:trigger Aporta(m, ms[..n], p, j, i)} | Aporta(m, ms[..n], p, j, i)
      ensures r <= m[ms[..n][j].espera[i]].prioridad
    {
      assert j < n - 1 ==> Aporta(m, ms[..n - 1], p, j, i);
    }
    if r != m[p].original {
      if r == v && !(ms[n - 1].dueno == Some(p) && c != -1 && c < v) {
        var j, i :| Aporta(m, ms[..n - 1], p, j, i) && m[ms[..n - 1][j].espera[i]].prioridad == v;
        assert Aporta(m, ms[..n], p, j, i);
      } else {
        var i :| 0 <= i < |espera| && m[espera[i]].prioridad == c;
        assert Vivo(cfg, m, espera[i]);
        assert Aporta(m, ms[..n], p, n - 1, i);
      }
    }
  }

  /** Only its own mutexes, and the priorities of those waiting on them, matter to `q`. */
  lemma {:induction false} MinimoMarco(m: Procesos, ms: seq<Mutex>, m': Procesos, ms': seq<Mutex>, q: int, v: int)
    requires q in m && q in m' && m[q].original == m'[q].original && |ms| <= |ms'|
    requires forall j :: 0 <= j < |ms'| && (ms'[j].dueno == Some(q) || (j < |ms| && ms[j].dueno == Some(q))) ==>
      j < |ms| && ms'[j].dueno == ms[j].dueno && ms'[j].espera == ms[j].espera
    requires forall j, i {:trigger ms[j].espera[i]} :: 0 <= j < |ms| && ms[j].dueno == Some(q) && 0 <= i < |ms[j].espera| ==>
      var x := ms[j].espera[i]; (x in m) == (x in m') && (x in m ==> m[x].prioridad == m'[x].prioridad)
    requires EsMinimo(m, ms, q, v)
    ensures EsMinimo(m', ms', q, v)
  {
    forall j, i {:trigger Aporta(m', ms', q, j, i)} | Aporta(m', ms', q, j, i) ensures v <= m'[ms'[j].espera[i]].prioridad {
      assert ms[j].espera[i] == ms'[j].espera[i];
      assert Aporta(m, ms, q, j, i);
    }
    if v != m[q].original {
      var j, i :| Aporta(m, ms, q, j, i) && m[ms[j].espera[i]].prioridad == v;
      assert ms[j].espera[i] == ms'[j].espera[i];
      assert Aporta(m', ms', q, j, i);
    }
  }

  // ---------------------------------------------------------------- who waits

  lemma {:induction false} NoEsperaPor(ms: seq<Mutex>, x: int)
    requires Esperas(ms, x) == 0
    ensures NoEsperaEn(ms, x)
  {
    forall j, i | 0 <= j < |ms| && 0 <= i < |ms[j].espera| ensures ms[j].espera[i] != x {
      EsperasAlguna(ms, j, x);
      VecesMiembro(ms[j].espera, x);
    }
  }

  /** A running process waits for nothing. */
  lemma {:induction false} EjecutaNoEspera(cfg: Config, s: Sistema, p: int)
    requires Inv(cfg, s) && Ejecuta(s, p)
    ensures NoEsperaEn(s.mutexes, p)
  {
    assert Desplegar(0);
    assert Pendiente(s.io, s.mutexes, s.esperando, p) + 0 == Uno(EstaBloqueado(s.procs, p));
    NoEsperaPor(s.mutexes, p);
  }

  /** A waiter just taken out of a queue waits nowhere else. */
  lemma {:induction false} EntregadoNoEspera(cfg: Config, s: Sistema, w: int, c0: int, dc: int, muerto: Option<int>)
    requires InvSalvo(cfg, s, w, 1, c0, dc, muerto)
    ensures NoEsperaEn(s.mutexes, w)
  {
    assert Desplegar(0);
    assert Pendiente(s.io, s.mutexes, s.esperando, w) + 1 == Uno(EstaBloqueado(s.procs, w));
    NoEsperaPor(s.mutexes, w);
  }

  // ---------------------------------------------------------------- steps that touch no priority

  /** Same mutexes, same processes, same priorities. */
  ghost predicate SoloEstados(s: Sistema, s': Sistema) {
    && s'.mutexes == s.mutexes && s'.procs.Keys == s.procs.Keys
    && forall x {:trigger s'.procs[x]} {:trigger s.procs[x]} :: x in s.procs ==>
         s'.procs[x].prioridad == s.procs[x].prioridad && s'.procs[x].original == s.procs[x].original
  }

  lemma {:induction false} SoloEstadosSigue(s: Sistema, s': Sistema)
    requires SoloEstados(s, s')
    ensures HerenciaExacta(s.procs, s.mutexes) ==> HerenciaExacta(s'.procs, s'.mutexes)
    ensures Restauradas(s.procs, s.mutexes) ==> Restauradas(s'.procs, s'.mutexes)
  {
    if HerenciaExacta(s.procs, s.mutexes) {
      forall p {:trigger p in s'.procs} | p in s'.procs ensures EsMinimo(s'.procs, s'.mutexes, p, s'.procs[p].prioridad) {
        assert p in s.procs;
        MinimoMarco(s.procs, s.mutexes, s'.procs, s'.mutexes, p, s.procs[p].prioridad);
      }
    }
  }

  lemma {:induction false} DespertarSolo(cfg: Config, s: Sistema, p: int, ahora: int)
    requires p in s.procs
    ensures SoloEstados(s, Despertar(cfg, s, p, ahora))
  {
  }

  lemma {:induction false} BloquearSolo(cfg: Config, s: Sistema, p: int)
    requires Ejecuta(s, p)
    ensures SoloEstados(s, Bloquear(cfg, s, p))
  {
  }

  lemma {:induction false} DessuspenderSolo(cfg: Config, s: Sistema, orden: seq<int>, resp: seq<bool>, n: nat)
    requires n <= |orden|
    ensures SoloEstados(s, DessuspenderHasta(cfg, s, orden, resp, n))
    decreases n
  {
    if n > 0 {
      DessuspenderSolo(cfg, s, orden, resp, n - 1);
    }
  }

  // ---------------------------------------------------------------- restoration

  /** The priority `devolver_prioridad` gives a process that owns nothing is its original one. */
  lemma {:induction false} MejorSinMutex(m: Procesos, ms: seq<Mutex>, p: int, n: nat)
    requires p in m && n <= |ms| && NoPosee(ms, p)
    ensures MejorPropia(m, ms, p, n) == m[p].original
    decreases n
  {
    if n > 0 {
      MejorSinMutex(m, ms, p, n - 1);
    }
  }

  lemma {:induction false} LockRestaura(cfg: Config, s: Sistema, p: int, nombre: string)
    requires Inv(cfg, s) && Restauradas(s.procs, s.mutexes)
    ensures Restauradas(MutexLock(cfg, s, p, nombre).procs, MutexLock(cfg, s, p, nombre).mutexes)
  {
    assert Desplegar(0);
    var j := BuscarMutex(s.mutexes, nombre);
    if Ejecuta(s, p) && j < |s.mutexes| {
      if s.mutexes[j].dueno.None? {
        GanarRestaura(s.procs, s.mutexes, j, Tomado(s.mutexes[j], p));
      } else {
        var s0 := ConMutex(s, j, Pedido(s.mutexes[j], p));
        var s1 := HeredarDueno(cfg, s0, j);
        LockEsperaInv(cfg, s, p, j);
        GanarRestaura(s.procs, s.mutexes, j, Pedido(s.mutexes[j], p));
        HeredarDuenoRestaura(cfg, s0, j);
        BloquearSolo(cfg, s1, p);
        SoloEstadosSigue(s1, Bloquear(cfg, s1, p));
      }
    }
  }

  /** No one loses a mutex: who owns none now owned none before. */
  lemma {:induction false} GanarRestaura(m: Procesos, ms: seq<Mutex>, j: nat, mu: Mutex)
    requires Restauradas(m, ms) && j < |ms| && (ms[j].dueno.None? || mu.dueno == ms[j].dueno)
    ensures Restauradas(m, ms[j := mu])
  {
    forall p {:trigger p in m} | p in m && NoPosee(ms[j := mu], p) ensures m[p].prioridad == m[p].original {
      forall k | 0 <= k < |ms| ensures ms[k].dueno != Some(p) {
        assert ms[j := mu][k].dueno != Some(p);
      }
    }
  }

  lemma {:induction false} HeredarDuenoRestaura(cfg: Config, s: Sistema, j: nat)
    requires Restauradas(s.procs, s.mutexes) && j < |s.mutexes|
    ensures Restauradas(HeredarDueno(cfg, s, j).procs, HeredarDueno(cfg, s, j).mutexes)
  {
    if cfg.cmn && s.mutexes[j].dueno.Some? && Buscable(cfg, s, s.mutexes[j].dueno.value) {
      HeredarConserva(cfg, s, s.mutexes[j].dueno.value, j);
    }
  }

  /** Everyone but `p` is as after a change of hands that only `p` lost. */
  ghost predicate RestauradasSalvo(m: Procesos, ms: seq<Mutex>, p: int) {
    forall q {:trigger q in m} :: q in m && q != p && NoPosee(ms, q) ==> m[q].prioridad == m[q].original
  }

  lemma {:induction false} PerderRestaura(m: Procesos, ms: seq<Mutex>, j: nat, mu: Mutex, p: int)
    requires RestauradasSalvo(m, ms, p) && j < |ms| && ms[j].dueno == Some(p)
    ensures RestauradasSalvo(m, ms[j := mu], p)
  {
    forall q {:trigger q in m} | q in m && q != p && NoPosee(ms[j := mu], q) ensures m[q].prioridad == m[q].original {
      forall k | 0 <= k < |ms| ensures ms[k].dueno != Some(q) {
        assert k != j ==> ms[j := mu][k].dueno != Some(q);
      }
    }
  }

  lemma {:induction false} DevolverRestaura(s: Sistema, p: int)
    requires p in s.procs && RestauradasSalvo(s.procs, s.mutexes, p)
    ensures Restauradas(DevolverPrioridad(s, p).procs, s.mutexes)
  {
    if NoPosee(s.mutexes, p) {
      MejorSinMutex(s.procs, s.mutexes, p, |s.mutexes|);
    }
  }

  lemma {:induction false} RecibirRestaura(cfg: Config, s: Sistema, w: int, j: nat, ahora: int)
    requires w in s.procs && j < |s.mutexes| && s.mutexes[j].dueno == Some(w) && Restauradas(s.procs, s.mutexes)
    ensures Restauradas(Recibir(cfg, s, w, j, ahora).procs, Recibir(cfg, s, w, j, ahora).mutexes)
  {
    var s1 := if cfg.cmn then Heredar(cfg, s, w, j) else s;
    HeredarConserva(cfg, s, w, j);
    DespertarSolo(cfg, s1, w, ahora);
    SoloEstadosSigue(s1, Despertar(cfg, s1, w, ahora));
  }

  /** Unlocking one's own mutex restores one's own priority, and spoils nobody else's. */
  lemma {:induction false} UnlockRestaura(cfg: Config, s: Sistema, p: int, nombre: string, ahora: int)
    requires Inv(cfg, s) && cfg.cmn && Restauradas(s.procs, s.mutexes)
    requires SueltaLoPropio(s, p, nombre)
    ensures Restauradas(MutexUnlock(cfg, s, p, nombre, ahora).procs, MutexUnlock(cfg, s, p, nombre, ahora).mutexes)
  {
    assert Desplegar(0);
    var j := BuscarMutex(s.mutexes, nombre);
    if Ejecuta(s, p) && j < |s.mutexes| {
      var mu := if s.mutexes[j].espera == [] then s.mutexes[j].(dueno := None) else Entregado(s.mutexes[j]);
      var s1 := ConMutex(s, j, mu);
      PerderRestaura(s.procs, s.mutexes, j, mu, p);
      DevolverRestaura(s1, p);
      if s.mutexes[j].espera != [] {
        UnlockCedeInv(cfg, s, p, j, ahora);
        RecibirRestaura(cfg, DevolverPrioridad(s1, p), s.mutexes[j].espera[0], j, ahora);
      }
    }
  }

  /** The unlocking process owns what it unlocks. */
  predicate SueltaLoPropio(s: Sistema, p: int, nombre: string) {
    var j := BuscarMutex(s.mutexes, nombre);
    Ejecuta(s, p) && j < |s.mutexes| ==> s.mutexes[j].dueno == Some(p)
  }

  ghost predicate RestauradasEn(s: Sistema) {
    Restauradas(s.procs, s.mutexes)
  }

  lemma {:induction false} CederRestaura(cfg: Config, s: Sistema, muerto: int, n: nat, ahora: int, c0: int)
    requires EnCesion(cfg, s, muerto, c0) && RestauradasEn(s) && n <= |s.mutexes|
    ensures RestauradasEn(CederHasta(cfg, s, muerto, n, ahora))
    decreases n
  {
    if n > 0 {
      CederRestaura(cfg, s, muerto, n - 1, ahora, c0);
      CederHastaInv(cfg, s, muerto, n - 1, ahora, c0);
      CederUnoRestaura(cfg, CederHasta(cfg, s, muerto, n - 1, ahora), muerto, n - 1, ahora, c0);
    }
  }

  lemma {:induction false} CederUnoRestaura(cfg: Config, s: Sistema, muerto: int, j: nat, ahora: int, c0: int)
    requires EnCesion(cfg, s, muerto, c0) && j < |s.mutexes| && RestauradasEn(s)
    ensures RestauradasEn(Ceder(cfg, s, muerto, j, ahora))
  {
    assert Desplegar(0);
    var mu := s.mutexes[j];
    if mu.dueno == Some(muerto) {
      var mu' := if mu.espera == [] then mu.(dueno := None) else Entregado(mu);
      PerderRestaura(s.procs, s.mutexes, j, mu', muerto);
      if mu.espera != [] {
        EntregarInv(cfg, s, j, c0, 1, Some(muerto));
        RecibirRestaura(cfg, ConMutex(s, j, mu'), mu.espera[0], j, ahora);
      }
    }
  }

  lemma {:induction false} TerminarRestaura(cfg: Config, s: Sistema, p: int, ahora: int)
    requires Inv(cfg, s) && RestauradasEn(s)
    ensures RestauradasEn(Terminar(cfg, s, p, ahora))
  {
    assert Desplegar(0);
    if Ejecuta(s, p) {
      var c := s.procs[p].cpu.value;
      InvDesde(cfg, s, p, c);
      SalirInv(cfg, s, p, c);
      var s1 := s.(procs := s.procs - {p}, listas := Sacado(cfg, s.procs, s.listas, p));
      SinDeuda(s1.procs, s1.io, s1.mutexes, s1.esperando, p, 0);
      CederRestaura(cfg, s1, p, |s.mutexes|, ahora, c);
    }
  }

  /**
    Anyone may unlock a mutex; only the caller's priority is given back.  So after an unlock
    the processes without mutexes all have their original priorities if and only if the
    owner that lost this one is the caller, or keeps another, or had inherited nothing.
  */
  lemma {:induction false} UnlockAjeno(cfg: Config, s: Sistema, p: int, nombre: string, ahora: int)
    requires Inv(cfg, s) && cfg.cmn && Restauradas(s.procs, s.mutexes) && Ejecuta(s, p)
    ensures Restauradas(MutexUnlock(cfg, s, p, nombre, ahora).procs, MutexUnlock(cfg, s, p, nombre, ahora).mutexes)
       <==> !DespojaConHerencia(s, p, nombre)
  {
    assert Desplegar(0);
    var j := BuscarMutex(s.mutexes, nombre);
    if j < |s.mutexes| {
      if s.mutexes[j].dueno == Some(p) {
        UnlockRestaura(cfg, s, p, nombre, ahora);
      } else {
        UnlockDespoja(cfg, s, p, j, ahora);
      }
    }
  }

  /** Some other process loses its only mutex to this unlock while it has an inherited priority. */
  predicate DespojaConHerencia(s: Sistema, p: int, nombre: string) {
    var j := BuscarMutex(s.mutexes, nombre);
    j < |s.mutexes| && s.mutexes[j].dueno.Some? &&
    var d := s.mutexes[j].dueno.value;
    && d != p && d in s.procs && s.procs[d].prioridad != s.procs[d].original
    && (forall k :: 0 <= k < |s.mutexes| && k != j ==> s.mutexes[k].dueno != Some(d))
    && (s.mutexes[j].espera != [] ==> s.mutexes[j].espera[0] != d)
  }

  lemma {:induction false} UnlockDespoja(cfg: Config, s: Sistema, p: int, j: nat, ahora: int)
    requires Inv(cfg, s) && cfg.cmn && Restauradas(s.procs, s.mutexes) && Ejecuta(s, p)
    requires j < |s.mutexes| && j == BuscarMutex(s.mutexes, s.mutexes[j].nombre) && s.mutexes[j].dueno != Some(p)
    ensures var r := MutexUnlock(cfg, s, p, s.mutexes[j].nombre, ahora);
      Restauradas(r.procs, r.mutexes) <==> !DespojaConHerencia(s, p, s.mutexes[j].nombre)
  {
    assert Desplegar(0);
    var r := MutexUnlock(cfg, s, p, s.mutexes[j].nombre, ahora);
    var mu := if s.mutexes[j].espera == [] then s.mutexes[j].(dueno := None) else Entregado(s.mutexes[j]);
    UnlockEfecto(cfg, s, p, j, ahora);
    var ms' := s.mutexes[j := mu];
    if DespojaConHerencia(s, p, s.mutexes[j].nombre) {
      var d := s.mutexes[j].dueno.value;
      forall k | 0 <= k < |ms'| ensures ms'[k].dueno != Some(d) {
        assert k != j ==> ms'[k] == s.mutexes[k];
      }
      assert d in r.procs && NoPosee(r.mutexes, d);
    } else {
      forall q {:trigger q in r.procs} | q in r.procs && NoPosee(ms', q) ensures r.procs[q].prioridad == r.procs[q].original {
        SinPerder(s.mutexes, ms', j, q);
        if q == p {
          MejorSinMutex(s.procs, ms', p, |ms'|);
        }
      }
    }
  }

  lemma {:induction false} SinPerder(ms: seq<Mutex>, ms': seq<Mutex>, j: nat, q: int)
    requires j < |ms| && |ms'| == |ms| && ms' == ms[j := ms'[j]] && NoPosee(ms', q)
    ensures forall k :: 0 <= k < |ms| && k != j ==> ms[k].dueno != Some(q)
    ensures ms[j].dueno != Some(q) ==> NoPosee(ms, q)
  {
    forall k | 0 <= k < |ms| && k != j ensures ms[k].dueno != Some(q) {
      assert ms'[k].dueno != Some(q);
    }
  }

  /** What an unlock leaves in the records: the caller's priority recomputed, the heir's raised. */
  lemma {:induction false} UnlockEfecto(cfg: Config, s: Sistema, p: int, j: nat, ahora: int)
    requires Inv(cfg, s) && cfg.cmn && Ejecuta(s, p) && j < |s.mutexes| && j == BuscarMutex(s.mutexes, s.mutexes[j].nombre)
    ensures var mu := if s.mutexes[j].espera == [] then s.mutexes[j].(dueno := None) else Entregado(s.mutexes[j]);
      UnlockDeja(s, p, j, mu, MutexUnlock(cfg, s, p, s.mutexes[j].nombre, ahora))
  {
    assert Desplegar(0);
    if s.mutexes[j].espera == [] {
      DevolverConserva(s, p, j, s.mutexes[j].(dueno := None));
    } else {
      UnlockCedeInv(cfg, s, p, j, ahora);
      DevolverConserva(s, p, j, Entregado(s.mutexes[j]));
      var s2 := DevolverPrioridad(ConMutex(s, j, Entregado(s.mutexes[j])), p);
      RecibirConserva(cfg, s, p, j, s2, s.mutexes[j].espera[0], ahora);
    }
  }

  ghost predicate UnlockDeja(s: Sistema, p: int, j: nat, mu: Mutex, r: Sistema)
    requires j < |s.mutexes| && p in s.procs
  {
    && r.mutexes == s.mutexes[j := mu] && r.procs.Keys == s.procs.Keys
    && (forall q :: q in s.procs ==> r.procs[q].original == s.procs[q].original)
    && (forall q :: q in s.procs && q != p && mu.dueno != Some(q) ==> r.procs[q].prioridad == s.procs[q].prioridad)
    && (mu.dueno != Some(p) ==> r.procs[p].prioridad == MejorPropia(s.procs, r.mutexes, p, |r.mutexes|))
  }

  lemma {:induction false} DevolverConserva(s: Sistema, p: int, j: nat, mu: Mutex)
    requires p in s.procs && j < |s.mutexes|
    ensures UnlockDeja(s, p, j, mu, DevolverPrioridad(ConMutex(s, j, mu), p))
    ensures DevolverPrioridad(ConMutex(s, j, mu), p).mutexes == s.mutexes[j := mu]
  {
  }

  lemma {:induction false} RecibirConserva(cfg: Config, s: Sistema, p: int, j: nat, s2: Sistema, w: int, ahora: int)
    requires cfg.cmn && j < |s.mutexes| && s.mutexes[j].espera != [] && w == s.mutexes[j].espera[0]
    requires p in s.procs && w in s.procs && w != p && UnlockDeja(s, p, j, Entregado(s.mutexes[j]), s2)
    ensures UnlockDeja(s, p, j, Entregado(s.mutexes[j]), Recibir(cfg, s2, w, j, ahora))
  {
    HeredarConserva(cfg, s2, w, j);
    var s3 := Heredar(cfg, s2, w, j);
    DespertarSolo(cfg, s3, w, ahora);
    assert SoloEstados(s3, Recibir(cfg, s2, w, j, ahora));
  }
}
