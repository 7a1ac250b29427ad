/** Exact priority inheritance through lock, unlock, handoff and the death of an owner. */
module Herencia {
  import opened Tipos
  import opened Planificacion
  import opened Sistemas
  import opened Pasos
  import opened Invariantes
  import opened Prioridades

  /** Every priority is the inherited one; folded. */
  ghost function Exactas(s: Sistema): (b: bool)
    ensures forall z {:trigger Desplegar(z)} :: Desplegar(z) ==> b == HerenciaExacta(s.procs, s.mutexes)
  {
    var b: bool :| forall z {:trigger Desplegar(z)} :: Desplegar(z) ==> b == HerenciaExacta(s.procs, s.mutexes);
    b
  }

  lemma {:induction false} SoloEstadosExactas(s: Sistema, s': Sistema)
    requires SoloEstados(s, s')
    ensures Exactas(s) == Exactas(s')
  {
    assert Desplegar(0);
    SoloEstadosSigue(s, s');
    assert SoloEstados(s', s);
    SoloEstadosSigue(s', s);
  }

  /** The priority `aplicar_herencia` leaves. */
  function Heredada(m: Procesos, espera: seq<int>, v: int): int {
    var c := MayorPrioridad(m, espera);
    if c == -1 || c >= v then v else c
  }

  lemma {:induction false} HeredarDeja(cfg: Config, s: Sistema, p: int, j: nat)
    requires p in s.procs && j < |s.mutexes|
    ensures var s' := Heredar(cfg, s, p, j);
      && s'.procs.Keys == s.procs.Keys
      && s'.procs[p].prioridad == Heredada(s.procs, s.mutexes[j].espera, s.procs[p].prioridad)
  {
  }

  lemma {:induction false} MayorMarco(m: Procesos, m': Procesos, espera: seq<int>)
    requires forall i :: 0 <= i < |espera| ==> Prioridad(m, espera[i]) == Prioridad(m', espera[i])
    ensures MayorPrioridad(m, espera) == MayorPrioridad(m', espera)
    decreases |espera|
  {
    if |espera| > 0 {
      MayorMarco(m, m', espera[..|espera| - 1]);
    }
  }

  // ---------------------------------------------------------------- lock

  lemma {:induction false} TomarMinimo(m: Procesos, ms: seq<Mutex>, j: nat, mu: Mutex, q: int, v: int)
    requires q in m && j < |ms| && ms[j].dueno.None? && mu.espera == [] && EsMinimo(m, ms, q, v)
    ensures EsMinimo(m, ms[j := mu], q, v)
  {
    var ms' := ms[j := mu];
    forall k, i {:trigger Aporta(m, ms', q, k, i)} | Aporta(m, ms', q, k, i) ensures v <= m[ms'[k].espera[i]].prioridad {
      assert Aporta(m, ms, q, k, i);
    }
    if v != m[q].original {
      var k, i :| Aporta(m, ms, q, k, i) && m[ms[k].espera[i]].prioridad == v;
      assert Aporta(m, ms', q, k, i);
    }
  }

  /** A process with a mutex whose queue is new or longer inherits from that queue. */
  lemma {:induction false} GanarMinimo(cfg: Config, m: Procesos, ms: seq<Mutex>, j: nat, mu: Mutex, h: int, v: int)
    requires cfg.cmn && h in m && j < |ms| && EsMinimo(m, ms, h, v)
    requires mu.dueno == Some(h) && EsperaViva(cfg, m, mu.espera)
    requires ms[j].dueno == Some(h) ==> |ms[j].espera| <= |mu.espera| && mu.espera[..|ms[j].espera|] == ms[j].espera
    ensures EsMinimo(m, ms[j := mu], h, Heredada(m, mu.espera, v))
  {
    var ms', c, r := ms[j := mu], MayorPrioridad(m, mu.espera), Heredada(m, mu.espera, v);
    MayorEsMinima(cfg, m, mu.espera);
    forall k, i {:trigger Aporta(m, ms', h, k, i)} | Aporta(m, ms', h, k, i) ensures r <= m[ms'[k].espera[i]].prioridad {
      assert k != j ==> Aporta(m, ms, h, k, i);
    }
    if r == v {
      if v != m[h].original {
        var k, i :| Aporta(m, ms, h, k, i) && m[ms[k].espera[i]].prioridad == v;
        assert k == j ==> mu.espera[i] == mu.espera[..|ms[j].espera|][i];
        assert ms'[k].espera[i] == ms[k].espera[i];
        assert Aporta(m, ms', h, k, i);
      }
    } else {
      var i :| 0 <= i < |mu.espera| && m[mu.espera[i]].prioridad == c;
      assert Vivo(cfg, m, mu.espera[i]);
      assert Aporta(m, ms', h, j, i);
    }
  }

  /** Waiter `i` of mutex `k`, owned by another process, is `h`; and that owner's priority is
      worse than `c`. */
  predicate Cortada(m: Procesos, ms: seq<Mutex>, h: int, c: int, k: int, i: int) {
    && 0 <= k < |ms| && 0 <= i < |ms[k].espera| && ms[k].espera[i] == h
    && ms[k].dueno.Some? && ms[k].dueno.value != h && ms[k].dueno.value in m && m[ms[k].dueno.value].prioridad > c
  }

  /** Inheritance goes one level: the owner of the requested mutex would inherit, and waits in
      turn for a mutex whose owner has a worse priority than that. */
  ghost predicate CortaHerencia(s: Sistema, p: int, nombre: string) {
    var j := BuscarMutex(s.mutexes, nombre);
    && Ejecuta(s, p) && j < |s.mutexes| && s.mutexes[j].dueno.Some?
    && var h := s.mutexes[j].dueno.value;
    && h in s.procs
    && exists k, i {:trigger Cortada(s.procs, s.mutexes, h, Heredada(s.procs, s.mutexes[j].espera + [p], s.procs[h].prioridad), k, i)} ::
         Cortada(s.procs, s.mutexes, h, Heredada(s.procs, s.mutexes[j].espera + [p], s.procs[h].prioridad), k, i)
  }

  /** When no waiting process owns a mutex nothing is ever cut. */
  lemma {:induction false} SinAnidarNoCorta(s: Sistema, p: int, nombre: string)
    requires SinAnidar(s.mutexes)
    ensures !CortaHerencia(s, p, nombre)
  {
    var j := BuscarMutex(s.mutexes, nombre);
    if j < |s.mutexes| && s.mutexes[j].dueno.Some? {
      var h := s.mutexes[j].dueno.value;
      assert !NoPosee(s.mutexes, h);
      assert NoEsperaEn(s.mutexes, h);
    }
  }

  /** Only `h` changes priority, from its own to `c`. */
  ghost predicate SoloBaja(m: Procesos, m': Procesos, h: int, c: int) {
    h in m && c <= m[h].prioridad && m' == m[h := m[h].(prioridad := c)]
  }

  lemma {:induction false} SoloUna(m: Procesos, m': Procesos, h: int)
    requires m'.Keys == m.Keys && h in m && forall x :: x in m && x != h ==> m'[x] == m[x]
    ensures m' == m[h := m'[h]]
  {
    forall x | x in m'.Keys ensures m'[x] == m[h := m'[h]][x] {
      assert x in m;
    }
  }

  /** An owner other than `h` keeps the exact priority if and only if it is not cut off. */
  lemma {:induction false} AjenoExacto(m: Procesos, ms: seq<Mutex>, ms': seq<Mutex>, m': Procesos, h: int, c: int, q: int)
    requires SoloBaja(m, m', h, c) && q in m && q != h && EsMinimo(m, ms, q, m[q].prioridad) && |ms| == |ms'|
    requires forall k :: 0 <= k < |ms| && (ms[k].dueno == Some(q) || ms'[k].dueno == Some(q)) ==> ms'[k] == ms[k]
    requires forall k, i {:trigger Cortada(m, ms, h, c, k, i)} :: Cortada(m, ms, h, c, k, i) ==> ms[k].dueno != Some(q)
    ensures EsMinimo(m', ms', q, m'[q].prioridad)
  {
    var v := m[q].prioridad;
    forall k, i {:trigger Aporta(m', ms', q, k, i)} | Aporta(m', ms', q, k, i) ensures v <= m'[ms'[k].espera[i]].prioridad {
      assert Aporta(m, ms, q, k, i);
      assert !Cortada(m, ms, h, c, k, i);
    }
    if v != m[q].original {
      var k, i :| Aporta(m, ms, q, k, i) && m[ms[k].espera[i]].prioridad == v;
      assert !Cortada(m, ms, h, c, k, i);
      assert Aporta(m', ms', q, k, i);
    }
  }

  lemma {:induction false} PropioExacto(m: Procesos, ms: seq<Mutex>, m': Procesos, h: int, c: int)
    requires SoloBaja(m, m', h, c) && EsMinimo(m, ms, h, c)
    ensures EsMinimo(m', ms, h, c)
  {
    forall k, i {:trigger Aporta(m', ms, h, k, i)} | Aporta(m', ms, h, k, i) ensures c <= m'[ms[k].espera[i]].prioridad {
      assert Aporta(m, ms, h, k, i);
    }
    if c != m[h].original {
      var k, i :| Aporta(m, ms, h, k, i) && m[ms[k].espera[i]].prioridad == c;
      assert Aporta(m', ms, h, k, i);
    }
  }

  /** Asking for an owned mutex: exact if and only if no chain is cut. */
  lemma {:induction false} PedirExacta(cfg: Config, m: Procesos, ms: seq<Mutex>, j: nat, p: int, h: int, m': Procesos)
    requires cfg.cmn && HerenciaExacta(m, ms) && j < |ms| && ms[j].dueno == Some(h) && h in m
    requires EsperaViva(cfg, m, Pedido(ms[j], p).espera)
    requires SoloBaja(m, m', h, Heredada(m, ms[j].espera + [p], m[h].prioridad))
    ensures HerenciaExacta(m', ms[j := Pedido(ms[j], p)]) <==>
              forall k, i {:trigger Cortada(m, ms, h, m'[h].prioridad, k, i)} :: !Cortada(m, ms, h, m'[h].prioridad, k, i)
  {
    var mu, c := Pedido(ms[j], p), m'[h].prioridad;
    var ms' := ms[j := mu];
    if k, i :| Cortada(m, ms, h, c, k, i) {
      var q := ms[k].dueno.value;
      assert Aporta(m', ms', q, k, i);
      assert !EsMinimo(m', ms', q, m'[q].prioridad);
    } else {
      forall q {:trigger q in m'} | q in m' ensures EsMinimo(m', ms', q, m'[q].prioridad) {
        if q == h {
          GanarMinimo(cfg, m, ms, j, mu, h, m[h].prioridad);
          PropioExacto(m, ms', m', h, c);
        } else {
          AjenoExacto(m, ms, ms', m', h, c, q);
        }
      }
    }
  }

  /** The owner of a mutex can be found. */
  lemma {:induction false} DuenoBuscable(cfg: Config, s: Sistema, j: nat)
    requires Inv(cfg, s) && j < |s.mutexes| && s.mutexes[j].dueno.Some?
    ensures Buscable(cfg, s, s.mutexes[j].dueno.value)
    ensures Nivel(cfg, s.procs[s.mutexes[j].dueno.value].original).Some?
  {
    assert Desplegar(0);
    var h := s.mutexes[j].dueno.value;
    assert h in s.procs && ProcesoBien(cfg, s.procs[h]);
    NivelVivo(cfg, s.procs[h]);
  }

  lemma {:induction false} PedidoVivo(cfg: Config, s: Sistema, p: int, j: nat)
    requires Inv(cfg, s) && Ejecuta(s, p) && j < |s.mutexes|
    ensures EsperaViva(cfg, s.procs, Pedido(s.mutexes[j], p).espera)
  {
    assert Desplegar(0);
    EsperanVivos(cfg, s, 0, 0, 0, 0, None, j);
    assert ProcesoBien(cfg, s.procs[p]);
    assert Vivo(cfg, s.procs, p);
  }

  /** The exact condition: from a state where inheritance is exact, a lock leaves it exact if
      and only if it does not cut a chain. */
  lemma {:induction false} LockExactaSii(cfg: Config, s: Sistema, p: int, nombre: string)
    requires Inv(cfg, s) && cfg.cmn && Exactas(s)
    ensures Exactas(MutexLock(cfg, s, p, nombre)) <==> !CortaHerencia(s, p, nombre)
  {
    assert Desplegar(0);
    var j := BuscarMutex(s.mutexes, nombre);
    if Ejecuta(s, p) && j < |s.mutexes| {
      if s.mutexes[j].dueno.None? {
        LockLibreExacta(cfg, s, p, j);
      } else {
        LockEsperaInv(cfg, s, p, j);
        LockEsperaExacta(cfg, s, p, j);
        var s1 := HeredarDueno(cfg, ConMutex(s, j, Pedido(s.mutexes[j], p)), j);
        BloquearSolo(cfg, s1, p);
        SoloEstadosExactas(s1, Bloquear(cfg, s1, p));
        CortaCuando(s, p, j);
      }
    }
  }

  /** The condition for the mutex in position `j`. */
  ghost predicate CortaEn(s: Sistema, p: int, j: nat)
    requires j < |s.mutexes| && s.mutexes[j].dueno.Some? && s.mutexes[j].dueno.value in s.procs
  {
    var h := s.mutexes[j].dueno.value;
    var c := Heredada(s.procs, s.mutexes[j].espera + [p], s.procs[h].prioridad);
    exists k, i {:trigger Cortada(s.procs, s.mutexes, h, c, k, i)} :: Cortada(s.procs, s.mutexes, h, c, k, i)
  }

  lemma {:induction false} CortaCuando(s: Sistema, p: int, j: nat)
    requires Ejecuta(s, p) && j < |s.mutexes| && j == BuscarMutex(s.mutexes, s.mutexes[j].nombre)
    requires s.mutexes[j].dueno.Some? && s.mutexes[j].dueno.value in s.procs
    ensures CortaEn(s, p, j) <==> CortaHerencia(s, p, s.mutexes[j].nombre)
  {
  }

  lemma {:induction false} LockLibreExacta(cfg: Config, s: Sistema, p: int, j: nat)
    requires Inv(cfg, s) && Exactas(s) && Ejecuta(s, p) && j < |s.mutexes| && s.mutexes[j].dueno.None?
    ensures Exactas(ConMutex(s, j, Tomado(s.mutexes[j], p)))
  {
    assert Desplegar(0);
    var mu := Tomado(s.mutexes[j], p);
    assert MutexBien(s.mutexes[j]);
    forall q {:trigger q in s.procs} | q in s.procs ensures EsMinimo(s.procs, s.mutexes[j := mu], q, s.procs[q].prioridad) {
      TomarMinimo(s.procs, s.mutexes, j, mu, q, s.procs[q].prioridad);
    }
  }

  lemma {:induction false} LockEsperaExacta(cfg: Config, s: Sistema, p: int, j: nat)
    requires Inv(cfg, s) && cfg.cmn && Exactas(s) && Ejecuta(s, p)
    requires j < |s.mutexes| && s.mutexes[j].dueno.Some?
    ensures s.mutexes[j].dueno.value in s.procs
    ensures Exactas(HeredarDueno(cfg, ConMutex(s, j, Pedido(s.mutexes[j], p)), j)) <==> !CortaEn(s, p, j)
  {
    assert Desplegar(0);
    var h, s0 := s.mutexes[j].dueno.value, ConMutex(s, j, Pedido(s.mutexes[j], p));
    DuenoBuscable(cfg, s, j);
    HeredarConserva(cfg, s0, h, j);
    HeredarDeja(cfg, s0, h, j);
    PedidoVivo(cfg, s, p, j);
    SoloUna(s.procs, Heredar(cfg, s0, h, j).procs, h);
    PedirExacta(cfg, s.procs, s.mutexes, j, p, h, Heredar(cfg, s0, h, j).procs);
  }

  // ---------------------------------------------------------------- handing over

  /** What a handoff of mutex `j` to its first waiter leaves: the heir's priority raised to that
      of its new waiters, and `p`, who gave it up, recomputed. */
  ghost predicate Entrega(m: Procesos, ms: seq<Mutex>, j: nat, p: Option<int>, m': Procesos)
    requires j < |ms| && ms[j].espera != []
  {
    var w, ms' := ms[j].espera[0], ms[j := Entregado(ms[j])];
    && w in m && m'.Keys == m.Keys && p != Some(w)
    && (forall q :: q in m ==> m'[q].original == m[q].original)
    && (forall q :: q in m && q != w && p != Some(q) ==> m'[q].prioridad == m[q].prioridad)
    && m'[w].prioridad == Heredada(m, ms'[j].espera, m[w].prioridad)
    && (p.Some? && p.value in m ==> EsMinimo(m, ms', p.value, m'[p.value].prioridad))
  }

  lemma {:induction false} EntregaExacta(cfg: Config, m: Procesos, ms: seq<Mutex>, j: nat, p: Option<int>, m': Procesos)
    requires cfg.cmn && j < |ms| && ms[j].espera != [] && Entrega(m, ms, j, p, m') && HerenciaExacta(m, ms)
    requires ms[j].dueno.Some? && (ms[j].dueno.value in m ==> ms[j].dueno == p)
    requires EsperaViva(cfg, m, ms[j].espera) && NoEsperaEn(ms[j := Entregado(ms[j])], ms[j].espera[0])
    requires p.Some? ==> NoEsperaEn(ms[j := Entregado(ms[j])], p.value)
    ensures HerenciaExacta(m', ms[j := Entregado(ms[j])])
  {
    var w, ms' := ms[j].espera[0], ms[j := Entregado(ms[j])];
    forall q {:trigger q in m'} | q in m' ensures EsMinimo(m', ms', q, m'[q].prioridad) {
      if q == w {
        RestoEspera(ms[j]);
        GanarMinimo(cfg, m, ms, j, Entregado(ms[j]), w, m[w].prioridad);
      } else if p != Some(q) {
        MinimoMarco(m, ms, m, ms', q, m[q].prioridad);
      }
      MarcoEntrega(m, ms', m', w, p, q, m'[q].prioridad);
    }
  }

  lemma {:induction false} RestoEspera(mu: Mutex)
    requires mu.espera != []
    ensures forall i :: 0 <= i < |Entregado(mu).espera| ==> Entregado(mu).espera[i] == mu.espera[i + 1]
    ensures forall i :: 0 <= i < |Entregado(mu).espera| ==> Entregado(mu).espera[i] in mu.espera
  {
  }

  /** Priorities changed only for processes that wait for nothing. */
  lemma {:induction false} MarcoEntrega(m: Procesos, ms: seq<Mutex>, m': Procesos, w: int, p: Option<int>, q: int, v: int)
    requires m'.Keys == m.Keys && q in m && EsMinimo(m, ms, q, v)
    requires forall x :: x in m ==> m'[x].original == m[x].original
    requires forall x :: x in m && x != w && p != Some(x) ==> m'[x].prioridad == m[x].prioridad
    requires NoEsperaEn(ms, w) && (p.Some? ==> NoEsperaEn(ms, p.value))
    ensures EsMinimo(m', ms, q, v)
  {
    MinimoMarco(m, ms, m', ms, q, v);
  }

  /** A queue that only shrank still lacks whoever it lacked. */
  lemma {:induction false} SigueSinEsperar(ms: seq<Mutex>, j: nat, mu: Mutex, p: int)
    requires j < |ms| && NoEsperaEn(ms, p)
    requires forall i :: 0 <= i < |mu.espera| ==> mu.espera[i] in ms[j].espera
    ensures NoEsperaEn(ms[j := mu], p)
  {
    var ms' := ms[j := mu];
    forall k, i | 0 <= k < |ms'| && 0 <= i < |ms'[k].espera| ensures ms'[k].espera[i] != p {
      if k == j {
        assert mu.espera[i] in ms[j].espera;
        var i' :| 0 <= i' < |ms[j].espera| && ms[j].espera[i'] == mu.espera[i];
      }
    }
  }

  // ---------------------------------------------------------------- unlock

  lemma {:induction false} UnlockExacta(cfg: Config, s: Sistema, p: int, nombre: string, ahora: int)
    requires Inv(cfg, s) && cfg.cmn && Exactas(s) && SueltaLoPropio(s, p, nombre)
    ensures Exactas(MutexUnlock(cfg, s, p, nombre, ahora))
  {
    assert Desplegar(0);
    var j := BuscarMutex(s.mutexes, nombre);
    if Ejecuta(s, p) && j < |s.mutexes| {
      EjecutaNoEspera(cfg, s, p);
      if s.mutexes[j].espera == [] {
        SoltarExacta(cfg, s, p, j);
      } else {
        UnlockCedeInv(cfg, s, p, j, ahora);
        UnlockCedeExacta(cfg, s, p, j);
        var s2 := DevolverPrioridad(ConMutex(s, j, Entregado(s.mutexes[j])), p);
        var s3 := Heredar(cfg, s2, s.mutexes[j].espera[0], j);
        HeredarConserva(cfg, s2, s.mutexes[j].espera[0], j);
        DespertarSolo(cfg, s3, s.mutexes[j].espera[0], ahora);
        SoloEstadosExactas(s3, MutexUnlock(cfg, s, p, nombre, ahora));
      }
    }
  }

  /** What the caller gets back is the least priority over what it still owns. */
  lemma {:induction false} DevueltaMinima(cfg: Config, s: Sistema, p: int, j: nat, mu: Mutex)
    requires Inv(cfg, s) && cfg.cmn && p in s.procs && j < |s.mutexes|
    requires forall i :: 0 <= i < |mu.espera| ==> mu.espera[i] in s.mutexes[j].espera
    ensures EsMinimo(s.procs, s.mutexes[j := mu], p, MejorPropia(s.procs, s.mutexes[j := mu], p, |s.mutexes|))
  {
    assert Desplegar(0);
    var ms' := s.mutexes[j := mu];
    forall k | 0 <= k < |ms'| ensures EsperaViva(cfg, s.procs, ms'[k].espera) {
      EsperanVivos(cfg, s, 0, 0, 0, 0, None, k);
      if k == j {
        forall i | 0 <= i < |mu.espera| ensures Vivo(cfg, s.procs, mu.espera[i]) {
          assert mu.espera[i] in s.mutexes[j].espera;
          var i' :| 0 <= i' < |s.mutexes[j].espera| && s.mutexes[j].espera[i'] == mu.espera[i];
        }
      }
    }
    MejorEsMinimo(cfg, s.procs, ms', p, |ms'|);
    assert ms'[..|ms'|] == ms';
  }

  lemma {:induction false} SoltarExacta(cfg: Config, s: Sistema, p: int, j: nat)
    requires Inv(cfg, s) && cfg.cmn && Exactas(s) && Ejecuta(s, p) && NoEsperaEn(s.mutexes, p)
    requires j < |s.mutexes| && s.mutexes[j].dueno == Some(p) && s.mutexes[j].espera == []
    ensures Exactas(DevolverPrioridad(ConMutex(s, j, s.mutexes[j].(dueno := None)), p))
  {
    assert Desplegar(0);
    var mu := s.mutexes[j].(dueno := None);
    var r := DevolverPrioridad(ConMutex(s, j, mu), p);
    DevolverConserva(s, p, j, mu);
    DevueltaMinima(cfg, s, p, j, mu);
    SigueSinEsperar(s.mutexes, j, mu, p);
    SoltarMinimos(s.procs, s.mutexes, j, mu, p, r.procs);
  }

  lemma {:induction false} SoltarMinimos(m: Procesos, ms: seq<Mutex>, j: nat, mu: Mutex, p: int, m': Procesos)
    requires HerenciaExacta(m, ms) && j < |ms| && ms[j].dueno == Some(p) && mu.dueno == None && NoEsperaEn(ms[j := mu], p)
    requires m'.Keys == m.Keys && p in m && (forall x :: x in m ==> m'[x].original == m[x].original)
    requires forall x :: x in m && x != p ==> m'[x].prioridad == m[x].prioridad
    requires EsMinimo(m, ms[j := mu], p, m'[p].prioridad)
    ensures HerenciaExacta(m', ms[j := mu])
  {
    var ms' := ms[j := mu];
    forall q {:trigger q in m'} | q in m' ensures EsMinimo(m', ms', q, m'[q].prioridad) {
      if q != p {
        MinimoMarco(m, ms, m, ms', q, m[q].prioridad);
      }
      MarcoEntrega(m, ms', m', p, None, q, m'[q].prioridad);
    }
  }

  lemma {:induction false} UnlockEntrega(cfg: Config, s: Sistema, p: int, j: nat)
    requires Inv(cfg, s) && cfg.cmn && Ejecuta(s, p) && NoEsperaEn(s.mutexes, p)
    requires j < |s.mutexes| && s.mutexes[j].espera != []
    requires s.mutexes[j].espera[0] in s.procs && s.mutexes[j].espera[0] != p
    ensures var r := Heredar(cfg, DevolverPrioridad(ConMutex(s, j, Entregado(s.mutexes[j])), p), s.mutexes[j].espera[0], j);
      Entrega(s.procs, s.mutexes, j, Some(p), r.procs) && r.mutexes == s.mutexes[j := Entregado(s.mutexes[j])]
  {
    assert Desplegar(0);
    var mu, w := Entregado(s.mutexes[j]), s.mutexes[j].espera[0];
    var s2 := DevolverPrioridad(ConMutex(s, j, mu), p);
    DevolverConserva(s, p, j, mu);
    RestoEspera(s.mutexes[j]);
    DevueltaMinima(cfg, s, p, j, mu);
    HeredarConserva(cfg, s2, w, j);
    HeredarDeja(cfg, s2, w, j);
    MayorMarco(s2.procs, s.procs, mu.espera);
  }

  lemma {:induction false} UnlockCedeExacta(cfg: Config, s: Sistema, p: int, j: nat)
    requires Inv(cfg, s) && cfg.cmn && Exactas(s) && Ejecuta(s, p) && NoEsperaEn(s.mutexes, p)
    requires j < |s.mutexes| && s.mutexes[j].dueno == Some(p) && s.mutexes[j].espera != []
    requires s.mutexes[j].espera[0] in s.procs && s.mutexes[j].espera[0] != p
    ensures Exactas(Heredar(cfg, DevolverPrioridad(ConMutex(s, j, Entregado(s.mutexes[j])), p), s.mutexes[j].espera[0], j))
  {
    assert Desplegar(0);
    var w := s.mutexes[j].espera[0];
    var r := Heredar(cfg, DevolverPrioridad(ConMutex(s, j, Entregado(s.mutexes[j])), p), w, j);
    UnlockEntrega(cfg, s, p, j);
    EntregarInv(cfg, s, j, 0, 0, None);
    EntregadoNoEspera(cfg, ConMutex(s, j, Entregado(s.mutexes[j])), w, 0, 0, None);
    EsperanVivos(cfg, s, 0, 0, 0, 0, None, j);
    RestoEspera(s.mutexes[j]);
    SigueSinEsperar(s.mutexes, j, Entregado(s.mutexes[j]), p);
    EntregaExacta(cfg, s.procs, s.mutexes, j, Some(p), r.procs);
  }

  // ---------------------------------------------------------------- death of an owner

  lemma {:induction false} CederUnoExacta(cfg: Config, s: Sistema, muerto: int, j: nat, ahora: int, c0: int)
    requires EnCesion(cfg, s, muerto, c0) && cfg.cmn && j < |s.mutexes| && Exactas(s)
    ensures Exactas(Ceder(cfg, s, muerto, j, ahora))
  {
    assert Desplegar(0);
    var mu := s.mutexes[j];
    if mu.dueno == Some(muerto) {
      if mu.espera == [] {
        LiberarExacta(s, muerto, j);
      } else {
        EntregarInv(cfg, s, j, c0, 1, Some(muerto));
        CederEsperaExacta(cfg, s, muerto, j, c0);
        var s1, w := ConMutex(s, j, Entregado(mu)), mu.espera[0];
        HeredarConserva(cfg, s1, w, j);
        DespertarSolo(cfg, Heredar(cfg, s1, w, j), w, ahora);
        SoloEstadosExactas(Heredar(cfg, s1, w, j), Ceder(cfg, s, muerto, j, ahora));
      }
    }
  }

  lemma {:induction false} LiberarExacta(s: Sistema, muerto: int, j: nat)
    requires Exactas(s) && j < |s.mutexes| && s.mutexes[j].dueno == Some(muerto) && muerto !in s.procs
    ensures Exactas(ConMutex(s, j, s.mutexes[j].(dueno := None)))
  {
    assert Desplegar(0);
    var ms' := s.mutexes[j := s.mutexes[j].(dueno := None)];
    forall q {:trigger q in s.procs} | q in s.procs ensures EsMinimo(s.procs, ms', q, s.procs[q].prioridad) {
      MinimoMarco(s.procs, s.mutexes, s.procs, ms', q, s.procs[q].prioridad);
    }
  }

  lemma {:induction false} CederEsperaExacta(cfg: Config, s: Sistema, muerto: int, j: nat, c0: int)
    requires InvSalvo(cfg, s, 0, 0, c0, 1, Some(muerto)) && muerto !in s.procs && cfg.cmn && Exactas(s)
    requires j < |s.mutexes| && s.mutexes[j].dueno == Some(muerto) && s.mutexes[j].espera != []
    requires s.mutexes[j].espera[0] in s.procs
    requires InvSalvo(cfg, ConMutex(s, j, Entregado(s.mutexes[j])), s.mutexes[j].espera[0], 1, c0, 1, Some(muerto))
    ensures Exactas(Heredar(cfg, ConMutex(s, j, Entregado(s.mutexes[j])), s.mutexes[j].espera[0], j))
  {
    assert Desplegar(0);
    var mu, w := Entregado(s.mutexes[j]), s.mutexes[j].espera[0];
    var s1 := ConMutex(s, j, mu);
    EntregadoNoEspera(cfg, s1, w, c0, 1, Some(muerto));
    EsperanVivos(cfg, s, 0, 0, c0, 1, Some(muerto), j);
    HeredarConserva(cfg, s1, w, j);
    HeredarDeja(cfg, s1, w, j);
    EntregaExacta(cfg, s.procs, s.mutexes, j, None, Heredar(cfg, s1, w, j).procs);
  }

  lemma {:induction false} CederExacta(cfg: Config, s: Sistema, muerto: int, n: nat, ahora: int, c0: int)
    requires CesionExacta(cfg, s, muerto, c0) && cfg.cmn && n <= |s.mutexes|
    ensures CesionExacta(cfg, CederHasta(cfg, s, muerto, n, ahora), muerto, c0)
    decreases n
  {
    if n > 0 {
      CederExacta(cfg, s, muerto, n - 1, ahora, c0);
      CesionExactaSigue(cfg, CederHasta(cfg, s, muerto, n - 1, ahora), muerto, n - 1, ahora, c0);
    }
  }

  /** Both facts, folded. */
  ghost function CesionExacta(cfg: Config, s: Sistema, muerto: int, c0: int): (b: bool)
    ensures forall z {:trigger Desplegar(z)} :: Desplegar(z) ==> b == (EnCesion(cfg, s, muerto, c0) && Exactas(s))
  {
    var b: bool :| forall z {:trigger Desplegar(z)} :: Desplegar(z) ==> b == (EnCesion(cfg, s, muerto, c0) && Exactas(s));
    b
  }

  lemma {:induction false} CesionExactaSigue(cfg: Config, s: Sistema, muerto: int, j: nat, ahora: int, c0: int)
    requires CesionExacta(cfg, s, muerto, c0) && cfg.cmn && j < |s.mutexes|
    ensures CesionExacta(cfg, Ceder(cfg, s, muerto, j, ahora), muerto, c0)
  {
    assert Desplegar(0);
    CederCesion(cfg, s, muerto, j, ahora, c0);
    CederUnoExacta(cfg, s, muerto, j, ahora, c0);
  }

  lemma {:induction false} SalirExacta(cfg: Config, s: Sistema, p: int)
    requires Inv(cfg, s) && Exactas(s) && Ejecuta(s, p)
    ensures HerenciaExacta(s.procs - {p}, s.mutexes)
  {
    assert Desplegar(0);
    EjecutaNoEspera(cfg, s, p);
    forall q {:trigger q in s.procs - {p}} | q in s.procs - {p} ensures EsMinimo(s.procs - {p}, s.mutexes, q, s.procs[q].prioridad) {
      MinimoMarco(s.procs, s.mutexes, s.procs - {p}, s.mutexes, q, s.procs[q].prioridad);
    }
  }

  lemma {:induction false} TerminarExacta(cfg: Config, s: Sistema, p: int, ahora: int)
    requires Inv(cfg, s) && cfg.cmn && Exactas(s)
    ensures Exactas(Terminar(cfg, s, p, ahora))
  {
    assert Desplegar(0);
    if Ejecuta(s, p) {
      var c := s.procs[p].cpu.value;
      var s1 := s.(procs := s.procs - {p}, listas := Sacado(cfg, s.procs, s.listas, p));
      InvDesde(cfg, s, p, c);
      SalirInv(cfg, s, p, c);
      SalirExacta(cfg, s, p);
      SinDeuda(s1.procs, s1.io, s1.mutexes, s1.esperando, p, 0);
      assert Desplegar(0);
      CederExacta(cfg, s1, p, |s.mutexes|, ahora, c);
      var s2 := CederHasta(cfg, s1, p, |s.mutexes|, ahora);
      assert Exactas(s2);
      SoloEstadosExactas(s2, Devolver(s2, c));
    }
  }
}
