/** A round of de-suspensions: who is asked for, in which order, and who comes back. */
module Rondas {
  import opened Tipos
  import opened Listas
  import opened Planificacion
  import opened Sistemas
  import opened Pasos
  import opened Invariantes
  import opened Ejecuciones
  import opened Formas
  import opened Turnos

  /** Better priority, or the same and suspended earlier. */
  predicate Prefiere(m: Procesos, p: int, q: int) {
    p in m && q in m && if m[p].prioridad == m[q].prioridad then m[p].suspendidoEn < m[q].suspendidoEn else m[p].prioridad < m[q].prioridad
  }

  /** Every suspended and ready process is asked for, once, and the preferred ones first. */
  ghost predicate RondaJusta(m: Procesos, orden: seq<int>) {
    && (forall x {:trigger x in orden} :: x in orden <==> x in m && m[x].estado == SuspReady)
    && (forall i, j :: 0 <= i < j < |orden| ==> orden[i] != orden[j])
    && forall p, q {:trigger Prefiere(m, p, q)} ::
         Prefiere(m, p, q) && m[p].estado == SuspReady && m[q].estado == SuspReady ==> Antes(orden, p, q)
  }

  predicate Acepta(resp: seq<bool>, i: int) {
    0 <= i < |resp| && resp[i]
  }

  /** The first `n` asked for are ready or still suspended, as Kernel Memory answered; of the
      others nothing changes. */
  ghost predicate RondaDeja(m: Procesos, s': Sistema, orden: seq<int>, resp: seq<bool>, n: nat)
    requires n <= |orden|
  {
    && s'.procs.Keys == m.Keys
    && (forall i {:trigger orden[i]} :: 0 <= i < n ==>
          orden[i] in m && s'.procs[orden[i]] == m[orden[i]].(estado := if Acepta(resp, i) then Ready else SuspReady))
    && (forall x {:trigger x in m} :: x in m && x !in orden[..n] ==> s'.procs[x] == m[x])
  }

  lemma {:induction false} OrdenJusto(cfg: Config, s: Sistema, orden: seq<int>)
    requires Inv(cfg, s) && EsOrden(s.procs, s.listas.suspReady, orden)
    ensures RondaJusta(s.procs, orden)
  {
    OrdenForma(cfg, s, orden);
    var m, l := s.procs, s.listas.suspReady;
    forall x {:trigger x in orden} ensures x in orden <==> x in m && m[x].estado == SuspReady {
      VecesMiembro(orden, x);
      VecesMiembro(l, x);
      assert Veces(orden, x) == Veces(l, x);
      ListaDice(cfg, s, EnSuspReady, x);
    }
    forall p, q {:trigger Prefiere(m, p, q)} | Prefiere(m, p, q) && m[p].estado == SuspReady && m[q].estado == SuspReady
      ensures Antes(orden, p, q)
    {
      assert p in orden && q in orden;
      var i :| 0 <= i < |orden| && orden[i] == p;
      var j :| 0 <= j < |orden| && orden[j] == q;
    }
  }

  lemma {:induction false} RondaHasta(cfg: Config, s: Sistema, orden: seq<int>, resp: seq<bool>, n: nat)
    requires n <= |orden| && Dessuspendiendo(cfg, s, orden, 0)
    ensures RondaDeja(s.procs, DessuspenderP(cfg, s, orden, resp, n), orden, resp, n)
    decreases n
  {
    DessuspenderInicio(cfg, s, orden, resp);
    if n > 0 {
      RondaHasta(cfg, s, orden, resp, n - 1);
      RondaHastaCrece(cfg, s, orden, resp, n - 1);
      DessuspenderForma(cfg, s, orden, resp, n - 1);
      RondaUno(s.procs, DessuspenderP(cfg, s, orden, resp, n - 1), DessuspenderP(cfg, s, orden, resp, n), orden, resp, n - 1);
    }
  }

  lemma {:induction false} RondaUno(m: Procesos, a: Sistema, b: Sistema, orden: seq<int>, resp: seq<bool>, n: nat)
    requires n < |orden| && RondaDeja(m, a, orden, resp, n)
    requires forall i, j :: 0 <= i < j < |orden| ==> orden[i] != orden[j]
    requires orden[n] in m && m[orden[n]].estado == SuspReady
    requires b.procs == if Acepta(resp, n) then a.procs[orden[n] := a.procs[orden[n]].(estado := Ready)] else a.procs
    ensures RondaDeja(m, b, orden, resp, n + 1)
  {
    var p := orden[n];
    assert p in m && p !in orden[..n];
    assert a.procs[p] == m[p];
    forall i {:trigger orden[i]} | 0 <= i < n + 1
      ensures orden[i] in m && b.procs[orden[i]] == m[orden[i]].(estado := if Acepta(resp, i) then Ready else SuspReady)
    {
      if i < n {
        assert orden[i] in m;
      }
    }
    forall x {:trigger x in m} | x in m && x !in orden[..n + 1] ensures b.procs[x] == m[x] {
      assert x !in orden[..n] && x != orden[n] by {
        assert orden[..n + 1] == orden[..n] + [orden[n]];
      }
    }
  }

  /**
    Kernel Memory announced free memory: the suspended and ready processes are asked for in
    order of priority, and of suspension time among equals; exactly those it accepts become
    ready.
  */
  lemma {:induction false} RondaPorPrioridad(cfg: Config, s: Sistema, orden: seq<int>, resp: seq<bool>)
    requires Inv(cfg, s) && Habilitado(cfg, s, HayMemoria(orden, resp))
    ensures RondaJusta(s.procs, orden)
    ensures RondaDeja(s.procs, Siguiente(cfg, s, HayMemoria(orden, resp)), orden, resp, |orden|)
  {
    TrasEsSiguiente(cfg, s, HayMemoria(orden, resp));
    OrdenJusto(cfg, s, orden);
    OrdenForma(cfg, s, orden);
    RondaHasta(cfg, s.(listas := s.listas.(suspReady := orden)), orden, resp, |orden|);
    DessuspenderFin(cfg, s, orden, resp);
  }

  /** The records when the process whose I/O ended has become suspended and ready. */
  function TrasIo(m: Procesos, p: int, ahora: int): Procesos
    requires p in m
  {
    m[p := m[p].(reloj := Ninguno, estado := SuspReady, suspendidoEn := ahora)]
  }

  /** The same round when the I/O of a suspended process ends: it takes part with that time. */
  lemma {:induction false} RondaTrasIo(cfg: Config, s: Sistema, p: int, ahora: int, orden: seq<int>, resp: seq<bool>)
    requires Inv(cfg, s) && Habilitado(cfg, s, TerminaIo(p, true, ahora, orden, resp))
    requires p in s.io.servicio && p in s.procs && s.procs[p].estado == SuspBlock
    ensures RondaJusta(TrasIo(s.procs, p, ahora), orden)
    ensures RondaDeja(TrasIo(s.procs, p, ahora), Siguiente(cfg, s, TerminaIo(p, true, ahora, orden, resp)), orden, resp, |orden|)
  {
    TrasEsSiguiente(cfg, s, TerminaIo(p, true, ahora, orden, resp));
    FinIoForma(cfg, s, p, true, ahora);
    var s1 := s.(io := s.io.(servicio := Quitar(s.io.servicio, p)));
    var s2 := DespertarP(cfg, s1, p, ahora);
    DespertarForma(cfg, s1, p, ahora);
    DespiertaBien(cfg, s, p, ahora);
    RondaTrasDespertar(cfg, s, p, true, ahora, orden, resp);
    OrdenJusto(cfg, s2, orden);
    OrdenForma(cfg, s2, orden);
    RondaHasta(cfg, s2.(listas := s2.listas.(suspReady := orden)), orden, resp, |orden|);
    DessuspenderFin(cfg, s2, orden, resp);
  }

  /** So when memory suffices for the first only, the one that comes back is one that no other
      suspended and ready process is preferred to. */
  lemma {:induction false} VuelveElPreferido(cfg: Config, s: Sistema, orden: seq<int>, resp: seq<bool>, p: int, q: int)
    requires Inv(cfg, s) && Habilitado(cfg, s, HayMemoria(orden, resp))
    requires Acepta(resp, 0) && forall i :: 0 < i < |orden| ==> !Acepta(resp, i)
    requires q in s.procs && s.procs[q].estado == SuspReady
    requires p in s.procs && s.procs[p].estado == SuspReady
    requires p in Siguiente(cfg, s, HayMemoria(orden, resp)).procs && Siguiente(cfg, s, HayMemoria(orden, resp)).procs[p].estado == Ready
    ensures !Prefiere(s.procs, q, p)
    ensures q in Siguiente(cfg, s, HayMemoria(orden, resp)).procs
    ensures q != p ==> Siguiente(cfg, s, HayMemoria(orden, resp)).procs[q] == s.procs[q]
  {
    RondaPorPrioridad(cfg, s, orden, resp);
    assert p in orden && q in orden;
    var i :| 0 <= i < |orden| && orden[i] == p;
    var j :| 0 <= j < |orden| && orden[j] == q;
    assert i == 0;
    if q != p {
      assert j != 0;
    }
  }
}
