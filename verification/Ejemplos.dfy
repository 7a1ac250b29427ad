/**
  Runs in which the two priority properties that hold only under a condition fail.  Process 0
  (priority 2) owns A; process 1 (priority 1) owns B and waits for A, so 0 inherits 1; process 2
  (priority 0) runs.  If 2 asks for B, process 1 inherits 0 and process 0, for whom 1 waits, does
  not.  If instead 2 unlocks A, which is not its own, process 0 is left with no mutex and an
  inherited priority.
*/
module Ejemplos {
  import opened Tipos
  import opened Listas
  import opened Planificacion
  import opened Sistemas
  import opened Pasos
  import opened Prioridades
  import opened Herencia
  import opened Ejecuciones

  /** Three first-come queues, no preemption between them. */
  const CFG := Config(true, [false, false, false], false)

  /** Event `e` is possible at `s` and leads to `r`; folded. */
  ghost function Da(s: Sistema, e: Evento, r: Sistema): (b: bool)
    ensures forall z {:trigger Desplegar(z)} :: Desplegar(z) ==> b == (Habilitado(CFG, s, e) && Siguiente(CFG, s, e) == r)
  {
    var b: bool :| forall z {:trigger Desplegar(z)} :: Desplegar(z) ==> b == (Habilitado(CFG, s, e) && Siguiente(CFG, s, e) == r);
    b
  }

  /** Some run takes these events to `s`. */
  ghost predicate Llega(es: seq<Evento>, s: Sistema) {
    exists traza {:trigger Corrida(CFG, traza, es)} :: Corrida(CFG, traza, es) && traza[|es|] == s
  }

  lemma {:induction false} Sigue(es: seq<Evento>, s: Sistema, e: Evento, r: Sistema)
    requires Llega(es, s) && Da(s, e, r)
    ensures Llega(es + [e], r)
  {
    assert Desplegar(0);
    var traza :| Corrida(CFG, traza, es) && traza[|es|] == s;
    var t, fs := traza + [r], es + [e];
    forall k {:trigger fs[k]} | 0 <= k < |fs|
      ensures Habilitado(CFG, t[k], fs[k]) && t[k + 1] == Siguiente(CFG, t[k], fs[k])
    {
      if k < |es| {
        assert fs[k] == es[k] && t[k] == traza[k] && t[k + 1] == traza[k + 1];
      }
    }
    assert Corrida(CFG, t, fs);
  }

  lemma {:induction false} LlegaInv(es: seq<Evento>, s: Sistema)
    requires Llega(es, s)
    ensures Inv(CFG, s)
  {
    var traza :| Corrida(CFG, traza, es) && traza[|es|] == s;
    Alcanzable(CFG, traza, es, |es|);
  }

  lemma {:induction false} LlegaPor(es: seq<Evento>, ss: seq<Sistema>)
    requires |ss| == |es| + 1 && ss[0] == Inicial(CFG)
    requires forall k {:trigger es[k]} :: 0 <= k < |es| ==> Da(ss[k], es[k], ss[k + 1])
    ensures Llega(es, ss[|es|])
  {
    assert Desplegar(0);
    assert Corrida(CFG, ss, es);
  }

  lemma {:induction false} PorConectar(s: Sistema, c: int, r: Sistema)
    requires c !in s.cpus.conectadas && ConectarCpu(s, c) == r
    ensures Da(s, Conecta(c), r)
  {
    assert Desplegar(0);
  }

  lemma {:induction false} PorInicio(s: Sistema, prioridad: int, r: Sistema)
    requires Nacer(CFG, s, prioridad, true) == r
    ensures Da(s, Inicia(prioridad, true), r)
  {
    assert Desplegar(0);
  }

  lemma {:induction false} PorInitProc(s: Sistema, p: int, prioridad: int, r: Sistema)
    requires Ejecuta(s, p) && Nacer(CFG, s, prioridad, true) == r
    ensures Da(s, InitProc(p, prioridad, true), r)
  {
    assert Desplegar(0);
  }

  lemma {:induction false} PorPlan(s: Sistema, r: Sistema)
    requires PuedePlanificar(s) && Planificar(CFG, s) == r
    ensures Da(s, Planifica, r)
  {
    assert Desplegar(0);
  }

  lemma {:induction false} PorMutexCreate(s: Sistema, p: int, nombre: string, r: Sistema)
    requires MutexCreate(s, p, nombre) == r
    ensures Da(s, CreaMutex(p, nombre), r)
  {
    assert Desplegar(0);
  }

  lemma {:induction false} PorLock(s: Sistema, p: int, nombre: string, r: Sistema)
    requires MutexLock(CFG, s, p, nombre) == r
    ensures Da(s, Lock(p, nombre), r)
  {
    assert Desplegar(0);
  }

  lemma {:induction false} PorUnlock(s: Sistema, p: int, nombre: string, r: Sistema)
    requires MutexUnlock(CFG, s, p, nombre, 0) == r
    ensures Da(s, Unlock(p, nombre, 0), r)
  {
    assert Desplegar(0);
  }

  // ---------------------------------------------------------------- the states of the beginning

  function Foto(procs: Procesos, colas: seq<seq<int>>, exec: seq<int>, block: seq<int>, mutexes: seq<Mutex>,
                libres: seq<int>, listos: int, pid: int): Sistema
  {
    Sistema(procs, Listados(colas, [], exec, block, [], []), mutexes, Io([], [], [], [], []), Cpus([10, 11], libres, None),
            Semaforos(listos, |libres|, 1), false, None, pid, [])
  }

  function Listo(prioridad: int): Proceso {
    Proceso(prioridad, prioridad, Ready, None, Ninguno, 0)
  }

  function Corre(prioridad: int, original: int, cpu: int): Proceso {
    Proceso(prioridad, original, Exec, Some(cpu), Ninguno, 0)
  }

  function Duerme(prioridad: int, original: int): Proceso {
    Proceso(prioridad, original, Block, None, Suspension, 0)
  }

  function Libre(nombre: string): Mutex {
    Mutex(nombre, None, [], [], [])
  }

  function DeUno(nombre: string, p: int): Mutex {
    Mutex(nombre, Some(p), [], [p], [p])
  }

  // One state for each event, each from the one before.

  function S1(): Sistema {
    Sistema(map[], Listados([[], [], []], [], [], [], [], []), [], Io([], [], [], [], []), Cpus([10], [10], None),
            Semaforos(0, 1, 1), false, None, 0, [])
  }

  function S2(): Sistema { Foto(map[], [[], [], []], [], [], [], [10, 11], 0, 0) }

  function S3(): Sistema { Foto(map[0 := Listo(2)], [[], [], [0]], [], [], [], [10, 11], 1, 1) }

  function S4(): Sistema { Foto(map[0 := Corre(2, 2, 10)], [[], [], []], [0], [], [], [11], 0, 1) }

  function S5(): Sistema { Foto(map[0 := Corre(2, 2, 10)], [[], [], []], [0], [], [Libre("A")], [11], 0, 1) }

  function S6(): Sistema { Foto(map[0 := Corre(2, 2, 10)], [[], [], []], [0], [], [Libre("A"), Libre("B")], [11], 0, 1) }

  function S7(): Sistema {
    Foto(map[0 := Corre(2, 2, 10)], [[], [], []], [0], [], [DeUno("A", 0), Libre("B")], [11], 0, 1)
  }

  function S8(): Sistema {
    Foto(map[0 := Corre(2, 2, 10), 1 := Listo(1)], [[], [1], []], [0], [], [DeUno("A", 0), Libre("B")], [11], 1, 2)
  }

  function S9(): Sistema {
    Foto(map[0 := Corre(2, 2, 10), 1 := Corre(1, 1, 11)], [[], [], []], [0, 1], [], [DeUno("A", 0), Libre("B")], [], 0, 2)
  }

  function S10(): Sistema {
    Foto(map[0 := Corre(2, 2, 10), 1 := Corre(1, 1, 11)], [[], [], []], [0, 1], [], [DeUno("A", 0), DeUno("B", 1)], [], 0, 2)
  }

  /** A with process 1 waiting behind process 0. */
  function Pedida(): Mutex {
    Mutex("A", Some(0), [1], [0, 1], [0])
  }

  function S11(): Sistema {
    Foto(map[0 := Corre(1, 2, 10), 1 := Duerme(1, 1)], [[], [], []], [0], [1], [Pedida(), DeUno("B", 1)], [11], 0, 2)
  }

  function S12(): Sistema {
    Foto(map[0 := Corre(1, 2, 10), 1 := Duerme(1, 1), 2 := Listo(0)], [[2], [], []], [0], [1], [Pedida(), DeUno("B", 1)], [11], 1, 3)
  }

  function S13(): Sistema {
    Foto(map[0 := Corre(1, 2, 10), 1 := Duerme(1, 1), 2 := Corre(0, 0, 11)], [[], [], []], [0, 2], [1],
         [Pedida(), DeUno("B", 1)], [], 0, 3)
  }

  lemma {:induction false} SinAvisos(m: Procesos, exec: seq<int>, p: int)
    ensures AvisosDe(CFG, m, exec, p) == []
  {
  }

  /** A process is born with priority `prioridad`. */
  lemma {:induction false} Nace(s: Sistema, prioridad: int)
    requires 0 <= prioridad < 3 && |s.listas.colas| == 3 && s.avisos == []
    ensures Nacer(CFG, s, prioridad, true) == s.(
              procs := s.procs[s.proximoPid := Listo(prioridad)],
              listas := s.listas.(colas := s.listas.colas[prioridad := s.listas.colas[prioridad] + [s.proximoPid]]),
              proximoPid := s.proximoPid + 1, sem := s.sem.(ready := s.sem.ready + 1))
  {
    var m, l := s.procs[s.proximoPid := Listo(prioridad)], Ingresar(CFG, s.listas, s.proximoPid, Listo(prioridad));
    SinAvisos(m, l.exec, s.proximoPid);
    assert LugarDe(CFG, Listo(prioridad)) == EnCola(prioridad);
  }

  /** The only queued process is dispatched. */
  lemma {:induction false} Despacha(s: Sistema, i: nat, p: int)
    requires |s.listas.colas| == 3 && i < 3 && s.listas.colas[i] == [p] && s.cpus.libres != []
    requires forall k :: 0 <= k < 3 && k != i ==> s.listas.colas[k] == []
    requires p in s.procs && s.procs[p] == Listo(i)
    ensures Planificar(CFG, s) == s.(
              procs := s.procs[p := Corre(i, i, s.cpus.libres[0])],
              listas := s.listas.(colas := s.listas.colas[i := []], exec := s.listas.exec + [p]),
              cpus := s.cpus.(libres := s.cpus.libres[1..]), sem := s.sem.(ready := s.sem.ready - 1, cpus := s.sem.cpus - 1))
  {
    assert PrimeraConProcesos(s.listas.colas, 0) == i;
    assert Despachado(CFG, s.procs[p], i, s.cpus.libres[0]) == Corre(i, i, s.cpus.libres[0]);
    assert Quitar([p], p) == [];
  }

  lemma {:induction false} PrimeroEnCola(colas: seq<seq<int>>, i: nat, p: int)
    requires i < |colas| && colas[i] == []
    ensures colas[i := colas[i] + [p]] == colas[i := [p]]
  {
    assert colas[i] + [p] == [p];
  }

  lemma {:induction false} Hasta2()
    ensures Da(Inicial(CFG), Conecta(10), S1()) && Da(S1(), Conecta(11), S2())
  {
    assert Inicial(CFG).listas.colas == [[], [], []];
    assert ConectarCpu(Inicial(CFG), 10).cpus.conectadas == [10];
    PorConectar(Inicial(CFG), 10, S1());
    PorConectar(S1(), 11, S2());
  }

  lemma {:induction false} Hasta3()
    ensures Da(S2(), Inicia(2, true), S3())
  {
    Nace(S2(), 2);
    assert S2().procs[0 := Listo(2)] == S3().procs;
    PrimeroEnCola(S2().listas.colas, 2, 0);
    assert S2().listas.colas[2 := [0]] == S3().listas.colas;
    PorInicio(S2(), 2, S3());
  }

  lemma {:induction false} Hasta4()
    ensures Da(S3(), Planifica, S4())
  {
    assert S3().procs[0 := Corre(2, 2, 10)] == S4().procs;
    Despacha(S3(), 2, 0);
    PorPlan(S3(), S4());
  }

  lemma {:induction false} Hasta6()
    ensures Da(S4(), CreaMutex(0, "A"), S5()) && Da(S5(), CreaMutex(0, "B"), S6())
  {
    Nombres();
    assert S4().mutexes + [Libre("A")] == S5().mutexes;
    assert S5().mutexes + [Libre("B")] == S6().mutexes;
    PorMutexCreate(S4(), 0, "A", S5());
    PorMutexCreate(S5(), 0, "B", S6());
  }

  lemma {:induction false} Hasta7()
    ensures Da(S6(), Lock(0, "A"), S7())
  {
    Segundo(S6().mutexes);
    assert Tomado(Libre("A"), 0) == DeUno("A", 0);
    assert S6().mutexes[0 := DeUno("A", 0)] == S7().mutexes;
    PorLock(S6(), 0, "A", S7());
  }

  lemma {:induction false} Nombres()
    ensures "A" != "B"
  {
    assert "A"[0] != "B"[0];
  }

  lemma {:induction false} Segundo(ms: seq<Mutex>)
    requires |ms| == 2 && ms[0].nombre == "A" && ms[1].nombre == "B"
    ensures BuscarMutex(ms, "A") == 0 && BuscarMutex(ms, "B") == 1
  {
    Nombres();
  }

  lemma {:induction false} Hasta8()
    ensures Da(S7(), InitProc(0, 1, true), S8())
  {
    Nace(S7(), 1);
    assert S7().procs[1 := Listo(1)] == S8().procs;
    PrimeroEnCola(S7().listas.colas, 1, 1);
    assert S7().listas.colas[1 := [1]] == S8().listas.colas;
    PorInitProc(S7(), 0, 1, S8());
  }

  lemma {:induction false} Hasta9()
    ensures Da(S8(), Planifica, S9())
  {
    assert S8().procs[1 := Corre(1, 1, 11)] == S9().procs;
    Despacha(S8(), 1, 1);
    PorPlan(S8(), S9());
  }

  lemma {:induction false} Hasta10()
    ensures Da(S9(), Lock(1, "B"), S10())
  {
    Segundo(S9().mutexes);
    assert Tomado(Libre("B"), 1) == DeUno("B", 1);
    assert S9().mutexes[1 := DeUno("B", 1)] == S10().mutexes;
    PorLock(S9(), 1, "B", S10());
  }

  lemma {:induction false} Hasta11()
    ensures Da(S10(), Lock(1, "A"), S11())
  {
    var ms := [Pedida(), DeUno("B", 1)];
    Segundo(S10().mutexes);
    var s0 := ConMutex(S10(), 0, Pedido(S10().mutexes[0], 1));
    assert Pedido(DeUno("A", 0), 1) == Pedida();
    assert S10().mutexes[0 := Pedida()] == ms;
    assert [1][..0] == [];
    assert MayorPrioridad(s0.procs, [1]) == 1;
    var s1 := HeredarDueno(CFG, s0, 0);
    assert s1.procs == map[0 := Corre(1, 2, 10), 1 := Corre(1, 1, 11)];
    assert Quitar([0, 1], 1) == [0];
    assert Bloquear(CFG, s1, 1).procs == S11().procs;
    PorLock(S10(), 1, "A", S11());
  }

  lemma {:induction false} Hasta12()
    ensures Da(S11(), InitProc(0, 0, true), S12())
  {
    Nace(S11(), 0);
    assert S11().procs[2 := Listo(0)] == S12().procs;
    PrimeroEnCola(S11().listas.colas, 0, 2);
    assert S11().listas.colas[0 := [2]] == S12().listas.colas;
    PorInitProc(S11(), 0, 0, S12());
  }

  lemma {:induction false} Hasta13()
    ensures Da(S12(), Planifica, S13())
  {
    assert S12().procs[2 := Corre(0, 0, 11)] == S13().procs;
    Despacha(S12(), 0, 2);
    PorPlan(S12(), S13());
  }

  // ---------------------------------------------------------------- the runs

  /** Every event up to S13. */
  function Comienzo(): seq<Evento> {
    [Conecta(10), Conecta(11), Inicia(2, true), Planifica, CreaMutex(0, "A"), CreaMutex(0, "B"), Lock(0, "A"),
     InitProc(0, 1, true), Planifica, Lock(1, "B"), Lock(1, "A"), InitProc(0, 0, true), Planifica]
  }

  lemma {:induction false} LlegaAS13()
    ensures Llega(Comienzo(), S13())
  {
    Hasta2();
    Hasta3();
    Hasta4();
    Hasta6();
    Hasta7();
    Hasta8();
    Hasta9();
    Hasta10();
    Hasta11();
    Hasta12();
    Hasta13();
    LlegaPor(Comienzo(), [Inicial(CFG), S1(), S2(), S3(), S4(), S5(), S6(), S7(), S8(), S9(), S10(), S11(), S12(), S13()]);
  }

  /** At S13 inheritance is exact and nobody without mutexes has inherited anything. */
  lemma {:induction false} S13Exacto()
    ensures Exactas(S13()) && Restauradas(S13().procs, S13().mutexes)
  {
    var m, ms := S13().procs, S13().mutexes;
    assert Desplegar(0);
    assert Aporta(m, ms, 0, 0, 0);
    assert EsMinimo(m, ms, 0, 1) && EsMinimo(m, ms, 1, 1) && EsMinimo(m, ms, 2, 0);
    assert ms[0].dueno == Some(0) && ms[1].dueno == Some(1);
    assert !NoPosee(ms, 0) && !NoPosee(ms, 1);
  }

  /** At S13 asking for B cuts the chain from process 2 through 1 to 0. */
  lemma {:induction false} CadenaCortada()
    ensures CortaHerencia(S13(), 2, "B")
  {
    var m, ms := S13().procs, S13().mutexes;
    Segundo(ms);
    assert ms[1].espera + [2] == [2];
    assert [2][..0] == [];
    assert MayorPrioridad(m, [2]) == 0;
    assert Heredada(m, [2], 1) == 0;
    assert Cortada(m, ms, 1, 0, 0, 0);
  }

  /** Inheritance is not exact in every run: this one starts from nothing, nobody unlocks
      anything, and it ends with process 0 at priority 1 while 1, of priority 0, waits for it. */
  lemma {:induction false} HerenciaInexacta()
    ensures exists r: Sistema {:trigger Llega(Comienzo() + [Lock(2, "B")], r)} ::
      Llega(Comienzo() + [Lock(2, "B")], r) && !HerenciaExacta(r.procs, r.mutexes)
  {
    LlegaAS13();
    S13Exacto();
    CadenaCortada();
    LockInexacto(Comienzo(), S13(), 2, "B");
  }

  lemma {:induction false} LockInexacto(es: seq<Evento>, s: Sistema, p: int, nombre: string)
    requires Llega(es, s) && Exactas(s) && CortaHerencia(s, p, nombre)
    ensures exists r: Sistema {:trigger Llega(es + [Lock(p, nombre)], r)} ::
      Llega(es + [Lock(p, nombre)], r) && !HerenciaExacta(r.procs, r.mutexes)
  {
    var r := MutexLock(CFG, s, p, nombre);
    LlegaInv(es, s);
    LockExactaSii(CFG, s, p, nombre);
    Inexacta(r);
    PorLock(s, p, nombre, r);
    Sigue(es, s, Lock(p, nombre), r);
  }

  lemma {:induction false} Inexacta(s: Sistema)
    requires !Exactas(s)
    ensures !HerenciaExacta(s.procs, s.mutexes)
  {
    assert Desplegar(0);
  }

  /** Nor is restoration kept when others may unlock: this run ends with process 0 owning nothing
      and at priority 1, its original one being 2. */
  lemma {:induction false} PrioridadNoDevuelta()
    ensures exists r: Sistema {:trigger Llega(Comienzo() + [Unlock(2, "A", 0)], r)} ::
      Llega(Comienzo() + [Unlock(2, "A", 0)], r) && !Restauradas(r.procs, r.mutexes)
  {
    LlegaAS13();
    S13Exacto();
    Despojada();
    UnlockSinDevolver(Comienzo(), S13(), 2, "A");
  }

  lemma {:induction false} Despojada()
    ensures DespojaConHerencia(S13(), 2, "A") && Ejecuta(S13(), 2)
  {
    Segundo(S13().mutexes);
  }

  lemma {:induction false} UnlockSinDevolver(es: seq<Evento>, s: Sistema, p: int, nombre: string)
    requires Llega(es, s) && Restauradas(s.procs, s.mutexes) && Ejecuta(s, p) && DespojaConHerencia(s, p, nombre)
    ensures exists r: Sistema {:trigger Llega(es + [Unlock(p, nombre, 0)], r)} ::
      Llega(es + [Unlock(p, nombre, 0)], r) && !Restauradas(r.procs, r.mutexes)
  {
    var r := MutexUnlock(CFG, s, p, nombre, 0);
    LlegaInv(es, s);
    UnlockAjeno(CFG, s, p, nombre, 0);
    PorUnlock(s, p, nombre, r);
    Sigue(es, s, Unlock(p, nombre, 0), r);
  }
}
