/**
  Memory instructions: a CPU translates a logical address with the process's segment table
  and goes to the Memory Sticks itself, through its own table of sticks, which may be
  partial and older than Kernel Memory's.
*/
module Accesos {
  import opened Tipos
  import opened MemorySticks
  import opened MemoriaCpu
  import opened MaquinaAbstracta
  import opened Direcciones
  import opened Efectos
  import opened MemoriaUsuario

  /** Every CPU works on this memory, and its table was right when it was built. */
  ghost predicate CpusValidas(km: KernelMemory, cpus: seq<CpuMemoria>)
    reads km.fisica, cpus
  {
    km.fisica.Valid() && forall k :: 0 <= k < |cpus| ==> cpus[k].fisica == km.fisica && Coherente(cpus[k].tabla, km.fisica.sticks)
  }

  /** Bytes written or sticks added since leave every table right. */
  lemma {:induction false} SiguenValidas(km: KernelMemory, cpus: seq<CpuMemoria>, antes: seq<Stick>, tamanios: seq<uint32>)
    requires km.fisica.Valid() && tamanios <= km.fisica.tamanios
    requires |antes| == |tamanios| && forall i :: 0 <= i < |antes| ==> antes[i].tamanio == tamanios[i]
    requires forall k :: 0 <= k < |cpus| ==>
      cpus[k].fisica == km.fisica && (Coherente(cpus[k].tabla, antes) || Coherente(cpus[k].tabla, km.fisica.sticks))
    ensures CpusValidas(km, cpus)
  {
    forall k | 0 <= k < |cpus| ensures Coherente(cpus[k].tabla, km.fisica.sticks) {
      if Coherente(cpus[k].tabla, antes) {
        CoherenteDespues(cpus[k].tabla, antes, km.fisica.sticks);
      }
    }
  }

  /** MOV_OUT: whatever the age of the CPU's table, a write to the process's own store. */
  method EscribirPorCpu(km: KernelMemory, cpu: CpuMemoria, pid: int, dl: uint32, datos: seq<byte>, sano: bool) returns (ok: bool)
    requires km.Valid() && cpu.Valid() && cpu.fisica == km.fisica
    requires |datos| < LIMITE_32 && SinEnvolver(km.tamMaxCpu, dl, |datos|)
    modifies cpu, km.fisica`sticks
    ensures km.Valid() && cpu.Valid()
    ensures PasoReal(km.Cfg(), old(km.Maq()), Escribir(pid, dl, datos), sano, RBool(ok), km.Maq())
    ensures ok ==> Paso(km.Cfg(), old(km.Maq()), Escribir(pid, dl, datos), RBool(ok), km.Maq())
    ensures EscrituraNombrada(km.Cfg(), old(km.Maq()), pid, dl, datos, sano, ok, km.Maq())
  {
    ghost var m := km.Maq();
    var df := km.TraducirAcceso(pid, dl, |datos|);
    if df.None? {
      AccesoRechazado(km.Cfg(), km.huecos.lista, km.contextos, km.swap.suspendidos, km.fisica.Bytes(), km.swap.bloques, pid, dl, |datos|);
      EscrituraDice(km.Cfg(), m, pid, dl, datos, sano, false, m);
      return false;
    }
    ghost var mem := km.fisica.Bytes();
    EscribirEfecto(km.Cfg(), km.huecos.lista, km.contextos, km.swap.suspendidos, mem, km.swap.bloques, pid, dl, datos, df.value);
    ok := cpu.EscribirMemoria(df.value, datos, sano);
    EscribirReal(km.Cfg(), km.huecos.lista, km.contextos, km.swap.suspendidos, mem, km.fisica.Bytes(), km.swap.bloques,
                 pid, dl, datos, df.value, sano, ok);
    EscrituraDice(km.Cfg(), m, pid, dl, datos, sano, ok, km.Maq());
  }

  /** MOV_IN: whatever the age of the CPU's table, a read of the process's own store. */
  method LeerPorCpu(km: KernelMemory, cpu: CpuMemoria, pid: int, dl: uint32, tam: uint32, sano: bool) returns (leido: Option<seq<byte>>)
    requires km.Valid() && cpu.Valid() && cpu.fisica == km.fisica && SinEnvolver(km.tamMaxCpu, dl, tam)
    modifies cpu
    ensures km.Valid() && cpu.Valid() && km.Maq() == old(km.Maq())
    ensures PasoReal(km.Cfg(), km.Maq(), Leer(pid, dl, tam), sano, RBytes(leido), km.Maq())
    ensures leido.Some? ==> Paso(km.Cfg(), km.Maq(), Leer(pid, dl, tam), RBytes(leido), km.Maq())
    ensures LecturaNombrada(km.Cfg(), km.Maq(), pid, dl, tam, sano, leido)
  {
    var df := km.TraducirAcceso(pid, dl, tam);
    if df.None? {
      AccesoRechazado(km.Cfg(), km.huecos.lista, km.contextos, km.swap.suspendidos, km.fisica.Bytes(), km.swap.bloques, pid, dl, tam);
      LecturaDice(km.Cfg(), km.Maq(), pid, dl, tam, sano, None, km.Maq());
      return None;
    }
    LeerEfecto(km.Cfg(), km.huecos.lista, km.contextos, km.swap.suspendidos, km.fisica.Bytes(), km.swap.bloques, pid, dl, tam, df.value);
    var ok, datos := cpu.LeerMemoria(df.value, tam, sano);
    leido := if ok then Some(datos) else None;
    LecturaDice(km.Cfg(), km.Maq(), pid, dl, tam, sano, leido, km.Maq());
  }

  /** A write to a process's store, by some CPU or by Kernel Memory for a device. */
  method EscribirPorAlguno(km: KernelMemory, cpus: seq<CpuMemoria>, pid: int, dl: uint32, datos: seq<byte>, sano: bool) returns (ok: bool)
    requires km.Valid() && CpusValidas(km, cpus) && |datos| < LIMITE_32 && SinEnvolver(km.tamMaxCpu, dl, |datos|)
    modifies cpus, km.fisica`sticks
    ensures km.Valid() && CpusValidas(km, cpus)
    ensures PasoReal(km.Cfg(), old(km.Maq()), Escribir(pid, dl, datos), sano, RBool(ok), km.Maq())
  {
    ghost var antes, t := km.fisica.sticks, km.fisica.tamanios;
    var k: int := *;
    if 0 <= k < |cpus| {
      ok := EscribirPorCpu(km, cpus[k], pid, dl, datos, sano);
    } else {
      ok := km.EscribirLogico(pid, dl, datos, sano);
    }
    SiguenValidas(km, cpus, antes, t);
  }

  method LeerPorAlguno(km: KernelMemory, cpus: seq<CpuMemoria>, pid: int, dl: uint32, tam: uint32, sano: bool) returns (leido: Option<seq<byte>>)
    requires km.Valid() && CpusValidas(km, cpus) && SinEnvolver(km.tamMaxCpu, dl, tam)
    modifies cpus
    ensures km.Valid() && CpusValidas(km, cpus) && km.Maq() == old(km.Maq())
    ensures PasoReal(km.Cfg(), km.Maq(), Leer(pid, dl, tam), sano, RBytes(leido), km.Maq())
  {
    var k: int := *;
    if 0 <= k < |cpus| {
      leido := LeerPorCpu(km, cpus[k], pid, dl, tam, sano);
    } else {
      leido := km.LeerLogico(pid, dl, tam, sano);
    }
  }
}
