/**
  The CPU's own view of the Memory Sticks (`cpu/src/memoria.c`).  It rebuilds the base of
  every stick by adding up the sizes Kernel Memory reports, keeps only the sticks it could
  connect to, and asks again only when an address is not in its table.  The table may thus
  be partial, and older than Kernel Memory's list, which only grows.
*/
module MemoriaCpu {
  import opened Tipos
  import opened MemorySticks

  /** `t_stick_cpu`; `conexion` is the position, in Kernel Memory's list, of the module its
      socket leads to. */
  datatype StickCpu = StickCpu(conexion: nat, baseGlobal: uint32, tamanio: uint32)

  predicate EntradaCoherente(e: StickCpu, sticks: seq<Stick>) {
    e.conexion < |sticks| && e.baseGlobal == Prefijo(sticks, e.conexion) && e.tamanio == sticks[e.conexion].tamanio
  }

  ghost predicate Coherente(tabla: seq<StickCpu>, sticks: seq<Stick>) {
    forall k :: 0 <= k < |tabla| ==> EntradaCoherente(tabla[k], sticks)
  }

  /** Every one of the first `n` sticks is connected. */
  ghost predicate Conectados(tabla: seq<StickCpu>, n: nat) {
    forall i {:trigger Conectado(tabla, i)} :: 0 <= i < n ==> Conectado(tabla, i)
  }

  ghost predicate Conectado(tabla: seq<StickCpu>, i: nat) {
    exists k :: 0 <= k < |tabla| && tabla[k].conexion == i
  }

  /** The entry covers the address. */
  predicate Cubre(e: StickCpu, dir: int) {
    e.baseGlobal <= dir < e.baseGlobal + e.tamanio
  }

  /** A table stays right when sticks are added after it was built, or rewritten. */
  lemma {:induction false} CoherenteDespues(tabla: seq<StickCpu>, antes: seq<Stick>, ahora: seq<Stick>)
    requires Coherente(tabla, antes)
    requires |antes| <= |ahora| && forall i :: 0 <= i < |antes| ==> ahora[i].tamanio == antes[i].tamanio
    ensures Coherente(tabla, ahora)
  {
    forall k | 0 <= k < |tabla| ensures EntradaCoherente(tabla[k], ahora) {
      assert EntradaCoherente(tabla[k], antes);
      PrefijoMismos(antes, ahora, tabla[k].conexion);
    }
  }

  /**
    Both decoders agree: whenever an entry of a table built against an earlier list of
    sticks covers an address, Kernel Memory places that address in the same stick, at the
    same offset, and nowhere else.
  */
  lemma {:induction false} MismaUbicacion(tabla: seq<StickCpu>, antes: seq<Stick>, ahora: seq<Stick>, k: nat, dir: int, i: nat, o: int)
    requires Coherente(tabla, antes) && k < |tabla| && Cubre(tabla[k], dir)
    requires |antes| <= |ahora| && forall j :: 0 <= j < |antes| ==> ahora[j].tamanio == antes[j].tamanio
    ensures Aloja(ahora, dir, i, o) <==> i == tabla[k].conexion && o == dir - tabla[k].baseGlobal
  {
    CoherenteDespues(tabla, antes, ahora);
    assert EntradaCoherente(tabla[k], ahora);
    assert Aloja(ahora, dir, tabla[k].conexion, dir - tabla[k].baseGlobal);
    if Aloja(ahora, dir, i, o) {
      AlojaUnica(ahora, dir, i, o, tabla[k].conexion, dir - tabla[k].baseGlobal);
    }
  }

  /** With every stick connected the table covers the whole memory, and nothing else. */
  lemma {:induction false} TablaCompleta(tabla: seq<StickCpu>, sticks: seq<Stick>, dir: int)
    requires Coherente(tabla, sticks) && Conectados(tabla, |sticks|)
    ensures (exists k :: 0 <= k < |tabla| && Cubre(tabla[k], dir)) <==> 0 <= dir < Prefijo(sticks, |sticks|)
  {
    if k :| 0 <= k < |tabla| && Cubre(tabla[k], dir) {
      assert EntradaCoherente(tabla[k], sticks);
      PrefijoMonotono(sticks, tabla[k].conexion + 1, |sticks|);
    }
    if 0 <= dir < Prefijo(sticks, |sticks|) {
      var i, o := Hogar(sticks, |sticks|, dir);
      assert Conectado(tabla, i);
      var k :| 0 <= k < |tabla| && tabla[k].conexion == i;
      assert EntradaCoherente(tabla[k], sticks);
      assert Cubre(tabla[k], dir);
    }
  }

  /** The table after the first `n` sticks: those that accept connections, and only those. */
  ghost predicate SoloAlcanzables(tabla: seq<StickCpu>, n: nat, alcanza: set<int>) {
    && (forall k :: 0 <= k < |tabla| ==> tabla[k].conexion < n && tabla[k].conexion in alcanza)
    && forall i: nat {:trigger Conectado(tabla, i)} :: i < n && i in alcanza ==> Conectado(tabla, i)
  }

  lemma {:induction false} AgregarEntrada(tabla: seq<StickCpu>, sticks: seq<Stick>, i: nat, e: StickCpu, alcanza: set<int>)
    requires Coherente(tabla, sticks) && EntradaCoherente(e, sticks) && e.conexion == i
    requires SoloAlcanzables(tabla, i, alcanza) && i in alcanza
    ensures Coherente(tabla + [e], sticks) && SoloAlcanzables(tabla + [e], i + 1, alcanza)
  {
    var nueva := tabla + [e];
    forall j: nat {:trigger Conectado(nueva, j)} | j < i + 1 && j in alcanza ensures Conectado(nueva, j) {
      if j < i {
        assert Conectado(tabla, j);
        var k :| 0 <= k < |tabla| && tabla[k].conexion == j;
        assert nueva[k].conexion == j;
      } else {
        assert nueva[|tabla|].conexion == j;
      }
    }
  }

  lemma {:induction false} SaltarEntrada(tabla: seq<StickCpu>, i: nat, alcanza: set<int>)
    requires SoloAlcanzables(tabla, i, alcanza) && i !in alcanza
    ensures SoloAlcanzables(tabla, i + 1, alcanza)
  {
  }

  class CpuMemoria {
    const fisica: MemoriaFisica
    var tabla: seq<StickCpu>

    ghost predicate Valid()
      reads this, fisica
    {
      fisica.Valid() && Coherente(tabla, fisica.sticks)
    }

    constructor (fisica: MemoriaFisica)
      requires fisica.Valid()
      ensures Valid() && tabla == [] && this.fisica == fisica
    {
      this.fisica, tabla := fisica, [];
    }

    /** The peer's answer; false stands for a refused or lost request.  `sano` is the
        environment's promise that every request and connection of the present call works. */
    method Responder(sano: bool) returns (ok: bool)
      ensures sano ==> ok
    {
      ok := *;
      ok := ok || sano;
    }

    /**
      Asks for the list and rebuilds the table with every stick that accepts a connection
      (`alcanza`), also those that come after one that does not: the base advances past it.
      On a broken answer the old table stays.
    */
    method ActualizarMemorySticks(alcanza: set<int>, sano: bool) returns (ok: bool)
      requires Valid()
      modifies this
      ensures Valid()
      ensures !ok ==> tabla == old(tabla)
      ensures ok ==> forall i: nat :: i < |fisica.sticks| ==> (Conectado(tabla, i) <==> i in alcanza)
      ensures sano ==> ok
    {
      var recibido := Responder(sano);
      if !recibido {
        return false;
      }
      var nueva: seq<StickCpu>, baseActual: uint32 := [], 0;
      for i := 0 to |fisica.sticks|
        invariant tabla == old(tabla) && Coherente(nueva, fisica.sticks)
        invariant baseActual == Prefijo(fisica.sticks, i)
        invariant SoloAlcanzables(nueva, i, alcanza)
      {
        recibido := Responder(sano);
        if !recibido {
          return false;
        }
        PrefijoMonotono(fisica.sticks, i + 1, |fisica.sticks|);
        var stick := StickCpu(i, baseActual, fisica.sticks[i].tamanio);
        baseActual := baseActual + fisica.sticks[i].tamanio;
        if i !in alcanza {
          SaltarEntrada(nueva, i, alcanza);
          continue;
        }
        AgregarEntrada(nueva, fisica.sticks, i, stick, alcanza);
        nueva := nueva + [stick];
      }
      tabla := nueva;
      ok := true;
    }

    /** The sticks that accept a connection now; all of them when `sano`. */
    method Alcanzables(sano: bool) returns (alcanza: set<int>)
      ensures sano ==> forall i :: 0 <= i < |fisica.sticks| ==> i in alcanza
    {
      alcanza := *;
      if sano {
        alcanza := alcanza + set i | 0 <= i < |fisica.sticks| && Punto(i);
      }
    }

    method BuscarStickPorDireccion(dir: uint32) returns (r: Option<(nat, uint32)>)
      requires Valid()
      ensures r.Some? ==> Aloja(fisica.sticks, dir, r.value.0, r.value.1)
      ensures r.None? <==> forall k :: 0 <= k < |tabla| ==> !Cubre(tabla[k], dir)
    {
      for k := 0 to |tabla|
        invariant forall j :: 0 <= j < k ==> !Cubre(tabla[j], dir)
      {
        var inicio := tabla[k].baseGlobal;
        assert EntradaCoherente(tabla[k], fisica.sticks);
        PrefijoMonotono(fisica.sticks, tabla[k].conexion + 1, |fisica.sticks|);
        var fin: uint32 := inicio + tabla[k].tamanio;
        if inicio <= dir < fin {
          return Some((tabla[k].conexion, dir - inicio));
        }
      }
      r := None;
    }

    /** A miss may be a stick connected since the table was built: one refresh, one retry. */
    method BuscarORefrescarStick(dir: uint32, sano: bool) returns (r: Option<(nat, uint32)>)
      requires Valid()
      modifies this
      ensures Valid()
      ensures r.Some? ==> Aloja(fisica.sticks, dir, r.value.0, r.value.1)
      ensures sano && dir < fisica.total ==> r.Some?
      ensures fisica.total <= dir ==> r.None?
    {
      r := BuscarStickPorDireccion(dir);
      if r.Some? {
        EnMemoria(fisica.sticks, dir, r.value.0, r.value.1);
        return;
      }
      var alcanza := Alcanzables(sano);
      var ok := ActualizarMemorySticks(alcanza, sano);
      if !ok {
        return None;
      }
      r := BuscarStickPorDireccion(dir);
      if sano {
        TablaCompleta(tabla, fisica.sticks, dir);
      }
      if r.Some? {
        EnMemoria(fisica.sticks, dir, r.value.0, r.value.1);
      }
    }

    /** A first table is asked for when there is none. */
    method AsegurarTabla(sano: bool) returns (ok: bool)
      requires Valid()
      modifies this
      ensures Valid() && (sano ==> ok)
    {
      ok := true;
      if |tabla| == 0 {
        var alcanza := Alcanzables(sano);
        ok := ActualizarMemorySticks(alcanza, sano);
      }
    }

    /** The CPU reads what Kernel Memory would, whatever the age of its table. */
    method LeerMemoria(dir: uint32, tam: uint32, sano: bool) returns (ok: bool, datos: seq<byte>)
      requires Valid()
      modifies this
      ensures Valid()
      ensures ok ==> (tam == 0 || dir + tam <= fisica.total)
      ensures ok ==> datos == if tam == 0 then [] else fisica.Bytes()[dir..dir + tam]
      ensures sano ==> (ok <==> tam == 0 || dir + tam <= fisica.total)
    {
      datos := [];
      if tam == 0 {
        return true, datos;
      }
      ok := AsegurarTabla(sano);
      if !ok {
        return;
      }
      var leidos: uint32 := 0;
      while leidos < tam
        invariant Valid() && leidos <= tam
        invariant Leido(fisica.Bytes(), dir, leidos, datos)
      {
        var stick := BuscarORefrescarStick(dir + leidos, sano);
        if stick.None? {
          return false, datos;
        }
        var (i, offset) := stick.value;
        var restanteOperacion, restanteStick := tam - leidos, fisica.sticks[i].tamanio - offset;
        var aLeer := if restanteOperacion < restanteStick then restanteOperacion else restanteStick;
        var respuesta := Responder(sano);
        if !respuesta {
          return false, datos;
        }
        LeerPaso(fisica.sticks, i, offset, aLeer, dir, leidos, datos);
        datos := datos + fisica.sticks[i].datos[offset..offset + aLeer];
        leidos := leidos + aLeer;
      }
      ok := true;
    }

    /** A write split over the sticks is the same write on the flat space, or, when some
        request is refused, changes nothing outside the requested range. */
    method EscribirMemoria(dir: uint32, origen: seq<byte>, sano: bool) returns (ok: bool)
      requires Valid() && |origen| < LIMITE_32
      modifies this, fisica`sticks
      ensures Valid() && fisica.total == old(fisica.total)
      ensures ok ==> (|origen| == 0 || dir + |origen| <= fisica.total)
      ensures ok ==> fisica.Bytes() == if |origen| == 0 then old(fisica.Bytes()) else Pisar(old(fisica.Bytes()), dir, origen)
      ensures FueraIgual(old(fisica.Bytes()), fisica.Bytes(), dir, dir + |origen|)
      ensures sano ==> (ok <==> |origen| == 0 || dir + |origen| <= fisica.total)
      ensures |origen| == 0 ==> ok
    {
      if |origen| == 0 {
        return true;
      }
      ok := AsegurarTabla(sano);
      if !ok {
        return;
      }
      ghost var antes := fisica.Bytes();
      if dir <= fisica.total {
        PisarNada(antes, dir);
        assert origen[..0] == [];
      }
      var escritos: uint32 := 0;
      while escritos < |origen|
        invariant Valid() && escritos <= |origen|
        invariant |fisica.Bytes()| == |antes|
        invariant Escrito(antes, fisica.Bytes(), dir, origen, escritos)
      {
        var stick := BuscarORefrescarStick(dir + escritos, sano);
        if stick.None? {
          EscritoFuera(antes, fisica.Bytes(), dir, origen, escritos);
          return false;
        }
        var avance := EscribirEnStick(antes, dir, origen, escritos, stick.value.0, stick.value.1, sano);
        if avance.None? {
          return false;
        }
        escritos := escritos + avance.value;
      }
      EscritoFuera(antes, fisica.Bytes(), dir, origen, escritos);
      assert origen[..|origen|] == origen;
      ok := true;
    }

    /** One piece of a write: what is left of the operation or of the stick, whichever is less. */
    method EscribirEnStick(ghost antes: seq<byte>, dir: uint32, origen: seq<byte>, escritos: uint32, i: nat, offset: uint32, sano: bool)
      returns (avance: Option<uint32>)
      requires Valid() && |origen| < LIMITE_32 && dir + escritos < LIMITE_32 && escritos < |origen| && |fisica.Bytes()| == |antes|
      requires Aloja(fisica.sticks, dir + escritos, i, offset)
      requires Escrito(antes, fisica.Bytes(), dir, origen, escritos)
      modifies fisica`sticks
      ensures Valid() && |fisica.Bytes()| == |antes|
      ensures avance.Some? ==> 0 < avance.value <= |origen| - escritos
      ensures avance.Some? ==> Escrito(antes, fisica.Bytes(), dir, origen, escritos + avance.value)
      ensures avance.None? ==> !sano && FueraIgual(antes, fisica.Bytes(), dir, dir + |origen|)
    {
      var restanteOperacion, restanteStick := |origen| - escritos, fisica.sticks[i].tamanio - offset;
      var aEscribir := if restanteOperacion < restanteStick then restanteOperacion else restanteStick;
      ghost var previos, medio := fisica.sticks, fisica.Bytes();
      var respuesta := fisica.EscribirTramo(i, offset, origen[escritos..escritos + aEscribir], sano);
      CoherenteDespues(tabla, previos, fisica.sticks);
      if !respuesta {
        EscritoFuera(antes, medio, dir, origen, escritos);
        FueraIgualDos(antes, medio, fisica.Bytes(), dir, dir + |origen|, dir + escritos, dir + escritos + aEscribir);
        return None;
      }
      EscribirPaso(antes, dir, origen, escritos, aEscribir);
      avance := Some(aEscribir);
    }
  }

  lemma {:induction false} EnMemoria(sticks: seq<Stick>, dir: int, i: nat, o: int)
    requires Aloja(sticks, dir, i, o)
    ensures 0 <= dir < Prefijo(sticks, |sticks|)
  {
    PrefijoMonotono(sticks, i + 1, |sticks|);
  }

  /** The first `n` bytes of `origen` have been written from `dir` on. */
  ghost predicate Escrito(antes: seq<byte>, mem: seq<byte>, dir: nat, origen: seq<byte>, n: nat)
    requires n <= |origen|
  {
    if dir + n <= |antes| then mem == Pisar(antes, dir, origen[..n]) else n == 0 && mem == antes
  }

  lemma {:induction false} EscritoFuera(antes: seq<byte>, mem: seq<byte>, dir: nat, origen: seq<byte>, n: nat)
    requires n <= |origen| && Escrito(antes, mem, dir, origen, n)
    ensures FueraIgual(antes, mem, dir, dir + |origen|)
  {
  }

  lemma {:induction false} FueraIgualDos(a: seq<byte>, b: seq<byte>, c: seq<byte>, lo: nat, hi: nat, lo': nat, hi': nat)
    requires FueraIgual(a, b, lo, hi) && FueraIgual(b, c, lo', hi') && lo <= lo' && hi' <= hi
    ensures FueraIgual(a, c, lo, hi)
  {
  }
}
