/**
  The Memory Sticks (`memory_stick.c`): remote byte stores that together form one
  global address space, in connection order.  A physical access is split where it
  crosses from one stick to the next.
*/
module MemorySticks {
  import opened Tipos
  import opened Huecos

  /** `t_memory_stick`, with the bytes the remote module holds. */
  datatype Stick = Stick(fd: int, tamanio: uint32, baseGlobal: uint32, datos: seq<byte>)

  /** Sum of the first `n` sizes: where stick `n` begins. */
  function Prefijo(sticks: seq<Stick>, n: nat): nat
    requires n <= |sticks|
  {
    if n == 0 then 0 else Prefijo(sticks, n - 1) + sticks[n - 1].tamanio
  }

  /** The byte at global address `x`, looking for it among the first `n` sticks. */
  ghost function ByteEn(sticks: seq<Stick>, n: nat, x: int): byte
    requires n <= |sticks|
  {
    if n == 0 then 0
    else
      var o := x - Prefijo(sticks, n - 1);
      if 0 <= o < |sticks[n - 1].datos| then sticks[n - 1].datos[o] else ByteEn(sticks, n - 1, x)
  }

  /** The global address space: the sticks one after another. */
  ghost function Plana(sticks: seq<Stick>): (m: seq<byte>)
    ensures |m| == Prefijo(sticks, |sticks|)
    ensures forall x {:trigger Punto(x)} :: Punto(x) && 0 <= x < |m| ==> m[x] == ByteEn(sticks, |sticks|, x)
  {
    var w := seq(Prefijo(sticks, |sticks|), x => ByteEn(sticks, |sticks|, x));
    var m: seq<byte> :| |m| == |w| &&
      forall x {:trigger Punto(x)} :: Punto(x) && 0 <= x < |m| ==> m[x] == ByteEn(sticks, |sticks|, x);
    m
  }

  ghost predicate SticksValidos(sticks: seq<Stick>) {
    && (forall i :: 0 <= i < |sticks| ==> |sticks[i].datos| == sticks[i].tamanio)
    && (forall i {:trigger BaseCorrecta(sticks, i)} :: 0 <= i < |sticks| ==> BaseCorrecta(sticks, i))
  }

  predicate BaseCorrecta(sticks: seq<Stick>, i: nat) {
    i < |sticks| && sticks[i].baseGlobal == Prefijo(sticks, i)
  }

  /** Address `dir` is byte `offset` of stick `i`. */
  ghost predicate Aloja(sticks: seq<Stick>, dir: int, i: nat, offset: int) {
    i < |sticks| && offset == dir - Prefijo(sticks, i) && 0 <= offset < sticks[i].tamanio
  }

  /** Two states of the same sticks: only the bytes may differ. */
  ghost predicate MismosSticks(a: seq<Stick>, b: seq<Stick>) {
    |a| == |b| && forall i :: 0 <= i < |a| ==> a[i].(datos := []) == b[i].(datos := [])
  }

  lemma {:induction false} PrefijoMonotono(sticks: seq<Stick>, i: nat, j: nat)
    requires i <= j <= |sticks|
    ensures Prefijo(sticks, i) <= Prefijo(sticks, j)
    decreases j
  {
    if i < j {
      PrefijoMonotono(sticks, i, j - 1);
    }
  }

  lemma {:induction false} PrefijoMismos(a: seq<Stick>, b: seq<Stick>, n: nat)
    requires n <= |a| && n <= |b|
    requires forall i :: 0 <= i < n ==> a[i].tamanio == b[i].tamanio
    ensures Prefijo(a, n) == Prefijo(b, n)
    decreases n
  {
    if n > 0 {
      PrefijoMismos(a, b, n - 1);
    }
  }

  /** An address has one home: empty sticks never own an address, and homes do not overlap. */
  lemma {:induction false} AlojaUnica(sticks: seq<Stick>, dir: int, i: nat, o: int, j: nat, q: int)
    requires Aloja(sticks, dir, i, o) && Aloja(sticks, dir, j, q)
    ensures i == j && o == q
  {
    if i < j {
      PrefijoMonotono(sticks, i + 1, j);
    } else if j < i {
      PrefijoMonotono(sticks, j + 1, i);
    }
  }

  /** An address hosted by a stick reads as that stick's byte. */
  lemma {:induction false} ByteAlojado(sticks: seq<Stick>, n: nat, x: int, i: nat, o: int)
    requires SticksValidos(sticks) && i < n <= |sticks| && Aloja(sticks, x, i, o)
    ensures ByteEn(sticks, n, x) == sticks[i].datos[o]
    decreases n
  {
    if i < n - 1 {
      PrefijoMonotono(sticks, i + 1, n - 1);
      ByteAlojado(sticks, n - 1, x, i, o);
    }
  }

  /** Every address in memory has a home. */
  lemma {:induction false} Hogar(sticks: seq<Stick>, n: nat, x: int) returns (i: nat, o: int)
    requires n <= |sticks| && 0 <= x < Prefijo(sticks, n)
    ensures i < n && Aloja(sticks, x, i, o)
    decreases n
  {
    if Prefijo(sticks, n - 1) <= x {
      i, o := n - 1, x - Prefijo(sticks, n - 1);
    } else {
      i, o := Hogar(sticks, n - 1, x);
    }
  }

  /** Replacing bytes inside one stick replaces exactly those global bytes. */
  lemma {:induction false} EscribirEnStick(sticks: seq<Stick>, i: nat, offset: nat, nuevo: seq<byte>)
    requires SticksValidos(sticks) && i < |sticks| && offset + |nuevo| <= sticks[i].tamanio
    ensures Prefijo(sticks, i) + offset + |nuevo| <= |Plana(sticks)|
    ensures Plana(sticks[i := sticks[i].(datos := Pisar(sticks[i].datos, offset, nuevo))])
         == Pisar(Plana(sticks), Prefijo(sticks, i) + offset, nuevo)
  {
    var n := |sticks|;
    var s' := sticks[i := sticks[i].(datos := Pisar(sticks[i].datos, offset, nuevo))];
    ConservaSticks(sticks, i, Pisar(sticks[i].datos, offset, nuevo));
    PrefijoMonotono(sticks, i + 1, n);
    PrefijoMismos(sticks, s', n);
    var p := Prefijo(sticks, i) + offset;
    forall x | 0 <= x < |Plana(sticks)| ensures Plana(s')[x] == Pisar(Plana(sticks), p, nuevo)[x] {
      EscribirByte(sticks, i, offset, nuevo, x);
      assert Punto(x);
    }
  }

  lemma {:induction false} EscribirByte(sticks: seq<Stick>, i: nat, offset: nat, nuevo: seq<byte>, x: int)
    requires SticksValidos(sticks) && i < |sticks| && offset + |nuevo| <= sticks[i].tamanio
    requires 0 <= x < |Plana(sticks)|
    ensures var s' := sticks[i := sticks[i].(datos := Pisar(sticks[i].datos, offset, nuevo))];
      var p := Prefijo(sticks, i) + offset;
      ByteEn(s', |s'|, x) == if p <= x < p + |nuevo| then nuevo[x - p] else Plana(sticks)[x]
  {
    var n := |sticks|;
    var s' := sticks[i := sticks[i].(datos := Pisar(sticks[i].datos, offset, nuevo))];
    ConservaSticks(sticks, i, Pisar(sticks[i].datos, offset, nuevo));
    var j, o := Hogar(sticks, n, x);
    PrefijoMismos(sticks, s', j);
    ByteAlojado(sticks, n, x, j, o);
    ByteAlojado(s', n, x, j, o);
    assert Punto(x) && Punto(o);
    var q := x - Prefijo(sticks, i);
    if offset <= q < offset + |nuevo| {
      AlojaUnica(sticks, x, i, q, j, o);
    }
  }

  lemma {:induction false} ConservaSticks(sticks: seq<Stick>, i: nat, d: seq<byte>)
    requires SticksValidos(sticks) && i < |sticks| && |d| == sticks[i].tamanio
    ensures SticksValidos(sticks[i := sticks[i].(datos := d)])
    ensures MismosSticks(sticks, sticks[i := sticks[i].(datos := d)])
  {
    var b := sticks[i := sticks[i].(datos := d)];
    forall k | 0 <= k < |b| ensures BaseCorrecta(b, k) {
      assert BaseCorrecta(sticks, k);
      PrefijoMismos(sticks, b, k);
    }
  }

  /** Reading part of one stick is reading the same stretch of the global space. */
  lemma {:induction false} LeerTramo(sticks: seq<Stick>, i: nat, offset: nat, n: nat)
    requires SticksValidos(sticks) && i < |sticks| && offset + n <= sticks[i].tamanio
    ensures Prefijo(sticks, i) + offset + n <= |Plana(sticks)|
    ensures Plana(sticks)[Prefijo(sticks, i) + offset..Prefijo(sticks, i) + offset + n]
         == sticks[i].datos[offset..offset + n]
  {
    var p := Prefijo(sticks, i) + offset;
    PrefijoMonotono(sticks, i + 1, |sticks|);
    forall k {:trigger Punto(k)} | Punto(k) && 0 <= k < n
      ensures Plana(sticks)[p + k] == sticks[i].datos[offset + k]
    {
      ByteAlojado(sticks, |sticks|, p + k, i, offset + k);
      assert Punto(p + k);
    }
    TramosIguales(Plana(sticks), p, sticks[i].datos, offset, n);
  }

  lemma {:induction false} AgregarValido(sticks: seq<Stick>, s: Stick)
    requires SticksValidos(sticks) && |s.datos| == s.tamanio && s.baseGlobal == Prefijo(sticks, |sticks|)
    ensures SticksValidos(sticks + [s])
    ensures Prefijo(sticks + [s], |sticks| + 1) == Prefijo(sticks, |sticks|) + s.tamanio
  {
    PrefijoMismos(sticks, sticks + [s], |sticks|);
    forall k {:trigger BaseCorrecta(sticks + [s], k)} | 0 <= k <= |sticks| ensures BaseCorrecta(sticks + [s], k) {
      BaseAgregada(sticks, s, k);
    }
  }

  lemma {:induction false} BaseAgregada(sticks: seq<Stick>, s: Stick, k: nat)
    requires k <= |sticks| && s.baseGlobal == Prefijo(sticks, |sticks|)
    requires k < |sticks| ==> BaseCorrecta(sticks, k)
    ensures BaseCorrecta(sticks + [s], k)
  {
    PrefijoMismos(sticks, sticks + [s], k);
  }

  lemma {:induction false} ByteAnterior(sticks: seq<Stick>, s: Stick, n: nat, x: int)
    requires n <= |sticks|
    ensures ByteEn(sticks + [s], n, x) == ByteEn(sticks, n, x)
    decreases n
  {
    if n > 0 {
      PrefijoMismos(sticks, sticks + [s], n - 1);
      ByteAnterior(sticks, s, n - 1, x);
    }
  }

  lemma {:induction false} AgregarStick(sticks: seq<Stick>, s: Stick)
    requires SticksValidos(sticks) && |s.datos| == s.tamanio && s.baseGlobal == Prefijo(sticks, |sticks|)
    ensures SticksValidos(sticks + [s])
    ensures Plana(sticks + [s]) == Plana(sticks) + s.datos
  {
    AgregarValido(sticks, s);
    var n, a, b := |sticks|, Plana(sticks + [s]), Plana(sticks) + s.datos;
    forall x {:trigger Punto(x)} | Punto(x) && 0 <= x < |a| ensures a[x] == b[x] {
      PrefijoMismos(sticks, sticks + [s], n);
      ByteAnterior(sticks, s, n, x);
    }
    SecuenciasIguales(a, b);
  }

  /** The first `n` bytes from `dir` on have been read into `datos`. */
  ghost predicate Leido(mem: seq<byte>, dir: nat, n: nat, datos: seq<byte>) {
    if n == 0 then datos == [] else dir + n <= |mem| && datos == mem[dir..dir + n]
  }

  lemma {:induction false} LeerPaso(sticks: seq<Stick>, i: nat, offset: nat, n: nat, dir: nat, leidos: nat, datos: seq<byte>)
    requires SticksValidos(sticks) && i < |sticks| && 0 < n && offset + n <= sticks[i].tamanio
    requires dir + leidos == Prefijo(sticks, i) + offset
    requires Leido(Plana(sticks), dir, leidos, datos)
    ensures Leido(Plana(sticks), dir, leidos + n, datos + sticks[i].datos[offset..offset + n])
  {
    LeerTramo(sticks, i, offset, n);
    TramoSeguido(Plana(sticks), dir, dir + leidos, dir + leidos + n);
  }

  /** One more piece written right after the pieces already written. */
  lemma {:induction false} EscribirPaso(antes: seq<byte>, dir: nat, origen: seq<byte>, hechos: nat, n: nat)
    requires hechos + n <= |origen| && dir + hechos + n <= |antes|
    ensures Pisar(Pisar(antes, dir, origen[..hechos]), dir + hechos, origen[hechos..hechos + n])
         == Pisar(antes, dir, origen[..hechos + n])
  {
    PisarSeguido(antes, dir, origen[..hechos], origen[hechos..hechos + n]);
    assert origen[..hechos] + origen[hechos..hechos + n] == origen[..hechos + n];
  }

  class MemoriaFisica {
    var sticks: seq<Stick>
    var total: uint32
    /** The sizes, which no access and no move changes. */
    ghost var tamanios: seq<uint32>

    ghost predicate Valid()
      reads this
    {
      && SticksValidos(sticks) && total == |Plana(sticks)| && total == Prefijo(sticks, |sticks|)
      && |tamanios| == |sticks| && forall i :: 0 <= i < |sticks| ==> sticks[i].tamanio == tamanios[i]
    }

    ghost function Bytes(): seq<byte>
      reads this
    {
      Plana(sticks)
    }

    constructor ()
      ensures Valid() && sticks == [] && total == 0
    {
      sticks, total, tamanios := [], 0, [];
    }

    /** A stick connects with whatever bytes it holds; its range becomes free memory. */
    method Agregar(fd: int, datos: seq<byte>, huecos: ListaHuecos)
      requires Valid() && Acotados(huecos.lista)
      requires total + |datos| < LIMITE_32
      modifies this, huecos
      ensures Valid() && Acotados(huecos.lista)
      ensures sticks == old(sticks) + [Stick(fd, |datos|, old(total), datos)]
      ensures total == old(total) + |datos| && tamanios == old(tamanios) + [|datos|]
      ensures Bytes() == old(Bytes()) + datos
      ensures huecos.lista == Extendida(old(huecos.lista), old(total), |datos|)
      ensures SeUne(old(huecos.lista), huecos.lista, old(total), |datos|)
    {
      var stick := Stick(fd, |datos|, total, datos);
      AgregarStick(sticks, stick);
      sticks, tamanios := sticks + [stick], tamanios + [stick.tamanio];
      total := total + |datos|;
      huecos.Extender(stick.baseGlobal, stick.tamanio);
    }

    /** Walks the sticks in order; empty sticks are stepped over. */
    method Localizar(dir: uint32) returns (r: Option<(nat, uint32)>)
      requires Valid()
      ensures r.Some? ==> Aloja(sticks, dir, r.value.0, r.value.1)
      ensures r.None? <==> total <= dir
    {
      var acumulado: uint32 := 0;
      for i := 0 to |sticks|
        invariant acumulado == Prefijo(sticks, i) && acumulado <= dir
      {
        PrefijoMonotono(sticks, i + 1, |sticks|);
        if dir < acumulado + sticks[i].tamanio {
          return Some((i, dir - acumulado));
        }
        acumulado := acumulado + sticks[i].tamanio;
      }
      r := None;
    }

    /** The remote module's answer; false stands for a refused or lost request.  `sano` is the
        environment's promise that every request of the present call is answered. */
    method Responder(sano: bool) returns (ok: bool)
      ensures sano ==> ok
    {
      ok := *;
      ok := ok || sano;
    }

    /**
      When every stick answers, the read succeeds exactly when the range is in memory,
      whatever the number and sizes of the sticks it crosses.
    */
    method Leer(dir: uint32, tam: uint32, sano: bool) returns (ok: bool, datos: seq<byte>)
      requires Valid()
      ensures ok ==> (tam == 0 || dir + tam <= total)
      ensures ok ==> datos == if tam == 0 then [] else Bytes()[dir..dir + tam]
      ensures sano ==> (ok <==> tam == 0 || dir + tam <= total)
    {
      var leidos: uint32 := 0;
      datos := [];
      while leidos < tam
        invariant leidos <= tam
        invariant Leido(Bytes(), dir, leidos, datos)
      {
        var stick := Localizar(dir + leidos);
        if stick.None? {
          return false, datos;
        }
        var (i, offset) := stick.value;
        var restanteOp := tam - leidos;
        var restanteStick := sticks[i].tamanio - offset;
        var aLeer := if restanteOp < restanteStick then restanteOp else restanteStick;
        var status := Responder(sano);
        if !status {
          return false, datos;
        }
        LeerPaso(sticks, i, offset, aLeer, dir, leidos, datos);
        datos := datos + sticks[i].datos[offset..offset + aLeer];
        leidos := leidos + aLeer;
      }
      ok := true;
    }

    /**
      A refused write may leave anything in the piece that was refused, but never touches
      a byte outside the requested range.
    */
    method Escribir(dir: uint32, origen: seq<byte>, sano: bool) returns (ok: bool)
      requires Valid() && |origen| < LIMITE_32
      modifies this`sticks
      ensures Valid() && MismosSticks(old(sticks), sticks)
      ensures ok ==> (|origen| == 0 || dir + |origen| <= total)
      ensures ok ==> Bytes() == if |origen| == 0 then old(Bytes()) else Pisar(old(Bytes()), dir, origen)
      ensures FueraIgual(old(Bytes()), Bytes(), dir, dir + |origen|)
      ensures sano ==> (ok <==> |origen| == 0 || dir + |origen| <= total)
      ensures |origen| == 0 ==> ok
    {
      var escritos: uint32 := 0;
      ghost var antes := Bytes();
      if dir <= total {
        PisarNada(antes, dir);
        assert origen[..0] == [];
      }
      while escritos < |origen|
        invariant escritos <= |origen|
        invariant Valid() && MismosSticks(old(sticks), sticks)
        invariant dir + escritos <= total ==> Bytes() == Pisar(antes, dir, origen[..escritos])
        invariant total < dir + escritos ==> escritos == 0 && Bytes() == antes
      {
        var stick := Localizar(dir + escritos);
        if stick.None? {
          return false;
        }
        var (i, offset) := stick.value;
        var restanteOp := |origen| - escritos;
        var restanteStick := sticks[i].tamanio - offset;
        var aEscribir := if restanteOp < restanteStick then restanteOp else restanteStick;
        var parte := origen[escritos..escritos + aEscribir];
        var status := EscribirTramo(i, offset, parte, sano);
        if !status {
          return false;
        }
        EscribirPaso(antes, dir, origen, escritos, aEscribir);
        escritos := escritos + aEscribir;
      }
      assert origen[..|origen|] == origen;
      ok := true;
    }

    /** The stick stores the bytes it received; if it does not confirm, that piece of it is unknown. */
    method EscribirTramo(i: nat, offset: uint32, parte: seq<byte>, sano: bool) returns (status: bool)
      requires Valid() && i < |sticks| && offset + |parte| <= sticks[i].tamanio
      modifies this`sticks
      ensures Valid() && MismosSticks(old(sticks), sticks)
      ensures Prefijo(old(sticks), i) + offset + |parte| <= total
      ensures status ==> Bytes() == Pisar(old(Bytes()), Prefijo(old(sticks), i) + offset, parte)
      ensures var desde := Prefijo(old(sticks), i) + offset;
        FueraIgual(old(Bytes()), Bytes(), desde, desde + |parte|)
      ensures sano ==> status
    {
      status := Responder(sano);
      var llega := parte;
      if !status {
        llega :| |llega| == |parte|;
      }
      EscribirEnStick(sticks, i, offset, llega);
      var d := sticks[i].datos;
      var nuevo := d[..offset] + llega + d[offset + |llega|..];
      PisarConcreto(d, offset, llega);
      ConservaSticks(sticks, i, nuevo);
      PrefijoMismos(sticks, sticks[i := sticks[i].(datos := nuevo)], |sticks|);
      sticks := sticks[i := sticks[i].(datos := nuevo)];
    }
  }
}
