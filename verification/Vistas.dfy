/**
  What a process sees of its memory: a private list of (id, bytes) segments, whatever
  physical addresses or swap blocks hold them at the moment.
*/
module Vistas {
  import opened Tipos
  import opened Rangos
  import opened Swap

  datatype Dato = Dato(id: int, bytes: seq<byte>)

  /** Segments in memory, and those in swap while the process is suspended. */
  datatype Almacen = Almacen(residente: seq<Dato>, guardado: Option<seq<Dato>>)

  /** One store per context, in the order of the context list. */
  type Vista = seq<Entrada<Almacen>>

  ghost function Bytes(s: Segmento, mem: seq<byte>): (b: seq<byte>)
    ensures s.base + s.limite <= |mem| || s.limite == 0 ==> |b| == s.limite
  {
    if s.base + s.limite <= |mem| then mem[s.base..s.base + s.limite] else []
  }

  ghost function Datos(t: Tabla, mem: seq<byte>): (d: seq<Dato>)
    ensures |d| == |t|
    ensures forall j {:trigger Punto(j)} :: Punto(j) && 0 <= j < |t| ==> d[j] == Dato(t[j].id, Bytes(t[j], mem))
  {
    var w := seq(|t|, j requires 0 <= j < |t| => Dato(t[j].id, Bytes(t[j], mem)));
    var d: seq<Dato> :| |d| == |w| &&
      forall j {:trigger Punto(j)} :: Punto(j) && 0 <= j < |t| ==> d[j] == Dato(t[j].id, Bytes(t[j], mem));
    d
  }

  ghost function DatosSwap(l: seq<SegmentoSwap>, dev: seq<seq<byte>>): (d: seq<Dato>)
    ensures |d| == |l|
    ensures forall j {:trigger Punto(j)} :: Punto(j) && 0 <= j < |l| ==> d[j] == Dato(l[j].id, BytesSwap(l[j], dev))
  {
    var w := seq(|l|, j requires 0 <= j < |l| => Dato(l[j].id, BytesSwap(l[j], dev)));
    var d: seq<Dato> :| |d| == |w| &&
      forall j {:trigger Punto(j)} :: Punto(j) && 0 <= j < |l| ==> d[j] == Dato(l[j].id, BytesSwap(l[j], dev));
    d
  }

  ghost function Guardado(sus: seq<ProcesoSwap>, pid: int, dev: seq<seq<byte>>): Option<seq<Dato>> {
    if Esta(sus, pid) then Some(DatosSwap(sus[Indice(sus, pid)].v, dev)) else None
  }

  ghost function AlmacenDe(c: Contexto, sus: seq<ProcesoSwap>, mem: seq<byte>, dev: seq<seq<byte>>): Almacen {
    Almacen(Datos(c.v, mem), Guardado(sus, c.pid, dev))
  }

  ghost function VistaDe(cs: seq<Contexto>, sus: seq<ProcesoSwap>, mem: seq<byte>, dev: seq<seq<byte>>): (v: Vista)
    ensures |v| == |cs|
    ensures forall i {:trigger Punto(i)} :: Punto(i) && 0 <= i < |cs| ==>
              v[i] == Entrada(cs[i].pid, AlmacenDe(cs[i], sus, mem, dev))
  {
    var w := seq(|cs|, i requires 0 <= i < |cs| => Entrada(cs[i].pid, AlmacenDe(cs[i], sus, mem, dev)));
    var v: Vista :| |v| == |w| && forall i {:trigger Punto(i)} :: Punto(i) && 0 <= i < |cs| ==>
      v[i] == Entrada(cs[i].pid, AlmacenDe(cs[i], sus, mem, dev));
    v
  }

  /** Bytes held in memory by all processes together. */
  function Ocupado(d: seq<Dato>): nat {
    if |d| == 0 then 0 else Ocupado(d[..|d| - 1]) + |d[|d| - 1].bytes|
  }

  function OcupadoTotal(v: Vista): nat {
    if |v| == 0 then 0 else OcupadoTotal(v[..|v| - 1]) + Ocupado(v[|v| - 1].v.residente)
  }

  // ---------------------------------------------------------------- lists of entries

  lemma {:induction false} IndiceDe<T>(l: seq<Entrada<T>>, i: nat)
    requires Unicos(l) && i < |l|
    ensures Indice(l, l[i].pid) == i
  {
    var k := Indice(l, l[i].pid);
    assert k <= i && l[k].pid == l[i].pid;
  }

  lemma {:induction false} IndiceMismosPids<T, U>(a: seq<Entrada<T>>, b: seq<Entrada<U>>, pid: int)
    requires |a| == |b| && forall i :: 0 <= i < |a| ==> a[i].pid == b[i].pid
    ensures Indice(a, pid) == Indice(b, pid)
  {
    var i, j := Indice(a, pid), Indice(b, pid);
    assert i < |a| ==> a[i].pid == b[i].pid;
    assert j < |a| ==> a[j].pid == b[j].pid;
  }

  lemma {:induction false} IndiceAgregar<T>(l: seq<Entrada<T>>, e: Entrada<T>, pid: int)
    requires !Esta(l, e.pid)
    ensures Esta(l + [e], pid) <==> Esta(l, pid) || pid == e.pid
    ensures Esta(l, pid) ==> Indice(l + [e], pid) == Indice(l, pid)
    ensures pid == e.pid ==> Indice(l + [e], pid) == |l|
    ensures Unicos(l) ==> Unicos(l + [e])
  {
    var r, i, j := l + [e], Indice(l + [e], pid), Indice(l, pid);
    assert r[|l|] == e;
    assert j < |l| ==> r[j] == l[j];
    assert i < |l| ==> r[i] == l[i];
  }

  lemma {:induction false} IndiceSacar<T>(l: seq<Entrada<T>>, i: nat, pid: int)
    requires Unicos(l) && i < |l|
    ensures Unicos(Sacar(l, i))
    ensures Esta(Sacar(l, i), pid) <==> Esta(l, pid) && pid != l[i].pid
    ensures Esta(l, pid) && pid != l[i].pid ==>
              Sacar(l, i)[Indice(Sacar(l, i), pid)] == l[Indice(l, pid)]
  {
    var r := Sacar(l, i);
    assert forall k :: 0 <= k < |r| ==> r[k] == l[if k < i then k else k + 1];
    var j, k := Indice(l, pid), Indice(r, pid);
    if j < |l| && pid != l[i].pid {
      var k' := if j < i then j else j - 1;
      assert r[k'] == l[j];
      IndiceDe(r, k');
    }
    if k < |r| {
      var j' := if k < i then k else k + 1;
      assert l[j'] == r[k];
      IndiceDe(l, j');
    }
  }

  /** Dropping one entry keeps the others well formed. */
  lemma {:induction false} SacarValidos(sus: seq<ProcesoSwap>, p: nat, tam: int)
    requires Unicos(sus) && p < |sus|
    requires forall i :: 0 <= i < |sus| ==> SegsValidos(sus[i].v, tam)
    ensures Unicos(Sacar(sus, p))
    ensures forall i :: 0 <= i < |sus| - 1 ==> SegsValidos(Sacar(sus, p)[i].v, tam)
  {
    IndiceSacar(sus, p, 0);
    forall i | 0 <= i < |sus| - 1 ensures SegsValidos(Sacar(sus, p)[i].v, tam) {
      assert Sacar(sus, p)[i] == sus[if i < p then i else i + 1];
    }
  }

  // ---------------------------------------------------------------- views under changes

  lemma {:induction false} DatosAgregar(t: Tabla, s: Segmento, mem: seq<byte>)
    ensures Datos(t + [s], mem) == Datos(t, mem) + [Dato(s.id, Bytes(s, mem))]
  {
    SecuenciasIguales(Datos(t + [s], mem), Datos(t, mem) + [Dato(s.id, Bytes(s, mem))]);
  }

  lemma {:induction false} DatosSacar(t: Tabla, j: nat, mem: seq<byte>)
    requires j < |t|
    ensures Datos(Sacar(t, j), mem) == Sacar(Datos(t, mem), j)
  {
    var a, b := Datos(Sacar(t, j), mem), Sacar(Datos(t, mem), j);
    forall k {:trigger Punto(k)} | Punto(k) && 0 <= k < |a| ensures a[k] == b[k] {
      assert Punto(k + 1);
    }
    SecuenciasIguales(a, b);
  }

  /** Writing clear of a segment does not change its bytes. */
  lemma {:induction false} BytesFuera(s: Segmento, mem: seq<byte>, mem': seq<byte>, lo: nat, hi: nat)
    requires FueraIgual(mem, mem', lo, hi)
    requires s.limite == 0 || s.base + s.limite <= lo || hi <= s.base
    ensures Bytes(s, mem') == Bytes(s, mem)
  {
    if s.base + s.limite <= |mem| {
      var a, b := mem[s.base..s.base + s.limite], mem'[s.base..s.base + s.limite];
      forall k | 0 <= k < s.limite ensures a[k] == b[k] {
        assert Punto(s.base + k);
      }
    }
  }

  /** Bytes that agree on every segment of the table show the same contents. */
  lemma {:induction false} DatosIguales(t: Tabla, mem: seq<byte>, t': Tabla, mem': seq<byte>)
    requires |t| == |t'|
    requires forall j :: 0 <= j < |t| ==> t[j].id == t'[j].id && Bytes(t[j], mem) == Bytes(t'[j], mem')
    ensures Datos(t, mem) == Datos(t', mem')
  {
    SecuenciasIguales(Datos(t, mem), Datos(t', mem'));
  }

  lemma {:induction false} DatosSwapEstable(l: seq<SegmentoSwap>, dev: seq<seq<byte>>, dev': seq<seq<byte>>)
    requires |dev| == |dev'|
    requires forall j, k :: 0 <= j < |l| && 0 <= k < |l[j].bloques| && 0 <= l[j].bloques[k] < |dev| ==>
               dev'[l[j].bloques[k]] == dev[l[j].bloques[k]]
    ensures DatosSwap(l, dev') == DatosSwap(l, dev)
  {
    forall j | 0 <= j < |l| ensures BytesSwap(l[j], dev') == BytesSwap(l[j], dev) {
      JuntaEstable(l[j].bloques, dev, dev');
    }
    SecuenciasIguales(DatosSwap(l, dev'), DatosSwap(l, dev));
  }

  /** Only context `i` changed: the other stores are as before. */
  lemma {:induction false} VistaUna(cs: seq<Contexto>, sus: seq<ProcesoSwap>, mem: seq<byte>, dev: seq<seq<byte>>,
                                    cs': seq<Contexto>, sus': seq<ProcesoSwap>, mem': seq<byte>, dev': seq<seq<byte>>, i: nat)
    requires |cs| == |cs'| && i < |cs| && cs'[i].pid == cs[i].pid
    requires forall k :: 0 <= k < |cs| && k != i ==>
      cs'[k].pid == cs[k].pid && AlmacenDe(cs'[k], sus', mem', dev') == AlmacenDe(cs[k], sus, mem, dev)
    ensures VistaDe(cs', sus', mem', dev')
         == VistaDe(cs, sus, mem, dev)[i := Entrada(cs[i].pid, AlmacenDe(cs'[i], sus', mem', dev'))]
  {
    SecuenciasIguales(VistaDe(cs', sus', mem', dev'),
                      VistaDe(cs, sus, mem, dev)[i := Entrada(cs[i].pid, AlmacenDe(cs'[i], sus', mem', dev'))]);
  }

  /** One table replaced, with no byte and no block touched. */
  lemma {:induction false} CambiarTabla(cs: seq<Contexto>, i: nat, t: Tabla, sus: seq<ProcesoSwap>, mem: seq<byte>, dev: seq<seq<byte>>)
    requires i < |cs|
    ensures var cs' := cs[i := Entrada(cs[i].pid, t)];
      && Unicos(cs') == Unicos(cs)
      && (forall q :: Esta(cs', q) == Esta(cs, q))
      && VistaDe(cs', sus, mem, dev) ==
           VistaDe(cs, sus, mem, dev)[i := Entrada(cs[i].pid, Almacen(Datos(t, mem), Guardado(sus, cs[i].pid, dev)))]
  {
    MismosPids(cs, cs[i := Entrada(cs[i].pid, t)]);
    VistaUna(cs, sus, mem, dev, cs[i := Entrada(cs[i].pid, t)], sus, mem, dev, i);
  }

  lemma {:induction false} MismosPids(a: seq<Contexto>, b: seq<Contexto>)
    requires |a| == |b| && forall i :: 0 <= i < |a| ==> a[i].pid == b[i].pid
    ensures Unicos(a) == Unicos(b)
    ensures forall q :: Esta(a, q) == Esta(b, q)
  {
    forall q ensures Esta(a, q) == Esta(b, q) {
      IndiceMismosPids(a, b, q);
    }
  }

  lemma {:induction false} VistaMisma(cs: seq<Contexto>, sus: seq<ProcesoSwap>, mem: seq<byte>, dev: seq<seq<byte>>,
                                      cs': seq<Contexto>, sus': seq<ProcesoSwap>, mem': seq<byte>, dev': seq<seq<byte>>)
    requires |cs| == |cs'|
    requires forall k :: 0 <= k < |cs| ==>
      cs'[k].pid == cs[k].pid && AlmacenDe(cs'[k], sus', mem', dev') == AlmacenDe(cs[k], sus, mem, dev)
    ensures VistaDe(cs', sus', mem', dev') == VistaDe(cs, sus, mem, dev)
  {
    SecuenciasIguales(VistaDe(cs', sus', mem', dev'), VistaDe(cs, sus, mem, dev));
  }

  lemma {:induction false} OcupadoTabla(t: Tabla, mem: seq<byte>)
    requires forall j :: 0 <= j < |t| ==> t[j].limite == 0 || t[j].base + t[j].limite <= |mem|
    ensures Ocupado(Datos(t, mem)) == SumaTabla(t)
    decreases |t|
  {
    if |t| > 0 {
      OcupadoTabla(t[..|t| - 1], mem);
      SecuenciasIguales(Datos(t, mem)[..|t| - 1], Datos(t[..|t| - 1], mem));
      assert Punto(|t| - 1);
    }
  }

  lemma {:induction false} OcupadoCtxs(cs: seq<Contexto>, sus: seq<ProcesoSwap>, mem: seq<byte>, dev: seq<seq<byte>>)
    requires forall i, j :: 0 <= i < |cs| && 0 <= j < |cs[i].v| ==>
      cs[i].v[j].limite == 0 || cs[i].v[j].base + cs[i].v[j].limite <= |mem|
    ensures OcupadoTotal(VistaDe(cs, sus, mem, dev)) == SumaCtxs(cs)
    decreases |cs|
  {
    if |cs| > 0 {
      OcupadoCtxs(cs[..|cs| - 1], sus, mem, dev);
      SecuenciasIguales(VistaDe(cs, sus, mem, dev)[..|cs| - 1], VistaDe(cs[..|cs| - 1], sus, mem, dev));
      assert Punto(|cs| - 1);
      OcupadoTabla(cs[|cs| - 1].v, mem);
    }
  }

  /** The free total reported by the hole list is what the stores leave of the memory. */
  lemma {:induction false} LibreReportado(hs: seq<Hueco>, cs: seq<Contexto>, sus: seq<ProcesoSwap>, mem: seq<byte>, dev: seq<seq<byte>>)
    requires Teselado(hs, cs, |mem|)
    ensures Suma(hs) + OcupadoTotal(VistaDe(cs, sus, mem, dev)) == |mem|
  {
    Conservacion(hs, cs, |mem|);
    assert Desplegar(0);
    forall i, j | 0 <= i < |cs| && 0 <= j < |cs[i].v|
      ensures cs[i].v[j].limite == 0 || cs[i].v[j].base + cs[i].v[j].limite <= |mem|
    {
      if cs[i].v[j].limite > 0 {
        SegmentoEnMemoria(cs, |mem|, Ref(i, j));
      }
    }
    OcupadoCtxs(cs, sus, mem, dev);
  }
}
