/**
  What a logical address names, in plain arithmetic: the segment whose id is the quotient by
  the maximum size, at the remainder.  Every access theorem says which segment it reaches
  through `Resolver` or `ResolverDatos`; here both are tied to that reading, and with them
  what a read answers and what a write leaves.
*/
module Direcciones {
  import opened Tipos
  import opened Rangos
  import opened Vistas
  import opened Mmu
  import opened MaquinaAbstracta

  lemma {:induction false} AlMenos(k: int, n: int)
    requires k > 0 && n >= 0
    ensures k * n >= n
  {
    assert (k - 1) * n >= 0;
  }

  lemma {:induction false} MultiploChico(k: int, n: int)
    requires -n < k * n < n
    ensures k == 0
  {
    if k > 0 {
      AlMenos(k, n);
    } else if k < 0 {
      AlMenos(-k, n);
    }
  }

  lemma {:induction false} MismaDivision(n: int, a: int, r: int, q: int, d: int)
    requires 0 <= r < n && 0 <= d < n && a * n + r == q * n + d
    ensures a == q && r == d
  {
    assert (a - q) * n == d - r;
    MultiploChico(a - q, n);
  }

  /** Quotient and remainder, by multiplication. */
  lemma {:induction false} Cociente(x: nat, n: nat, q: int, d: int)
    requires 0 <= d < n
    ensures x == q * n + d <==> x / n == q && x % n == d
  {
    assert x == (x / n) * n + x % n;
    if x == q * n + d {
      MismaDivision(n, x / n, x % n, q, d);
    }
  }

  /** What a segment id is as an uint32_t. */
  function SinSigno(id: int): int {
    if id < 0 then id + LIMITE_32 else id
  }

  lemma {:induction false} EsCociente(tamMax: uint32, dl: uint32, id: int, o: nat)
    requires o < tamMax
    ensures -0x8000_0000 <= id < 0x8000_0000 && dl == SinSigno(id) * tamMax + o <==> AInt(dl / tamMax) == id && dl % tamMax == o
  {
    Cociente(dl, tamMax, SinSigno(id), o);
  }

  /**
    An address names the segment whose id, as a C int, is its quotient by the maximum size,
    wherever in the table that segment is; an access at offset `d` reaches segment `k` exactly
    when `k` is the first to carry that id and the access ends within its limit.
  */
  lemma {:induction false} DireccionNombra(tamMax: uint32, t: Tabla, id: int, d: nat, tam: uint32, k: nat)
    requires -0x8000_0000 <= id < 0x8000_0000 && d < tamMax
    requires 0 <= SinSigno(id) * tamMax + d < LIMITE_32 && d + tam < LIMITE_32
    ensures Resolver(tamMax, t, SinSigno(id) * tamMax + d, tam) == Some((k, d)) <==>
              k < |t| && t[k].id == id && (forall j :: 0 <= j < k ==> t[j].id != id) && d + tam <= t[k].limite
    ensures Resolver(tamMax, t, SinSigno(id) * tamMax + d, tam) == Some((k, d)) && t[k].base + d < LIMITE_32 ==>
              Traducir(tamMax, t, SinSigno(id) * tamMax + d, tam) == Some(t[k].base + d)
  {
    Cociente(SinSigno(id) * tamMax + d, tamMax, SinSigno(id), d);
    SumaSinEnvolver(d, tam);
  }

  /** Address `dl` names segment `k`, the first one of its id, at offset `o`. */
  ghost predicate Nombra(d: seq<Dato>, tamMax: uint32, dl: uint32, k: int, o: int) {
    && 0 <= k < |d| && 0 <= o < tamMax && -0x8000_0000 <= d[k].id < 0x8000_0000
    && dl == SinSigno(d[k].id) * tamMax + o
    && forall j :: 0 <= j < k ==> d[j].id != d[k].id
  }

  /** An access resolves to the segment its address names, if it ends within it, and to nothing else. */
  lemma {:induction false} ResolverNombra(tamMax: uint32, d: seq<Dato>, dl: uint32, tam: uint32, k: nat, o: nat)
    requires SinEnvolver(tamMax, dl, tam)
    ensures ResolverDatos(tamMax, d, dl, tam) == Some((k, o)) <==> Nombra(d, tamMax, dl, k, o) && o + tam <= |d[k].bytes|
  {
    if tamMax > 0 && k < |d| && o < tamMax {
      SumaSinEnvolver(dl % tamMax, tam);
      EsCociente(tamMax, dl, d[k].id, o);
    }
  }

  /** The answer of a read in plain arithmetic: the bytes of the segment the address names, or
      none when it names none or the access passes its limit. */
  ghost predicate LecturaNombrada(cfg: Config, m: Maquina, pid: int, dl: uint32, tam: uint32, sano: bool, r: Option<seq<byte>>) {
    match AlmacenEn(m, pid)
    case None => r == None
    case Some(a) =>
      && (forall k, o {:trigger Nombra(a.residente, cfg.tamMax, dl, k, o)} ::
            Nombra(a.residente, cfg.tamMax, dl, k, o) && o + tam <= |a.residente[k].bytes| ==>
              r == Some(a.residente[k].bytes[o..o + tam]) || (!sano && r == None))
      && (r.Some? ==> exists k, o {:trigger Nombra(a.residente, cfg.tamMax, dl, k, o)} ::
            Nombra(a.residente, cfg.tamMax, dl, k, o) && o + tam <= |a.residente[k].bytes|)
  }

  /** At most one segment and offset fit an address. */
  lemma {:induction false} NombraUno(tamMax: uint32, d: seq<Dato>, dl: uint32, tam: uint32)
    requires SinEnvolver(tamMax, dl, tam)
    ensures var r := ResolverDatos(tamMax, d, dl, tam);
      && (forall k: int, o: int {:trigger Nombra(d, tamMax, dl, k, o)} ::
            Nombra(d, tamMax, dl, k, o) && o + tam <= |d[k].bytes| <==> r.Some? && r.value.0 == k && r.value.1 == o)
  {
    forall k: int, o: int {:trigger Nombra(d, tamMax, dl, k, o)}
      ensures var r := ResolverDatos(tamMax, d, dl, tam);
        Nombra(d, tamMax, dl, k, o) && o + tam <= |d[k].bytes| <==> r.Some? && r.value.0 == k && r.value.1 == o
    {
      if 0 <= k && 0 <= o < LIMITE_32 {
        ResolverNombra(tamMax, d, dl, tam, k, o);
      }
    }
  }

  lemma {:induction false} LecturaDice(cfg: Config, m: Maquina, pid: int, dl: uint32, tam: uint32, sano: bool, r: Option<seq<byte>>, m': Maquina)
    requires PasoReal(cfg, m, Leer(pid, dl, tam), sano, RBytes(r), m') && SinEnvolver(cfg.tamMax, dl, tam)
    ensures LecturaNombrada(cfg, m, pid, dl, tam, sano, r)
  {
    var i := Indice(m.procs, pid);
    if i < |m.procs| {
      var d := m.procs[i].v.residente;
      NombraUno(cfg.tamMax, d, dl, tam);
      if r.Some? {
        var (k, o) := ResolverDatos(cfg.tamMax, d, dl, tam).value;
        assert Nombra(d, cfg.tamMax, dl, k, o);
      }
    }
  }

  /** What a write leaves, in plain arithmetic: the bytes over the segment the address names.  A
      refusal while all answers means that it names none or passes its limit, and changes nothing. */
  ghost predicate EscrituraNombrada(cfg: Config, m: Maquina, pid: int, dl: uint32, datos: seq<byte>, sano: bool, ok: bool, m': Maquina) {
    var i := Indice(m.procs, pid);
    if i == |m.procs| then !ok && m' == m
    else
      var a := m.procs[i].v;
      && (ok ==> exists k, o {:trigger Nombra(a.residente, cfg.tamMax, dl, k, o)} ::
            Nombra(a.residente, cfg.tamMax, dl, k, o) && o + |datos| <= |a.residente[k].bytes|)
      && (ok ==> forall k, o {:trigger Nombra(a.residente, cfg.tamMax, dl, k, o)} ::
            Nombra(a.residente, cfg.tamMax, dl, k, o) && o + |datos| <= |a.residente[k].bytes| ==>
              m' == Poner(m, i, a.(residente := a.residente[k := Dato(a.residente[k].id, Pisar(a.residente[k].bytes, o, datos))])))
      && (!ok && sano ==> m' == m && forall k, o {:trigger Nombra(a.residente, cfg.tamMax, dl, k, o)} ::
            Nombra(a.residente, cfg.tamMax, dl, k, o) ==> o + |datos| > |a.residente[k].bytes|)
  }

  lemma {:induction false} EscrituraDice(cfg: Config, m: Maquina, pid: int, dl: uint32, datos: seq<byte>, sano: bool, ok: bool, m': Maquina)
    requires PasoReal(cfg, m, Escribir(pid, dl, datos), sano, RBool(ok), m') && SinEnvolver(cfg.tamMax, dl, |datos|)
    ensures EscrituraNombrada(cfg, m, pid, dl, datos, sano, ok, m')
  {
    var i := Indice(m.procs, pid);
    if i < |m.procs| {
      var d := m.procs[i].v.residente;
      NombraUno(cfg.tamMax, d, dl, |datos|);
      if ok {
        var (k, o) := ResolverDatos(cfg.tamMax, d, dl, |datos|).value;
        assert Nombra(d, cfg.tamMax, dl, k, o);
      }
    }
  }
}
