/** Logical to physical translation on the CPU (`mmu.c`), on a copy of the segment table. */
module Mmu {
  import opened Tipos
  import opened Rangos

  /** A C conversion from uint32_t to a 32-bit int. */
  function AInt(u: uint32): int {
    if u < 0x8000_0000 then u else u - LIMITE_32
  }

  /** A C uint32_t sum: it wraps. */
  function SumaU32(a: uint32, b: uint32): (r: uint32) {
    (a + b) % LIMITE_32
  }

  lemma {:induction false} SumaSinEnvolver(a: uint32, b: uint32)
    requires a + b < LIMITE_32
    ensures SumaU32(a, b) == a + b
  {
  }

  /** First segment with that id, or |t|: ids may repeat and need not be positions. */
  ghost function IndiceSegmento(t: Tabla, id: int): (i: nat)
    ensures i <= |t|
    ensures i < |t| ==> t[i].id == id
    ensures forall j :: 0 <= j < i ==> t[j].id != id
  {
    IndiceSegmentoExiste(t, id);
    var i: nat :| i <= |t| && (i < |t| ==> t[i].id == id) && forall j :: 0 <= j < i ==> t[j].id != id;
    i
  }

  lemma {:induction false} IndiceSegmentoExiste(t: Tabla, id: int)
    ensures exists i: nat :: i <= |t| && (i < |t| ==> t[i].id == id) && forall j :: 0 <= j < i ==> t[j].id != id
  {
    var i := 0;
    while i < |t| && t[i].id != id
      invariant i <= |t| && forall j :: 0 <= j < i ==> t[j].id != id
    {
      i := i + 1;
    }
  }

  /** The segment and offset an accepted access resolves to; None is a segmentation fault. */
  ghost function Resolver(tamMax: uint32, t: Tabla, dl: uint32, tam: uint32): (r: Option<(nat, uint32)>)
    ensures r.Some? ==> r.value.0 < |t| && tamMax > 0 && r.value.1 == dl % tamMax
  {
    if tamMax == 0 then None
    else
      var i := IndiceSegmento(t, AInt(dl / tamMax));
      var desplazamiento := dl % tamMax;
      if i == |t| then None
      else if SumaU32(desplazamiento, tam) > t[i].limite then None
      else Some((i, desplazamiento))
  }

  ghost function Traducir(tamMax: uint32, t: Tabla, dl: uint32, tam: uint32): (df: Option<uint32>) {
    match Resolver(tamMax, t, dl, tam)
    case None => None
    case Some((i, desplazamiento)) => Some(SumaU32(t[i].base, desplazamiento))
  }

  method BuscarSegmentoPorId(t: Tabla, id: int) returns (r: nat)
    ensures r == IndiceSegmento(t, id)
  {
    r := 0;
    while r < |t|
      invariant r <= |t|
      invariant forall j :: 0 <= j < r ==> t[j].id != id
    {
      if t[r].id == id {
        break;
      }
      r := r + 1;
    }
  }

  method TraducirDireccion(tamMax: uint32, t: Tabla, dl: uint32, tam: uint32) returns (ok: bool, df: uint32)
    ensures ok == Traducir(tamMax, t, dl, tam).Some?
    ensures ok ==> df == Traducir(tamMax, t, dl, tam).value
  {
    df := 0;
    if tamMax == 0 {
      return false, df;
    }
    var numSegmento := AInt(dl / tamMax);
    var desplazamiento := dl % tamMax;
    var i := BuscarSegmentoPorId(t, numSegmento);
    if i == |t| {
      return false, df;
    }
    if SumaU32(desplazamiento, tam) > t[i].limite {
      return false, df;
    }
    df := SumaU32(t[i].base, desplazamiento);
    ok := true;
  }

  /** Every byte the access would touch lies in the segment it was resolved to. */
  predicate AccesoDentro(t: Tabla, i: nat, df: int, tam: int)
    requires i < |t|
  {
    t[i].base <= df && df + tam <= t[i].base + t[i].limite
  }

  /**
    The limit check adds two uint32_t values, so it is exact precisely when that sum does
    not wrap: an accepted access stays inside its segment if and only if
    `desplazamiento + tamanio_acceso` is below 2^32.
  */
  lemma {:induction false} LimiteExacto(tamMax: uint32, t: Tabla, dl: uint32, tam: uint32)
    requires Resolver(tamMax, t, dl, tam).Some?
    requires forall j :: 0 <= j < |t| ==> t[j].base + t[j].limite < LIMITE_32
    ensures AccesoDentro(t, Resolver(tamMax, t, dl, tam).value.0, Traducir(tamMax, t, dl, tam).value, tam)
       <==> (dl % tamMax) + tam < LIMITE_32
  {
    var (i, d) := Resolver(tamMax, t, dl, tam).value;
    assert t[i].base + t[i].limite < LIMITE_32;
    var df := Traducir(tamMax, t, dl, tam).value;
    if d + tam < LIMITE_32 {
      assert SumaU32(d, tam) == d + tam;
      assert df == t[i].base + d;
    } else {
      assert df == t[i].base + d || df == t[i].base + d - LIMITE_32;
    }
  }

  /** The wrap is reachable: offset 8 of a 10-byte segment, with a size just below 2^32. */
  lemma {:induction false} LimiteEnvuelve()
    ensures var t := [Segmento(0, 0, 10)];
      Traducir(256, t, 8, 0xFFFF_FFFC) == Some(8) && !AccesoDentro(t, 0, 8, 0xFFFF_FFFC)
  {
    var t := [Segmento(0, 0, 10)];
    assert t[0].id == 0 && IndiceSegmento(t, 0) == 0;
    assert AInt(8 / 256) == 0;
    assert SumaU32(8, 0xFFFF_FFFC) == 4;
  }

  /** Context `c` accepts the access, and its size does not make the limit check wrap. */
  ghost predicate Acepta(cs: seq<Contexto>, c: nat, tamMax: uint32, dl: uint32, tam: uint32, df: uint32) {
    c < |cs| && Traducir(tamMax, cs[c].v, dl, tam) == Some(df) && (dl % tamMax) + tam < LIMITE_32
  }

  lemma {:induction false} AccesoResuelto(hs: seq<Hueco>, cs: seq<Contexto>, total: nat,
                       c: nat, tamMax: uint32, dl: uint32, tam: uint32, df: uint32)
    requires Teselado(hs, cs, total) && total < LIMITE_32 && Acepta(cs, c, tamMax, dl, tam, df)
    ensures var (i, d) := Resolver(tamMax, cs[c].v, dl, tam).value;
      d + tam <= cs[c].v[i].limite && (tam > 0 ==> df == cs[c].v[i].base + d && df + tam <= total)
  {
    var (i, d) := Resolver(tamMax, cs[c].v, dl, tam).value;
    assert Desplegar(0);
    if tam > 0 {
      SegmentoEnMemoria(cs, total, Ref(c, i));
    }
  }

  /**
    Isolation: a byte reached by an accepted access belongs to one of the process's own
    segments, is not free, and is in no other segment of any process.
  */
  lemma {:induction false} Aislamiento(hs: seq<Hueco>, cs: seq<Contexto>, total: nat,
                    c: nat, tamMax: uint32, dl: uint32, tam: uint32, df: uint32, x: int)
    requires Teselado(hs, cs, total) && total < LIMITE_32 && Acepta(cs, c, tamMax, dl, tam, df)
    requires df <= x < df + tam
    ensures var i := Resolver(tamMax, cs[c].v, dl, tam).value.0;
      && x in Zona(cs[c].v[i])
      && x !in Dirs(hs)
      && forall q :: RefValida(cs, q) && q != Ref(c, i) ==> x !in Zona(Seg(cs, q))
  {
    AccesoResuelto(hs, cs, total, c, tamMax, dl, tam, df);
    var r := Ref(c, Resolver(tamMax, cs[c].v, dl, tam).value.0);
    SegmentoCubierto(cs, r);
    assert Punto(x) && Desplegar(0);
    assert Zona(Seg(cs, r))[x] == 1;
    assert Dirs(hs)[x] + DirsCtxs(cs)[x] == Intervalo(0, total)[x] <= 1;
    forall q | RefValida(cs, q) && q != r ensures x !in Zona(Seg(cs, q)) {
      DosSegmentos(cs, r, q);
      assert (Zona(Seg(cs, r)) + Zona(Seg(cs, q)))[x] <= DirsCtxs(cs)[x];
    }
  }

  lemma {:induction false} CocienteYResto(a: int, b: int, m: int)
    requires m > 0 && a / m == b / m && a % m == b % m
    ensures a == b
  {
    assert a == (a / m) * m + a % m && b == (b / m) * m + b % m;
  }

  lemma {:induction false} MismoSegmentoOtroLugar(tamMax: uint32, t: Tabla, dl: uint32, dl': uint32)
    requires Resolver(tamMax, t, dl, 1).Some? && Resolver(tamMax, t, dl', 1).Some?
    requires Resolver(tamMax, t, dl, 1) == Resolver(tamMax, t, dl', 1)
    ensures dl == dl'
  {
    CocienteYResto(dl, dl', tamMax);
  }

  /** Injectivity over the whole system: two processes, or two logical addresses of one
      process, never reach the same physical byte. */
  lemma {:induction false} TraduccionInyectiva(hs: seq<Hueco>, cs: seq<Contexto>, total: nat, tamMax: uint32,
                            c: nat, dl: uint32, df: uint32, c': nat, dl': uint32, df': uint32)
    requires Teselado(hs, cs, total) && total < LIMITE_32
    requires c < |cs| && Traducir(tamMax, cs[c].v, dl, 1) == Some(df)
    requires c' < |cs| && Traducir(tamMax, cs[c'].v, dl', 1) == Some(df')
    requires c != c' || dl != dl'
    ensures df != df'
  {
    assert dl % tamMax < tamMax && dl' % tamMax < tamMax;
    Aislamiento(hs, cs, total, c, tamMax, dl, 1, df, df);
    AccesoResuelto(hs, cs, total, c, tamMax, dl, 1, df);
    AccesoResuelto(hs, cs, total, c', tamMax, dl', 1, df');
    var r, r' := Resolver(tamMax, cs[c].v, dl, 1).value, Resolver(tamMax, cs[c'].v, dl', 1).value;
    assert Punto(df');
    assert df' in Zona(Seg(cs, Ref(c', r'.0)));
    if c == c' && r == r' {
      MismoSegmentoOtroLugar(tamMax, cs[c].v, dl, dl');
    }
  }
}
