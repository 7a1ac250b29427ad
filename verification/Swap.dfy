/**
  The swap area as Kernel Memory keeps it (`memoria_usuario.c`): a bitmap of used blocks,
  the blocks themselves on the remote module, and for every suspended process the blocks
  that hold each of its segments.
*/
module Swap {
  import opened Tipos

  type int32 = x: int | -0x8000_0000 <= x < 0x8000_0000

  /** `t_segmento_swap`; `cantidad_bloques` is the length of the list. */
  datatype SegmentoSwap = SegmentoSwap(id: int, limite: uint32, bloques: seq<int>)

  /** `t_proceso_swap`. */
  type ProcesoSwap = Entrada<seq<SegmentoSwap>>

  /** Blocks needed for `limite` bytes. */
  function Techo(limite: nat, tam: int): (n: nat)
    requires tam > 0
  {
    (limite + tam - 1) / tam
  }

  /** n blocks of `tam` bytes: the product, unfolded one block at a time. */
  function Largo(n: nat, tam: nat): (r: nat) {
    if n == 0 then 0 else Largo(n - 1, tam) + tam
  }

  lemma {:induction false} LargoProducto(n: nat, tam: nat)
    ensures Largo(n, tam) == n * tam
    decreases n
  {
    if n > 0 {
      LargoProducto(n - 1, tam);
      assert n * tam == (n - 1) * tam + tam;
    }
  }

  lemma {:induction false} LargoMonotono(a: nat, b: nat, tam: nat)
    requires a <= b
    ensures Largo(a, tam) <= Largo(b, tam)
    decreases b
  {
    if a < b {
      LargoMonotono(a, b - 1, tam);
    }
  }

  /** The blocks hold the segment with less than one block of padding, and an empty
      segment takes none. */
  lemma {:induction false} TechoExacto(limite: nat, tam: int)
    requires tam > 0
    ensures limite <= Largo(Techo(limite, tam), tam) < limite + tam
    ensures Techo(limite, tam) <= limite
  {
    var n := Techo(limite, tam);
    LargoProducto(n, tam);
    assert limite + tam - 1 == n * tam + (limite + tam - 1) % tam;
    if limite < n {
      Producto(limite + 1, n, tam);
      assert (limite + 1) * tam == limite * tam + tam;
      Producto(1, tam, limite);
    }
  }

  lemma {:induction false} Producto(a: int, b: int, m: int)
    requires a <= b && 0 <= m
    ensures a * m <= b * m && m * a <= m * b
  {
  }

  // ---------------------------------------------------------------- block ownership

  /** The blocks marked used, each once. */
  ghost function Marcados(u: seq<bool>): (m: multiset<int>)
    ensures forall b {:trigger Punto(b)} :: Punto(b) ==> m[b] == if 0 <= b < |u| && u[b] then 1 else 0
  {
    var w := multiset(set b | 0 <= b < |u| && u[b]);
    assert forall b {:trigger Punto(b)} :: Punto(b) ==> w[b] == if 0 <= b < |u| && u[b] then 1 else 0;
    var m: multiset<int> :|
      forall b {:trigger Punto(b)} :: Punto(b) ==> m[b] == if 0 <= b < |u| && u[b] then 1 else 0;
    m
  }

  ghost function BloquesDeSegs(l: seq<SegmentoSwap>): multiset<int> {
    if |l| == 0 then multiset{} else BloquesDeSegs(l[..|l| - 1]) + Elementos(l[|l| - 1].bloques)
  }

  /** Every (process, segment, index) entry contributes the block it names. */
  ghost function BloquesDe(ps: seq<ProcesoSwap>): multiset<int> {
    if |ps| == 0 then multiset{} else BloquesDe(ps[..|ps| - 1]) + BloquesDeSegs(ps[|ps| - 1].v)
  }

  /** Swap ownership: a block is marked used if and only if exactly one entry owns it. */
  ghost predicate Pertenencia(ps: seq<ProcesoSwap>, u: seq<bool>) {
    forall z {:trigger Desplegar(z)} :: Desplegar(z) ==> Marcados(u) == BloquesDe(ps)
  }

  function Libres(u: seq<bool>): nat {
    if |u| == 0 then 0 else Libres(u[..|u| - 1]) + if u[|u| - 1] then 0 else 1
  }

  lemma {:induction false} LibresCardinal(u: seq<bool>)
    ensures Libres(u) + |Marcados(u)| == |u|
    decreases |u|
  {
    var n := |u|;
    if n > 0 {
      LibresCardinal(u[..n - 1]);
      IgualesPunto(Marcados(u), Marcados(u[..n - 1]) + if u[n - 1] then Solo(n - 1) else multiset{});
    } else {
      IgualesPunto(Marcados(u), multiset{});
    }
  }

  lemma {:induction false} NingunoMarcado(u: seq<bool>)
    requires forall b :: 0 <= b < |u| ==> !u[b]
    ensures Marcados(u) == multiset{} && Libres(u) == |u|
  {
    IgualesPunto(Marcados(u), multiset{});
    LibresCardinal(u);
  }

  lemma {:induction false} TodosUsados(u: seq<bool>)
    requires forall b :: 0 <= b < |u| ==> u[b]
    ensures Libres(u) == 0
    decreases |u|
  {
    if |u| > 0 {
      TodosUsados(u[..|u| - 1]);
    }
  }

  lemma {:induction false} Marcar(u: seq<bool>, b: nat)
    requires b < |u| && !u[b]
    ensures Marcados(u[b := true]) == Marcados(u) + Solo(b)
    ensures Libres(u[b := true]) + 1 == Libres(u)
  {
    IgualesPunto(Marcados(u[b := true]), Marcados(u) + Solo(b));
    LibresCardinal(u);
    LibresCardinal(u[b := true]);
  }

  lemma {:induction false} DesmarcarUno(u: seq<bool>, b: nat)
    requires b < |u| && u[b]
    ensures Marcados(u) == Marcados(u[b := false]) + Solo(b)
  {
    IgualesPunto(Marcados(u), Marcados(u[b := false]) + Solo(b));
  }

  /** While releasing `bs` from left to right, the next block is still marked. */
  lemma {:induction false} SigueMarcado(m: multiset<int>, resto: multiset<int>, bs: seq<int>, k: nat)
    requires k < |bs| && m + Elementos(bs[..k]) == resto + Elementos(bs)
    ensures m[bs[k]] >= 1
  {
    var x := bs[k];
    assert Punto(x);
    ElementosHasta(bs, k);
    ElementosPrefijo(bs, k + 1, x);
    assert (m + Elementos(bs[..k]))[x] == (resto + Elementos(bs))[x];
    assert Elementos(bs[..k + 1])[x] == (Elementos(bs[..k]) + Solo(x))[x];
  }

  lemma {:induction false} PasoSoltar(m: multiset<int>, m': multiset<int>, bs: seq<int>, k: nat)
    requires k < |bs| && m == m' + Solo(bs[k])
    ensures m + Elementos(bs[..k]) == m' + Elementos(bs[..k + 1])
  {
    ElementosHasta(bs, k);
    Reordenar(m', Solo(bs[k]), Elementos(bs[..k]));
    Asociar(m', Elementos(bs[..k]), Solo(bs[k]));
  }

  /** Taking blocks never unmarks one. */
  lemma {:induction false} SigueUsado(u: seq<bool>, v: seq<bool>, bs: seq<int>)
    requires |u| == |v| && Marcados(v) == Marcados(u) + Elementos(bs)
    ensures forall b :: 0 <= b < |u| && u[b] ==> v[b]
  {
    forall b | 0 <= b < |u| && u[b] ensures v[b] {
      assert Punto(b);
      assert Marcados(v)[b] == Marcados(u)[b] + Elementos(bs)[b];
    }
  }

  lemma {:induction false} MarcadosInyectiva(u: seq<bool>, v: seq<bool>)
    requires |u| == |v| && Marcados(u) == Marcados(v)
    ensures u == v
  {
    forall b | 0 <= b < |u| ensures u[b] == v[b] {
      assert Punto(b);
      assert Marcados(u)[b] == Marcados(v)[b];
    }
  }

  lemma {:induction false} ProcesosConcat(a: seq<ProcesoSwap>, b: seq<ProcesoSwap>)
    ensures BloquesDe(a + b) == BloquesDe(a) + BloquesDe(b)
    decreases |b|
  {
    if |b| == 0 {
      assert a + b == a;
    } else {
      ProcesosConcat(a, b[..|b| - 1]);
      assert (a + b)[..|a + b| - 1] == a + b[..|b| - 1];
      Asociar(BloquesDe(a), BloquesDe(b[..|b| - 1]), BloquesDeSegs(b[|b| - 1].v));
    }
  }

  lemma {:induction false} ProcesosAgregar(ps: seq<ProcesoSwap>, p: ProcesoSwap)
    ensures BloquesDe(ps + [p]) == BloquesDe(ps) + BloquesDeSegs(p.v)
  {
    assert (ps + [p])[..|ps|] == ps;
  }

  lemma {:induction false} ProcesosSeparar(ps: seq<ProcesoSwap>, i: nat)
    requires i < |ps|
    ensures BloquesDe(ps) == BloquesDe(Sacar(ps, i)) + BloquesDeSegs(ps[i].v)
  {
    PartirEn(ps, i);
    ProcesosHasta(ps, i);
    ProcesosConcat(ps[..i + 1], ps[i + 1..]);
    ProcesosConcat(ps[..i], ps[i + 1..]);
    Reordenar(BloquesDe(ps[..i]), BloquesDeSegs(ps[i].v), BloquesDe(ps[i + 1..]));
  }

  lemma {:induction false} ProcesosHasta(ps: seq<ProcesoSwap>, i: nat)
    requires i < |ps|
    ensures BloquesDe(ps[..i + 1]) == BloquesDe(ps[..i]) + BloquesDeSegs(ps[i].v)
  {
    SinUltimo(ps, i);
  }

  lemma {:induction false} SegsAgregar(l: seq<SegmentoSwap>, s: SegmentoSwap)
    ensures BloquesDeSegs(l + [s]) == BloquesDeSegs(l) + Elementos(s.bloques)
  {
    assert (l + [s])[..|l|] == l;
  }

  lemma {:induction false} SegsConcat(a: seq<SegmentoSwap>, b: seq<SegmentoSwap>)
    ensures BloquesDeSegs(a + b) == BloquesDeSegs(a) + BloquesDeSegs(b)
    decreases |b|
  {
    if |b| == 0 {
      assert a + b == a;
    } else {
      SegsConcat(a, b[..|b| - 1]);
      assert (a + b)[..|a + b| - 1] == a + b[..|b| - 1];
      Asociar(BloquesDeSegs(a), BloquesDeSegs(b[..|b| - 1]), Elementos(b[|b| - 1].bloques));
    }
  }

  /** The blocks of segment `k` and of the segments after it. */
  lemma {:induction false} SegsDesde(l: seq<SegmentoSwap>, k: nat)
    requires k < |l|
    ensures BloquesDeSegs(l[k..]) == BloquesDeSegs(l[k + 1..]) + Elementos(l[k].bloques)
  {
    assert l[k..] == [l[k]] + l[k + 1..];
    SegsConcat([l[k]], l[k + 1..]);
    SegsAgregar([], l[k]);
    assert [] + [l[k]] == [l[k]];
    Conmutar(Elementos(l[k].bloques), BloquesDeSegs(l[k + 1..]));
  }

  /** Every block named by these segments is marked. */
  lemma {:induction false} SegsMarcados(l: seq<SegmentoSwap>, u: seq<bool>, resto: multiset<int>, j: nat, k: nat)
    requires Marcados(u) == resto + BloquesDeSegs(l)
    requires j < |l| && k < |l[j].bloques|
    ensures 0 <= l[j].bloques[k] < |u| && u[l[j].bloques[k]]
  {
    var b := l[j].bloques[k];
    assert Punto(b);
    SegsContienen(l, j, b);
    ElementosPrefijo(l[j].bloques, k + 1, b);
    ElementosHasta(l[j].bloques, k);
    assert (Elementos(l[j].bloques[..k]) + Solo(b))[b] >= 1;
    assert (resto + BloquesDeSegs(l))[b] >= BloquesDeSegs(l)[b];
  }

  lemma {:induction false} SegsContienen(l: seq<SegmentoSwap>, j: nat, b: int)
    requires j < |l|
    ensures Elementos(l[j].bloques)[b] <= BloquesDeSegs(l)[b]
    decreases |l|
  {
    if j < |l| - 1 {
      SegsContienen(l[..|l| - 1], j, b);
    }
  }

  // ---------------------------------------------------------------- contents

  /** The concatenation of the blocks named by `bs`. */
  ghost function Junta(bs: seq<int>, dev: seq<seq<byte>>): seq<byte> {
    if |bs| == 0 then []
    else
      var b := bs[|bs| - 1];
      Junta(bs[..|bs| - 1], dev) + if 0 <= b < |dev| then dev[b] else []
  }

  /** A swapped segment's bytes: its blocks, with the padding of the last one dropped. */
  ghost function BytesSwap(s: SegmentoSwap, dev: seq<seq<byte>>): seq<byte> {
    if s.limite <= |Junta(s.bloques, dev)| then Junta(s.bloques, dev)[..s.limite] else []
  }

  lemma {:induction false} JuntaAgregar(bs: seq<int>, b: int, dev: seq<seq<byte>>)
    requires 0 <= b < |dev|
    ensures Junta(bs + [b], dev) == Junta(bs, dev) + dev[b]
  {
    assert (bs + [b])[..|bs|] == bs;
  }

  lemma {:induction false} JuntaEstable(bs: seq<int>, dev: seq<seq<byte>>, dev': seq<seq<byte>>)
    requires |dev| == |dev'|
    requires forall k :: 0 <= k < |bs| && 0 <= bs[k] < |dev| ==> dev'[bs[k]] == dev[bs[k]]
    ensures Junta(bs, dev') == Junta(bs, dev)
    decreases |bs|
  {
    if |bs| > 0 {
      JuntaEstable(bs[..|bs| - 1], dev, dev');
    }
  }

  /** One more block copied: the blocks taken so far hold the buffer read so far. */
  lemma {:induction false} JuntaCrece(previo: seq<int>, b: int, dev: seq<seq<byte>>, dev': seq<seq<byte>>,
                   buffer: seq<byte>, n: nat, tam: nat)
    requires |dev| == |dev'| && 0 <= b < |dev|
    requires forall c :: 0 <= c < |dev| && c != b ==> dev'[c] == dev[c]
    requires b !in previo && n == |previo|
    requires Copiado(previo, dev, buffer, tam) && Largo(n + 1, tam) <= |buffer|
    requires dev'[b] == buffer[Largo(n, tam)..Largo(n + 1, tam)]
    ensures Copiado(previo + [b], dev', buffer, tam)
  {
    JuntaEstable(previo, dev, dev');
    JuntaAgregar(previo, b, dev');
    TramoSeguido(buffer, 0, Largo(n, tam), Largo(n + 1, tam));
  }

  /** The first `n` blocks of the buffer are in the blocks taken so far. */
  ghost predicate Copiado(asignados: seq<int>, dev: seq<seq<byte>>, buffer: seq<byte>, tam: nat) {
    Largo(|asignados|, tam) <= |buffer| && Junta(asignados, dev) == buffer[..Largo(|asignados|, tam)]
  }

  /** First-fit scan state: everything before `b` is used, exactly the blocks in `asignados`
      were added to the bitmap, and no block that was already in use has been rewritten. */
  ghost predicate Reserva(u0: seq<bool>, dev0: seq<seq<byte>>, u: seq<bool>, dev: seq<seq<byte>>,
                          b: nat, asignados: seq<int>)
  {
    && |u| == |u0| == |dev| == |dev0| && b <= |u|
    && (forall c :: 0 <= c < b ==> u[c])
    && Marcados(u) == Marcados(u0) + Elementos(asignados)
    && Libres(u) + |asignados| == Libres(u0)
    && (forall k :: 0 <= k < |asignados| ==> 0 <= asignados[k] < b)
    && Recorrido(u0, u, b, asignados)
    && (forall c :: 0 <= c < |u0| && u0[c] ==> u[c] && dev[c] == dev0[c])
  }

  /** First fit: free blocks in increasing order, and every free block not taken comes after them. */
  ghost predicate PrimerosLibres(u0: seq<bool>, asignados: seq<int>) {
    && (forall k :: 0 <= k < |asignados| ==> 0 <= asignados[k] < |u0| && !u0[asignados[k]])
    && (forall j, k :: 0 <= j < k < |asignados| ==> asignados[j] < asignados[k])
    && forall c, k :: 0 <= c < |u0| && !u0[c] && c !in asignados && 0 <= k < |asignados| ==> asignados[k] < c
  }

  ghost predicate RecorridoAbierto(u0: seq<bool>, u: seq<bool>, b: nat, asignados: seq<int>) {
    && b <= |u| == |u0|
    && (forall k :: 0 <= k < |asignados| ==> 0 <= asignados[k] < b && !u0[asignados[k]])
    && (forall j, k :: 0 <= j < k < |asignados| ==> asignados[j] < asignados[k])
    && (forall c :: 0 <= c < b ==> u0[c] || c in asignados)
    && (forall c :: b <= c < |u| ==> u[c] == u0[c])
  }

  /** The scan so far took every free block it met; folded. */
  ghost function Recorrido(u0: seq<bool>, u: seq<bool>, b: nat, asignados: seq<int>): (r: bool)
    ensures forall z {:trigger Desplegar(z)} :: Desplegar(z) ==> r == RecorridoAbierto(u0, u, b, asignados)
  {
    var r: bool :| forall z {:trigger Desplegar(z)} :: Desplegar(z) ==> r == RecorridoAbierto(u0, u, b, asignados);
    r
  }

  lemma {:induction false} RecorridoInicio(u0: seq<bool>)
    ensures Recorrido(u0, u0, 0, [])
  {
    assert Desplegar(0);
  }

  lemma {:induction false} RecorridoSigue(u0: seq<bool>, u: seq<bool>, b: nat, asignados: seq<int>)
    requires Recorrido(u0, u, b, asignados) && b < |u|
    ensures u[b] ==> Recorrido(u0, u, b + 1, asignados)
    ensures !u[b] ==> Recorrido(u0, u[b := true], b + 1, asignados + [b])
  {
    assert Desplegar(0);
    assert b in asignados + [b];
  }

  lemma {:induction false} RecorridoFin(u0: seq<bool>, u: seq<bool>, b: nat, asignados: seq<int>)
    requires Recorrido(u0, u, b, asignados)
    ensures PrimerosLibres(u0, asignados)
  {
    assert Desplegar(0);
  }

  lemma {:induction false} ReservaTomar(u0: seq<bool>, dev0: seq<seq<byte>>, u: seq<bool>, dev: seq<seq<byte>>, dev': seq<seq<byte>>,
                     b: nat, asignados: seq<int>)
    requires Reserva(u0, dev0, u, dev, b, asignados) && b < |u| && !u[b]
    requires |dev'| == |dev| && forall c :: 0 <= c < |dev| && c != b ==> dev'[c] == dev[c]
    ensures Reserva(u0, dev0, u[b := true], dev', b + 1, asignados + [b])
  {
    Marcar(u, b);
    RecorridoSigue(u0, u, b, asignados);
    ElementosMasUno(asignados, b);
    Asociar(Marcados(u0), Elementos(asignados), Solo(b));
  }

  lemma {:induction false} JuntaPrefijo(bs: seq<int>, k: nat, dev: seq<seq<byte>>)
    requires k < |bs| && 0 <= bs[k] < |dev|
    ensures Junta(bs[..k + 1], dev) == Junta(bs[..k], dev) + dev[bs[k]]
  {
    assert bs[..k + 1] == bs[..k] + [bs[k]];
    JuntaAgregar(bs[..k], bs[k], dev);
  }

  /** What the copy of `limite` bytes computes fits: the rounded-up length in a uint32_t and
      the offset of the last block in an int. */
  ghost predicate Contable(limite: nat, tam: int) {
    tam > 0 && limite + tam <= LIMITE_32 && (Techo(limite, tam) > 0 ==> Largo(Techo(limite, tam) - 1, tam) < 0x8000_0000)
  }

  lemma {:induction false} ContableHasta2G(limite: nat, tam: int32)
    requires tam > 0 && limite <= 0x8000_0000
    ensures Contable(limite, tam)
  {
    TechoExacto(limite, tam);
  }

  ghost predicate SegValido(s: SegmentoSwap, tam: int) {
    Contable(s.limite, tam) && |s.bloques| == Techo(s.limite, tam)
  }

  ghost predicate SegsValidos(l: seq<SegmentoSwap>, tam: int) {
    forall k :: 0 <= k < |l| ==> SegValido(l[k], tam)
  }

  /** The blocks of every segment hold all of its bytes. */
  ghost predicate Enteros(l: seq<SegmentoSwap>, dev: seq<seq<byte>>) {
    forall k :: 0 <= k < |l| ==> |BytesSwap(l[k], dev)| == l[k].limite
  }

  lemma {:induction false} JuntaLargo(bs: seq<int>, dev: seq<seq<byte>>, tam: nat)
    requires forall k :: 0 <= k < |bs| ==> 0 <= bs[k] < |dev| && |dev[bs[k]]| == tam
    ensures |Junta(bs, dev)| == Largo(|bs|, tam)
    decreases |bs|
  {
    if |bs| > 0 {
      JuntaLargo(bs[..|bs| - 1], dev, tam);
    }
  }

  lemma {:induction false} SegsEnteros(l: seq<SegmentoSwap>, u: seq<bool>, resto: multiset<int>, dev: seq<seq<byte>>, tam: nat)
    requires Marcados(u) == resto + BloquesDeSegs(l) && |dev| == |u| && SegsValidos(l, tam)
    requires forall b :: 0 <= b < |dev| ==> |dev[b]| == tam
    ensures Enteros(l, dev)
  {
    forall j | 0 <= j < |l| ensures |BytesSwap(l[j], dev)| == l[j].limite {
      forall k | 0 <= k < |l[j].bloques| ensures 0 <= l[j].bloques[k] < |dev| {
        SegsMarcados(l, u, resto, j, k);
      }
      JuntaLargo(l[j].bloques, dev, tam);
      TechoExacto(l[j].limite, tam);
    }
  }

  function Ceros(n: nat): (z: seq<byte>)
    ensures |z| == n && forall k :: 0 <= k < n ==> z[k] == 0
  {
    seq(n, _ => 0)
  }

  class AreaSwap {
    var conectado: bool
    var tamBloque: int32
    var usados: array<bool>
    var bloques: seq<seq<byte>>
    var suspendidos: seq<ProcesoSwap>

    ghost predicate ValidoBase()
      reads this
    {
      && |bloques| == usados.Length
      && tamBloque >= 0
      && (conectado ==> tamBloque > 0)
      && forall b :: 0 <= b < |bloques| ==> |bloques[b]| == tamBloque
    }

    ghost predicate Valid()
      reads this, usados
    {
      && ValidoBase()
      && Unicos(suspendidos)
      && (forall i :: 0 <= i < |suspendidos| ==> SegsValidos(suspendidos[i].v, tamBloque))
      && Pertenencia(suspendidos, usados[..])
    }

    constructor ()
      ensures Valid() && !conectado && suspendidos == [] && fresh(usados)
    {
      conectado, tamBloque, bloques, suspendidos := false, 0, [], [];
      usados := new bool[0];
      new;
      NingunoMarcado(usados[..]);
    }

    /** SWAP connects and announces its geometry.  A block size that is not positive would
        make every later suspension divide by it. */
    method Registrar(blockSize: int32, swapSize: int32, contenido: seq<seq<byte>>)
      requires Valid() && suspendidos == []
      requires blockSize > 0 && swapSize >= 0
      requires |contenido| == swapSize / blockSize
      requires forall b :: 0 <= b < |contenido| ==> |contenido[b]| == blockSize
      modifies this
      ensures Valid() && conectado && tamBloque == blockSize && fresh(usados)
      ensures suspendidos == [] && bloques == contenido
      ensures Libres(usados[..]) == swapSize / blockSize
    {
      conectado := true;
      tamBloque := blockSize;
      usados := new bool[swapSize / blockSize](_ => false);
      bloques := contenido;
      NingunoMarcado(usados[..]);
    }

    method Desregistrar()
      requires Valid()
      modifies this`conectado
      ensures Valid() && !conectado
    {
      conectado := false;
    }

    method BloquesLibres() returns (libres: nat)
      ensures libres == Libres(usados[..])
    {
      libres := 0;
      for i := 0 to usados.Length
        invariant libres == Libres(usados[..i])
      {
        assert usados[..i + 1][..i] == usados[..i];
        if !usados[i] {
          libres := libres + 1;
        }
      }
      assert usados[..usados.Length] == usados[..];
    }

    /** The remote module's answer; false stands for a refused or lost request.  `sano` is the
        environment's promise that every request of the present call is answered. */
    method Responder(sano: bool) returns (ok: bool)
      ensures sano ==> ok
    {
      ok := *;
      ok := ok || sano;
    }

    /** Unless confirmed, the block may hold anything afterwards; no other block changes. */
    method EscribirBloque(nro: nat, contenido: seq<byte>, sano: bool) returns (ok: bool)
      requires ValidoBase() && nro < |bloques| && |contenido| == tamBloque
      modifies this`bloques
      ensures ValidoBase()
      ensures |bloques| == |old(bloques)|
      ensures forall b :: 0 <= b < |bloques| && b != nro ==> bloques[b] == old(bloques[b])
      ensures ok ==> bloques[nro] == contenido
      ensures sano ==> ok
    {
      ok := Responder(sano);
      var llega := contenido;
      if !ok {
        llega :| |llega| == |contenido|;
      }
      bloques := bloques[nro := llega];
    }

    /** Unless confirmed, the buffer keeps an unknown content. */
    method LeerBloque(nro: nat, sano: bool) returns (ok: bool, contenido: seq<byte>)
      requires ValidoBase() && nro < |bloques|
      ensures |contenido| == tamBloque
      ensures ok ==> contenido == bloques[nro]
      ensures sano ==> ok
    {
      ok := Responder(sano);
      contenido := bloques[nro];
      if !ok {
        contenido :| |contenido| == tamBloque;
      }
    }

    /** Gives back the blocks in `bs`; what else is marked is `resto`. */
    method Desmarcar(bs: seq<int>, ghost resto: multiset<int>)
      requires Marcados(usados[..]) == resto + Elementos(bs)
      modifies usados
      ensures Marcados(usados[..]) == resto
    {
      for k := 0 to |bs|
        invariant Marcados(usados[..]) + Elementos(bs[..k]) == resto + Elementos(bs)
      {
        SigueMarcado(Marcados(usados[..]), resto, bs, k);
        ghost var m := Marcados(usados[..]);
        DesmarcarBloque(bs[k]);
        PasoSoltar(m, Marcados(usados[..]), bs, k);
      }
      assert bs[..|bs|] == bs;
      Cancelar(Marcados(usados[..]), resto, Elementos(bs));
    }

    method DesmarcarBloque(b: int)
      requires Marcados(usados[..])[b] >= 1
      modifies usados
      ensures old(Marcados(usados[..])) == Marcados(usados[..]) + Solo(b)
    {
      assert Punto(b);
      DesmarcarUno(usados[..], b);
      ghost var u := usados[..];
      usados[b] := false;
      assert usados[..] == u[b := false];
    }

    /** Frees every block of the given segments (rollback, finalization). */
    method LiberarBloques(segs: seq<SegmentoSwap>, ghost resto: multiset<int>)
      requires Marcados(usados[..]) == resto + BloquesDeSegs(segs)
      modifies usados
      ensures Marcados(usados[..]) == resto
    {
      assert segs[0..] == segs;
      for i := 0 to |segs|
        invariant Marcados(usados[..]) == resto + BloquesDeSegs(segs[i..])
      {
        SegsDesde(segs, i);
        Asociar(resto, BloquesDeSegs(segs[i + 1..]), Elementos(segs[i].bloques));
        Desmarcar(segs[i].bloques, resto + BloquesDeSegs(segs[i + 1..]));
      }
    }

    /** Marks block `b` and sends one block of data to it. */
    method TomarBloque(b: nat, parte: seq<byte>, sano: bool) returns (ok: bool)
      requires ValidoBase() && b < usados.Length && !usados[b] && |parte| == tamBloque
      modifies this`bloques, usados
      ensures ValidoBase() && |bloques| == |old(bloques)|
      ensures usados[..] == old(usados[..])[b := true]
      ensures Marcados(usados[..]) == old(Marcados(usados[..])) + Solo(b)
      ensures Libres(usados[..]) + 1 == old(Libres(usados[..]))
      ensures forall c :: 0 <= c < |bloques| && c != b ==> bloques[c] == old(bloques[c])
      ensures ok ==> bloques[b] == parte
      ensures sano ==> ok
    {
      Marcar(usados[..], b);
      ghost var u := usados[..];
      usados[b] := true;
      assert usados[..] == u[b := true];
      ok := EscribirBloque(b, parte, sano);
    }

    /**
      Copies one segment to swap, first fit, last block padded with zeros.  The scan never
      runs out of blocks when the caller counted them beforehand.  If a block is refused,
      every block taken here is given back.
    */
    method GuardarSegmento(id: int, datos: seq<byte>, sano: bool) returns (ok: bool, ss: SegmentoSwap)
      requires ValidoBase() && Contable(|datos|, tamBloque)
      requires Techo(|datos|, tamBloque) <= Libres(usados[..])
      modifies this`bloques, usados
      ensures ValidoBase()
      ensures sano ==> ok
      ensures ok ==> ss.id == id && ss.limite == |datos| && SegValido(ss, tamBloque)
      ensures ok ==> PrimerosLibres(old(usados[..]), ss.bloques)
      ensures ok ==> Marcados(usados[..]) == old(Marcados(usados[..])) + Elementos(ss.bloques)
      ensures ok ==> Libres(usados[..]) + |ss.bloques| == old(Libres(usados[..]))
      ensures ok ==> BytesSwap(ss, bloques) == datos
      ensures !ok ==> usados[..] == old(usados[..])
      ensures |bloques| == |old(bloques)|
      ensures forall b :: 0 <= b < |bloques| && old(usados[b]) ==> bloques[b] == old(bloques[b])
    {
      var suma: uint32 := |datos| + (tamBloque - 1);
      var cantidad := suma / tamBloque;
      TechoExacto(|datos|, tamBloque);
      var buffer := datos + Ceros(Largo(cantidad, tamBloque) - |datos|);
      var asignados;
      ok, asignados := CopiarBuffer(buffer, cantidad, sano);
      ss := SegmentoSwap(id, |datos|, asignados);
      if ok {
        assert buffer[..|buffer|] == buffer;
      }
    }

    /** The first-fit scan: one pass over the bitmap, one block of the buffer per free block. */
    method CopiarBuffer(buffer: seq<byte>, cantidad: nat, sano: bool) returns (ok: bool, asignados: seq<int>)
      requires ValidoBase() && tamBloque > 0
      requires |buffer| == Largo(cantidad, tamBloque) && cantidad <= Libres(usados[..])
      requires cantidad > 0 ==> Largo(cantidad - 1, tamBloque) < 0x8000_0000
      modifies this`bloques, usados
      ensures ValidoBase() && |bloques| == |old(bloques)|
      ensures sano ==> ok
      ensures !ok ==> usados[..] == old(usados[..])
      ensures ok ==> |asignados| == cantidad && Copiado(asignados, bloques, buffer, tamBloque)
      ensures ok ==> PrimerosLibres(old(usados[..]), asignados)
      ensures ok ==> Marcados(usados[..]) == old(Marcados(usados[..])) + Elementos(asignados)
      ensures ok ==> Libres(usados[..]) + |asignados| == old(Libres(usados[..]))
      ensures forall b :: 0 <= b < |bloques| && old(usados[b]) ==> bloques[b] == old(bloques[b])
    {
      ghost var u0, dev0 := usados[..], bloques;
      var b := 0;
      ok, asignados := true, [];
      RecorridoInicio(u0);
      while b < usados.Length && |asignados| < cantidad
        invariant ok && ValidoBase() && 0 <= b <= usados.Length && |asignados| <= cantidad
        invariant Reserva(u0, dev0, usados[..], bloques, b, asignados)
        invariant Copiado(asignados, bloques, buffer, tamBloque)
        decreases usados.Length - b
      {
        if !usados[b] {
          ok := CopiarBloque(b, buffer, cantidad, asignados, sano, u0, dev0);
          asignados := asignados + [b];
          if !ok {
            return;
          }
        } else {
          RecorridoSigue(u0, usados[..], b, asignados);
        }
        b := b + 1;
      }
      RecorridoFin(u0, usados[..], b, asignados);
      if |asignados| < cantidad {
        TodosUsados(usados[..]);
        assert false;
      }
    }

    /** The next block of the buffer goes to block `b`; when it is refused all are given back. */
    method CopiarBloque(b: nat, buffer: seq<byte>, cantidad: nat, asignados: seq<int>, sano: bool, ghost u0: seq<bool>, ghost dev0: seq<seq<byte>>)
      returns (ok: bool)
      requires ValidoBase() && tamBloque > 0 && b < usados.Length && !usados[b] && |asignados| < cantidad
      requires |buffer| == Largo(cantidad, tamBloque) && Largo(cantidad - 1, tamBloque) < 0x8000_0000
      requires Reserva(u0, dev0, usados[..], bloques, b, asignados) && Copiado(asignados, bloques, buffer, tamBloque)
      modifies this`bloques, usados
      ensures ValidoBase()
      ensures sano ==> ok
      ensures ok ==> Reserva(u0, dev0, usados[..], bloques, b + 1, asignados + [b]) && Copiado(asignados + [b], bloques, buffer, tamBloque)
      ensures !ok ==> usados[..] == u0
      ensures |bloques| == |dev0| && forall c :: 0 <= c < |u0| && u0[c] ==> bloques[c] == dev0[c]
    {
      var n := |asignados|;
      LargoMonotono(n + 1, cantidad, tamBloque);
      LargoMonotono(n, cantidad - 1, tamBloque);
      var desde: int32 := Largo(n, tamBloque);
      ghost var u, dev := usados[..], bloques;
      ok := TomarBloque(b, buffer[desde..desde + tamBloque], sano);
      ReservaTomar(u0, dev0, u, dev, bloques, b, asignados);
      if ok {
        JuntaCrece(asignados, b, dev, bloques, buffer, n, tamBloque);
      } else {
        DeshacerReserva(u0, dev0, b + 1, asignados + [b]);
      }
    }

    /** Gives back the blocks taken by a copy that failed: the bitmap is as before it. */
    method DeshacerReserva(ghost u0: seq<bool>, ghost dev0: seq<seq<byte>>, ghost b: nat, asignados: seq<int>)
      requires Reserva(u0, dev0, usados[..], bloques, b, asignados)
      modifies usados
      ensures usados[..] == u0
    {
      Desmarcar(asignados, Marcados(u0));
      MarcadosInyectiva(usados[..], u0);
    }

    /** Reads a swapped segment back and releases its blocks, whether or not a read failed. */
    method RecuperarSegmento(ss: SegmentoSwap, sano: bool, ghost resto: multiset<int>) returns (buffer: seq<byte>)
      requires ValidoBase() && Marcados(usados[..]) == resto + Elementos(ss.bloques) && SegValido(ss, tamBloque)
      modifies usados
      ensures Marcados(usados[..]) == resto
      ensures |buffer| == Largo(|ss.bloques|, tamBloque)
      ensures sano ==> buffer == Junta(ss.bloques, bloques)
    {
      buffer := [];
      for k := 0 to |ss.bloques|
        invariant Marcados(usados[..]) + Elementos(ss.bloques[..k]) == resto + Elementos(ss.bloques)
        invariant Recuperado(buffer, sano, ss.bloques, k, bloques, tamBloque)
      {
        SigueMarcado(Marcados(usados[..]), resto, ss.bloques, k);
        ghost var m := Marcados(usados[..]);
        LargoMonotono(k, |ss.bloques| - 1, tamBloque);
        var desde: int32 := |buffer|;
        var parte := LeerYSoltar(ss.bloques[k], sano);
        PasoSoltar(m, Marcados(usados[..]), ss.bloques, k);
        assert buffer[..desde] == buffer;
        RecuperarPaso(buffer, sano, ss.bloques, k, bloques, tamBloque, parte);
        buffer := buffer[..desde] + parte;
      }
      assert ss.bloques[..|ss.bloques|] == ss.bloques;
      Cancelar(Marcados(usados[..]), resto, Elementos(ss.bloques));
    }

    method LeerYSoltar(nro: int, sano: bool) returns (parte: seq<byte>)
      requires ValidoBase() && Marcados(usados[..])[nro] >= 1
      modifies usados
      ensures 0 <= nro < |bloques| && |parte| == tamBloque && (sano ==> parte == bloques[nro])
      ensures old(Marcados(usados[..])) == Marcados(usados[..]) + Solo(nro)
    {
      assert Punto(nro);
      var _, leido := LeerBloque(nro, sano);
      parte := leido;
      DesmarcarBloque(nro);
    }
  }

  /** State of a read of `bs` after `k` blocks; `sano` says that every read is answered. */
  ghost predicate Recuperado(buffer: seq<byte>, sano: bool, bs: seq<int>, k: nat, dev: seq<seq<byte>>, tam: nat)
    requires k <= |bs|
  {
    |buffer| == Largo(k, tam) && (sano ==> buffer == Junta(bs[..k], dev))
  }

  lemma {:induction false} RecuperarPaso(buffer: seq<byte>, sano: bool, bs: seq<int>, k: nat, dev: seq<seq<byte>>, tam: nat,
                                         parte: seq<byte>)
    requires k < |bs| && 0 <= bs[k] < |dev| && |parte| == tam && (sano ==> parte == dev[bs[k]])
    requires Recuperado(buffer, sano, bs, k, dev, tam)
    ensures Recuperado(buffer + parte, sano, bs, k + 1, dev, tam)
  {
    JuntaPrefijo(bs, k, dev);
  }
}
