/** The hole list (`huecos.c`): unordered, never coalesced, holes and requests may be empty. */
module Huecos {
  import opened Tipos
  import opened Rangos

  /** The merge in `huecos_extender` adds two uint32 fields; the sum must be one. */
  predicate Acotados(hs: seq<Hueco>) {
    forall i :: 0 <= i < |hs| ==> hs[i].base + hs[i].tamanio < LIMITE_32
  }

  /** The list after a new stick: the last hole grows when it ends where the stick begins. */
  function Extendida(hs: seq<Hueco>, base: uint32, bytes: uint32): (r: seq<Hueco>)
    requires base + bytes < LIMITE_32
  {
    if |hs| > 0 && hs[|hs| - 1].base + hs[|hs| - 1].tamanio == base
    then hs[..|hs| - 1] + [Hueco(hs[|hs| - 1].base, hs[|hs| - 1].tamanio + bytes)]
    else hs + [Hueco(base, bytes)]
  }

  /** The list after taking the first `tam` bytes of hole `i`. */
  function Ocupada(hs: seq<Hueco>, i: nat, tam: uint32): (r: seq<Hueco>)
    requires i < |hs| && tam <= hs[i].tamanio
    requires hs[i].base + hs[i].tamanio < LIMITE_32
  {
    if hs[i].tamanio == tam then Sacar(hs, i)
    else hs[i := Hueco(hs[i].base + tam, hs[i].tamanio - tam)]
  }

  /** The list after a compaction: one hole at the end, or none. */
  function Reconstruida(baseLibre: uint32, total: uint32): seq<Hueco>
    requires baseLibre <= total
  {
    if baseLibre < total then [Hueco(baseLibre, total - baseLibre)] else []
  }

  lemma {:induction false} ReconstruirCubre(baseLibre: uint32, total: uint32)
    requires baseLibre <= total
    ensures Dirs(Reconstruida(baseLibre, total)) == Intervalo(baseLibre, total)
  {
    if baseLibre < total {
      DirsUno(Hueco(baseLibre, total - baseLibre));
    } else {
      IgualesPunto(Intervalo(baseLibre, total), multiset{});
    }
  }

  /** The new stick's addresses, and only those, become free. */
  lemma {:induction false} ExtenderAgrega(hs: seq<Hueco>, base: uint32, bytes: uint32)
    requires base + bytes < LIMITE_32
    ensures Dirs(Extendida(hs, base, bytes)) == Dirs(hs) + Intervalo(base, base + bytes)
  {
    if |hs| > 0 && hs[|hs| - 1].base + hs[|hs| - 1].tamanio == base {
      CrecerUltimo(hs, bytes);
    } else {
      LiberarAgrega(hs, Hueco(base, bytes));
    }
  }

  lemma {:induction false} CrecerUltimo(hs: seq<Hueco>, bytes: uint32)
    requires |hs| > 0
    requires hs[|hs| - 1].base + hs[|hs| - 1].tamanio + bytes < LIMITE_32
    ensures Dirs(hs[..|hs| - 1] + [Hueco(hs[|hs| - 1].base, hs[|hs| - 1].tamanio + bytes)])
         == Dirs(hs) + Intervalo(hs[|hs| - 1].base + hs[|hs| - 1].tamanio, hs[|hs| - 1].base + hs[|hs| - 1].tamanio + bytes)
  {
    var u, resto := hs[|hs| - 1], hs[..|hs| - 1];
    var fin := u.base + u.tamanio;
    LiberarAgrega(resto, Hueco(u.base, u.tamanio + bytes));
    PartirIntervalo(u.base, fin, fin + bytes);
    Asociar(Dirs(resto), Intervalo(u.base, fin), Intervalo(fin, fin + bytes));
  }

  /** Taking part of a hole splits its addresses: nothing is lost and nothing is free twice. */
  lemma {:induction false} OcuparSepara(hs: seq<Hueco>, i: nat, tam: uint32)
    requires i < |hs| && tam <= hs[i].tamanio
    requires hs[i].base + hs[i].tamanio < LIMITE_32
    ensures Dirs(hs) == Dirs(Ocupada(hs, i, tam)) + Intervalo(hs[i].base, hs[i].base + tam)
  {
    if hs[i].tamanio == tam {
      HuecosSeparar(hs, i);
    } else {
      AchicarHueco(hs, i, tam);
    }
  }

  lemma {:induction false} AchicarHueco(hs: seq<Hueco>, i: nat, tam: uint32)
    requires i < |hs| && tam <= hs[i].tamanio
    requires hs[i].base + hs[i].tamanio < LIMITE_32
    ensures Dirs(hs) == Dirs(hs[i := Hueco(hs[i].base + tam, hs[i].tamanio - tam)]) + Intervalo(hs[i].base, hs[i].base + tam)
  {
    var lo, mid, hi := hs[i].base, hs[i].base + tam, hs[i].base + hs[i].tamanio;
    var h := Hueco(mid, hs[i].tamanio - tam);
    CambiarHueco(hs, i, h);
    PartirIntervalo(lo, mid, hi);
    Dividir(Dirs(hs), Dirs(hs[i := h]), Intervalo(lo, hi), Intervalo(lo, mid), Intervalo(mid, hi));
  }

  lemma {:induction false} OcuparAcotados(hs: seq<Hueco>, i: nat, tam: uint32)
    requires i < |hs| && tam <= hs[i].tamanio && Acotados(hs)
    ensures Acotados(Ocupada(hs, i, tam))
  {
  }

  lemma {:induction false} CambiarHueco(hs: seq<Hueco>, i: nat, h: Hueco)
    requires i < |hs|
    ensures Dirs(hs[i := h]) + Intervalo(hs[i].base, hs[i].base + hs[i].tamanio)
         == Dirs(hs) + Intervalo(h.base, h.base + h.tamanio)
    decreases |hs|
  {
    var n := |hs| - 1;
    var z, z' := Intervalo(hs[i].base, hs[i].base + hs[i].tamanio), Intervalo(h.base, h.base + h.tamanio);
    var u := Intervalo(hs[n].base, hs[n].base + hs[n].tamanio);
    if i == n {
      assert hs[i := h][..n] == hs[..n];
      Reordenar(Dirs(hs[..n]), z', z);
    } else {
      CambiarHueco(hs[..n], i, h);
      assert hs[i := h][..n] == hs[..n][i := h];
      Intercambio(Dirs(hs[..n][i := h]), z, Dirs(hs[..n]), z', u);
    }
  }

  lemma {:induction false} LiberarAgrega(hs: seq<Hueco>, h: Hueco)
    ensures Dirs(hs + [h]) == Dirs(hs) + Intervalo(h.base, h.base + h.tamanio)
  {
    DirsConcat(hs, [h]);
    DirsUno(h);
  }

  lemma {:induction false} SumaPrefijo(hs: seq<Hueco>, i: nat)
    requires i <= |hs|
    ensures Suma(hs[..i]) <= Suma(hs)
    decreases |hs|
  {
    if i < |hs| {
      SumaPrefijo(hs[..|hs| - 1], i);
      assert hs[..|hs| - 1][..i] == hs[..i];
    } else {
      assert hs[..i] == hs;
    }
  }

  /** A single hole never exceeds the free total. */
  lemma {:induction false} SumaNoMenor(hs: seq<Hueco>, i: nat)
    requires i < |hs|
    ensures hs[i].tamanio <= Suma(hs)
    decreases |hs|
  {
    SumaPrefijo(hs, i + 1);
    assert hs[..i + 1][..i] == hs[..i];
  }

  lemma {:induction false} SumaReconstruida(baseLibre: uint32, total: uint32)
    requires baseLibre <= total
    ensures Suma(Reconstruida(baseLibre, total)) == total - baseLibre
  {
    if baseLibre < total {
      assert [Hueco(baseLibre, total - baseLibre)][..0] == [];
    }
  }

  /** The hole the configured policy takes: large enough, and the first of the smallest
      such (best fit) or the first of the largest (worst fit). */
  predicate Elegido(hs: seq<Hueco>, h: nat, tam: uint32, mejor: bool) {
    && h < |hs| && tam <= hs[h].tamanio
    && (mejor ==> forall j :: 0 <= j < |hs| && tam <= hs[j].tamanio ==>
          hs[h].tamanio <= hs[j].tamanio && (j < h ==> hs[h].tamanio < hs[j].tamanio))
    && (!mejor ==> forall j :: 0 <= j < |hs| ==>
          hs[j].tamanio <= hs[h].tamanio && (j < h ==> hs[j].tamanio < hs[h].tamanio))
  }

  /** The new memory joins the last hole when that hole ends where it begins: no other hole
      changes.  Otherwise it is a hole of its own, after all the others. */
  ghost predicate SeUne(hs: seq<Hueco>, r: seq<Hueco>, base: int, bytes: int) {
    var n := |hs| - 1;
    if n >= 0 && hs[n].base + hs[n].tamanio == base then
      && |r| == |hs| && (forall k :: 0 <= k < n ==> r[k] == hs[k])
      && r[n].base == hs[n].base && r[n].tamanio == hs[n].tamanio + bytes
    else
      && |r| == |hs| + 1 && (forall k :: 0 <= k < |hs| ==> r[k] == hs[k])
      && r[|hs|].base == base && r[|hs|].tamanio == bytes
  }

  /** The first `tam` bytes of hole `i` are taken: it disappears if they are all it had, and
      otherwise the rest of it stays in its place.  The other holes keep theirs. */
  ghost predicate SeAchica(hs: seq<Hueco>, r: seq<Hueco>, i: nat, tam: int) {
    && i < |hs| && tam <= hs[i].tamanio
    && if tam == hs[i].tamanio then
         |r| == |hs| - 1 && (forall k :: 0 <= k < i ==> r[k] == hs[k]) && (forall k :: i < k < |hs| ==> r[k - 1] == hs[k])
       else
         && |r| == |hs| && (forall k :: 0 <= k < |hs| && k != i ==> r[k] == hs[k])
         && r[i].base == hs[i].base + tam && r[i].tamanio == hs[i].tamanio - tam
  }

  class ListaHuecos {
    var lista: seq<Hueco>

    constructor ()
      ensures lista == []
    {
      lista := [];
    }

    method Extender(baseNueva: uint32, bytesNuevos: uint32)
      requires Acotados(lista) && baseNueva + bytesNuevos < LIMITE_32
      modifies this
      ensures lista == Extendida(old(lista), baseNueva, bytesNuevos)
      ensures SeUne(old(lista), lista, baseNueva, bytesNuevos)
      ensures Acotados(lista)
    {
      var cant := |lista|;
      if cant > 0 {
        var ultimo := lista[cant - 1];
        if ultimo.base + ultimo.tamanio == baseNueva {
          lista := lista[..cant - 1] + [Hueco(ultimo.base, ultimo.tamanio + bytesNuevos)];
          return;
        }
      }
      lista := lista + [Hueco(baseNueva, bytesNuevos)];
    }

    /** Best fit: the first of the smallest holes that are large enough. */
    method MejorAjuste(tam: uint32) returns (r: Option<nat>)
      ensures r.None? ==> forall j :: 0 <= j < |lista| ==> lista[j].tamanio < tam
      ensures r.Some? ==> r.value < |lista| && tam <= lista[r.value].tamanio
      ensures r.Some? ==> forall j :: 0 <= j < |lista| && tam <= lista[j].tamanio ==>
                lista[r.value].tamanio <= lista[j].tamanio
      ensures r.Some? ==> forall j :: 0 <= j < r.value && tam <= lista[j].tamanio ==>
                lista[r.value].tamanio < lista[j].tamanio
    {
      r := None;
      for i := 0 to |lista|
        invariant r.None? ==> forall j :: 0 <= j < i ==> lista[j].tamanio < tam
        invariant r.Some? ==> r.value < i && tam <= lista[r.value].tamanio
        invariant r.Some? ==> forall j :: 0 <= j < i && tam <= lista[j].tamanio ==>
                    lista[r.value].tamanio <= lista[j].tamanio
        invariant r.Some? ==> forall j :: 0 <= j < r.value && tam <= lista[j].tamanio ==>
                    lista[r.value].tamanio < lista[j].tamanio
      {
        if lista[i].tamanio >= tam {
          if r.None? || lista[i].tamanio < lista[r.value].tamanio {
            r := Some(i);
          }
        }
      }
    }

    /** Worst fit: the first of the largest holes, if large enough. */
    method PeorAjuste(tam: uint32) returns (r: Option<nat>)
      ensures r.None? ==> forall j :: 0 <= j < |lista| ==> lista[j].tamanio < tam
      ensures r.Some? ==> r.value < |lista| && tam <= lista[r.value].tamanio
      ensures r.Some? ==> forall j :: 0 <= j < |lista| ==> lista[j].tamanio <= lista[r.value].tamanio
      ensures r.Some? ==> forall j :: 0 <= j < r.value ==> lista[j].tamanio < lista[r.value].tamanio
    {
      r := None;
      for i := 0 to |lista|
        invariant r.None? ==> forall j :: 0 <= j < i ==> lista[j].tamanio < tam
        invariant r.Some? ==> r.value < i && tam <= lista[r.value].tamanio
        invariant r.Some? ==> forall j :: 0 <= j < i ==> lista[j].tamanio <= lista[r.value].tamanio
        invariant r.Some? ==> forall j :: 0 <= j < r.value ==> lista[j].tamanio < lista[r.value].tamanio
      {
        if lista[i].tamanio >= tam {
          if r.None? || lista[i].tamanio > lista[r.value].tamanio {
            r := Some(i);
          }
        }
      }
    }

    method Ocupar(i: nat, tam: uint32)
      requires Acotados(lista) && i < |lista| && tam <= lista[i].tamanio
      modifies this
      ensures lista == Ocupada(old(lista), i, tam)
      ensures SeAchica(old(lista), lista, i, tam)
      ensures Acotados(lista)
    {
      OcuparAcotados(lista, i, tam);
      if lista[i].tamanio == tam {
        lista := lista[..i] + lista[i + 1..];
      } else {
        var h := lista[i];
        lista := lista[i := Hueco(h.base + tam, h.tamanio - tam)];
      }
    }

    /** Freed space is appended as a hole of its own; neighbours are not merged. */
    method Liberar(base: uint32, tam: uint32)
      requires Acotados(lista) && base + tam < LIMITE_32
      modifies this
      ensures lista == old(lista) + [Hueco(base, tam)]
      ensures Acotados(lista)
    {
      lista := lista + [Hueco(base, tam)];
    }

    /** The uint32 accumulator never wraps while the holes fit in a 32-bit memory. */
    method TotalLibre() returns (total: uint32)
      requires Suma(lista) < LIMITE_32
      ensures total == Suma(lista)
    {
      total := 0;
      for i := 0 to |lista|
        invariant total == Suma(lista[..i])
      {
        SumaPrefijo(lista, i + 1);
        assert lista[..i + 1][..i] == lista[..i];
        total := total + lista[i].tamanio;
      }
      assert lista[..|lista|] == lista;
    }

    method Reconstruir(baseLibre: uint32, total: uint32)
      requires baseLibre <= total
      modifies this
      ensures lista == Reconstruida(baseLibre, total)
      ensures if baseLibre == total then |lista| == 0
              else |lista| == 1 && lista[0].base == baseLibre && lista[0].base + lista[0].tamanio == total
      ensures Acotados(lista)
    {
      lista := [];
      if baseLibre < total {
        lista := lista + [Hueco(baseLibre, total - baseLibre)];
      }
    }
  }
}
