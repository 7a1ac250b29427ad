/** Lists of process or CPU identifiers, and how often each identifier appears in them. */
module Listas {

  function Veces(l: seq<int>, x: int): (n: nat) {
    if |l| == 0 then 0 else Veces(l[..|l| - 1], x) + if l[|l| - 1] == x then 1 else 0
  }

  /** `list_remove_element`: drops the first occurrence, if any. */
  function Quitar(l: seq<int>, x: int): (r: seq<int>) {
    if |l| == 0 then []
    else if l[0] == x then l[1..]
    else [l[0]] + Quitar(l[1..], x)
  }

  function Uno(c: bool): (n: int)
    ensures 0 <= n <= 1
  {
    if c then 1 else 0
  }

  lemma {:induction false} VecesAgregar(l: seq<int>, y: int, x: int)
    ensures Veces(l + [y], x) == Veces(l, x) + Uno(x == y)
  {
    assert (l + [y])[..|l|] == l;
  }

  lemma {:induction false} VecesConcat(a: seq<int>, b: seq<int>, x: int)
    ensures Veces(a + b, x) == Veces(a, x) + Veces(b, x)
    decreases |b|
  {
    if |b| == 0 {
      assert a + b == a;
    } else {
      VecesConcat(a, b[..|b| - 1], x);
      assert (a + b)[..|a + b| - 1] == a + b[..|b| - 1];
    }
  }

  lemma {:induction false} VecesUno(y: int, x: int)
    ensures Veces([y], x) == Uno(x == y)
  {
    assert [y][..0] == [];
  }

  lemma {:induction false} VecesFrente(l: seq<int>, y: int, x: int)
    ensures Veces([y] + l, x) == Veces(l, x) + Uno(x == y)
  {
    VecesConcat([y], l, x);
    VecesUno(y, x);
  }

  lemma {:induction false} VecesResto(l: seq<int>, x: int)
    requires |l| > 0
    ensures Veces(l, x) == Veces(l[1..], x) + Uno(x == l[0])
  {
    assert l == [l[0]] + l[1..];
    VecesFrente(l[1..], l[0], x);
  }

  lemma {:induction false} VecesMiembro(l: seq<int>, x: int)
    ensures x in l <==> Veces(l, x) > 0
    decreases |l|
  {
    if |l| > 0 {
      VecesMiembro(l[..|l| - 1], x);
      assert l == l[..|l| - 1] + [l[|l| - 1]];
    }
  }

  lemma {:induction false} VecesQuitar(l: seq<int>, y: int, x: int)
    requires y in l
    ensures Veces(l, x) == Veces(Quitar(l, y), x) + Uno(x == y)
    decreases |l|
  {
    VecesResto(l, x);
    if l[0] != y {
      VecesQuitar(l[1..], y, x);
      VecesFrente(Quitar(l[1..], y), l[0], x);
    }
  }

  lemma {:induction false} QuitarLargo(l: seq<int>, y: int)
    requires y in l
    ensures |Quitar(l, y)| == |l| - 1
    decreases |l|
  {
    if l[0] != y {
      QuitarLargo(l[1..], y);
    }
  }

  /** Each identifier once. */
  ghost predicate SinRepetidos(l: seq<int>) {
    forall x {:trigger Veces(l, x)} :: Veces(l, x) <= 1
  }

  lemma {:induction false} VecesPosicion(l: seq<int>, i: nat, j: nat)
    requires i < j < |l| && l[i] == l[j]
    ensures Veces(l, l[i]) >= 2
  {
    assert l == l[..j] + l[j..];
    VecesConcat(l[..j], l[j..], l[i]);
    VecesMiembro(l[..j], l[i]);
    VecesMiembro(l[j..], l[i]);
    assert l[..j][i] == l[i] && l[j..][0] == l[i];
  }

  lemma {:induction false} Distintos(l: seq<int>, i: nat, j: nat)
    requires i < j < |l| && Veces(l, l[i]) <= 1
    ensures l[i] != l[j]
  {
    if l[i] == l[j] {
      VecesPosicion(l, i, j);
    }
  }
}
