/** Division with remainder by a variable divisor, and sums. */
module IntMath {

  function Min(a: int, b: int): int {
    if a < b then a else b
  }

  lemma MulAtLeast(k: int, a: nat)
    requires k >= 1
    ensures k * a >= a
  {
  }

  lemma DivModIs(x: int, a: nat, q: int, r: nat)
    requires a > 0 && x == q * a + r && r < a
    ensures x / a == q && x % a == r
  {
    var d := q - x / a;
    assert d * a == q * a - (x / a) * a;
    if d >= 1 {
      MulAtLeast(d, a);
    } else if d <= -1 {
      MulAtLeast(-d, a);
    }
  }

  // x % a by repeated subtraction.
  function Mod(x: nat, a: nat): (r: nat)
    requires a > 0
    ensures r < a
  {
    if x < a then x else Mod(x - a, a)
  }

  lemma {:induction false} ModIs(x: nat, a: nat)
    requires a > 0
    ensures Mod(x, a) == x % a
    decreases x
  {
    if x < a {
      DivModIs(x, a, 0, x);
    } else {
      ModIs(x - a, a);
      assert ((x - a) / a + 1) * a == ((x - a) / a) * a + a;
      DivModIs(x, a, (x - a) / a + 1, (x - a) % a);
    }
  }

  // Rounding down and up to a multiple of a.
  lemma RoundedIsMultiple(x: nat, a: nat)
    requires a > 0
    ensures (x - x % a) % a == 0 && (x - x % a + a) % a == 0
  {
    var q := x / a;
    DivModIs(x - x % a, a, q, 0);
    assert q * a + a == (q + 1) * a;
    DivModIs(x - x % a + a, a, q + 1, 0);
  }

  function Sum(ws: seq<nat>): nat {
    if ws == [] then 0 else ws[0] + Sum(ws[1..])
  }

  lemma {:induction false} SumUpdate(ws: seq<nat>, i: nat, w: nat)
    requires i < |ws|
    ensures Sum(ws[i := w]) == Sum(ws) - ws[i] + w
  {
    if i == 0 {
      assert ws[i := w][1..] == ws[1..];
    } else {
      assert ws[i := w][1..] == ws[1..][i - 1 := w];
      SumUpdate(ws[1..], i - 1, w);
    }
  }

  lemma {:induction false} SumAtMost(ws: seq<nat>, vs: seq<nat>)
    requires |ws| == |vs| && forall k :: 0 <= k < |ws| ==> ws[k] <= vs[k]
    ensures Sum(ws) <= Sum(vs)
  {
    if ws != [] {
      SumAtMost(ws[1..], vs[1..]);
    }
  }

  lemma SumLess(ws: seq<nat>, vs: seq<nat>, i: nat)
    requires |ws| == |vs| && i < |ws| && ws[i] < vs[i]
    requires forall k :: 0 <= k < |ws| ==> ws[k] <= vs[k]
    ensures Sum(ws) < Sum(vs)
  {
    SumAtMost(ws, vs[i := ws[i]]);
    SumUpdate(vs, i, ws[i]);
  }
}
