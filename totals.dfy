/** Properties of order pricing: the total does not depend on the order of the
    lines, rounding stays within half a cent, and the worked example. */
module Totals {
  import opened Results
  import opened Entities
  import opened DataStore
  import opened Seqs

  lemma {:induction false} SubtotalAppend(menu: seq<MenuItem>, a: seq<Line>, b: seq<Line>)
    ensures Subtotal(menu, a + b) == Subtotal(menu, a) + Subtotal(menu, b)
    decreases |b|
  {
    if |b| == 0 {
      assert a + b == a;
    } else {
      var b' := b[..|b| - 1];
      assert (a + b)[..|a + b| - 1] == a + b';
      SubtotalAppend(menu, a, b');
    }
  }

  /** Taking one line out of the middle lowers the sum by exactly that line's amount. */
  lemma SubtotalSplit(menu: seq<MenuItem>, front: seq<Line>, x: Line, back: seq<Line>)
    ensures Subtotal(menu, front + [x] + back) == Subtotal(menu, front + back) + LineAmount(menu, x)
  {
    SubtotalAppend(menu, front + [x], back);
    SubtotalAppend(menu, front, [x]);
    SubtotalAppend(menu, front, back);
    assert [x][..0] == [];
  }

  /** The sum of the line amounts is the same for any reordering of the lines. */
  lemma {:induction false} SubtotalPermutation(menu: seq<MenuItem>, a: seq<Line>, b: seq<Line>)
    requires multiset(a) == multiset(b)
    ensures Subtotal(menu, a) == Subtotal(menu, b)
    decreases |a|
  {
    if |a| == 0 {
      assert |b| == |multiset(b)| == 0;
    } else {
      var x := a[|a| - 1];
      assert x in multiset(b);
      var k :| 0 <= k < |b| && b[k] == x;
      MultisetRemoveLast(a, b, k);
      SubtotalPermutation(menu, a[..|a| - 1], b[..k] + b[k + 1..]);
      SubtotalSplit(menu, b[..k], x, b[k + 1..]);
      assert b == b[..k] + [x] + b[k + 1..];
    }
  }

  /** Whether every line can be priced does not depend on the order of the lines. */
  lemma AllOrderablePermutation(menu: seq<MenuItem>, a: seq<Line>, b: seq<Line>)
    requires multiset(a) == multiset(b)
    ensures AllOrderable(menu, a) <==> AllOrderable(menu, b)
  {
    forall i | 0 <= i < |b|
      ensures b[i] in a
    {
      assert b[i] in multiset(b);
    }
    forall i | 0 <= i < |a|
      ensures a[i] in b
    {
      assert a[i] in multiset(a);
    }
  }

  /** computeOrderTotal's outcome, failure or total, is invariant under reordering the lines. */
  lemma QuotePermutation(menu: seq<MenuItem>, a: seq<Line>, b: seq<Line>)
    requires multiset(a) == multiset(b)
    ensures Quote(menu, a) == Quote(menu, b)
  {
    AllOrderablePermutation(menu, a, b);
    SubtotalPermutation(menu, a, b);
  }

  /** Rounding to cents moves a value by at most half a cent, and half-way cases go up. */
  lemma Round2Bounds(x: real)
    ensures x - 0.005 < Round2(x) <= x + 0.005
  {
    var y := x * 100.0 + 0.5;
    assert y.Floor as real <= y < y.Floor as real + 1.0;
  }

  /** A rounded value is already a whole number of cents: rounding it again changes nothing. */
  lemma Round2Idempotent(x: real)
    ensures Round2(Round2(x)) == Round2(x)
  {
    var n := (x * 100.0 + 0.5).Floor;
    assert Round2(x) == n as real / 100.0;
    assert Round2(x) * 100.0 + 0.5 == n as real + 0.5;
    assert (n as real + 0.5).Floor == n;
  }

  lemma {:induction false} SubtotalNonNegative(menu: seq<MenuItem>, lines: seq<Line>)
    requires forall i :: 0 <= i < |menu| ==> menu[i].price >= 0.0
    requires forall i :: 0 <= i < |lines| ==> lines[i].quantity >= 1.0
    ensures Subtotal(menu, lines) >= 0.0
    decreases |lines|
  {
    if |lines| > 0 {
      SubtotalNonNegative(menu, lines[..|lines| - 1]);
      var line := lines[|lines| - 1];
      var m := FindMenuItem(menu, line.menuItemId);
      if m.Some? {
        assert m.value.price * line.quantity >= 0.0;
      }
    }
  }

  /** With non-negative prices and quantities of at least one, a successful total is non-negative. */
  lemma QuoteNonNegative(menu: seq<MenuItem>, lines: seq<Line>)
    requires forall i :: 0 <= i < |menu| ==> menu[i].price >= 0.0
    requires forall i :: 0 <= i < |lines| ==> lines[i].quantity >= 1.0
    ensures Quote(menu, lines).Ok? ==> Quote(menu, lines).value >= 0.0
  {
    SubtotalNonNegative(menu, lines);
    var y := Subtotal(menu, lines) * 100.0 + 0.5;
    assert y >= 0.5;
  }

  /** A 9.50 burger ordered twice costs 19.00. */
  lemma BurgerExample(burger: MenuItem)
    requires burger.price == 9.5 && burger.isAvailable
    ensures Quote([burger], [Line(burger.id, 2.0)]) == Ok(19.0)
  {
    var lines := [Line(burger.id, 2.0)];
    assert MenuIndex([burger], burger.id) == 0;
    assert lines[..0] == [];
    assert Subtotal([burger], lines) == 19.0;
    assert (19.0 * 100.0 + 0.5).Floor == 1900;
  }

  /** A line for an item that is not on the menu makes the whole order fail with 400. */
  lemma UnknownItemFails(menu: seq<MenuItem>, lines: seq<Line>, i: nat)
    requires i < |lines|
    requires forall j :: 0 <= j < |menu| ==> menu[j].id != lines[i].menuItemId
    ensures Quote(menu, lines) == Fail(InvalidInput)
  {
    assert !Orderable(menu, lines[i]);
  }
}
