/** The orders the stores and the comparator sort by: text compared character by character, and the listing of a
    table's rows under a strict order. */
module Order {

  /** Text order as Python's `<` on `str` and SQLite's BINARY collation decide it. */
  predicate LexLess(a: string, b: string) {
    && |b| > 0
    && (|a| == 0 || a[0] < b[0] || (a[0] == b[0] && LexLess(a[1..], b[1..])))
  }

  /** The first difference decides, and a proper prefix comes first. */
  ghost predicate DiffersAt(a: string, b: string, n: nat) {
    n <= |a| && n < |b| && a[..n] == b[..n] && (n == |a| || a[n] < b[n])
  }

  lemma {:induction false} LexMeaning(a: string, b: string)
    ensures LexLess(a, b) <==> exists n: nat :: DiffersAt(a, b, n)
  {
    forall n: nat | DiffersAt(a, b, n) && n > 0 ensures |a| > 0 && |b| > 0 && a[0] == b[0] {
      assert a[..n][0] == b[..n][0];
    }
    if a == "" {
      assert |b| > 0 ==> DiffersAt(a, b, 0);
    } else if b == "" {
    } else if a[0] != b[0] {
      assert a[0] < b[0] ==> DiffersAt(a, b, 0);
    } else {
      LexMeaning(a[1..], b[1..]);
      SameHeadDiffers(a, b);
    }
  }

  lemma SameHeadDiffers(a: string, b: string)
    requires |a| > 0 && |b| > 0 && a[0] == b[0]
    ensures (exists n: nat :: DiffersAt(a, b, n)) <==> exists n: nat :: DiffersAt(a[1..], b[1..], n)
  {
    if n: nat :| DiffersAt(a, b, n) && n > 0 {
      assert a[1..][..n - 1] == a[..n][1..] && b[1..][..n - 1] == b[..n][1..];
      assert DiffersAt(a[1..], b[1..], n - 1);
    }
    if n: nat :| DiffersAt(a[1..], b[1..], n) {
      assert a[..n + 1] == [a[0]] + a[1..][..n] && b[..n + 1] == [b[0]] + b[1..][..n];
      assert DiffersAt(a, b, n + 1);
    }
  }

  lemma {:induction false} LexTotal(a: string, b: string)
    ensures a == b || LexLess(a, b) || LexLess(b, a)
  {
    if |a| > 0 && |b| > 0 && a[0] == b[0] {
      LexTotal(a[1..], b[1..]);
      assert a == [a[0]] + a[1..] && b == [b[0]] + b[1..];
    }
  }

  lemma {:induction false} LexAsymmetric(a: string, b: string)
    requires LexLess(a, b)
    ensures !LexLess(b, a) && a != b
  {
    if |a| > 0 && a[0] == b[0] {
      LexAsymmetric(a[1..], b[1..]);
    }
  }

  lemma {:induction false} LexTransitive(a: string, b: string, c: string)
    requires LexLess(a, b) && LexLess(b, c)
    ensures LexLess(a, c)
  {
    if |a| > 0 && a[0] == b[0] == c[0] {
      LexTransitive(a[1..], b[1..], c[1..]);
    }
  }

  /** Heads of equal length decide first; only equal heads let the tails decide. */
  lemma {:induction false} LexConcat(p: string, q: string, x: string, y: string)
    requires |p| == |q|
    ensures LexLess(p + x, q + y) <==> LexLess(p, q) || (p == q && LexLess(x, y))
  {
    if p == [] {
      assert p + x == x && q + y == y;
    } else {
      LexConcat(p[1..], q[1..], x, y);
      assert (p + x)[1..] == p[1..] + x && (q + y)[1..] == q[1..] + y;
      assert p == q <==> p[0] == q[0] && p[1..] == q[1..] by {
        assert p == [p[0]] + p[1..] && q == [q[0]] + q[1..];
      }
    }
  }

  ghost predicate IsFirst(s: set<string>, k: string) {
    k in s && forall t :: t in s && t != k ==> LexLess(k, t)
  }

  /** A finite nonempty set of texts has a first element, and only one. */
  lemma {:induction false} LexLeast(s: set<string>) returns (least: string)
    requires s != {}
    ensures IsFirst(s, least) && forall u :: IsFirst(s, u) ==> u == least
  {
    var x :| x in s;
    if s == {x} {
      return x;
    }
    var m := LexLeast(s - {x});
    LexTotal(x, m);
    least := if LexLess(x, m) then x else m;
    forall t | t in s && t != least ensures LexLess(least, t) {
      if LexLess(x, m) && t != m {
        LexTransitive(x, m, t);
      }
    }
    forall u | IsFirst(s, u) ensures u == least {
      if u != least { LexAsymmetric(u, least); }
    }
  }

  /** `before` is a strict total order on the row numbers below n. */
  ghost predicate Orders(before: (nat, nat) -> bool, n: nat) {
    && (forall i: nat, j: nat :: i < n && j < n && i != j ==> before(i, j) || before(j, i))
    && (forall i: nat, j: nat :: i < n && j < n && before(i, j) ==> !before(j, i))
    && (forall i: nat, j: nat, k: nat :: i < n && j < n && k < n && before(i, j) && before(j, k) ==> before(i, k))
  }

  /** xs lists exactly the row numbers `rows`, each once, in the order `before`. */
  ghost predicate Lists(xs: seq<nat>, rows: set<nat>, before: (nat, nat) -> bool) {
    && (forall x :: x in xs <==> x in rows)
    && (forall i, j :: 0 <= i < j < |xs| ==> before(xs[i], xs[j]))
  }

  /** The row numbers below n. */
  ghost function Below(n: nat): (rows: set<nat>)
    ensures forall i: nat :: i in rows <==> i < n
  {
    if n == 0 then {} else Below(n - 1) + {n - 1}
  }

  function InsertRow(xs: seq<nat>, x: nat, before: (nat, nat) -> bool): seq<nat> {
    if xs == [] then [x]
    else if before(x, xs[0]) then [x] + xs
    else [xs[0]] + InsertRow(xs[1..], x, before)
  }

  lemma {:induction false} InsertRowLists(xs: seq<nat>, rows: set<nat>, x: nat, before: (nat, nat) -> bool, n: nat)
    requires Orders(before, n) && x < n && x !in rows && forall r :: r in rows ==> r < n
    requires Lists(xs, rows, before)
    ensures Lists(InsertRow(xs, x, before), rows + {x}, before)
  {
    var out := InsertRow(xs, x, before);
    if xs == [] {
    } else if before(x, xs[0]) {
      forall i, j | 0 <= i < j < |out| ensures before(out[i], out[j]) {
        if i == 0 {
          assert xs[0] in xs && xs[j - 1] in xs;
        }
      }
    } else {
      var rest := xs[1..];
      assert xs[0] in xs;
      forall j | 0 <= j < |rest| ensures rest[j] != xs[0] {
        assert before(xs[0], xs[j + 1]);
      }
      assert xs == [xs[0]] + rest;
      assert Lists(rest, rows - {xs[0]}, before);
      InsertRowLists(rest, rows - {xs[0]}, x, before, n);
      var tail := InsertRow(rest, x, before);
      forall i, j | 0 <= i < j < |out| ensures before(out[i], out[j]) {
        if i == 0 {
          assert tail[j - 1] in tail;
          if tail[j - 1] != x {
            assert tail[j - 1] in rest;
            var k :| 0 <= k < |rest| && rest[k] == tail[j - 1];
            assert before(xs[0], xs[k + 1]);
          }
        }
      }
    }
  }
}
