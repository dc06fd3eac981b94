/** Helpers shared by the modules of the trading-system model: optional values,
  * the rounding operators of Python and JavaScript on reals, and the few
  * string operations the core uses (`in` on strings, `str.split()`/`" ".join`). */
module Common {

  datatype Option<T> = None | Some(value: T)

  function Min(a: int, b: int): int { if a <= b then a else b }
  function Max(a: int, b: int): int { if a >= b then a else b }
  function MinR(a: real, b: real): real { if a <= b then a else b }
  function MaxR(a: real, b: real): real { if a >= b then a else b }
  function Abs(x: real): real { if x < 0.0 then -x else x }

  /** Python `math.floor`, and `a // b` on floats (floor of the quotient). */
  function Floor(x: real): (r: int)
    ensures r as real <= x < r as real + 1.0
  {
    x.Floor
  }

  /** Python `math.ceil`. */
  function Ceil(x: real): (r: int)
    ensures r as real - 1.0 < x <= r as real
  {
    if x.Floor as real == x then x.Floor else x.Floor + 1
  }

  /** Python `int(x)` on a float: truncation toward zero. */
  function Trunc(x: real): (r: int)
    ensures 0.0 <= x ==> r as real <= x < r as real + 1.0
    ensures x < 0.0 ==> r as real - 1.0 < x <= r as real
    ensures Abs(r as real) <= Abs(x)
  {
    if x >= 0.0 then Floor(x) else -Floor(-x)
  }

  /** JavaScript `Math.round`: halves round toward positive infinity. */
  function JsRound(x: real): (r: int)
    ensures x - 0.5 < r as real <= x + 0.5
  {
    Floor(x + 0.5)
  }

  /** `Math.round` is the only integer in `(x - 0.5, x + 0.5]`. */
  lemma RoundIsNearestWhole(x: real, k: int)
    requires x - 0.5 < k as real <= x + 0.5
    ensures k == JsRound(x)
  {
    var r := JsRound(x);
    assert (k - r) as real < 1.0 && (r - k) as real < 1.0;
  }

  /** JavaScript `parseFloat(x.toFixed(2))`: two decimals, halves away from zero. */
  function Round2(x: real): (r: real)
    ensures Abs(r - x) <= 0.005
  {
    if x >= 0.0 then Floor(x * 100.0 + 0.5) as real / 100.0
    else -(Floor(-x * 100.0 + 0.5) as real / 100.0)
  }

  /** `sub` occurs in `s` starting at position `i`. */
  predicate OccursAt(s: string, sub: string, i: int)
  {
    0 <= i <= |s| - |sub| && s[i..i + |sub|] == sub
  }

  /** Python `sub in s` / JavaScript `s.includes(sub)` on strings. */
  ghost predicate Contains(s: string, sub: string)
  {
    exists i :: OccursAt(s, sub, i)
  }

  /** A compiled search that decides `Contains` from position `i` on. */
  function ContainsFrom(s: string, sub: string, i: nat): (r: bool)
    requires i <= |s|
    ensures r <==> exists j :: i <= j && OccursAt(s, sub, j)
    decreases |s| - i
  {
    if i + |sub| > |s| then false
    else if s[i..i + |sub|] == sub then assert OccursAt(s, sub, i); true
    else ContainsFrom(s, sub, i + 1)
  }

  function HasSubstring(s: string, sub: string): (r: bool)
    ensures r <==> Contains(s, sub)
  {
    ContainsFrom(s, sub, 0)
  }

  /** Characters Python's `str.split()` treats as separators (the ASCII ones). */
  predicate IsSpace(c: char)
  {
    c == ' ' || c == '\t' || c == '\n' || c == '\r' || c == '\U{B}' || c == '\U{C}'
  }

  /** Some element of a non-empty set. */
  method Pick<T>(s: set<T>) returns (x: T)
    requires s != {}
    ensures x in s
  {
    x :| x in s;
  }

  /** Decimal rendering of a natural number. */
  function NatToString(n: nat): (s: string)
    ensures |s| >= 1
    ensures forall i :: 0 <= i < |s| ==> '0' <= s[i] <= '9'
  {
    if n < 10 then [Digit(n)] else NatToString(n / 10) + [Digit(n % 10)]
  }

  function Digit(d: nat): (c: char)
    requires d < 10
    ensures '0' <= c <= '9'
  {
    ['0', '1', '2', '3', '4', '5', '6', '7', '8', '9'][d]
  }

  function IntToString(n: int): string
  {
    if n < 0 then "-" + NatToString(-n) else NatToString(n)
  }

  /** Buying `q <= budget // price` units never costs more than the budget. */
  lemma FloorQuotientCost(q: int, budget: real, price: real)
    requires price > 0.0 && q <= Floor(budget / price)
    ensures q as real * price <= budget
  {
    var f := Floor(budget / price);
    assert f as real <= budget / price;
    assert q as real * price <= f as real * price;
    assert f as real * price <= (budget / price) * price;
  }

  /** Python `int(a / b)` for a positive divisor never exceeds the quotient
    * when the dividend is non-negative, and is at most 0 when it is negative. */
  lemma TruncQuotientCost(q: int, cash: real, price: real)
    requires price > 0.0 && q <= Trunc(cash / price)
    ensures cash >= 0.0 ==> q as real * price <= cash
    ensures cash < 0.0 ==> q <= 0
  {
    if cash >= 0.0 {
      FloorQuotientCost(q, cash, price);
    } else {
      assert cash / price < 0.0;
    }
  }

  /** A dict filled by `d[k] = v` for each entry in turn: a later entry for the
    * same key overwrites an earlier one. */
  function BuildMap<K, V>(entries: seq<(K, V)>): map<K, V>
  {
    if entries == [] then map[]
    else BuildMap(entries[..|entries| - 1])[entries[|entries| - 1].0 := entries[|entries| - 1].1]
  }

  /** A key is in the map exactly when some entry names it, and it maps to the
    * value of the last such entry. */
  lemma {:induction false} BuildMapLastWins<K, V>(entries: seq<(K, V)>, k: K)
    ensures k in BuildMap(entries) <==> exists i :: 0 <= i < |entries| && entries[i].0 == k
    ensures k in BuildMap(entries) ==>
              exists i :: 0 <= i < |entries| && entries[i].0 == k && BuildMap(entries)[k] == entries[i].1
                          && forall j :: i < j < |entries| ==> entries[j].0 != k
  {
    if entries != [] {
      var init := entries[..|entries| - 1];
      var last := |entries| - 1;
      BuildMapLastWins(init, k);
      if entries[last].0 != k && k in BuildMap(entries) {
        var i :| 0 <= i < |init| && init[i].0 == k && BuildMap(init)[k] == init[i].1
                 && forall j :: i < j < |init| ==> init[j].0 != k;
        assert entries[i] == init[i];
        assert forall j :: i < j < |entries| ==> entries[j].0 != k by {
          forall j | i < j < |entries| ensures entries[j].0 != k {
            if j < last {
              assert entries[j] == init[j];
            }
          }
        }
      }
      if exists i :: 0 <= i < |entries| && entries[i].0 == k {
        var i :| 0 <= i < |entries| && entries[i].0 == k;
        if i < last {
          assert init[i] == entries[i];
        }
      }
    }
  }
}
