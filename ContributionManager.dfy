/** `ContributionManager` of `library/contribution_manager.py`: the removal of
  * same-day sweep pairs that offset each other, the per-account keep/drop
  * filter, the transaction types asked for per account, and the 360-day fetch
  * windows of `update_daily_contributions`.
  *
  * A transaction is the JSON record the broker returns, with its missing keys
  * already replaced by the defaults the source uses (`''` for a missing
  * `time`, `description` or `type`, `0` for a missing `netAmount`). Times are
  * whole seconds: every instant the fetch loop handles is `today` shifted by
  * whole days or seconds, so their common sub-second part plays no role. */
module ContributionManager {
  import opened Common

  /** One transaction; `transferSymbols` holds the `instrument.symbol` of every
    * `transferItems` entry (`None` where an entry has none). */
  datatype Tx = Tx(time: string, description: string, netAmount: real, txType: string,
                   transferSymbols: seq<Option<string>>)

  // ---------------------------------------------------------------------------
  // Grouping by date

  /** `time.split('T')[0]`: the longest prefix without a `T`. */
  function DateOf(time: string): (d: string)
    ensures d <= time
    ensures 'T' !in d
    ensures |d| < |time| ==> time[|d|] == 'T'
  {
    if time == [] || time[0] == 'T' then [] else [time[0]] + DateOf(time[1..])
  }

  function TxDate(tx: Tx): string
  {
    DateOf(tx.time)
  }

  /** The keys of `by_date`, in the order they were first inserted. */
  function GroupDates(txs: seq<Tx>): seq<string>
  {
    if txs == [] then []
    else
      var ds := GroupDates(txs[..|txs| - 1]);
      var d := TxDate(txs[|txs| - 1]);
      if d in ds then ds else ds + [d]
  }

  /** `by_date[d]`: the transactions of date `d`, in input order. */
  function DayOf(txs: seq<Tx>, d: string): seq<Tx>
  {
    if txs == [] then []
    else DayOf(txs[..|txs| - 1], d) + (if TxDate(txs[|txs| - 1]) == d then [txs[|txs| - 1]] else [])
  }

  predicate Distinct(ds: seq<string>)
  {
    forall i, j :: 0 <= i < j < |ds| ==> ds[i] != ds[j]
  }

  /** The dates are listed once each, and they are exactly the dates that occur. */
  lemma {:induction false} GroupDatesListsEachDateOnce(txs: seq<Tx>)
    ensures Distinct(GroupDates(txs))
    ensures forall d :: d in GroupDates(txs) <==> exists i :: 0 <= i < |txs| && TxDate(txs[i]) == d
  {
    if txs != [] {
      var init := txs[..|txs| - 1];
      GroupDatesListsEachDateOnce(init);
      forall d
        ensures d in GroupDates(txs) <==> exists i :: 0 <= i < |txs| && TxDate(txs[i]) == d
      {
        if d in GroupDates(init) {
          var i :| 0 <= i < |init| && TxDate(init[i]) == d;
          assert txs[i] == init[i];
        }
        if exists i :: 0 <= i < |txs| && TxDate(txs[i]) == d {
          var i :| 0 <= i < |txs| && TxDate(txs[i]) == d;
          if i < |init| {
            assert init[i] == txs[i];
          }
        }
      }
    }
  }

  /** Every transaction in a group carries the group's date. */
  lemma {:induction false} DayOfIsOneDate(txs: seq<Tx>, d: string)
    ensures forall t :: t in DayOf(txs, d) ==> t in txs && TxDate(t) == d
  {
    if txs != [] {
      DayOfIsOneDate(txs[..|txs| - 1], d);
      assert forall t :: t in txs[..|txs| - 1] ==> t in txs;
    }
  }

  // ---------------------------------------------------------------------------
  // Sweep pairs of one day

  const PositiveSweeps: seq<string> := ["BANK SWEEP FR BROKERAGE", "BROKERAGE SWEEP FR BANK"]
  const NegativeSweeps: seq<string> := ["BROKERAGE SWEEP TO BANK", "BANK SWEEP TO BROKERAGE"]

  predicate IsPositiveSweep(tx: Tx)
  {
    tx.netAmount > 0.0 && tx.description in PositiveSweeps
  }

  predicate IsNegativeSweep(tx: Tx)
  {
    tx.netAmount < 0.0 && tx.description in NegativeSweeps
  }

  /** Two amounts cancel out: `abs(p_val + n_val) < 0.0001`. */
  predicate Offsets(p: real, n: real)
  {
    Abs(p + n) < 0.0001
  }

  predicate IndicesIn(day: seq<Tx>, xs: seq<int>)
  {
    forall k :: 0 <= k < |xs| ==> 0 <= xs[k] < |day|
  }

  predicate Increasing(xs: seq<int>)
  {
    forall i, j :: 0 <= i < j < |xs| ==> xs[i] < xs[j]
  }

  /** `pos_candidates`: the indices of the positive sweeps, in order. */
  function PositiveCandidates(day: seq<Tx>): (pos: seq<int>)
    ensures IndicesIn(day, pos) && Increasing(pos)
    ensures forall k :: 0 <= k < |pos| ==> IsPositiveSweep(day[pos[k]])
    ensures forall i :: 0 <= i < |day| && IsPositiveSweep(day[i]) ==> i in pos
  {
    if day == [] then []
    else
      var pos := PositiveCandidates(day[..|day| - 1]);
      assert forall k :: 0 <= k < |pos| ==> day[pos[k]] == day[..|day| - 1][pos[k]];
      if IsPositiveSweep(day[|day| - 1]) then pos + [|day| - 1] else pos
  }

  /** `neg_candidates`: the indices of the negative sweeps, in order. */
  function NegativeCandidates(day: seq<Tx>): (neg: seq<int>)
    ensures IndicesIn(day, neg) && Increasing(neg)
    ensures forall k :: 0 <= k < |neg| ==> IsNegativeSweep(day[neg[k]])
    ensures forall i :: 0 <= i < |day| && IsNegativeSweep(day[i]) ==> i in neg
  {
    if day == [] then []
    else
      var neg := NegativeCandidates(day[..|day| - 1]);
      assert forall k :: 0 <= k < |neg| ==> day[neg[k]] == day[..|day| - 1][neg[k]];
      if IsNegativeSweep(day[|day| - 1]) then neg + [|day| - 1] else neg
  }

  /** The first negative candidate not matched yet whose amount offsets `pv`. */
  function FirstMatch(day: seq<Tx>, pv: real, neg: seq<int>, matched: set<int>): (r: Option<int>)
    requires IndicesIn(day, neg)
    ensures r.Some? ==> r.value in neg && r.value !in matched && Offsets(pv, day[r.value].netAmount)
  {
    if neg == [] then None
    else if neg[0] !in matched && Offsets(pv, day[neg[0]].netAmount) then Some(neg[0])
    else FirstMatch(day, pv, neg[1..], matched)
  }

  /** `FirstMatch` is the first eligible candidate, and finds nothing only when
    * there is none. */
  lemma {:induction false} FirstMatchIsFirst(day: seq<Tx>, pv: real, neg: seq<int>, matched: set<int>)
    requires IndicesIn(day, neg)
    ensures var r := FirstMatch(day, pv, neg, matched);
            (r.None? <==> forall k :: 0 <= k < |neg| ==> neg[k] in matched || !Offsets(pv, day[neg[k]].netAmount))
            && (r.Some? ==> exists k :: 0 <= k < |neg| && neg[k] == r.value
                              && forall j :: 0 <= j < k ==> neg[j] in matched || !Offsets(pv, day[neg[j]].netAmount))
  {
    if neg != [] && !(neg[0] !in matched && Offsets(pv, day[neg[0]].netAmount)) {
      FirstMatchIsFirst(day, pv, neg[1..], matched);
      var r := FirstMatch(day, pv, neg, matched);
      if r.Some? {
        var k :| 0 <= k < |neg[1..]| && neg[1..][k] == r.value
                 && forall j :: 0 <= j < k ==> neg[1..][j] in matched || !Offsets(pv, day[neg[1..][j]].netAmount);
        assert neg[k + 1] == r.value;
        forall j | 0 <= j < k + 1
          ensures neg[j] in matched || !Offsets(pv, day[neg[j]].netAmount)
        {
          if j > 0 {
            assert neg[j] == neg[1..][j - 1];
          }
        }
      } else {
        forall k | 0 <= k < |neg|
          ensures neg[k] in matched || !Offsets(pv, day[neg[k]].netAmount)
        {
          if k > 0 {
            assert neg[k] == neg[1..][k - 1];
          }
        }
      }
    }
  }

  /** The indices a list of pairs uses. */
  function Indices(pairs: seq<(int, int)>): set<int>
  {
    if pairs == [] then {} else Indices(pairs[..|pairs| - 1]) + {pairs[|pairs| - 1].0, pairs[|pairs| - 1].1}
  }

  lemma IndicesSnoc(earlier: seq<(int, int)>, pair: (int, int))
    ensures Indices(earlier + [pair]) == Indices(earlier) + {pair.0} + {pair.1}
  {
    assert (earlier + [pair])[..|earlier|] == earlier;
  }

  /** The pairs the matching loop forms: each positive candidate in turn takes
    * the first negative candidate still free that offsets it. */
  function Pairs(day: seq<Tx>, pos: seq<int>, neg: seq<int>): (pairs: seq<(int, int)>)
    requires IndicesIn(day, pos) && IndicesIn(day, neg)
    ensures forall k :: 0 <= k < |pairs| ==>
              pairs[k].0 in pos && pairs[k].1 in neg
              && 0 <= pairs[k].0 < |day| && 0 <= pairs[k].1 < |day|
              && Offsets(day[pairs[k].0].netAmount, day[pairs[k].1].netAmount)
  {
    if pos == [] then []
    else
      var earlier := Pairs(day, pos[..|pos| - 1], neg);
      var p := pos[|pos| - 1];
      assert forall x :: x in pos[..|pos| - 1] ==> x in pos;
      match FirstMatch(day, day[p].netAmount, neg, Indices(earlier))
      case None => earlier
      case Some(n) => earlier + [(p, n)]
  }

  /** The transactions of `day[..n]` whose index is not matched, in order. */
  function Unmatched(day: seq<Tx>, matched: set<int>, n: nat): seq<Tx>
    requires n <= |day|
  {
    if n == 0 then [] else Unmatched(day, matched, n - 1) + (if n - 1 in matched then [] else [day[n - 1]])
  }

  function DayPairs(day: seq<Tx>): seq<(int, int)>
  {
    Pairs(day, PositiveCandidates(day), NegativeCandidates(day))
  }

  /** What one date contributes to `final_list`. */
  function DayResult(day: seq<Tx>): seq<Tx>
  {
    Unmatched(day, Indices(DayPairs(day)), |day|)
  }

  /** What the pairing forms: a positive sweep and a negative sweep of the
    * same day that offset each other; the positive candidates are taken in
    * order, no index is used twice, and so each negative is matched at most once. */
  lemma PairsAreOffsettingSweeps(day: seq<Tx>, pos: seq<int>, neg: seq<int>)
    requires IndicesIn(day, pos) && IndicesIn(day, neg) && Increasing(pos)
    requires forall k :: 0 <= k < |pos| ==> IsPositiveSweep(day[pos[k]])
    requires forall k :: 0 <= k < |neg| ==> IsNegativeSweep(day[neg[k]])
    ensures var pairs := Pairs(day, pos, neg);
            (forall k :: 0 <= k < |pairs| ==>
               IsPositiveSweep(day[pairs[k].0]) && IsNegativeSweep(day[pairs[k].1])
               && Offsets(day[pairs[k].0].netAmount, day[pairs[k].1].netAmount))
            && (forall k1, k2 :: 0 <= k1 < k2 < |pairs| ==> pairs[k1].1 != pairs[k2].1 && pairs[k1].0 < pairs[k2].0)
            && |Indices(pairs)| == 2 * |pairs|
  {
    var pairs := Pairs(day, pos, neg);
    PairsDistinct(day, pos, neg);
    forall k | 0 <= k < |pairs|
      ensures IsPositiveSweep(day[pairs[k].0]) && IsNegativeSweep(day[pairs[k].1])
    {
      var a :| 0 <= a < |pos| && pos[a] == pairs[k].0;
      var b :| 0 <= b < |neg| && neg[b] == pairs[k].1;
    }
  }

  /** An index is used by a list of pairs exactly when some pair names it. */
  lemma {:induction false} IndicesMembers(pairs: seq<(int, int)>)
    ensures forall x :: x in Indices(pairs) <==> exists k :: 0 <= k < |pairs| && (pairs[k].0 == x || pairs[k].1 == x)
  {
    if pairs != [] {
      var init := pairs[..|pairs| - 1];
      IndicesMembers(init);
      forall x
        ensures x in Indices(pairs) <==> exists k :: 0 <= k < |pairs| && (pairs[k].0 == x || pairs[k].1 == x)
      {
        if x in Indices(init) {
          var k :| 0 <= k < |init| && (init[k].0 == x || init[k].1 == x);
          assert pairs[k] == init[k];
        }
        if exists k :: 0 <= k < |pairs| && (pairs[k].0 == x || pairs[k].1 == x) {
          var k :| 0 <= k < |pairs| && (pairs[k].0 == x || pairs[k].1 == x);
          if k < |init| {
            assert init[k] == pairs[k];
          }
        }
      }
    }
  }

  /** The next positive candidate is not used by the pairs formed before it,
    * and it follows every positive side of them. */
  lemma NextPositiveIsFree(day: seq<Tx>, pos: seq<int>, neg: seq<int>)
    requires IndicesIn(day, pos) && IndicesIn(day, neg) && Increasing(pos) && pos != []
    requires IsPositiveSweep(day[pos[|pos| - 1]])
    requires forall k :: 0 <= k < |neg| ==> IsNegativeSweep(day[neg[k]])
    ensures var earlier := Pairs(day, pos[..|pos| - 1], neg);
            pos[|pos| - 1] !in Indices(earlier)
            && forall k :: 0 <= k < |earlier| ==> earlier[k].0 < pos[|pos| - 1]
  {
    var init := pos[..|pos| - 1];
    var p := pos[|pos| - 1];
    var earlier := Pairs(day, init, neg);
    forall a | 0 <= a < |init|
      ensures init[a] < p
    {
      assert pos[a] == init[a];
    }
    forall b | 0 <= b < |neg|
      ensures neg[b] != p
    {
      assert IsNegativeSweep(day[neg[b]]);
    }
    IndicesMembers(earlier);
  }

  /** One step of the matching: the pairs after candidate `k`. */
  lemma PairsStep(day: seq<Tx>, pos: seq<int>, neg: seq<int>, k: nat)
    requires IndicesIn(day, pos) && IndicesIn(day, neg) && k < |pos|
    ensures var earlier := Pairs(day, pos[..k], neg);
            Pairs(day, pos[..k + 1], neg)
              == match FirstMatch(day, day[pos[k]].netAmount, neg, Indices(earlier))
                 case None => earlier
                 case Some(n) => earlier + [(pos[k], n)]
  {
    var upTo := pos[..k + 1];
    assert upTo[..|upTo| - 1] == pos[..k] && upTo[|upTo| - 1] == pos[k];
  }

  /** Extending distinct pairs by a later positive and an unused, different
    * negative keeps them distinct and adds two indices. */
  lemma ExtendDistinct(earlier: seq<(int, int)>, p: int, n: int)
    requires p !in Indices(earlier) && n !in Indices(earlier) && p != n
    requires |Indices(earlier)| == 2 * |earlier|
    requires forall k :: 0 <= k < |earlier| ==> earlier[k].0 < p
    requires forall k1, k2 :: 0 <= k1 < k2 < |earlier| ==> earlier[k1].1 != earlier[k2].1 && earlier[k1].0 < earlier[k2].0
    ensures var pairs := earlier + [(p, n)];
            (forall k1, k2 :: 0 <= k1 < k2 < |pairs| ==> pairs[k1].1 != pairs[k2].1 && pairs[k1].0 < pairs[k2].0)
            && |Indices(pairs)| == 2 * |pairs|
  {
    var pairs := earlier + [(p, n)];
    IndicesMembers(earlier);
    forall k1, k2 | 0 <= k1 < k2 < |pairs|
      ensures pairs[k1].1 != pairs[k2].1 && pairs[k1].0 < pairs[k2].0
    {
      assert pairs[k1] == earlier[k1];
      if k2 < |earlier| {
        assert pairs[k2] == earlier[k2];
      }
    }
    assert pairs[..|pairs| - 1] == earlier;
    assert Indices(pairs) == Indices(earlier) + {p} + {n};
    assert |Indices(earlier) + {p}| == |Indices(earlier)| + 1;
  }

  /** No index is used twice, and the positive sides come in candidate order. */
  lemma {:induction false} PairsDistinct(day: seq<Tx>, pos: seq<int>, neg: seq<int>)
    requires IndicesIn(day, pos) && IndicesIn(day, neg) && Increasing(pos)
    requires forall k :: 0 <= k < |pos| ==> IsPositiveSweep(day[pos[k]])
    requires forall k :: 0 <= k < |neg| ==> IsNegativeSweep(day[neg[k]])
    ensures var pairs := Pairs(day, pos, neg);
            (forall k1, k2 :: 0 <= k1 < k2 < |pairs| ==> pairs[k1].1 != pairs[k2].1 && pairs[k1].0 < pairs[k2].0)
            && |Indices(pairs)| == 2 * |pairs|
  {
    if pos != [] {
      var k := |pos| - 1;
      var init := pos[..k];
      var p := pos[k];
      assert Increasing(init);
      PairsDistinct(day, init, neg);
      NextPositiveIsFree(day, pos, neg);
      PairsStep(day, pos, neg, k);
      assert pos[..k + 1] == pos;
      var earlier := Pairs(day, init, neg);
      var r := FirstMatch(day, day[p].netAmount, neg, Indices(earlier));
      if r.Some? {
        var n := r.value;
        PartnerIsNotPositive(day, p, n, neg);
        ExtendDistinct(earlier, p, n);
        assert Pairs(day, pos, neg) == earlier + [(p, n)];
      }
    }
  }

  /** A negative candidate is never the positive candidate it is paired with. */
  lemma PartnerIsNotPositive(day: seq<Tx>, p: int, n: int, neg: seq<int>)
    requires IndicesIn(day, neg) && 0 <= p < |day| && IsPositiveSweep(day[p])
    requires forall k :: 0 <= k < |neg| ==> IsNegativeSweep(day[neg[k]])
    requires n in neg
    ensures n != p
  {
    var b :| 0 <= b < |neg| && neg[b] == n;
  }

  /** Dropping the matched indices removes exactly as many transactions as
    * there are matched indices below `n`. */
  lemma {:induction false} UnmatchedLength(day: seq<Tx>, matched: set<int>, n: nat)
    requires n <= |day|
    ensures |Unmatched(day, matched, n)| == n - |set x | x in matched && 0 <= x < n|
  {
    if n > 0 {
      UnmatchedLength(day, matched, n - 1);
      var below := set x | x in matched && 0 <= x < n - 1;
      if n - 1 in matched {
        assert (set x | x in matched && 0 <= x < n) == below + {n - 1};
      } else {
        assert (set x | x in matched && 0 <= x < n) == below;
      }
    }
  }

  /** Every unmatched transaction survives, in order: the day shrinks by two per pair. */
  lemma DayResultLength(day: seq<Tx>)
    ensures |DayResult(day)| == |day| - 2 * |DayPairs(day)|
  {
    var pairs := DayPairs(day);
    var matched := Indices(pairs);
    assert |matched| == 2 * |pairs| by {
      PairsDistinct(day, PositiveCandidates(day), NegativeCandidates(day));
    }
    assert (set x | x in matched && 0 <= x < |day|) == matched by {
      IndicesMembers(pairs);
    }
    UnmatchedLength(day, matched, |day|);
  }

  /** A transaction is dropped exactly when its index is matched. */
  lemma {:induction false} UnmatchedKeepsTheRest(day: seq<Tx>, matched: set<int>, n: nat)
    requires n <= |day|
    ensures forall i :: 0 <= i < n && i !in matched ==> day[i] in Unmatched(day, matched, n)
    ensures forall t :: t in Unmatched(day, matched, n) ==> exists i :: 0 <= i < n && i !in matched && day[i] == t
  {
    if n > 0 {
      UnmatchedKeepsTheRest(day, matched, n - 1);
    }
  }

  // ---------------------------------------------------------------------------
  // The whole list

  function FilterDays(txs: seq<Tx>, ds: seq<string>): seq<Tx>
  {
    if ds == [] then [] else FilterDays(txs, ds[..|ds| - 1]) + DayResult(DayOf(txs, ds[|ds| - 1]))
  }

  /** `_filter_sweep_pairs`: date by date in order of first appearance, the
    * unmatched transactions of that date in input order. */
  function SweepFiltered(txs: seq<Tx>): seq<Tx>
  {
    FilterDays(txs, GroupDates(txs))
  }

  function SumDays(txs: seq<Tx>, ds: seq<string>): int
  {
    if ds == [] then 0 else SumDays(txs, ds[..|ds| - 1]) + |DayOf(txs, ds[|ds| - 1])|
  }

  function PairCount(txs: seq<Tx>, ds: seq<string>): int
  {
    if ds == [] then 0 else PairCount(txs, ds[..|ds| - 1]) + |DayPairs(DayOf(txs, ds[|ds| - 1]))|
  }

  function Count(ds: seq<string>, d: string): int
  {
    if ds == [] then 0 else Count(ds[..|ds| - 1], d) + (if ds[|ds| - 1] == d then 1 else 0)
  }

  lemma {:induction false} CountDistinct(ds: seq<string>, d: string)
    requires Distinct(ds)
    ensures Count(ds, d) == if d in ds then 1 else 0
  {
    if ds != [] {
      var init := ds[..|ds| - 1];
      assert Distinct(init);
      CountDistinct(init, d);
      if ds[|ds| - 1] == d {
        assert d !in init by {
          forall k | 0 <= k < |init|
            ensures init[k] != d
          {
            assert ds[k] == init[k];
          }
        }
      }
      assert d in ds <==> d in init || ds[|ds| - 1] == d;
    }
  }

  lemma {:induction false} SumDaysAppend(txs: seq<Tx>, t: Tx, ds: seq<string>)
    ensures SumDays(txs + [t], ds) == SumDays(txs, ds) + Count(ds, TxDate(t))
  {
    if ds != [] {
      SumDaysAppend(txs, t, ds[..|ds| - 1]);
      assert (txs + [t])[..|txs + [t]| - 1] == txs;
    }
  }

  lemma {:induction false} SumDaysCoversAll(txs: seq<Tx>, ds: seq<string>, n: nat)
    requires n <= |txs| && Distinct(ds)
    requires forall i :: 0 <= i < |txs| ==> TxDate(txs[i]) in ds
    ensures SumDays(txs[..n], ds) == n
  {
    if n == 0 {
      SumDaysEmpty(ds);
    } else {
      SumDaysCoversAll(txs, ds, n - 1);
      assert txs[..n] == txs[..n - 1] + [txs[n - 1]];
      SumDaysAppend(txs[..n - 1], txs[n - 1], ds);
      CountDistinct(ds, TxDate(txs[n - 1]));
    }
  }

  lemma {:induction false} SumDaysEmpty(ds: seq<string>)
    ensures SumDays([], ds) == 0
  {
    if ds != [] {
      SumDaysEmpty(ds[..|ds| - 1]);
    }
  }

  lemma {:induction false} FilterDaysLength(txs: seq<Tx>, ds: seq<string>)
    ensures |FilterDays(txs, ds)| == SumDays(txs, ds) - 2 * PairCount(txs, ds)
  {
    if ds != [] {
      FilterDaysLength(txs, ds[..|ds| - 1]);
      DayResultLength(DayOf(txs, ds[|ds| - 1]));
    }
  }

  /** Every transaction not in a matched pair is retained: the output is
    * shorter than the input by exactly two per matched pair. */
  lemma SweepFilterRemovesOnlyPairs(txs: seq<Tx>)
    ensures |SweepFiltered(txs)| == |txs| - 2 * PairCount(txs, GroupDates(txs))
  {
    var ds := GroupDates(txs);
    GroupDatesListsEachDateOnce(txs);
    assert forall i :: 0 <= i < |txs| ==> TxDate(txs[i]) in ds;
    SumDaysCoversAll(txs, ds, |txs|);
    assert txs[..|txs|] == txs;
    FilterDaysLength(txs, ds);
  }

  // ---------------------------------------------------------------------------
  // The loops of _filter_sweep_pairs

  /** The candidate loop. */
  method SweepCandidates(day: seq<Tx>) returns (pos: seq<int>, neg: seq<int>)
    ensures pos == PositiveCandidates(day) && neg == NegativeCandidates(day)
  {
    pos, neg := [], [];
    for i := 0 to |day|
      invariant pos == PositiveCandidates(day[..i]) && neg == NegativeCandidates(day[..i])
    {
      assert day[..i + 1][..i] == day[..i];
      var tx := day[i];
      if tx.netAmount > 0.0 && tx.description in PositiveSweeps {
        pos := pos + [i];
      } else if tx.netAmount < 0.0 && tx.description in NegativeSweeps {
        neg := neg + [i];
      }
    }
    assert day[..|day|] == day;
  }

  /** The inner matching loop: the first negative candidate still free that
    * offsets `pVal`. */
  method FindPartner(day: seq<Tx>, pVal: real, neg: seq<int>, matched: set<int>) returns (r: Option<int>)
    requires IndicesIn(day, neg)
    ensures r == FirstMatch(day, pVal, neg, matched)
  {
    for j := 0 to |neg|
      invariant FirstMatch(day, pVal, neg, matched) == FirstMatch(day, pVal, neg[j..], matched)
    {
      assert neg[j..][1..] == neg[j + 1..];
      var nIdx := neg[j];
      if nIdx in matched {
        continue;
      }
      var nVal := day[nIdx].netAmount;
      if Abs(pVal + nVal) < 0.0001 {
        return Some(nIdx);
      }
    }
    return None;
  }

  /** The matching loop: `matched_indices` after every positive candidate. */
  method MatchSweepPairs(day: seq<Tx>, pos: seq<int>, neg: seq<int>) returns (matched: set<int>)
    requires IndicesIn(day, pos) && IndicesIn(day, neg)
    ensures matched == Indices(Pairs(day, pos, neg))
  {
    matched := {};
    for k := 0 to |pos|
      invariant matched == Indices(Pairs(day, pos[..k], neg))
    {
      var pIdx := pos[k];
      var partner := FindPartner(day, day[pIdx].netAmount, neg, matched);
      MatchStep(day, pos, neg, k, matched, partner);
      if partner.Some? {
        matched := matched + {pIdx} + {partner.value};
      }
    }
    assert pos[..|pos|] == pos;
  }

  /** One step of the matching loop on `matched_indices`. */
  lemma MatchStep(day: seq<Tx>, pos: seq<int>, neg: seq<int>, k: nat, matched: set<int>, partner: Option<int>)
    requires IndicesIn(day, pos) && IndicesIn(day, neg) && k < |pos|
    requires matched == Indices(Pairs(day, pos[..k], neg))
    requires partner == FirstMatch(day, day[pos[k]].netAmount, neg, matched)
    ensures Indices(Pairs(day, pos[..k + 1], neg))
            == if partner.Some? then matched + {pos[k]} + {partner.value} else matched
  {
    PairsStep(day, pos, neg, k);
    if partner.Some? {
      IndicesSnoc(Pairs(day, pos[..k], neg), (pos[k], partner.value));
    }
  }

  /** The keeping loop. */
  method KeepUnmatched(day: seq<Tx>, matched: set<int>) returns (kept: seq<Tx>)
    ensures kept == Unmatched(day, matched, |day|)
  {
    kept := [];
    for i := 0 to |day|
      invariant kept == Unmatched(day, matched, i)
    {
      if i !in matched {
        kept := kept + [day[i]];
      }
    }
  }

  /** The grouping loop: a map from date to that date's transactions, plus
    * the dates in order of first appearance, as Python's dict keeps them. */
  method GroupByDate(txs: seq<Tx>) returns (order: seq<string>, byDate: map<string, seq<Tx>>)
    ensures order == GroupDates(txs)
    ensures forall d :: d in byDate <==> d in order
    ensures forall d :: d in byDate ==> byDate[d] == DayOf(txs, d)
  {
    order, byDate := [], map[];
    for i := 0 to |txs|
      invariant order == GroupDates(txs[..i])
      invariant forall d :: d in byDate <==> d in order
      invariant forall d :: d in byDate ==> byDate[d] == DayOf(txs[..i], d)
      invariant forall d :: d !in order ==> DayOf(txs[..i], d) == []
    {
      assert txs[..i + 1][..i] == txs[..i];
      var d := DateOf(txs[i].time);
      if d in byDate {
        byDate := byDate[d := byDate[d] + [txs[i]]];
      } else {
        byDate := byDate[d := [txs[i]]];
        order := order + [d];
      }
    }
    assert txs[..|txs|] == txs;
  }

  /** `_filter_sweep_pairs`: group by date, then handle each date. */
  method FilterSweepPairs(txs: seq<Tx>) returns (finalList: seq<Tx>)
    ensures finalList == SweepFiltered(txs)
  {
    var order, byDate := GroupByDate(txs);
    finalList := [];
    for k := 0 to |order|
      invariant finalList == FilterDays(txs, order[..k])
    {
      FilterDaysStep(txs, order, k);
      assert order[k] in order;
      var kept := FilterDay(byDate[order[k]]);
      finalList := finalList + kept;
    }
    assert order[..|order|] == order;
  }

  lemma FilterDaysStep(txs: seq<Tx>, ds: seq<string>, k: nat)
    requires k < |ds|
    ensures FilterDays(txs, ds[..k + 1]) == FilterDays(txs, ds[..k]) + DayResult(DayOf(txs, ds[k]))
  {
    assert ds[..k + 1][..k] == ds[..k];
  }

  /** The body of the per-date loop: candidates, matching, then keeping. */
  method FilterDay(day: seq<Tx>) returns (kept: seq<Tx>)
    ensures kept == DayResult(day)
  {
    var pos, neg := SweepCandidates(day);
    var matched := MatchSweepPairs(day, pos, neg);
    kept := KeepUnmatched(day, matched);
  }

  // ---------------------------------------------------------------------------
  // _filter_transactions

  const GoogAccount := "96839515"
  const AlwaysKeptTypes: seq<string> := ["CASH_RECEIPT", "JOURNAL", "ELECTRONIC_FUND", "CASH_DISBURSEMENT"]

  /** A TRADE that concerns GOOG, by its description or one of its transfer items. */
  predicate IsGoogTrade(tx: Tx)
  {
    tx.txType == "TRADE" && (HasSubstring(tx.description, "GOOG") || Some("GOOG") in tx.transferSymbols)
  }

  predicate KeptForGoogAccount(tx: Tx)
  {
    tx.txType in AlwaysKeptTypes || IsGoogTrade(tx)
  }

  function KeepGoogAccount(txs: seq<Tx>): (kept: seq<Tx>)
    ensures forall t :: t in kept <==> t in txs && KeptForGoogAccount(t)
  {
    if txs == [] then []
    else
      var init := txs[..|txs| - 1];
      assert txs == init + [txs[|txs| - 1]];
      KeepGoogAccount(init) + (if KeptForGoogAccount(txs[|txs| - 1]) then [txs[|txs| - 1]] else [])
  }

  /** The account-specific step: account 96839515 keeps the cash movements and
    * its GOOG trades, every other account keeps everything. */
  function AccountFilter(acctNum: string, txs: seq<Tx>): (kept: seq<Tx>)
    ensures acctNum != GoogAccount ==> kept == txs
    ensures acctNum == GoogAccount ==> forall t :: t in kept <==> t in txs && KeptForGoogAccount(t)
  {
    if acctNum == GoogAccount then KeepGoogAccount(txs) else txs
  }

  /** The transfer-item loop: does some item name GOOG? */
  method HasGoogItem(items: seq<Option<string>>) returns (found: bool)
    ensures found <==> Some("GOOG") in items
  {
    found := false;
    for j := 0 to |items|
      invariant found <==> Some("GOOG") in items[..j]
    {
      assert items[..j + 1] == items[..j] + [items[j]];
      if items[j] == Some("GOOG") {
        found := true;
        break;
      }
    }
    assert found || items[..|items|] == items;
  }

  /** `_filter_transactions`: the sweep filter, then the account-specific keep loop. */
  method FilterTransactions(acctNum: string, txs: seq<Tx>) returns (finalTxs: seq<Tx>)
    ensures finalTxs == AccountFilter(acctNum, SweepFiltered(txs))
  {
    var filtered := FilterSweepPairs(txs);
    if acctNum == GoogAccount {
      finalTxs := KeepGoogTransactions(filtered);
    } else {
      finalTxs := filtered;
    }
  }

  /** The keep loop of account 96839515. */
  method KeepGoogTransactions(txs: seq<Tx>) returns (kept: seq<Tx>)
    ensures kept == KeepGoogAccount(txs)
  {
    kept := [];
    for i := 0 to |txs|
      invariant kept == KeepGoogAccount(txs[..i])
    {
      KeepGoogStep(txs, i);
      var keep := KeptByGoogAccount(txs[i]);
      if keep {
        kept := kept + [txs[i]];
      }
    }
    assert txs[..|txs|] == txs;
  }

  /** The body of the keep loop: a cash movement is kept at once; a TRADE is
    * kept when its description names GOOG or, failing that, one of its
    * transfer items does. */
  method KeptByGoogAccount(tx: Tx) returns (keep: bool)
    ensures keep == KeptForGoogAccount(tx)
  {
    if tx.txType in AlwaysKeptTypes {
      return true;
    }
    keep := false;
    if tx.txType == "TRADE" {
      keep := HasSubstring(tx.description, "GOOG");
      if !keep {
        keep := HasGoogItem(tx.transferSymbols);
      }
    }
  }

  lemma KeepGoogStep(txs: seq<Tx>, i: nat)
    requires i < |txs|
    ensures KeepGoogAccount(txs[..i + 1])
            == KeepGoogAccount(txs[..i]) + (if KeptForGoogAccount(txs[i]) then [txs[i]] else [])
  {
    assert txs[..i + 1][..i] == txs[..i];
  }

  // ---------------------------------------------------------------------------
  // _get_types_for_account

  datatype TxType =
    | ACH_RECEIPT | WIRE_IN | ELECTRONIC_FUND | CASH_RECEIPT | JOURNAL | RECEIVE_AND_DELIVER
    | CASH_DISBURSEMENT | TRADE

  /** The transaction types fetched: the cash movements plus TRADE for account
    * 96839515, the six deposit types for every other account. */
  function TypesForAccount(acctNum: string): (types: seq<TxType>)
    ensures |types| == if acctNum == GoogAccount then 5 else 6
    ensures TRADE in types <==> acctNum == GoogAccount
    ensures CASH_DISBURSEMENT in types <==> acctNum == GoogAccount
    ensures ACH_RECEIPT in types <==> acctNum != GoogAccount
    ensures ELECTRONIC_FUND in types && CASH_RECEIPT in types && JOURNAL in types
  {
    if acctNum == GoogAccount then [CASH_RECEIPT, JOURNAL, ELECTRONIC_FUND, CASH_DISBURSEMENT, TRADE]
    else [ACH_RECEIPT, WIRE_IN, ELECTRONIC_FUND, CASH_RECEIPT, JOURNAL, RECEIVE_AND_DELIVER]
  }

  // ---------------------------------------------------------------------------
  // update_daily_contributions

  const DaySeconds := 86400
  const ChunkSeconds := 360 * DaySeconds

  /** The `(start_date, end_date)` windows the fetch loop asks for from `cursor` on. */
  function Windows(cursor: int, today: int): seq<(int, int)>
    decreases today - cursor
  {
    if cursor >= today then []
    else
      var e := Min(cursor + ChunkSeconds, today);
      [(cursor, e)] + Windows(e + 1, today)
  }

  /** The windows: none when the start is not before today; otherwise the
    * first starts at the cursor, each spans at most 360 days, each starts one
    * second after the previous one ends, and the last ends at `today`, except
    * when a full window ends one second before it (the next cursor is then
    * `today` and the loop stops). */
  lemma {:induction false} WindowsShape(cursor: int, today: int)
    ensures var ws := Windows(cursor, today);
            (ws == [] <==> cursor >= today)
            && (ws != [] ==> ws[0].0 == cursor)
            && (ws != [] ==> ws[|ws| - 1].1 == today || ws[|ws| - 1].1 + 1 == today)
            && (forall k :: 0 <= k < |ws| ==> cursor <= ws[k].0 < ws[k].1 <= today && ws[k].1 - ws[k].0 <= ChunkSeconds)
            && (forall k :: 1 <= k < |ws| ==> ws[k].0 == ws[k - 1].1 + 1)
    decreases today - cursor
  {
    if cursor < today {
      var e := Min(cursor + ChunkSeconds, today);
      var rest := Windows(e + 1, today);
      WindowsShape(e + 1, today);
      var ws := [(cursor, e)] + rest;
      assert Windows(cursor, today) == ws;
      assert forall k :: 1 <= k < |ws| ==> ws[k] == rest[k - 1];
    }
  }

  /** A broker response for one window: the transactions of a 200 reply,
    * another status (logged, the window adds nothing), or an exception
    * raised by the request or by reading its body. */
  datatype Reply = Answered(txs: seq<Tx>) | BadStatus | Raised

  type Fetch = (string, int, int, seq<TxType>) -> Reply

  /** `all_txs`: the answered windows' transactions, in window order; `None`
    * once a window raises, which leaves the account's `try` block before
    * the later windows are asked for. */
  function Fetched(hash: string, types: seq<TxType>, ws: seq<(int, int)>, fetch: Fetch): Option<seq<Tx>>
  {
    if ws == [] then Some([])
    else
      var reply := fetch(hash, ws[0].0, ws[0].1, types);
      if reply.Raised? then None
      else
        var rest := Fetched(hash, types, ws[1..], fetch);
        if rest.None? then None
        else Some((if reply.Answered? then reply.txs else []) + rest.value)
  }

  /** Transactions gathered so far, ahead of what the remaining windows give. */
  function Prepend(txs: seq<Tx>, rest: Option<seq<Tx>>): Option<seq<Tx>>
  {
    if rest.None? then None else Some(txs + rest.value)
  }

  lemma PrependNothing(r: Option<seq<Tx>>)
    ensures Prepend([], r) == r
  {
    if r.Some? {
      assert [] + r.value == r.value;
    }
  }

  lemma PrependChunk(txs: seq<Tx>, chunk: seq<Tx>, rest: Option<seq<Tx>>)
    ensures Prepend(txs + chunk, rest) == Prepend(txs, Prepend(chunk, rest))
  {
    if rest.Some? {
      assert txs + chunk + rest.value == txs + (chunk + rest.value);
    }
  }

  /** The fetch of an account fails exactly when one of its windows raises. */
  lemma {:induction false} FetchedFailsIffRaised(hash: string, types: seq<TxType>, ws: seq<(int, int)>, fetch: Fetch)
    ensures Fetched(hash, types, ws, fetch).None?
            <==> exists k :: 0 <= k < |ws| && fetch(hash, ws[k].0, ws[k].1, types).Raised?
  {
    if ws != [] {
      FetchedFailsIffRaised(hash, types, ws[1..], fetch);
      if fetch(hash, ws[0].0, ws[0].1, types).Raised? {
        assert 0 < |ws|;
      } else {
        assert forall k :: 1 <= k < |ws| ==> ws[k] == ws[1..][k - 1];
        if exists k :: 0 <= k < |ws| && fetch(hash, ws[k].0, ws[k].1, types).Raised? {
          var k :| 0 <= k < |ws| && fetch(hash, ws[k].0, ws[k].1, types).Raised?;
          assert k != 0;
          assert ws[1..][k - 1] == ws[k];
        }
      }
    }
  }

  /** The fetch loop of one account: window by window from `start` to `today`,
    * leaving at the first window that raises. */
  method FetchAccount(hash: string, types: seq<TxType>, start: int, today: int, fetch: Fetch)
    returns (allTxs: Option<seq<Tx>>)
    ensures allTxs == Fetched(hash, types, Windows(start, today), fetch)
  {
    var txs: seq<Tx> := [];
    var cursor := start;
    PrependNothing(Fetched(hash, types, Windows(start, today), fetch));
    while cursor < today
      invariant Prepend(txs, Fetched(hash, types, Windows(cursor, today), fetch))
                == Fetched(hash, types, Windows(start, today), fetch)
      decreases today - cursor
    {
      var chunkEnd := Min(cursor + ChunkSeconds, today);
      var resp := fetch(hash, cursor, chunkEnd, types);
      ghost var ws := Windows(cursor, today);
      assert ws[0] == (cursor, chunkEnd) && ws[1..] == Windows(chunkEnd + 1, today);
      if resp.Raised? {
        return None;
      }
      var chunk := if resp.Answered? then resp.txs else [];
      PrependChunk(txs, chunk, Fetched(hash, types, ws[1..], fetch));
      txs := txs + chunk;
      cursor := chunkEnd + 1;
    }
    assert txs + [] == txs;
    allTxs := Some(txs);
  }

  /** An account of `get_hashs`: its number and its hash. */
  datatype Account = Account(number: string, hash: string)

  const SkippedAccount := "37522548"

  predicate Processed(a: Account, exclude: set<string>)
  {
    a.number != SkippedAccount && a.number !in exclude
  }

  /** What one processed account saves: its fetched transactions, filtered;
    * nothing when its `try` block raised. */
  function AccountResult(a: Account, start: int, today: int, fetch: Fetch): Option<seq<Tx>>
  {
    var fetched := Fetched(a.hash, TypesForAccount(a.number), Windows(start, today), fetch);
    if fetched.None? then None
    else Some(AccountFilter(a.number, SweepFiltered(fetched.value)))
  }

  /** The accounts that save something, in order: not skipped, and not
    * stopped by an exception. */
  function SavingAccounts(accounts: seq<Account>, exclude: set<string>, start: int, today: int, fetch: Fetch)
    : (ps: seq<Account>)
    ensures forall a :: a in ps <==> a in accounts && Processed(a, exclude) && AccountResult(a, start, today, fetch).Some?
  {
    if accounts == [] then []
    else
      var init := accounts[..|accounts| - 1];
      var a := accounts[|accounts| - 1];
      assert accounts == init + [a];
      SavingAccounts(init, exclude, start, today, fetch)
        + (if Processed(a, exclude) && AccountResult(a, start, today, fetch).Some? then [a] else [])
  }

  /** What `_save_transactions` is handed: one entry per account not skipped
    * whose fetch did not raise, with that account's filtered transactions. */
  function Contributions(accounts: seq<Account>, exclude: set<string>, start: int, today: int, fetch: Fetch)
    : seq<(string, seq<Tx>)>
  {
    if accounts == [] then []
    else
      var init := accounts[..|accounts| - 1];
      var a := accounts[|accounts| - 1];
      var rest := Contributions(init, exclude, start, today, fetch);
      var result := AccountResult(a, start, today, fetch);
      if !Processed(a, exclude) || result.None? then rest else rest + [(a.number, result.value)]
  }

  /** One entry per saving account, in order, with that account's result. */
  lemma {:induction false} ContributionsPerAccount(accounts: seq<Account>, exclude: set<string>, start: int,
                                                   today: int, fetch: Fetch)
    ensures var saved := Contributions(accounts, exclude, start, today, fetch);
            var ps := SavingAccounts(accounts, exclude, start, today, fetch);
            |saved| == |ps|
            && forall k :: 0 <= k < |saved| ==>
                 AccountResult(ps[k], start, today, fetch).Some?
                 && saved[k] == (ps[k].number, AccountResult(ps[k], start, today, fetch).value)
  {
    if accounts != [] {
      ContributionsPerAccount(accounts[..|accounts| - 1], exclude, start, today, fetch);
    }
  }

  /** An account whose `try` block raises is logged and passed over: the
    * accounts before and after it save exactly what they would without it. */
  lemma {:induction false} RaisingAccountIsPassedOver(before: seq<Account>, a: Account, after: seq<Account>,
                                                      exclude: set<string>, start: int, today: int, fetch: Fetch)
    requires AccountResult(a, start, today, fetch).None?
    ensures Contributions(before + [a] + after, exclude, start, today, fetch)
            == Contributions(before + after, exclude, start, today, fetch)
    decreases |after|
  {
    if after == [] {
      assert before + [a] + after == before + [a];
      ContributionsSnoc(before, a, exclude, start, today, fetch);
      assert before + after == before;
    } else {
      var init := after[..|after| - 1];
      var b := after[|after| - 1];
      RaisingAccountIsPassedOver(before, a, init, exclude, start, today, fetch);
      SplitLast(before + [a], after);
      SplitLast(before, after);
      SameContributionsSnoc(before + [a] + init, before + init, b, exclude, start, today, fetch);
    }
  }

  lemma ContributionsStep(accts: seq<Account>, i: nat, exclude: set<string>, start: int, today: int, fetch: Fetch)
    requires i < |accts|
    ensures var result := AccountResult(accts[i], start, today, fetch);
            Contributions(accts[..i + 1], exclude, start, today, fetch)
            == Contributions(accts[..i], exclude, start, today, fetch)
               + (if !Processed(accts[i], exclude) || result.None? then [] else [(accts[i].number, result.value)])
  {
    assert accts[..i + 1] == accts[..i] + [accts[i]];
    ContributionsSnoc(accts[..i], accts[i], exclude, start, today, fetch);
  }

  lemma SplitLast(xs: seq<Account>, after: seq<Account>)
    requires after != []
    ensures xs + after == (xs + after[..|after| - 1]) + [after[|after| - 1]]
  {
    assert after == after[..|after| - 1] + [after[|after| - 1]];
  }

  lemma SameContributionsSnoc(x: seq<Account>, y: seq<Account>, b: Account,
                              exclude: set<string>, start: int, today: int, fetch: Fetch)
    requires Contributions(x, exclude, start, today, fetch) == Contributions(y, exclude, start, today, fetch)
    ensures Contributions(x + [b], exclude, start, today, fetch) == Contributions(y + [b], exclude, start, today, fetch)
  {
    ContributionsSnoc(x, b, exclude, start, today, fetch);
    ContributionsSnoc(y, b, exclude, start, today, fetch);
  }

  lemma ContributionsSnoc(s: seq<Account>, b: Account, exclude: set<string>, start: int, today: int, fetch: Fetch)
    ensures var result := AccountResult(b, start, today, fetch);
            Contributions(s + [b], exclude, start, today, fetch)
            == Contributions(s, exclude, start, today, fetch)
               + (if !Processed(b, exclude) || result.None? then [] else [(b.number, result.value)])
  {
    assert (s + [b])[..|s + [b]| - 1] == s;
    var rest := Contributions(s, exclude, start, today, fetch);
    assert rest + [] == rest;
  }

  /** The body of the account loop for an account that is not skipped:
    * `None` when its `try` block raised. */
  method ProcessAccount(a: Account, start: int, today: int, fetch: Fetch) returns (filtered: Option<seq<Tx>>)
    ensures filtered == AccountResult(a, start, today, fetch)
  {
    var types := TypesForAccount(a.number);
    var allTxs := FetchAccount(a.hash, types, start, today, fetch);
    if allTxs.None? {
      return None;
    }
    var kept := FilterTransactions(a.number, allTxs.value);
    filtered := Some(kept);
  }

  /** `update_daily_contributions`: `accounts` is `get_hashs` (`None` when it
    * raises), `today` is `datetime.now()` and `fetch` the broker's
    * `get_transactions`. Every fetch starts at `StartOf(today, daysBack)`. */
  method UpdateDailyContributions(accounts: Option<seq<Account>>, exclude: set<string>, daysBack: int,
                                  today: int, fetch: Fetch)
    returns (saved: seq<(string, seq<Tx>)>)
    ensures accounts.None? || accounts.value == [] ==> saved == []
    ensures accounts.Some? ==> saved == Contributions(accounts.value, exclude, StartOf(today, daysBack), today, fetch)
  {
    if accounts.None? || accounts.value == [] {
      return [];
    }
    saved := SaveAccounts(accounts.value, exclude, StartOf(today, daysBack), today, fetch);
  }

  /** `start_date`: `days_back` days before today. */
  function StartOf(today: int, daysBack: int): int
  {
    today - daysBack * DaySeconds
  }

  /** The account loop of `update_daily_contributions`. */
  method SaveAccounts(accts: seq<Account>, exclude: set<string>, start: int, today: int, fetch: Fetch)
    returns (saved: seq<(string, seq<Tx>)>)
    ensures saved == Contributions(accts, exclude, start, today, fetch)
  {
    saved := [];
    for i := 0 to |accts|
      invariant saved == Contributions(accts[..i], exclude, start, today, fetch)
    {
      var a := accts[i];
      ContributionsStep(accts, i, exclude, start, today, fetch);
      if a.number != SkippedAccount && a.number !in exclude {
        var filtered := ProcessAccount(a, start, today, fetch);
        if filtered.Some? {
          saved := saved + [(a.number, filtered.value)];
        }
      }
    }
    assert accts[..|accts|] == accts;
  }

  /** The windows cover `[cursor, today)` without gaps or overlaps: every
    * instant in it lies in exactly one window. */
  lemma {:induction false} WindowsCoverOnce(cursor: int, today: int, t: int)
    requires cursor <= t < today
    ensures exists k :: 0 <= k < |Windows(cursor, today)| && Windows(cursor, today)[k].0 <= t <= Windows(cursor, today)[k].1
    ensures var ws := Windows(cursor, today);
            forall k1, k2 :: 0 <= k1 < |ws| && 0 <= k2 < |ws| && ws[k1].0 <= t <= ws[k1].1 && ws[k2].0 <= t <= ws[k2].1
              ==> k1 == k2
    decreases today - cursor
  {
    var ws := Windows(cursor, today);
    var e := Min(cursor + ChunkSeconds, today);
    var rest := Windows(e + 1, today);
    assert ws == [(cursor, e)] + rest;
    if t > e {
      WindowsCoverOnce(e + 1, today, t);
      var k :| 0 <= k < |rest| && rest[k].0 <= t <= rest[k].1;
      assert ws[k + 1] == rest[k];
      assert 0 <= k + 1 < |ws| && ws[k + 1].0 <= t <= ws[k + 1].1;
    } else {
      assert ws[0] == (cursor, e);
      assert 0 < |ws| && ws[0].0 <= t <= ws[0].1;
    }
    forall k1, k2 | 0 <= k1 < |ws| && 0 <= k2 < |ws| && ws[k1].0 <= t <= ws[k1].1 && ws[k2].0 <= t <= ws[k2].1
      ensures k1 == k2
    {
      if k1 < k2 {
        WindowsIncrease(cursor, today, k1, k2);
      } else if k2 < k1 {
        WindowsIncrease(cursor, today, k2, k1);
      }
    }
  }

  /** Later windows start after earlier ones end. */
  lemma {:induction false} WindowsIncrease(cursor: int, today: int, k1: int, k2: int)
    requires 0 <= k1 < k2 < |Windows(cursor, today)|
    ensures Windows(cursor, today)[k1].1 < Windows(cursor, today)[k2].0
    decreases k2 - k1
  {
    WindowsShape(cursor, today);
    if k2 > k1 + 1 {
      WindowsIncrease(cursor, today, k1, k2 - 1);
    }
  }
}
