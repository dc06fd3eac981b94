/** The data logic of the asset calendar widget (`frontend/AssetCalendarApp.jsx`):
  * the forward fill of missing days, the colour bands of a day's change, the
  * five-week view, a cell's change, the Korean-won abbreviation, saving an
  * input, and the view and monthly statistics.
  *
  * A date is a day number (days since 1970-01-01, a Thursday); the assets
  * map holds US-dollar values by day. */
module AssetCalendar {
  import opened Common

  const ExchangeRate: real := 1450.0

  // ---------------------------------------------------------------------------
  // fetchAssetData: gap filling

  /** The earliest day with a value. */
  method EarliestDay(days: set<int>) returns (first: int)
    requires days != {}
    ensures first in days && forall d :: d in days ==> first <= d
  {
    var rest := days;
    first := Pick(rest);
    rest := rest - {first};
    while rest != {}
      invariant first in days && rest <= days
      invariant forall d :: d in days && d !in rest ==> first <= d
      decreases |rest|
    {
      var d := Pick(rest);
      if d < first {
        first := d;
      }
      rest := rest - {d};
    }
  }

  /** The gap fill: every day from the earliest one with a value through
    * `today` that has none takes the value of the latest earlier day that
    * has one; filled days are reported. Existing values never change. */
  method FillGaps(raw: map<int, real>, today: int) returns (processed: map<int, real>, filled: set<int>)
    ensures raw == map[] ==> processed == raw && filled == {}
    ensures forall d :: d in raw ==> d in processed && processed[d] == raw[d]
    ensures forall d :: d in filled <==> d !in raw && d <= today && exists k :: k in raw && k < d
    ensures processed.Keys == raw.Keys + filled
    ensures forall d :: d in filled ==>
              exists k :: k in raw && k < d && processed[d] == raw[k] && forall j :: k < j < d ==> j !in raw
  {
    processed, filled := raw, {};
    if raw.Keys == {} {
      return;
    }
    var start := EarliestDay(raw.Keys);
    var day := start;
    var lastValue := raw[start];
    ghost var lastDay := start;
    while day <= today
      invariant start <= day && (day <= today + 1 || day == start)
      invariant lastDay in raw && start <= lastDay && lastValue == raw[lastDay]
      invariant day > start ==> lastDay < day && forall j :: lastDay < j < day ==> j !in raw
      invariant forall d :: d in raw ==> d in processed && processed[d] == raw[d]
      invariant forall d :: d in filled <==> d !in raw && start <= d < day
      invariant processed.Keys == raw.Keys + filled
      invariant forall d :: d in filled ==>
                  exists k :: k in raw && k < d && processed[d] == raw[k] && forall j :: k < j < d ==> j !in raw
      decreases today - day
    {
      if day in processed {
        lastValue := processed[day];
        lastDay := day;
      } else {
        processed := processed[day := lastValue];
        filled := filled + {day};
      }
      day := day + 1;
    }
    forall d | d !in raw && d <= today && (exists k :: k in raw && k < d)
      ensures d in filled
    {
      var k :| k in raw && k < d;
      assert start <= k;
    }
  }

  // ---------------------------------------------------------------------------
  // getColorClass / getChartColorClass

  /** The cell colour bands of a percent change, strongest first. */
  datatype Band = Green4 | Green3 | Green2 | Green1 | Neutral | Red1 | Red2 | Red3 | Red4

  function ColorBand(percent: real): (b: Band)
    ensures b.Neutral? <==> percent == 0.0
    ensures (b.Green4? || b.Green3? || b.Green2? || b.Green1?) <==> percent > 0.0
    ensures (b.Red4? || b.Red3? || b.Red2? || b.Red1?) <==> percent < 0.0
  {
    if percent >= 20.0 then Green4
    else if percent >= 10.0 then Green3
    else if percent >= 3.0 then Green2
    else if percent > 0.0 then Green1
    else if percent <= -20.0 then Red4
    else if percent <= -10.0 then Red3
    else if percent <= -3.0 then Red2
    else if percent < 0.0 then Red1
    else Neutral
  }

  /** The bands in order, from the strongest loss to the strongest gain. */
  function BandRank(b: Band): int
  {
    match b
    case Red4 => -4 case Red3 => -3 case Red2 => -2 case Red1 => -1
    case Neutral => 0
    case Green1 => 1 case Green2 => 2 case Green3 => 3 case Green4 => 4
  }

  /** A larger change never gets a weaker band, and each band's thresholds
    * are the ones the widget shows. */
  lemma ColorBandMonotone(p: real, q: real)
    ensures p <= q ==> BandRank(ColorBand(p)) <= BandRank(ColorBand(q))
    ensures ColorBand(p) == Green4 <==> p >= 20.0
    ensures ColorBand(p) == Green3 <==> 10.0 <= p < 20.0
    ensures ColorBand(p) == Green2 <==> 3.0 <= p < 10.0
    ensures ColorBand(p) == Green1 <==> 0.0 < p < 3.0
    ensures ColorBand(p) == Red1 <==> -3.0 < p < 0.0
    ensures ColorBand(p) == Red2 <==> -10.0 < p <= -3.0
    ensures ColorBand(p) == Red3 <==> -20.0 < p <= -10.0
    ensures ColorBand(p) == Red4 <==> p <= -20.0
  {
  }

  datatype ChartBand = Bar3Up | Bar2Up | Bar1Up | BarFlat | Bar1Down | Bar2Down | Bar3Down

  function ChartColor(percent: real): (b: ChartBand)
    ensures b.BarFlat? <==> percent == 0.0
    ensures (b.Bar3Up? || b.Bar2Up? || b.Bar1Up?) <==> percent > 0.0
  {
    if percent >= 10.0 then Bar3Up
    else if percent >= 5.0 then Bar2Up
    else if percent > 0.0 then Bar1Up
    else if percent == 0.0 then BarFlat
    else if percent > -5.0 then Bar1Down
    else if percent > -10.0 then Bar2Down
    else Bar3Down
  }

  function ChartRank(b: ChartBand): int
  {
    match b
    case Bar3Down => -3 case Bar2Down => -2 case Bar1Down => -1
    case BarFlat => 0
    case Bar1Up => 1 case Bar2Up => 2 case Bar3Up => 3
  }

  /** The chart bands are ordered like the changes: a gain's thresholds are
    * closed at 5 and 10, a loss's open at -5 and -10. */
  lemma ChartColorMonotone(p: real, q: real)
    ensures p <= q ==> ChartRank(ChartColor(p)) <= ChartRank(ChartColor(q))
    ensures ChartColor(p) == Bar3Up <==> p >= 10.0
    ensures ChartColor(p) == Bar2Up <==> 5.0 <= p < 10.0
    ensures ChartColor(p) == Bar1Up <==> 0.0 < p < 5.0
    ensures ChartColor(p) == BarFlat <==> p == 0.0
    ensures ChartColor(p) == Bar1Down <==> -5.0 < p < 0.0
    ensures ChartColor(p) == Bar2Down <==> -10.0 < p <= -5.0
    ensures ChartColor(p) == Bar3Down <==> p <= -10.0
  {
  }

  // ---------------------------------------------------------------------------
  // getViewRange and the week buttons

  /** `getDay()`: 0 for Sunday through 6 for Saturday. */
  function DayOfWeek(day: int): (w: int)
    ensures 0 <= w < 7
  {
    (day + 4) % 7
  }

  /** The first and last day of the five-week view around `current`. */
  function ViewRange(current: int): (r: (int, int))
  {
    var endDay := current + (6 - DayOfWeek(current));
    (endDay - 34, endDay)
  }

  /** The view runs from a Sunday to the Saturday of `current`'s week, 35
    * days in all; the week buttons move it by exactly one week. */
  lemma ViewRangeShape(current: int)
    ensures var (startDay, endDay) := ViewRange(current);
            DayOfWeek(endDay) == 6 && DayOfWeek(startDay) == 0
            && current <= endDay <= current + 6 && endDay - startDay + 1 == 35
    ensures ViewRange(current - 7) == (ViewRange(current).0 - 7, ViewRange(current).1 - 7)
    ensures ViewRange(current + 7) == (ViewRange(current).0 + 7, ViewRange(current).1 + 7)
  {
    var endDay := current + (6 - DayOfWeek(current));
    assert (endDay + 4) % 7 == 6;
    assert (current - 7 + 4) % 7 == (current + 4) % 7;
    assert (current + 7 + 4) % 7 == (current + 4) % 7;
  }

  // ---------------------------------------------------------------------------
  // renderCalendarCells: a cell's change

  datatype Change = Change(diffValue: real, percentChange: real)

  /** A cell's change from the day before, shown only when both days have a
    * value and the earlier one is not zero. */
  function CellChange(assets: map<int, real>, day: int): (c: Option<Change>)
    ensures c.Some? <==> day in assets && day - 1 in assets && assets[day - 1] != 0.0
    ensures c.Some? ==> c.value.diffValue == assets[day] - assets[day - 1]
                        && Abs(c.value.percentChange * assets[day - 1] - c.value.diffValue * 100.0)
                           <= 0.005 * Abs(assets[day - 1])
  {
    if day in assets && day - 1 in assets && assets[day - 1] != 0.0 then
      var diff := assets[day] - assets[day - 1];
      var pct := Round2(diff / assets[day - 1] * 100.0);
      RoundedPercentClose(diff, assets[day - 1], pct);
      Some(Change(diff, pct))
    else None
  }

  lemma RoundedPercentClose(diff: real, prev: real, pct: real)
    requires prev != 0.0 && Abs(pct - diff / prev * 100.0) <= 0.005
    ensures Abs(pct * prev - diff * 100.0) <= 0.005 * Abs(prev)
  {
    var e := pct - diff / prev * 100.0;
    assert pct * prev - diff * 100.0 == e * prev;
    if prev > 0.0 {
      if e >= 0.0 { assert e * prev <= 0.005 * prev; } else { assert -e * prev <= 0.005 * prev; }
    } else {
      if e >= 0.0 { assert e * -prev <= 0.005 * -prev; } else { assert -e * -prev <= 0.005 * -prev; }
    }
  }

  // ---------------------------------------------------------------------------
  // formatAbbreviatedMoney, Korean won

  /** The abbreviation's parts: 억 (10^8) and 만 (10^4), 만 alone, or whole won. */
  datatype WonAmount = Eok(negative: bool, eok: int, man: int) | Man(negative: bool, man: int) | Won(negative: bool, won: int)

  function KrwAbbreviation(usd: real): (a: WonAmount)
    ensures a.negative <==> usd < 0.0
  {
    var value := usd * ExchangeRate;
    var absVal := Abs(value);
    var negative := value < 0.0;
    if absVal >= 100000000.0 then
      var ok := Floor(absVal / 100000000.0);
      var man := JsRound((absVal - ok as real * 100000000.0) / 10000.0);
      if man >= 10000 then Eok(negative, ok + 1, 0) else Eok(negative, ok, man)
    else if absVal >= 10000.0 then Man(negative, JsRound(absVal / 10000.0))
    else Won(negative, JsRound(absVal))
  }

  /** The rendered abbreviation; whole won amounts use the browser's
    * grouping, which is not modelled, so they are shown ungrouped here. */
  function KrwText(a: WonAmount): string
  {
    var sign := if a.negative then "-" else "";
    match a
    case Eok(_, ok, man) =>
      sign + IntToString(ok) + "억" + (if man > 0 then IntToString(man) + "만" else "") + "원"
    case Man(_, man) => sign + IntToString(man) + "만원"
    case Won(_, won) => sign + IntToString(won) + "원"
  }

  /** The 억/만 parts are the won amount to the nearest 만, with 만 below
    * 10000 after the carry; the 만 form rounds to the nearest 만. */
  lemma KrwAbbreviationIsClose(usd: real)
    ensures var a := KrwAbbreviation(usd);
            var absVal := Abs(usd * ExchangeRate);
            (a.Eok? ==> absVal >= 100000000.0 && 1 <= a.eok && 0 <= a.man < 10000
                        && Abs(a.eok as real * 100000000.0 + a.man as real * 10000.0 - absVal) <= 5000.0)
            && (a.Man? ==> 10000.0 <= absVal < 100000000.0 && 1 <= a.man <= 10000
                           && Abs(a.man as real * 10000.0 - absVal) <= 5000.0)
            && (a.Won? ==> absVal < 10000.0)
  {
    var absVal := Abs(usd * ExchangeRate);
    if absVal >= 100000000.0 {
      var ok := Floor(absVal / 100000000.0);
      var rem := absVal - ok as real * 100000000.0;
      assert ok as real * 100000000.0 <= absVal < ok as real * 100000000.0 + 100000000.0;
      assert 0.0 <= rem < 100000000.0;
      var man := JsRound(rem / 10000.0);
      assert man as real * 10000.0 - 5000.0 <= rem <= man as real * 10000.0 + 5000.0;
    } else if absVal >= 10000.0 {
      var man := JsRound(absVal / 10000.0);
      assert man as real * 10000.0 - 5000.0 <= absVal <= man as real * 10000.0 + 5000.0;
    }
  }

  // ---------------------------------------------------------------------------
  // handleSaveInput

  /** `replace(/,/g, '')`. */
  function RemoveCommas(s: string): (r: string)
    ensures forall k :: 0 <= k < |r| ==> r[k] != ','
  {
    if s == [] then [] else (if s[0] == ',' then [] else [s[0]]) + RemoveCommas(s[1..])
  }

  predicate IsDigit(c: char) { '0' <= c <= '9' }

  /** The value of the leading digits of `s`, and how many there are. */
  function LeadingDigits(s: string, acc: nat): (r: (nat, nat))
    ensures r.1 <= |s|
  {
    if s == [] || !IsDigit(s[0]) then (acc, 0)
    else var r := LeadingDigits(s[1..], acc * 10 + (s[0] as int - '0' as int)); (r.0, r.1 + 1)
  }

  /** `parseInt(s, 10)`: leading white space, an optional sign, then the
    * leading digits; `None` is `NaN`. */
  function ParseInt(s: string): Option<int>
  {
    if s != [] && IsSpace(s[0]) then ParseInt(s[1..])
    else
      var negative := s != [] && s[0] == '-';
      var body := if s != [] && (s[0] == '-' || s[0] == '+') then s[1..] else s;
      var (value, count) := LeadingDigits(body, 0);
      if count == 0 then None else Some(if negative then -(value as int) else value as int)
  }

  /** Reading one more digit multiplies what was read by ten and adds it. */
  lemma {:induction false} LeadingDigitsSnoc(digits: string, c: char, acc: nat)
    requires forall k :: 0 <= k < |digits| ==> IsDigit(digits[k])
    requires IsDigit(c)
    ensures LeadingDigits(digits + [c], acc).0 == LeadingDigits(digits, acc).0 * 10 + (c as int - '0' as int)
  {
    if digits != [] {
      assert (digits + [c])[1..] == digits[1..] + [c];
      LeadingDigitsSnoc(digits[1..], c, acc * 10 + (digits[0] as int - '0' as int));
    }
  }

  /** All the characters of a digit string are read. */
  lemma {:induction false} LeadingDigitsCount(digits: string, acc: nat)
    requires forall k :: 0 <= k < |digits| ==> IsDigit(digits[k])
    ensures LeadingDigits(digits, acc).1 == |digits|
  {
    if digits != [] {
      LeadingDigitsCount(digits[1..], acc * 10 + (digits[0] as int - '0' as int));
    }
  }

  lemma {:induction false} LeadingDigitsOfNat(n: nat)
    ensures LeadingDigits(NatToString(n), 0) == (n, |NatToString(n)|)
  {
    LeadingDigitsCount(NatToString(n), 0);
    if n >= 10 {
      LeadingDigitsOfNat(n / 10);
      LeadingDigitsSnoc(NatToString(n / 10), Digit(n % 10), 0);
      DigitValue(n % 10);
    } else {
      DigitValue(n);
    }
  }

  lemma DigitValue(d: nat)
    requires d < 10
    ensures Digit(d) as int - '0' as int == d
  {
  }

  /** `parseInt` reads a rendered natural number back. */
  lemma ParseRendered(n: nat)
    ensures ParseInt(NatToString(n)) == Some(n)
  {
    var s := NatToString(n);
    assert !IsSpace(s[0]) && s[0] != '-' && s[0] != '+';
    LeadingDigitsOfNat(n);
  }

  datatype Currency = USD | KRW

  /** A real with no fractional part. */
  predicate IsWhole(v: real)
  {
    v.Floor as real == v
  }

  /** What the input box shows for a stored value: in won, the whole number
    * `Math.round` gives (the one in `(x - 0.5, x + 0.5]`, see
    * `Common.RoundIsNearestWhole`). */
  function ShownValue(usd: real, currency: Currency): (shown: real)
    ensures currency == USD ==> shown == usd
    ensures currency == KRW ==> IsWhole(shown)
                                && usd * ExchangeRate - 0.5 < shown <= usd * ExchangeRate + 0.5
  {
    if currency == KRW then JsRound(usd * ExchangeRate) as real else usd
  }

  /** `handleSaveInput`: with no selected day nothing changes; input that
    * does not start with a number removes the day's value; otherwise the
    * whole number read is stored, converted back to dollars and rounded
    * to a whole number of dollars with `Math.round` when it was entered
    * in won. */
  function SaveInput(assets: map<int, real>, selected: Option<int>, input: string, currency: Currency): (r: map<int, real>)
    ensures selected.None? ==> r == assets
    ensures selected.Some? ==> (r.Keys <= assets.Keys + {selected.value}
                                && forall d :: d in assets && d != selected.value ==> d in r && r[d] == assets[d])
    ensures selected.Some? ==> (selected.value in r <==> ParseInt(RemoveCommas(input)).Some?)
    ensures selected.Some? && currency == USD && ParseInt(RemoveCommas(input)).Some? ==>
              r[selected.value] == ParseInt(RemoveCommas(input)).value as real
    ensures selected.Some? && currency == KRW && ParseInt(RemoveCommas(input)).Some? ==>
              var dollars := ParseInt(RemoveCommas(input)).value as real / ExchangeRate;
              IsWhole(r[selected.value]) && dollars - 0.5 < r[selected.value] <= dollars + 0.5
  {
    match selected
    case None => assets
    case Some(day) =>
      match ParseInt(RemoveCommas(input))
      case None => assets - {day}
      case Some(raw) =>
        var usd := if currency == KRW then JsRound(raw as real / ExchangeRate) as real else raw as real;
        assets[day := usd]
  }

  /** Opening a day holding a whole number of dollars and saving what is
    * shown keeps the value, in either currency. */
  lemma SaveShownValueKeepsIt(assets: map<int, real>, day: int, n: nat, currency: Currency)
    requires day in assets && assets[day] == n as real
    ensures var shown := if currency == KRW then n * 1450 else n;
            ShownValue(assets[day], currency) == shown as real
            && SaveInput(assets, Some(day), NatToString(shown), currency) == assets
  {
    var shown := if currency == KRW then n * 1450 else n;
    WonOfWholeDollars(n);
    NoCommas(NatToString(shown));
    ParseRendered(shown);
    var stored := if currency == KRW then JsRound(shown as real / ExchangeRate) as real else shown as real;
    assert stored == n as real by {
      if currency == KRW {
        WholeDollarsOfWon(n);
      }
    }
    assert SaveInput(assets, Some(day), NatToString(shown), currency) == assets[day := stored];
    assert assets[day := stored] == assets;
  }

  lemma WonOfWholeDollars(n: nat)
    ensures JsRound(n as real * ExchangeRate) == n * 1450
  {
    var r := JsRound(n as real * ExchangeRate);
    assert n as real * ExchangeRate == (n * 1450) as real;
    assert (n * 1450) as real - 0.5 < r as real <= (n * 1450) as real + 0.5;
  }

  lemma WholeDollarsOfWon(n: nat)
    ensures JsRound((n * 1450) as real / ExchangeRate) == n
  {
    assert (n * 1450) as real / ExchangeRate == n as real;
  }

  lemma {:induction false} NoCommas(s: string)
    requires forall k :: 0 <= k < |s| ==> '0' <= s[k] <= '9'
    ensures RemoveCommas(s) == s
  {
    if s != [] {
      NoCommas(s[1..]);
      assert s == [s[0]] + s[1..];
    }
  }

  // ---------------------------------------------------------------------------
  // rangeStats

  datatype RangeStat = RangeStat(startVal: real, endVal: real, diff: real, rate: real, firstDate: int, lastDate: int)

  /** The rate shown for a change from `startVal`: to two decimals, or 0
    * from a zero start. */
  function RateOf(startVal: real, endVal: real): (rate: real)
    ensures startVal == 0.0 ==> rate == 0.0
    ensures startVal != 0.0 ==> Abs(rate - (endVal - startVal) / startVal * 100.0) <= 0.005
  {
    if startVal != 0.0 then Round2((endVal - startVal) / startVal * 100.0) else 0.0
  }

  /** The change over the view: from the first day in view with a value to
    * the last one; none when the view has no value at all. */
  method RangeStats(assets: map<int, real>, current: int) returns (stats: Option<RangeStat>)
    ensures var (startDay, endDay) := ViewRange(current);
            (stats.None? <==> forall d :: startDay <= d <= endDay ==> d !in assets)
            && (stats.Some? ==>
                  var s := stats.value;
                  startDay <= s.firstDate <= s.lastDate <= endDay
                  && s.firstDate in assets && s.lastDate in assets
                  && (forall d :: startDay <= d < s.firstDate ==> d !in assets)
                  && (forall d :: s.lastDate < d <= endDay ==> d !in assets)
                  && s.startVal == assets[s.firstDate] && s.endVal == assets[s.lastDate]
                  && s.diff == s.endVal - s.startVal && s.rate == RateOf(s.startVal, s.endVal))
  {
    var (startDay, endDay) := ViewRange(current);
    ViewRangeShape(current);
    var keys := ViewKeys(assets, startDay, 35);
    KeysSpan(assets, keys, startDay, 35);
    if |keys| == 0 {
      return None;
    }
    var firstKey := keys[0];
    var lastKey := keys[|keys| - 1];
    var startVal := assets[firstKey];
    var endVal := assets[lastKey];
    var diff := endVal - startVal;
    var rate := RateOf(startVal, endVal);
    return Some(RangeStat(startVal, endVal, diff, rate, firstKey, lastKey));
  }

  /** The days from `startDay` on, `n` of them, that hold a value, in order. */
  method ViewKeys(assets: map<int, real>, startDay: int, n: nat) returns (keys: seq<int>)
    ensures forall a, b :: 0 <= a < b < |keys| ==> keys[a] < keys[b]
    ensures forall k :: 0 <= k < |keys| ==> keys[k] in assets && startDay <= keys[k] < startDay + n
    ensures forall d :: startDay <= d < startDay + n && d in assets ==> d in keys
  {
    keys := [];
    for i := 0 to n
      invariant forall a, b :: 0 <= a < b < |keys| ==> keys[a] < keys[b]
      invariant forall k :: 0 <= k < |keys| ==> keys[k] in assets && startDay <= keys[k] < startDay + i
      invariant forall d :: startDay <= d < startDay + i && d in assets ==> d in keys
    {
      if startDay + i in assets {
        keys := keys + [startDay + i];
      }
    }
  }

  /** The ordered keys of a window: none means no value in it; otherwise the
    * first and the last key bound every day holding a value. */
  lemma KeysSpan(assets: map<int, real>, keys: seq<int>, startDay: int, n: nat)
    requires forall a, b :: 0 <= a < b < |keys| ==> keys[a] < keys[b]
    requires forall k :: 0 <= k < |keys| ==> keys[k] in assets && startDay <= keys[k] < startDay + n
    requires forall d :: startDay <= d < startDay + n && d in assets ==> d in keys
    ensures |keys| == 0 <==> forall d :: startDay <= d < startDay + n ==> d !in assets
    ensures |keys| > 0 ==> (forall d :: startDay <= d < keys[0] ==> d !in assets)
                           && (forall d :: keys[|keys| - 1] < d < startDay + n ==> d !in assets)
  {
    if |keys| > 0 {
      forall d | startDay <= d < startDay + n && d in assets
        ensures keys[0] <= d <= keys[|keys| - 1]
      {
        var k :| 0 <= k < |keys| && keys[k] == d;
        assert k == 0 || keys[0] < keys[k];
        assert k == |keys| - 1 || keys[k] < keys[|keys| - 1];
      }
      assert keys[0] in assets && startDay <= keys[0] < startDay + n;
    }
  }

  // ---------------------------------------------------------------------------
  // monthlyHistory

  /** A month is numbered `year * 12 + month`; `monthOf` gives a day's month. */
  ghost function MonthDays(assets: map<int, real>, monthOf: int -> int, month: int): set<int>
  {
    set d | d in assets && monthOf(d) == month
  }

  /** The month's rate: none with fewer than two days holding values,
    * otherwise the change from its first such day to its last. */
  ghost predicate IsMonthRate(assets: map<int, real>, monthOf: int -> int, month: int, rate: Option<real>)
  {
    var days := MonthDays(assets, monthOf, month);
    (rate.None? <==> |days| < 2)
    && (rate.Some? ==>
          exists first, last :: first in days && last in days && first < last
            && (forall d :: d in days ==> first <= d <= last)
            && rate.value == RateOf(assets[first], assets[last]))
  }

  method MonthRate(assets: map<int, real>, monthOf: int -> int, month: int) returns (rate: Option<real>)
    ensures IsMonthRate(assets, monthOf, month, rate)
  {
    ghost var days := MonthDays(assets, monthOf, month);
    var rest := assets.Keys;
    var first, last := 0, 0;
    var any := false;
    while rest != {}
      invariant rest <= assets.Keys
      invariant forall d :: d in days && d !in rest ==> any && first <= d <= last
      invariant any ==> first in days && last in days
      decreases |rest|
    {
      var d := Pick(rest);
      ghost var any0, first0, last0 := any, first, last;
      if monthOf(d) == month {
        if !any || d < first {
          first := d;
        }
        if !any || d > last {
          last := d;
        }
        any := true;
      }
      MonthScanStep(days, rest, d, monthOf(d) == month, any0, first0, last0, any, first, last);
      rest := rest - {d};
    }
    if !any || first == last {
      FewMonthDays(days, any, first, last);
      return None;
    }
    var startVal := assets[first];
    var endVal := assets[last];
    rate := Some(RateOf(startVal, endVal));
    SpannedMonthRate(assets, monthOf, month, first, last, rate.value);
  }

  /** A scan that saw no month day, or only one, leaves fewer than two. */
  lemma FewMonthDays(days: set<int>, any: bool, first: int, last: int)
    requires forall d :: d in days ==> any && first <= d <= last
    requires !any || first == last
    ensures |days| < 2
  {
    if any {
      forall d | d in days
        ensures d == first
      {
        assert first <= d <= last;
      }
      SubsetSize(days, first);
    } else {
      assert forall d :: d !in days;
      assert days == {};
    }
  }

  /** Month days spanning `[first, last]` with `first < last` give the rate
    * from `first` to `last`. */
  lemma SpannedMonthRate(assets: map<int, real>, monthOf: int -> int, month: int, first: int, last: int, rate: real)
    requires first in MonthDays(assets, monthOf, month) && last in MonthDays(assets, monthOf, month) && first < last
    requires forall d :: d in MonthDays(assets, monthOf, month) ==> first <= d <= last
    requires rate == RateOf(assets[first], assets[last])
    ensures IsMonthRate(assets, monthOf, month, Some(rate))
  {
    PairSize(MonthDays(assets, monthOf, month), first, last);
  }

  /** One step of the scan in `MonthRate`: taking day `d` out of what is
    * left to see keeps every seen month day within `[first, last]`. */
  lemma MonthScanStep(days: set<int>, rest: set<int>, d: int, inMonth: bool,
                      any0: bool, first0: int, last0: int, any: bool, first: int, last: int)
    requires d in rest && (inMonth <==> d in days)
    requires forall e :: e in days && e !in rest ==> any0 && first0 <= e <= last0
    requires any0 ==> first0 in days && last0 in days
    requires !inMonth ==> any == any0 && first == first0 && last == last0
    requires inMonth ==> any && first == (if !any0 || d < first0 then d else first0)
                         && last == (if !any0 || d > last0 then d else last0)
    ensures forall e :: e in days && e !in rest - {d} ==> any && first <= e <= last
    ensures any ==> first in days && last in days
  {
  }

  lemma PairSize(s: set<int>, a: int, b: int)
    requires a in s && b in s && a != b
    ensures |s| >= 2
  {
    var rest := s - {a, b};
    assert s == {a, b} + rest;
    assert |{a, b}| == 2;
    assert |s| == |{a, b}| + |rest|;
  }

  lemma SubsetSize(s: set<int>, x: int)
    requires forall y :: y in s ==> y == x
    ensures |s| <= 1
  {
    if x in s {
      assert forall z :: z in s <==> z in {x};
      assert s == {x};
    } else {
      assert forall z :: z !in s;
      assert s == {};
    }
  }

  datatype MonthEntry = MonthEntry(month: int, rate: Option<real>)

  /** The twelve months ending with the month of the view's last value, or
    * of `today` when the view has none, oldest first. */
  method MonthlyHistory(assets: map<int, real>, stats: Option<RangeStat>, today: int, monthOf: int -> int)
    returns (history: seq<MonthEntry>)
    ensures |history| == 12
    ensures forall j :: 0 <= j < 12 ==>
              history[j].month == monthOf(if stats.Some? then stats.value.lastDate else today) - 11 + j
              && IsMonthRate(assets, monthOf, history[j].month, history[j].rate)
  {
    var baseMonth := monthOf(if stats.Some? then stats.value.lastDate else today);
    history := [];
    var i := 11;
    while i >= 0
      invariant -1 <= i <= 11 && |history| == 11 - i
      invariant forall j :: 0 <= j < |history| ==>
                  history[j].month == baseMonth - 11 + j
                  && IsMonthRate(assets, monthOf, history[j].month, history[j].rate)
    {
      var rate := MonthRate(assets, monthOf, baseMonth - i);
      history := history + [MonthEntry(baseMonth - i, rate)];
      i := i - 1;
    }
  }
}
