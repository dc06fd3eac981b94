/** The trading-day logic of `KoreaManager` (`library/korea_manager.py`): the
  * market-hours test with its once-a-day holiday answer, the scan of the
  * holiday list, and the paginated accumulation of `get_positions`.
  *
  * The clock reading (Asia/Seoul) and the broker's responses are inputs. */
module KoreaManager {
  import opened Common

  // ---------------------------------------------------------------------------
  // IsTodayOpenCheck

  /** One entry of the holiday list: its date (`YYYYMMDD`) and `opnd_yn`. */
  datatype DayInfo = DayInfo(bassDt: string, opndYn: string)

  /** The `chk-holiday` response: the day list, or an error's `msg_cd`. */
  datatype HolidayResponse = HolidayList(days: seq<DayInfo>) | HolidayError(msgCd: string)

  /** The `opnd_yn` of the first entry dated today, or "Y" when none is. */
  function OpenFlag(days: seq<DayInfo>, today: string): (flag: string)
    ensures (exists k :: 0 <= k < |days| && days[k].bassDt == today)
            || flag == "Y"
  {
    if days == [] then "Y"
    else if days[0].bassDt == today then days[0].opndYn
    else OpenFlag(days[1..], today)
  }

  /** `OpenFlag` answers from the first entry dated today, and "Y" only when
    * no entry is dated today or that entry says "Y". */
  lemma {:induction false} OpenFlagIsFirstMatch(days: seq<DayInfo>, today: string)
    ensures (forall k :: 0 <= k < |days| ==> days[k].bassDt != today) ==> OpenFlag(days, today) == "Y"
    ensures forall k :: 0 <= k < |days| && days[k].bassDt == today
                        && (forall j :: 0 <= j < k ==> days[j].bassDt != today)
                        ==> OpenFlag(days, today) == days[k].opndYn
  {
    if days != [] {
      OpenFlagIsFirstMatch(days[1..], today);
      forall k | 0 <= k < |days| && days[k].bassDt == today && (forall j :: 0 <= j < k ==> days[j].bassDt != today)
        ensures OpenFlag(days, today) == days[k].opndYn
      {
        if k > 0 {
          assert days[1..][k - 1] == days[k];
          forall j | 0 <= j < k - 1
            ensures days[1..][j].bassDt != today
          {
            assert days[1..][j] == days[j + 1];
          }
        }
      }
      if forall k :: 0 <= k < |days| ==> days[k].bassDt != today {
        forall k | 0 <= k < |days[1..]|
          ensures days[1..][k].bassDt != today
        {
          assert days[1..][k] == days[k + 1];
        }
      }
    }
  }

  /** `IsTodayOpenCheck`: the flag of the holiday scan, or the error's `msg_cd`. */
  method IsTodayOpenCheck(response: HolidayResponse, today: string) returns (isOpen: string)
    ensures response.HolidayList? ==> isOpen == OpenFlag(response.days, today)
    ensures response.HolidayError? ==> isOpen == response.msgCd
  {
    if response.HolidayError? {
      return response.msgCd;
    }
    var dayList := response.days;
    isOpen := "Y";
    for i := 0 to |dayList|
      invariant OpenFlag(dayList, today) == OpenFlag(dayList[i..], today)
    {
      assert dayList[i..][0] == dayList[i] && dayList[i..][1..] == dayList[i + 1..];
      if dayList[i].bassDt == today {
        isOpen := dayList[i].opndYn;
        return;
      }
    }
    assert dayList[|dayList|..] == [];
  }

  // ---------------------------------------------------------------------------
  // get_market_hours

  /** Weekdays (0 = Monday) from 09:00 through 15:30. */
  predicate InTradingWindow(weekday: int, hour: int, minute: int)
  {
    weekday != 5 && weekday != 6 && 9 <= hour <= 15 && !(hour == 15 && minute > 30)
  }

  /** The manager's once-a-day state: `today_open`. */
  class MarketCalendar {
    var todayOpen: Option<bool>

    constructor ()
      ensures todayOpen == None
    {
      todayOpen := None;
    }

    /** `get_market_hours` at `weekday hour:minute`. `holidayAnswer` is what
      * `IsTodayOpenCheck` returns if it is called; `checked` says whether it was. */
    method GetMarketHours(weekday: int, hour: int, minute: int, holidayAnswer: string)
      returns (isOpen: bool, checked: bool)
      modifies this
      ensures !InTradingWindow(weekday, hour, minute) ==> !isOpen && !checked && todayOpen == old(todayOpen)
      ensures InTradingWindow(weekday, hour, minute) ==>
                checked == old(todayOpen).None?
                && todayOpen == (if old(todayOpen).None? then Some(holidayAnswer != "N") else old(todayOpen))
                && isOpen == todayOpen.value
    {
      checked := false;
      var inWindow := false;
      if weekday == 5 || weekday == 6 {
        inWindow := false;
      } else {
        if hour >= 9 && hour <= 15 {
          inWindow := true;
          if hour == 15 && minute > 30 {
            inWindow := false;
          }
        }
      }
      if inWindow {
        if todayOpen.None? {
          checked := true;
          if holidayAnswer == "N" {
            todayOpen := Some(false);
          } else {
            todayOpen := Some(true);
          }
        }
        isOpen := todayOpen.value;
      } else {
        isOpen := false;
      }
    }
  }

  /** On a valid clock reading the window is weekdays 09:00 to 15:30, both ends included. */
  lemma TradingWindowBounds(weekday: int, hour: int, minute: int)
    requires 0 <= weekday < 7 && 0 <= hour < 24 && 0 <= minute < 60
    ensures InTradingWindow(weekday, hour, minute) <==> weekday < 5 && 9 * 60 <= hour * 60 + minute <= 15 * 60 + 30
  {
  }

  // ---------------------------------------------------------------------------
  // get_positions

  /** One `output1` entry: `pdno` and `int(hldg_qty)`. */
  datatype Stock = Stock(pdno: string, hldgQty: int)

  /** One `inquire-balance` response: a page with its (stripped) continuation
    * keys, or an error with its `msg_cd`, if any. */
  datatype Page = PageOk(nk: string, fk: string, stocks: seq<Stock>) | PageError(msgCd: Option<string>)

  const RateLimited := "EGW00123"

  /** The positions after one page: held stocks, later entries overwriting earlier ones. */
  function AddStocks(positions: map<string, int>, stocks: seq<Stock>): map<string, int>
  {
    if stocks == [] then positions
    else
      var s := stocks[|stocks| - 1];
      var before := AddStocks(positions, stocks[..|stocks| - 1]);
      if s.hldgQty > 0 then before[s.pdno := s.hldgQty] else before
  }

  /** The pagination loop from a given state on: the positions, and how many
    * responses it read. Running out of responses also ends it. */
  function Paginate(pages: seq<Page>, positions: map<string, int>, prevNk: string, count: nat)
    : (r: (map<string, int>, nat))
    ensures r.1 <= |pages|
  {
    if pages == [] then (positions, 0)
    else
      match pages[0]
      case PageOk(nk, fk, stocks) =>
        var next := AddStocks(positions, stocks);
        if prevNk == nk || nk == "" then (next, 1)
        else var r := Paginate(pages[1..], next, nk, count); (r.0, r.1 + 1)
      case PageError(msgCd) =>
        if msgCd == Some(RateLimited) || count > 10 then (positions, 1)
        else var r := Paginate(pages[1..], positions, prevNk, count + 1); (r.0, r.1 + 1)
  }

  /** `get_positions`: `pages` are the broker's responses, in request order. */
  method GetPositions(pages: seq<Page>) returns (positions: map<string, int>, consumed: nat)
    ensures (positions, consumed) == Paginate(pages, map[], "", 0)
  {
    positions := map[];
    var nkKey, prevNkKey := "", "";
    var count := 0;
    var i := 0;
    while i < |pages|
      invariant 0 <= i <= |pages|
      invariant Paginate(pages, map[], "", 0)
                == (Paginate(pages[i..], positions, prevNkKey, count).0, Paginate(pages[i..], positions, prevNkKey, count).1 + i)
    {
      assert pages[i..][0] == pages[i] && pages[i..][1..] == pages[i + 1..];
      match pages[i] {
        case PageOk(nk, fk, stocks) =>
          nkKey := nk;
          positions := AddPageStocks(positions, stocks);
          if prevNkKey == nkKey || nkKey == "" {
            return positions, i + 1;
          }
          prevNkKey := nkKey;
        case PageError(msgCd) =>
          if msgCd == Some(RateLimited) || count > 10 {
            return positions, i + 1;
          }
          count := count + 1;
      }
      i := i + 1;
    }
    assert pages[i..] == [];
    return positions, i;
  }

  /** The `output1` loop of one page. */
  method AddPageStocks(positions: map<string, int>, stocks: seq<Stock>) returns (result: map<string, int>)
    ensures result == AddStocks(positions, stocks)
  {
    result := positions;
    for j := 0 to |stocks|
      invariant result == AddStocks(positions, stocks[..j])
    {
      assert stocks[..j + 1][..j] == stocks[..j];
      if stocks[j].hldgQty > 0 {
        result := result[stocks[j].pdno := stocks[j].hldgQty];
      }
    }
    assert stocks[..|stocks|] == stocks;
  }

  predicate Holds(s: Stock, pdno: string)
  {
    s.pdno == pdno && s.hldgQty > 0
  }

  /** A stock is in the positions after a page iff it was before or the page
    * holds it, and its quantity is the page's last positive entry for it. */
  lemma {:induction false} AddStocksLastWins(positions: map<string, int>, stocks: seq<Stock>, pdno: string)
    ensures pdno in AddStocks(positions, stocks)
            <==> pdno in positions || exists k :: 0 <= k < |stocks| && Holds(stocks[k], pdno)
    ensures forall k :: 0 <= k < |stocks| && Holds(stocks[k], pdno)
                        && (forall j :: k < j < |stocks| ==> !Holds(stocks[j], pdno))
                        ==> AddStocks(positions, stocks)[pdno] == stocks[k].hldgQty
    ensures (forall k :: 0 <= k < |stocks| ==> !Holds(stocks[k], pdno)) && pdno in positions
            ==> AddStocks(positions, stocks)[pdno] == positions[pdno]
  {
    if stocks != [] {
      var n := |stocks| - 1;
      var init := stocks[..n];
      AddStocksLastWins(positions, init, pdno);
      assert forall k :: 0 <= k < n ==> init[k] == stocks[k];
      if exists k :: 0 <= k < |stocks| && Holds(stocks[k], pdno) {
        var k :| 0 <= k < |stocks| && Holds(stocks[k], pdno);
        if k < n {
          assert Holds(init[k], pdno);
        }
      }
    }
  }

  /** Only positive holdings are collected. */
  predicate AllPositive(m: map<string, int>)
  {
    forall p :: p in m ==> m[p] > 0
  }

  lemma {:induction false} AddStocksKeepsPositive(positions: map<string, int>, stocks: seq<Stock>)
    requires AllPositive(positions)
    ensures AllPositive(AddStocks(positions, stocks))
  {
    if stocks != [] {
      AddStocksKeepsPositive(positions, stocks[..|stocks| - 1]);
    }
  }

  lemma {:induction false} PaginateKeepsPositive(pages: seq<Page>, positions: map<string, int>, prevNk: string, count: nat)
    requires AllPositive(positions)
    ensures AllPositive(Paginate(pages, positions, prevNk, count).0)
  {
    if pages != [] {
      match pages[0]
      case PageOk(nk, fk, stocks) =>
        AddStocksKeepsPositive(positions, stocks);
        PaginateKeepsPositive(pages[1..], AddStocks(positions, stocks), nk, count);
      case PageError(msgCd) =>
        PaginateKeepsPositive(pages[1..], positions, prevNk, count + 1);
    }
  }

  /** Every position `get_positions` returns is a positive holding. */
  lemma PositionsArePositive(pages: seq<Page>)
    ensures AllPositive(Paginate(pages, map[], "", 0).0)
  {
    PaginateKeepsPositive(pages, map[], "", 0);
  }

  function ErrorCount(pages: seq<Page>): nat
  {
    if pages == [] then 0 else ErrorCount(pages[..|pages| - 1]) + (if pages[|pages| - 1].PageError? then 1 else 0)
  }

  /** The errors met before the loop stops never exceed twelve in all: the
    * retry counter is compared with 10 before each increment. */
  lemma {:induction false} ErrorsAreBounded(pages: seq<Page>, positions: map<string, int>, prevNk: string, count: nat)
    requires count <= 11
    ensures var r := Paginate(pages, positions, prevNk, count); count + ErrorCount(pages[..r.1]) <= 12
  {
    if pages != [] {
      var r := Paginate(pages, positions, prevNk, count);
      var rest := pages[1..];
      assert pages[..1] == [pages[0]];
      assert ErrorCount([pages[0]]) == (if pages[0].PageError? then 1 else 0) by {
        assert [pages[0]][..0] == [];
      }
      match pages[0]
      case PageOk(nk, fk, stocks) =>
        if !(prevNk == nk || nk == "") {
          var next := AddStocks(positions, stocks);
          ErrorsAreBounded(rest, next, nk, count);
          ErrorCountSplit(pages, r.1);
        }
      case PageError(msgCd) =>
        if !(msgCd == Some(RateLimited) || count > 10) {
          ErrorsAreBounded(rest, positions, prevNk, count + 1);
          ErrorCountSplit(pages, r.1);
        }
    }
  }

  /** Counting the errors of a prefix: the first response, then the rest. */
  lemma {:induction false} ErrorCountSplit(pages: seq<Page>, n: nat)
    requires 1 <= n <= |pages|
    ensures ErrorCount(pages[..n]) == (if pages[0].PageError? then 1 else 0) + ErrorCount(pages[1..][..n - 1])
  {
    if n == 1 {
      assert pages[..1] == [pages[0]];
      assert [pages[0]][..0] == [];
      assert pages[1..][..0] == [];
    } else {
      ErrorCountSplit(pages, n - 1);
      assert pages[..n][..n - 1] == pages[..n - 1];
      assert pages[1..][..n - 1][..n - 2] == pages[1..][..n - 2];
    }
  }

  /** The loop stops at the first page whose next key is empty or repeats the
    * previous one, with that page's holdings added. */
  lemma StopsOnRepeatedKey(pages: seq<Page>, positions: map<string, int>, prevNk: string, count: nat)
    requires pages != [] && pages[0].PageOk? && (pages[0].nk == prevNk || pages[0].nk == "")
    ensures Paginate(pages, positions, prevNk, count) == (AddStocks(positions, pages[0].stocks), 1)
  {
  }
}
