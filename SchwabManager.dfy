/** The trading-day and position logic of `SchwabManager`
  * (`library/schwab_manager.py`): `get_market_hours` with its once-a-day
  * cache of `today_open`, `start_time` and `end_time`, and the mapping of the
  * account's positions in `get_positions` and `get_positions_result`.
  *
  * Times are seconds: `timeOfDay` is the Pacific wall-clock time since
  * midnight, `now` and the session bounds are instants on one time line. */
module SchwabManager {
  import opened Common

  /** 06:30 and 13:00 Pacific, the default session. */
  const DefaultOpen := 6 * 3600 + 30 * 60
  const DefaultClose := 13 * 3600

  /** One `regularMarket` session. */
  datatype Session = Session(start: int, end: int)

  /** The market-hours API answer: a non-OK status, or `equity.EQ` with its
    * `isOpen` (false when missing) and `sessionHours.regularMarket`. */
  datatype HoursResponse = HoursNotOk | HoursOk(isOpen: bool, regularMarket: seq<Session>)

  /** The result of `get_market_hours`; `SessionUnknown` is the `TypeError`
    * of comparing `now` with a session bound that was never set. */
  datatype MarketAnswer = Answer(isOpen: bool) | SessionUnknown

  predicate InDefaultHours(weekday: int, timeOfDay: int)
  {
    weekday < 5 && DefaultOpen <= timeOfDay < DefaultClose
  }

  /** The final test against the cached state: Python's chained
    * `start_time <= now < end_time` stops at the first false comparison. */
  function CachedAnswer(todayOpen: Option<bool>, startTime: Option<int>, endTime: Option<int>, now: int)
    : (r: MarketAnswer)
    ensures r == Answer(true) <==> todayOpen == Some(true) && startTime.Some? && endTime.Some?
                                   && startTime.value <= now < endTime.value
    ensures r.SessionUnknown? <==> todayOpen == Some(true)
                                   && (startTime.None? || (startTime.value <= now && endTime.None?))
    ensures todayOpen != Some(true) ==> r == Answer(false)
  {
    if todayOpen != Some(true) then Answer(false)
    else if startTime.None? then SessionUnknown
    else if !(startTime.value <= now) then Answer(false)
    else if endTime.None? then SessionUnknown
    else Answer(now < endTime.value)
  }

  class MarketHours {
    var todayOpen: Option<bool>
    var startTime: Option<int>
    var endTime: Option<int>

    constructor ()
      ensures todayOpen == None && startTime == None && endTime == None
    {
      todayOpen, startTime, endTime := None, None, None;
    }

    /** `get_market_hours`. `response` is what the API returns if it is
      * consulted; `queried` says whether it was. */
    method GetMarketHours(weekday: int, timeOfDay: int, now: int, response: HoursResponse)
      returns (answer: MarketAnswer, queried: bool)
      modifies this
      ensures !InDefaultHours(weekday, timeOfDay) ==>
                answer == Answer(false) && !queried
                && todayOpen == old(todayOpen) && startTime == old(startTime) && endTime == old(endTime)
      ensures InDefaultHours(weekday, timeOfDay) ==> queried == old(todayOpen).None?
      ensures InDefaultHours(weekday, timeOfDay) && old(todayOpen).Some? ==>
                todayOpen == old(todayOpen) && startTime == old(startTime) && endTime == old(endTime)
      ensures InDefaultHours(weekday, timeOfDay) && old(todayOpen).None? ==>
                todayOpen == (if response.HoursOk? then Some(response.isOpen) else None)
                && (if response.HoursOk? && response.isOpen && response.regularMarket != []
                    then startTime == Some(response.regularMarket[0].start)
                         && endTime == Some(response.regularMarket[0].end)
                    else startTime == old(startTime) && endTime == old(endTime))
      ensures InDefaultHours(weekday, timeOfDay) ==> answer == CachedAnswer(todayOpen, startTime, endTime, now)
    {
      queried := false;
      if weekday >= 5 {
        return Answer(false), queried;
      }
      if !(DefaultOpen <= timeOfDay < DefaultClose) {
        return Answer(false), queried;
      }
      if todayOpen.None? {
        queried := true;
        if response.HoursOk? {
          if !response.isOpen {
            todayOpen := Some(false);
            return Answer(false), queried;
          }
          todayOpen := Some(true);
          if response.regularMarket != [] {
            var session := response.regularMarket[0];
            startTime := Some(session.start);
            endTime := Some(session.end);
          }
        }
      }
      if todayOpen == Some(true) {
        if startTime.None? {
          return SessionUnknown, queried;
        }
        if !(startTime.value <= now) {
          return Answer(false), queried;
        }
        if endTime.None? {
          return SessionUnknown, queried;
        }
        return Answer(now < endTime.value), queried;
      }
      return Answer(false), queried;
    }
  }

  /** On a valid clock reading the default session is weekdays from 06:30
    * up to but excluding 13:00. */
  lemma DefaultHoursBounds(weekday: int, hour: int, minute: int, second: int)
    requires 0 <= weekday < 7 && 0 <= hour < 24 && 0 <= minute < 60 && 0 <= second < 60
    ensures InDefaultHours(weekday, hour * 3600 + minute * 60 + second)
            <==> weekday < 5 && (hour, minute) != (13, 0) && (6 < hour < 13 || (hour == 6 && minute >= 30))
  {
  }

  /** A day the API reports open, with its session known, is open exactly
    * from the session start up to but excluding its end. */
  lemma OpenDayFollowsSession(session: Session, now: int)
    ensures CachedAnswer(Some(true), Some(session.start), Some(session.end), now)
            == Answer(session.start <= now < session.end)
  {
  }

  // ---------------------------------------------------------------------------
  // get_positions / get_positions_result

  /** One entry of `securitiesAccount.positions`. */
  datatype Position = Position(symbol: string, longQuantity: real, averagePrice: real, marketValue: real)

  /** One value of `get_positions_result`. */
  datatype PositionResult = PositionResult(quantity: real, averagePrice: real, lastPrice: real)

  /** `marketValue / longQuantity`, or 0 for a zero quantity. */
  function LastPrice(p: Position): (price: real)
    ensures p.longQuantity != 0.0 ==> price * p.longQuantity == p.marketValue
    ensures p.longQuantity == 0.0 ==> price == 0.0
  {
    if p.longQuantity != 0.0 then p.marketValue / p.longQuantity else 0.0
  }

  function QuantityEntries(ps: seq<Position>): (es: seq<(string, real)>)
    ensures |es| == |ps|
    ensures forall k :: 0 <= k < |ps| ==> es[k] == (ps[k].symbol, ps[k].longQuantity)
  {
    seq(|ps|, k requires 0 <= k < |ps| => (ps[k].symbol, ps[k].longQuantity))
  }

  function ResultEntries(ps: seq<Position>): (es: seq<(string, PositionResult)>)
    ensures |es| == |ps|
    ensures forall k :: 0 <= k < |ps| ==>
              es[k] == (ps[k].symbol, PositionResult(ps[k].longQuantity, ps[k].averagePrice, LastPrice(ps[k])))
  {
    seq(|ps|, k requires 0 <= k < |ps| =>
      (ps[k].symbol, PositionResult(ps[k].longQuantity, ps[k].averagePrice, LastPrice(ps[k]))))
  }

  /** `get_positions`: symbol to `longQuantity`, the last entry of a symbol winning. */
  method GetPositions(ps: seq<Position>) returns (positions: map<string, real>)
    ensures positions == BuildMap(QuantityEntries(ps))
    ensures forall sym :: sym in positions <==> exists k :: 0 <= k < |ps| && ps[k].symbol == sym
    ensures forall k :: 0 <= k < |ps| && (forall j :: k < j < |ps| ==> ps[j].symbol != ps[k].symbol)
                        ==> positions[ps[k].symbol] == ps[k].longQuantity
  {
    positions := map[];
    for i := 0 to |ps|
      invariant positions == BuildMap(QuantityEntries(ps[..i]))
    {
      assert QuantityEntries(ps[..i + 1])[..i] == QuantityEntries(ps[..i]);
      positions := positions[ps[i].symbol := ps[i].longQuantity];
    }
    assert ps[..|ps|] == ps;
    forall sym
      ensures sym in positions <==> exists k :: 0 <= k < |ps| && ps[k].symbol == sym
    {
      BuildMapLastWins(QuantityEntries(ps), sym);
      if sym in positions {
        var k :| 0 <= k < |ps| && QuantityEntries(ps)[k].0 == sym;
        assert ps[k].symbol == sym;
      }
    }
    forall k | 0 <= k < |ps| && (forall j :: k < j < |ps| ==> ps[j].symbol != ps[k].symbol)
      ensures positions[ps[k].symbol] == ps[k].longQuantity
    {
      BuildMapLastWins(QuantityEntries(ps), ps[k].symbol);
      var i :| 0 <= i < |ps| && QuantityEntries(ps)[i].0 == ps[k].symbol
               && positions[ps[k].symbol] == QuantityEntries(ps)[i].1
               && forall j :: i < j < |ps| ==> QuantityEntries(ps)[j].0 != ps[k].symbol;
      assert QuantityEntries(ps)[k].0 == ps[k].symbol;
      assert i == k;
    }
  }

  /** `get_positions_result`: symbol to quantity, average price and last
    * price, the last entry of a symbol winning. */
  method GetPositionsResult(ps: seq<Position>) returns (positions: map<string, PositionResult>)
    ensures positions == BuildMap(ResultEntries(ps))
    ensures forall sym :: sym in positions <==> exists k :: 0 <= k < |ps| && ps[k].symbol == sym
    ensures forall k :: 0 <= k < |ps| && (forall j :: k < j < |ps| ==> ps[j].symbol != ps[k].symbol)
                        ==> positions[ps[k].symbol]
                            == PositionResult(ps[k].longQuantity, ps[k].averagePrice, LastPrice(ps[k]))
  {
    positions := map[];
    for i := 0 to |ps|
      invariant positions == BuildMap(ResultEntries(ps[..i]))
    {
      assert ResultEntries(ps[..i + 1])[..i] == ResultEntries(ps[..i]);
      var p := ps[i];
      var lastPrice := if p.longQuantity != 0.0 then p.marketValue / p.longQuantity else 0.0;
      positions := positions[p.symbol := PositionResult(p.longQuantity, p.averagePrice, lastPrice)];
    }
    assert ps[..|ps|] == ps;
    forall sym
      ensures sym in positions <==> exists k :: 0 <= k < |ps| && ps[k].symbol == sym
    {
      BuildMapLastWins(ResultEntries(ps), sym);
      if sym in positions {
        var k :| 0 <= k < |ps| && ResultEntries(ps)[k].0 == sym;
        assert ps[k].symbol == sym;
      }
    }
    forall k | 0 <= k < |ps| && (forall j :: k < j < |ps| ==> ps[j].symbol != ps[k].symbol)
      ensures positions[ps[k].symbol] == PositionResult(ps[k].longQuantity, ps[k].averagePrice, LastPrice(ps[k]))
    {
      BuildMapLastWins(ResultEntries(ps), ps[k].symbol);
      var i :| 0 <= i < |ps| && ResultEntries(ps)[i].0 == ps[k].symbol
               && positions[ps[k].symbol] == ResultEntries(ps)[i].1
               && forall j :: i < j < |ps| ==> ResultEntries(ps)[j].0 != ps[k].symbol;
    }
  }

  /** Both mappings see the same symbols and agree on every quantity. */
  lemma {:induction false} ResultAgreesWithPositions(ps: seq<Position>)
    ensures BuildMap(ResultEntries(ps)).Keys == BuildMap(QuantityEntries(ps)).Keys
    ensures forall sym :: sym in BuildMap(QuantityEntries(ps)) ==>
              BuildMap(ResultEntries(ps))[sym].quantity == BuildMap(QuantityEntries(ps))[sym]
  {
    if ps != [] {
      var n := |ps| - 1;
      ResultAgreesWithPositions(ps[..n]);
      assert ResultEntries(ps)[..n] == ResultEntries(ps[..n]);
      assert QuantityEntries(ps)[..n] == QuantityEntries(ps[..n]);
    }
  }
}
