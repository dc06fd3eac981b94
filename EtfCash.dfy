/** `sell_etf_for_cash`, identical in `library/korea_manager.py` and
  * `library/schwab_manager.py`: to raise `required_cash`, sell the first of
  * BIL and SGOV that is held, enough shares to cover the amount or all of
  * them. The broker's quote is an input (`lastPrice`), and so is the result
  * of the market sell order. */
module EtfCash {
  import opened Common

  const EtfsToSell: seq<string> := ["BIL", "SGOV"]

  /** What `sell_etf_for_cash` does. `QuoteFailed` is the exception the
    * division raises on a zero or unreadable quote. */
  datatype EtfSale =
    | NoEtfSale                                         // returns None
    | QuoteFailed(etf: string)                          // ZeroDivisionError / TypeError
    | EtfSold(etf: string, shares: real, placed: bool)  // returns the order's result

  predicate Held(positions: map<string, real>, etf: string)
  {
    etf in positions && positions[etf] > 0.0
  }

  /** `min(positions[etf], ceil(required_cash / current_price))`. */
  function SharesToSell(held: real, requiredCash: real, price: real): real
    requires price != 0.0
  {
    MinR(held, Ceil(requiredCash / price) as real)
  }

  /** One turn of the loop: sell `etf` if it is held and a sale is needed,
    * otherwise go on with `otherwise`. */
  function TryEtf(etf: string, requiredCash: real, positions: map<string, real>,
                  lastPrice: string -> Option<real>, placed: bool, otherwise: EtfSale): EtfSale
  {
    if !Held(positions, etf) then otherwise
    else if lastPrice(etf).None? || lastPrice(etf).value == 0.0 then QuoteFailed(etf)
    else
      var shares := SharesToSell(positions[etf], requiredCash, lastPrice(etf).value);
      if shares > 0.0 then EtfSold(etf, shares, placed) else otherwise
  }

  /** The loop over `etfs` from the first on. */
  function SaleFrom(etfs: seq<string>, requiredCash: real, positions: map<string, real>,
                    lastPrice: string -> Option<real>, placed: bool): EtfSale
  {
    if etfs == [] then NoEtfSale
    else TryEtf(etfs[0], requiredCash, positions, lastPrice, placed,
                SaleFrom(etfs[1..], requiredCash, positions, lastPrice, placed))
  }

  function EtfSaleSpec(requiredCash: real, positions: map<string, real>, lastPrice: string -> Option<real>,
                       placed: bool): EtfSale
  {
    SaleFrom(EtfsToSell, requiredCash, positions, lastPrice, placed)
  }

  /** BIL first, then SGOV. */
  lemma BilThenSgov(requiredCash: real, positions: map<string, real>, lastPrice: string -> Option<real>, placed: bool)
    ensures EtfSaleSpec(requiredCash, positions, lastPrice, placed)
            == TryEtf("BIL", requiredCash, positions, lastPrice, placed,
                      TryEtf("SGOV", requiredCash, positions, lastPrice, placed, NoEtfSale))
  {
    var none := SaleFrom([], requiredCash, positions, lastPrice, placed);
    assert ["SGOV"][0] == "SGOV" && ["SGOV"][1..] == [];
    var sgov := SaleFrom(["SGOV"], requiredCash, positions, lastPrice, placed);
    assert sgov == TryEtf("SGOV", requiredCash, positions, lastPrice, placed, none);
    assert EtfsToSell[0] == "BIL" && EtfsToSell[1..] == ["SGOV"];
  }

  method SellEtfForCash(requiredCash: real, positions: map<string, real>, lastPrice: string -> Option<real>,
                        placed: bool) returns (sale: EtfSale)
    ensures sale == EtfSaleSpec(requiredCash, positions, lastPrice, placed)
  {
    var etfs := EtfsToSell;
    for i := 0 to |etfs|
      invariant EtfSaleSpec(requiredCash, positions, lastPrice, placed)
                == SaleFrom(etfs[i..], requiredCash, positions, lastPrice, placed)
    {
      assert etfs[i..][0] == etfs[i] && etfs[i..][1..] == etfs[i + 1..];
      var etf := etfs[i];
      if etf in positions && positions[etf] > 0.0 {
        var currentPrice := lastPrice(etf);
        if currentPrice.None? || currentPrice.value == 0.0 {
          return QuoteFailed(etf);
        }
        var sharesToSell := MinR(positions[etf], Ceil(requiredCash / currentPrice.value) as real);
        if sharesToSell > 0.0 {
          return EtfSold(etf, sharesToSell, placed);
        }
      }
    }
    return NoEtfSale;
  }

  /** A sale is of BIL or SGOV, held, positive, never more than held, and it
    * either covers the required cash at the quoted price or sells every
    * share; SGOV is sold only when BIL is not held or needs no sale. */
  lemma SaleCoversRequirement(requiredCash: real, positions: map<string, real>,
                              lastPrice: string -> Option<real>, placed: bool)
    ensures var s := EtfSaleSpec(requiredCash, positions, lastPrice, placed);
            s.EtfSold? ==>
              (s.etf == "BIL" || s.etf == "SGOV")
              && Held(positions, s.etf) && lastPrice(s.etf).Some? && lastPrice(s.etf).value != 0.0
              && 0.0 < s.shares <= positions[s.etf]
              && (lastPrice(s.etf).value > 0.0 ==>
                    s.shares == positions[s.etf] || s.shares * lastPrice(s.etf).value >= requiredCash)
              && s.placed == placed
              && (s.etf == "SGOV" ==> !Held(positions, "BIL")
                                      || (lastPrice("BIL").Some? && lastPrice("BIL").value != 0.0
                                          && SharesToSell(positions["BIL"], requiredCash, lastPrice("BIL").value) <= 0.0))
  {
    var s := EtfSaleSpec(requiredCash, positions, lastPrice, placed);
    BilThenSgov(requiredCash, positions, lastPrice, placed);
    if s.EtfSold? {
      var price := lastPrice(s.etf).value;
      if price > 0.0 && s.shares != positions[s.etf] {
        CeilQuotientCovers(requiredCash, price);
      }
    }
  }

  /** Nothing is sold exactly when neither ETF is held with a sale to make,
    * and a quote is needed only for a held ETF. */
  lemma NoSaleWhenNothingHeld(requiredCash: real, positions: map<string, real>,
                              lastPrice: string -> Option<real>, placed: bool)
    ensures !Held(positions, "BIL") && !Held(positions, "SGOV")
            ==> EtfSaleSpec(requiredCash, positions, lastPrice, placed) == NoEtfSale
    ensures requiredCash > 0.0 && (Held(positions, "BIL") || Held(positions, "SGOV"))
            && (forall etf :: lastPrice(etf).Some? ==> lastPrice(etf).value > 0.0)
            ==> EtfSaleSpec(requiredCash, positions, lastPrice, placed) != NoEtfSale
  {
    BilThenSgov(requiredCash, positions, lastPrice, placed);
    if requiredCash > 0.0 && Held(positions, "BIL") && lastPrice("BIL").Some? && lastPrice("BIL").value > 0.0 {
      QuotientPositive(requiredCash, lastPrice("BIL").value);
    }
    if requiredCash > 0.0 && Held(positions, "SGOV") && lastPrice("SGOV").Some? && lastPrice("SGOV").value > 0.0 {
      QuotientPositive(requiredCash, lastPrice("SGOV").value);
    }
  }

  lemma QuotientPositive(a: real, b: real)
    requires a > 0.0 && b > 0.0
    ensures Ceil(a / b) >= 1
  {
    assert a / b > 0.0;
  }

  /** `ceil(required / price)` shares at a positive price cover the requirement. */
  lemma CeilQuotientCovers(required: real, price: real)
    requires price > 0.0
    ensures Ceil(required / price) as real * price >= required
  {
    var q := required / price;
    var c := Ceil(q) as real;
    assert c >= q;
    assert c * price >= q * price;
    assert q * price == required;
  }
}
