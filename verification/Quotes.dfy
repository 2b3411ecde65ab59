/** Tradability flags derived from a day's quotes (backtesting/topk_dropout.py, `_quote_flags`). */
module Quotes {

  /** `paused` is zero exactly for a trading name; a missing value has already become one. */
  datatype Quote = Quote(paused: real, limitUp: bool, limitDown: bool)

  datatype Flags = Flags(candidate: bool, buy: bool, sell: bool)

  /** No quotes at all leave every name tradable; with quotes, an unquoted name is not tradable. */
  function QuoteFlags(quotes: map<string, Quote>, forbidAllTradeAtLimit: bool, name: string): Flags {
    if quotes == map[] then Flags(true, true, true)
    else if name !in quotes then Flags(false, false, false)
    else
      var q := quotes[name];
      var open := q.paused == 0.0;
      var candidate := open && !q.limitUp && !q.limitDown;
      if forbidAllTradeAtLimit then Flags(candidate, candidate, candidate)
      else Flags(candidate, open && !q.limitUp, open && !q.limitDown)
  }

  /** The quote lets the name trade, and neither limit stands in the way of what is asked. */
  predicate Trades(quotes: map<string, Quote>, name: string, stopsAtUp: bool, stopsAtDown: bool) {
    quotes != map[] ==>
      && name in quotes && quotes[name].paused == 0.0
      && (stopsAtUp ==> !quotes[name].limitUp) && (stopsAtDown ==> !quotes[name].limitDown)
  }

  /** An upper limit stops buying, a lower one stops selling, and each stops the other side too for candidates and
      when all trading at a limit is forbidden. */
  lemma TradesExactlyWhen(quotes: map<string, Quote>, forbidAllTradeAtLimit: bool, name: string)
    ensures var flags := QuoteFlags(quotes, forbidAllTradeAtLimit, name);
      && (flags.candidate <==> Trades(quotes, name, true, true))
      && (flags.buy <==> Trades(quotes, name, true, forbidAllTradeAtLimit))
      && (flags.sell <==> Trades(quotes, name, forbidAllTradeAtLimit, true))
  {}
}
