/** Domain values shared by the broker, the engine and the analysis. */
module Trading {
  datatype Side = Buy | Sell

  /** UNCHANGED means "no opinion"; it is not FLAT. */
  datatype Exposure = Long | Short | Flat | Unchanged

  datatype Status = New | Accepted | PartiallyFilled | Filled | Canceled | Rejected | Expired

  predicate Terminal(s: Status) {
    s == Filled || s == Canceled || s == Rejected || s == Expired
  }

  datatype Trade = Trade(symbol: string, side: Side, qty: real, price: real, at: int)

  /** The signed quantity a side trades. */
  function Signed(side: Side, qty: real): real {
    if side == Buy then qty else -qty
  }

  function Delta(t: Trade): real {
    Signed(t.side, t.qty)
  }

  function Abs(x: real): real { if x < 0.0 then -x else x }

  function MinReal(a: real, b: real): real { if b < a then b else a }

  function MaxReal(a: real, b: real): real { if b > a then b else a }
}
