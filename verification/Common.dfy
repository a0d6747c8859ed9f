// Shared vocabulary: an optional value, the two trade directions, and the
// absolute value and ordering helpers that several models use over exact reals.
module Common {

  datatype Option<+T> = None | Some(value: T)

  datatype Direction = Long | Short

  function Abs(x: real): real {
    if x < 0.0 then -x else x
  }

  function Min(a: real, b: real): real {
    if a <= b then a else b
  }

  function Max(a: real, b: real): real {
    if a >= b then a else b
  }

  // One executed trade. The source refuses to build one without a positive price and size.
  datatype Trade = Trade(id: string, symbol: string, exchange: string, event: int, receipt: int,
                         buy: bool, price: real, size: real)
  {
    function Notional(): real {
      price * size
    }
  }
}
