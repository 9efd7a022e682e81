/** Values shared by every part of the model. */
module Types {

  datatype Option<+T> = None | Some(value: T)

  /** The exceptions the core raises. IndexError and ValueError come from indexing
      a too-short candle list and from `max`/`min` of an empty list; FetchError stands
      for any failure of an HTTP call whose result is a parameter of the model. */
  datatype Exc = IndexError | ValueError | FetchError

  /** A Python call that either returns a value or raises. */
  datatype Res<+T> = Ok(value: T) | Raised(exc: Exc)

  /** A coin ticker such as "BTC". */
  type Symbol = string

  /** A trade side as stored in a trade record: "BUY" or "SELL" when the bot wrote it,
      any string when the record was loaded from disk. */
  type Side = string

  const BUY: Side := "BUY"
  const SELL: Side := "SELL"

  function Max(a: int, b: int): int
  {
    if a < b then b else a
  }

  function Abs(x: real): (r: real)
    ensures r >= 0.0 && (r == x || r == -x)
  {
    if x < 0.0 then -x else x
  }
}
