/**
 * The kind of a log source and its numeric code, as exchanged with the
 * user interface: 0 for a file, 1 for a web socket. The log-source crate
 * and the log-analyzer service each define the same enum; one model covers
 * both.
 */
module SourceTypes {
  import opened Wrappers

  datatype SourceType = FILE | WS

  /** `SourceType::try_from(usize)`: only 0 and 1 are known codes. */
  function TryFromUsize(n: nat): (r: Result<SourceType, ()>)
    ensures r == Ok(FILE) <==> n == 0
    ensures r == Ok(WS) <==> n == 1
    ensures r.Err? <==> n >= 2
  {
    match n
    case 0 => Ok(FILE)
    case 1 => Ok(WS)
    case _ => Err(())
  }

  /** `usize::from(SourceType)` / `SourceType::into()`. */
  function ToUsize(t: SourceType): (n: nat)
    ensures n < 2
    ensures n == 0 <==> t == FILE
  {
    match t
    case FILE => 0
    case WS => 1
  }

  /** Encoding a source type and decoding the code gives the type back. */
  lemma RoundTrip(t: SourceType)
    ensures TryFromUsize(ToUsize(t)) == Ok(t)
  {
  }

  /** Every accepted code is the encoding of the type it decodes to. */
  lemma CodesRoundTrip(n: nat)
    requires TryFromUsize(n).Ok?
    ensures ToUsize(TryFromUsize(n).value) == n
  {
  }
}
