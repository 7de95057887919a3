/**
 * The error type of the older decoder kept under src/replay.
 *
 * src/replay/header/error.rs declares only `Io` and `InvalidIdentifier`; the
 * result-block decoders beside it raise four more variants by name. The
 * datatype below is the union, so that those decoders can be stated; its
 * `Display` is the one the file writes, in which every variant other than
 * the two it names falls through to "unknown error".
 */
module LegacyErrors {
  import opened Results
  import opened Utils
  import Errors

  datatype LegacyError =
    | Io(io: IoError)
    | InvalidIdentifier
    | UnsupportedResultVersion(version: u32)
    | InvalidGameResult(result: u32)
    | InvalidTotalMissions(total: u16)
    | InvalidGameMode(mode: u32)

  /** `Error::cause`: the underlying error, which only an I/O failure has. */
  function Cause(e: LegacyError): (r: Option<IoError>)
    ensures r.Some? <==> e.Io?
    ensures e.Io? ==> r == Some(e.io)
  {
    match e
    case Io(err) => Some(err)
    case _ => None
  }

  /** `ResultExt::chain_err`: an I/O result whose error, if any, becomes `Io`. */
  function ChainErr<T>(r: Result<T, IoError>): (o: Result<T, LegacyError>)
    ensures o.Success? <==> r.Success?
    ensures o.Success? ==> o.value == r.value
    ensures o.Failure? ==> o.error == Io(r.error) && Cause(o.error) == Some(r.error)
  {
    match r
    case Success(v) => Success(v)
    case Failure(e) => Failure(Io(e))
  }

  /** `ensure!(cond, e)`: return `Err(e)` when `cond` is false, otherwise carry on. */
  function Ensure(cond: bool, e: LegacyError): (r: Outcome<LegacyError>)
    ensures r.Fail? <==> !cond
    ensures r.Fail? ==> r.error == e
  {
    if !cond then Fail(e) else Pass
  }

  /** `Display for Error`. */
  function Message(e: LegacyError): string {
    match e
    case Io(err) => Errors.Detailed("IO error", Errors.IoText(err))
    case InvalidIdentifier => "invalid identifier"
    case _ => "unknown error"
  }

  /** Only the two variants the file declares have messages of their own. */
  lemma MessageCases(e: LegacyError)
    ensures e.InvalidIdentifier? <==> Message(e) == "invalid identifier"
    ensures !e.Io? && !e.InvalidIdentifier? <==> Message(e) == "unknown error"
  {
    if e.Io? {
      var m := Message(e);
      assert m[..8] == "IO error";
    }
  }
}
