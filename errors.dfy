/**
 * The error taxonomy of spyparty-rs/src/replay/header/error.rs: one variant
 * per way a header decode or a filter-string parse can fail, the `From`
 * conversions `?` applies, `cause`, `Display`, and the `bail!`/`ensure!`
 * early returns.
 */
module Errors {
  import opened Results
  import opened Utils
  import opened Text
  import Utf8

  datatype Error =
    | Io(io: IoError)
    | InvalidIdentifier
    | UnsupportedReplayVersion(version: u32)
    | UnsupportedResultVersion(version: u32)
    | MissingSpyUsername
    | MissingSniperUsername
    | InvalidString(utf8: Utf8.FromUtf8Error)
    | InvalidGameResult(result: u32)
    | InvalidGameMode(mode: u32)
    | UnknownMap(mapText: string)
    | UnknownGameResult(resultText: string)
    | UnknownGameMode(modeText: string)
    | UnknownMission(missionText: string)

  /** `From<io::Error> for Error`. */
  function FromIo(e: IoError): Error {
    Io(e)
  }

  /** `From<FromUtf8Error> for Error`. */
  function FromUtf8Error(e: Utf8.FromUtf8Error): Error {
    InvalidString(e)
  }

  /** `Error::cause`: the underlying error, which only an I/O failure has. */
  function Cause(e: Error): (r: Option<IoError>)
    ensures r.Some? <==> e.Io?
    ensures e.Io? ==> r == Some(e.io)
  {
    match e
    case Io(err) => Some(err)
    case _ => None
  }

  /** The conversions land in the variant `cause` recognises, and only the I/O one has a cause. */
  lemma ConversionsAndCause(io: IoError, utf8: Utf8.FromUtf8Error)
    ensures FromIo(io).Io? && Cause(FromIo(io)) == Some(io)
    ensures FromUtf8Error(utf8).InvalidString? && FromUtf8Error(utf8).utf8 == utf8
    ensures Cause(FromUtf8Error(utf8)) == None
  {
  }

  /** `?` on an I/O result: the value passes through, the error goes through `From`. */
  function LiftIo<T>(r: Result<T, IoError>): (o: Result<T, Error>)
    ensures o.Success? <==> r.Success?
    ensures o.Success? ==> o.value == r.value
    ensures o.Failure? ==> o.error == FromIo(r.error)
  {
    match r
    case Success(v) => Success(v)
    case Failure(e) => Failure(FromIo(e))
  }

  /** `?` on a `String::from_utf8` result. */
  function LiftUtf8<T>(r: Result<T, Utf8.FromUtf8Error>): (o: Result<T, Error>)
    ensures o.Success? <==> r.Success?
    ensures o.Success? ==> o.value == r.value
    ensures o.Failure? ==> o.error == FromUtf8Error(r.error)
  {
    match r
    case Success(v) => Success(v)
    case Failure(e) => Failure(FromUtf8Error(e))
  }

  /** `bail!(e)`: return `Err(e)` now. */
  function Bail<T>(e: Error): (r: Result<T, Error>)
    ensures r.Failure? && r.error == e
  {
    Failure(e)
  }

  /** `ensure!(cond, e)`: return `Err(e)` when `cond` is false, otherwise carry on. */
  function Ensure(cond: bool, e: Error): (r: Outcome<Error>)
    ensures r.Fail? <==> !cond
    ensures r.Fail? ==> r.error == e
  {
    if !cond then Fail(e) else Pass
  }

  /** The text of std's `io::Error` for a `read_exact` that ran out of input. */
  function IoText(e: IoError): string {
    match e
    case UnexpectedEof => "failed to fill whole buffer"
  }

  /** The text of std's `Utf8Error`. */
  function Utf8Text(e: Utf8.Utf8Error): string {
    match e.errorLen
    case Some(len) => "invalid utf-8 sequence of " + Decimal(len) + " bytes from index " + Decimal(e.validUpTo)
    case None => "incomplete utf-8 byte sequence from index " + Decimal(e.validUpTo)
  }

  /** The shape of every message with a detail: `text (detail)`. */
  function Detailed(text: string, detail: string): string {
    text + " (" + detail + ")"
  }

  /** `Display for Error`. */
  function Message(e: Error): string {
    match e
    case Io(err) => Detailed("IO error", IoText(err))
    case InvalidIdentifier => "invalid identifier"
    case UnsupportedReplayVersion(v) => Detailed("unsupported replay version", Decimal(v))
    case UnsupportedResultVersion(v) => Detailed("unsupported result data version", Decimal(v))
    case MissingSpyUsername => "missing spy username"
    case MissingSniperUsername => "missing sniper username"
    case InvalidString(err) => Detailed("invalid UTF8 string", Utf8Text(err.error))
    case InvalidGameResult(result) => Detailed("invalid game result", Decimal(result))
    case InvalidGameMode(mode) => Detailed("invalid game mode", Decimal(mode))
    case UnknownMap(name) => Detailed("unknown map", name)
    case UnknownGameResult(result) => Detailed("unknown game result", result)
    case UnknownGameMode(mode) => Detailed("unknown game mode", mode)
    case UnknownMission(mission) => Detailed("unknown mission", mission)
  }

  /** The number a variant carries, when it carries one. */
  function Carried(e: Error): Option<nat> {
    match e
    case UnsupportedReplayVersion(v) => Some(v)
    case UnsupportedResultVersion(v) => Some(v)
    case InvalidGameResult(r) => Some(r)
    case InvalidGameMode(m) => Some(m)
    case _ => None
  }

  /** The text a variant carries verbatim, when it carries one. */
  function CarriedText(e: Error): Option<string> {
    match e
    case UnknownMap(s) => Some(s)
    case UnknownGameResult(s) => Some(s)
    case UnknownGameMode(s) => Some(s)
    case UnknownMission(s) => Some(s)
    case _ => None
  }

  /** A detailed message ends with its detail in parentheses. */
  lemma DetailedTail(text: string, detail: string)
    ensures var m := Detailed(text, detail);
      |m| == |text| + |detail| + 3 &&
      m[|m| - |detail| - 2..] == "(" + detail + ")" && m[|m| - |detail| - 1..|m| - 1] == detail
  {
    var m := Detailed(text, detail);
    assert m == text + " " + ("(" + detail + ")");
  }

  /**
   * The variants that carry a number end their message with that number in
   * decimal inside parentheses, and reading those digits back gives the number.
   */
  lemma MessageEmbedsNumber(e: Error)
    requires Carried(e).Some?
    ensures var m := Message(e); var d := Decimal(Carried(e).value);
      |m| > |d| + 2 && m[|m| - |d| - 2..] == "(" + d + ")" && DecimalValue(m[|m| - |d| - 1..|m| - 1]) == Carried(e).value
  {
    var d := Decimal(Carried(e).value);
    DecimalRoundTrip(Carried(e).value);
    match e
    case UnsupportedReplayVersion(_) => DetailedTail("unsupported replay version", d);
    case UnsupportedResultVersion(_) => DetailedTail("unsupported result data version", d);
    case InvalidGameResult(_) => DetailedTail("invalid game result", d);
    case InvalidGameMode(_) => DetailedTail("invalid game mode", d);
  }

  /** The variants that carry user text end their message with that text, unaltered, inside parentheses. */
  lemma MessageEmbedsText(e: Error)
    requires CarriedText(e).Some?
    ensures var m := Message(e); var s := CarriedText(e).value;
      |m| >= |s| + 2 && m[|m| - |s| - 2..] == "(" + s + ")"
  {
    var s := CarriedText(e).value;
    match e
    case UnknownMap(_) => DetailedTail("unknown map", s);
    case UnknownGameResult(_) => DetailedTail("unknown game result", s);
    case UnknownGameMode(_) => DetailedTail("unknown game mode", s);
    case UnknownMission(_) => DetailedTail("unknown mission", s);
  }

  /** The message of the source's example: replay version 2. */
  lemma UnsupportedVersionTwoMessage()
    ensures Message(UnsupportedReplayVersion(2)) == "unsupported replay version (2)"
  {
  }
}
