/**
 * The replay header of spyparty-rs/src/replay/header/mod.rs: the `RPLY`
 * magic, the replay version (3, 4 or 5), a run of fixed-width fields, the
 * two user-name lengths, in version 5 the display-name lengths and two
 * unused bytes, the result block, latency and data size, and finally the
 * length-prefixed UTF-8 names.
 *
 * `Header` is the object `from_reader` fills in; each setter is proved
 * against one step of the pure decoder `Decode`, and the lemmas state what
 * `Decode` reads, where, and when it fails.
 */
module ReplayHeader {
  import opened Results
  import opened Utils
  import opened Errors
  import Utf8
  import ResultBlock

  // A snapshot of the fields of a `Header`, grouped by the part of the
  // header each is read from. Names are the UTF-8 bytes of the Rust `String`s.

  datatype Versions = Versions(replay: u32, protocol: u32, spyparty: u32, flags: u32)

  datatype Game = Game(duration: F32, gameId: u128, startTime: u32, playId: u16)

  /** The four name lengths a header announces. */
  datatype Lengths = Lengths(spyUser: u8, sniperUser: u8, spyDisplay: u8, sniperDisplay: u8)

  datatype Names = Names(spyUser: seq<u8>, sniperUser: seq<u8>, spyDisplay: Option<seq<u8>>, sniperDisplay: Option<seq<u8>>)

  datatype HeaderValue = HeaderValue(
    versions: Versions,
    game: Game,
    lengths: Lengths,
    resultData: ResultBlock.ResultValue,
    latency: F32,
    dataSize: u32,
    names: Names)

  /** `#[derive(Default)]`. */
  const DefaultValue: HeaderValue :=
    HeaderValue(Versions(0, 0, 0, 0), Game(F32(0), 0, 0, 0), Lengths(0, 0, 0, 0),
                ResultBlock.DefaultValue, F32(0), 0, Names([], [], None, None))

  /** `b"RPLY"`. */
  const Magic: seq<u8> := [0x52, 0x50, 0x4C, 0x59]

  type Step = Result<(HeaderValue, seq<u8>), Error>

  // One function per step of `from_reader`.

  /** `validate_identifier`: four bytes that must be the magic. */
  function IdentifierStep(v: HeaderValue, s: seq<u8>): Step {
    var id :- LiftIo(ParseBytes(s, 4));
    :- Ensure(id.0 == Magic, InvalidIdentifier);
    Success((v, id.1))
  }

  function ReplayVersionStep(v: HeaderValue, s: seq<u8>): Step {
    var w :- LiftIo(ParseU32(s));
    :- Ensure(w.0 == 3 || w.0 == 4 || w.0 == 5, UnsupportedReplayVersion(w.0));
    Success((v.(versions := v.versions.(replay := w.0)), w.1))
  }

  function ProtocolVersionStep(v: HeaderValue, s: seq<u8>): Step {
    var w :- LiftIo(ParseU32(s));
    Success((v.(versions := v.versions.(protocol := w.0)), w.1))
  }

  function SpypartyVersionStep(v: HeaderValue, s: seq<u8>): Step {
    var w :- LiftIo(ParseU32(s));
    Success((v.(versions := v.versions.(spyparty := w.0)), w.1))
  }

  function FlagsStep(v: HeaderValue, s: seq<u8>): Step {
    var w :- LiftIo(ParseU32(s));
    Success((v.(versions := v.versions.(flags := w.0)), w.1))
  }

  function DurationStep(v: HeaderValue, s: seq<u8>): Step {
    var w :- LiftIo(ParseF32(s));
    Success((v.(game := v.game.(duration := w.0)), w.1))
  }

  function GameIdStep(v: HeaderValue, s: seq<u8>): Step {
    var w :- LiftIo(ParseU128(s));
    Success((v.(game := v.game.(gameId := w.0)), w.1))
  }

  function StartTimeStep(v: HeaderValue, s: seq<u8>): Step {
    var w :- LiftIo(ParseU32(s));
    Success((v.(game := v.game.(startTime := w.0)), w.1))
  }

  function PlayIdStep(v: HeaderValue, s: seq<u8>): Step {
    var w :- LiftIo(ParseU16(s));
    Success((v.(game := v.game.(playId := w.0)), w.1))
  }

  /** `set_spy_user_len`: a zero length means the spy's name is missing. */
  function SpyUserLenStep(v: HeaderValue, s: seq<u8>): Step {
    var b :- LiftIo(ParseU8(s));
    if b.0 > 0 then Success((v.(lengths := v.lengths.(spyUser := b.0)), b.1)) else Failure(MissingSpyUsername)
  }

  function SniperUserLenStep(v: HeaderValue, s: seq<u8>): Step {
    var b :- LiftIo(ParseU8(s));
    if b.0 > 0 then Success((v.(lengths := v.lengths.(sniperUser := b.0)), b.1)) else Failure(MissingSniperUsername)
  }

  function SpyDisplayLenStep(v: HeaderValue, s: seq<u8>): Step {
    var b :- LiftIo(ParseU8(s));
    Success((v.(lengths := v.lengths.(spyDisplay := b.0)), b.1))
  }

  function SniperDisplayLenStep(v: HeaderValue, s: seq<u8>): Step {
    var b :- LiftIo(ParseU8(s));
    Success((v.(lengths := v.lengths.(sniperDisplay := b.0)), b.1))
  }

  /** `skip_unused`: two bytes read and dropped. */
  function SkipUnusedStep(v: HeaderValue, s: seq<u8>): Step {
    var b :- LiftIo(ParseBytes(s, 2));
    Success((v, b.1))
  }

  /** `set_result_data`: the result block, decoded for the replay version already read. */
  function ResultDataStep(v: HeaderValue, s: seq<u8>): Step {
    var r :- ResultBlock.Decode(s, v.versions.replay);
    Success((v.(resultData := r.0), r.1))
  }

  function LatencyStep(v: HeaderValue, s: seq<u8>): Step {
    var w :- LiftIo(ParseF32(s));
    Success((v.(latency := w.0), w.1))
  }

  function DataSizeStep(v: HeaderValue, s: seq<u8>): Step {
    var w :- LiftIo(ParseU32(s));
    Success((v.(dataSize := w.0), w.1))
  }

  /** `len` bytes that must be well-formed UTF-8. */
  function Name(s: seq<u8>, len: nat): Result<(seq<u8>, seq<u8>), Error> {
    var b :- LiftIo(ParseBytes(s, len));
    var name :- LiftUtf8(Utf8.FromUtf8(b.0));
    Success((name, b.1))
  }

  function SpyUserNameStep(v: HeaderValue, s: seq<u8>): Step {
    var n :- Name(s, v.lengths.spyUser);
    Success((v.(names := v.names.(spyUser := n.0)), n.1))
  }

  function SniperUserNameStep(v: HeaderValue, s: seq<u8>): Step {
    var n :- Name(s, v.lengths.sniperUser);
    Success((v.(names := v.names.(sniperUser := n.0)), n.1))
  }

  /** `set_spy_display_name`: a name only when its length is not zero; otherwise nothing is read. */
  function SpyDisplayNameStep(v: HeaderValue, s: seq<u8>): Step {
    if v.lengths.spyDisplay > 0 then
      var n :- Name(s, v.lengths.spyDisplay);
      Success((v.(names := v.names.(spyDisplay := Some(n.0))), n.1))
    else
      Success((v.(names := v.names.(spyDisplay := None)), s))
  }

  function SniperDisplayNameStep(v: HeaderValue, s: seq<u8>): Step {
    if v.lengths.sniperDisplay > 0 then
      var n :- Name(s, v.lengths.sniperDisplay);
      Success((v.(names := v.names.(sniperDisplay := Some(n.0))), n.1))
    else
      Success((v.(names := v.names.(sniperDisplay := None)), s))
  }

  // `from_reader`, in stages.

  /** Magic, replay version, protocol and SpyParty versions, flags: 20 bytes. */
  function DecodeVersions(v: HeaderValue, s: seq<u8>): Step {
    var a :- IdentifierStep(v, s);
    var b :- ReplayVersionStep(a.0, a.1);
    var c :- ProtocolVersionStep(b.0, b.1);
    var d :- SpypartyVersionStep(c.0, c.1);
    FlagsStep(d.0, d.1)
  }

  /** Duration, game id, start time and play id: 26 bytes. */
  function DecodeGame(v: HeaderValue, s: seq<u8>): Step {
    var a :- DurationStep(v, s);
    var b :- GameIdStep(a.0, a.1);
    var c :- StartTimeStep(b.0, b.1);
    PlayIdStep(c.0, c.1)
  }

  /** The name lengths: two bytes, and in version 5 two more and the two unused bytes. */
  function DecodeLengths(v: HeaderValue, s: seq<u8>): Step {
    var a :- SpyUserLenStep(v, s);
    var b :- SniperUserLenStep(a.0, a.1);
    if b.0.versions.replay == 5 then
      var c :- SpyDisplayLenStep(b.0, b.1);
      var d :- SniperDisplayLenStep(c.0, c.1);
      SkipUnusedStep(d.0, d.1)
    else
      Success(b)
  }

  /** Everything before the result block. */
  function DecodePrefix(v: HeaderValue, s: seq<u8>): Step {
    var a :- DecodeVersions(v, s);
    var b :- DecodeGame(a.0, a.1);
    DecodeLengths(b.0, b.1)
  }

  /** Latency and data size, after the result block. */
  function DecodeTrailer(v: HeaderValue, s: seq<u8>): Step {
    var a :- LatencyStep(v, s);
    DataSizeStep(a.0, a.1)
  }

  /** The four names. */
  function DecodeNames(v: HeaderValue, s: seq<u8>): Step {
    var a :- SpyUserNameStep(v, s);
    var b :- SniperUserNameStep(a.0, a.1);
    var c :- SpyDisplayNameStep(b.0, b.1);
    SniperDisplayNameStep(c.0, c.1)
  }

  /** Latency, data size and the names. */
  function DecodeTail(v: HeaderValue, s: seq<u8>): Step {
    var t :- DecodeTrailer(v, s);
    DecodeNames(t.0, t.1)
  }

  /** Everything from the result block on. */
  function DecodeBody(v: HeaderValue, s: seq<u8>): Step {
    var r :- ResultDataStep(v, s);
    DecodeTail(r.0, r.1)
  }

  /** `Header::from_reader` on the bytes `s`: the header and the bytes after it. */
  function Decode(s: seq<u8>): Step {
    var p :- DecodePrefix(DefaultValue, s);
    DecodeBody(p.0, p.1)
  }

  predicate Follows(step: Step, o: Outcome<Error>, v: HeaderValue, rest: seq<u8>) {
    && (o.Fail? <==> step.Failure?)
    && (o.Fail? ==> o.error == step.error)
    && (o.Pass? ==> v == step.value.0 && rest == step.value.1)
  }

  /** `read_exact` into a fresh buffer of `n` bytes. */
  method ReadBytes(reader: Reader, n: nat) returns (r: Result<seq<u8>, IoError>)
    modifies reader
    ensures var p := ParseBytes(old(reader.rest), n);
      && (r.Failure? <==> p.Failure?)
      && (r.Failure? ==> r.error == p.error)
      && (r.Success? ==> r.value == p.value.0 && reader.rest == p.value.1)
  {
    var buf := new u8[n](_ => 0);
    var o := reader.ReadExact(buf);
    if o.Fail? {
      return Failure(o.error);
    }
    return Success(buf[..]);
  }

  /** A name of `len` bytes read from the reader. */
  method ReadName(reader: Reader, len: nat) returns (r: Result<seq<u8>, Error>)
    modifies reader
    ensures var p := Name(old(reader.rest), len);
      && (r.Failure? <==> p.Failure?)
      && (r.Failure? ==> r.error == p.error)
      && (r.Success? ==> r.value == p.value.0 && reader.rest == p.value.1)
  {
    var buf := ReadBytes(reader, len);
    if buf.Failure? {
      return Failure(FromIo(buf.error));
    }
    var name := Utf8.FromUtf8(buf.value);
    if name.Failure? {
      return Failure(FromUtf8Error(name.error));
    }
    return Success(name.value);
  }

  class Header {
    var replayVersion: u32
    var protocolVersion: u32
    var spypartyVersion: u32
    var flags: u32
    var duration: F32
    var gameId: u128
    var startTime: u32
    var playId: u16
    var spyUserLen: u8
    var sniperUserLen: u8
    var spyDisplayLen: u8
    var sniperDisplayLen: u8
    var resultData: ResultBlock.ResultData
    var latency: F32
    var dataSize: u32
    var spyUserName: seq<u8>
    var sniperUserName: seq<u8>
    var spyDisplayName: Option<seq<u8>>
    var sniperDisplayName: Option<seq<u8>>

    function Value(): HeaderValue
      reads this, resultData
    {
      HeaderValue(
        Versions(replayVersion, protocolVersion, spypartyVersion, flags),
        Game(duration, gameId, startTime, playId),
        Lengths(spyUserLen, sniperUserLen, spyDisplayLen, sniperDisplayLen),
        resultData.Value(), latency, dataSize,
        Names(spyUserName, sniperUserName, spyDisplayName, sniperDisplayName))
    }

    /** `Default::default()`. */
    constructor ()
      ensures Value() == DefaultValue
      ensures fresh(resultData)
    {
      replayVersion := 0;
      protocolVersion := 0;
      spypartyVersion := 0;
      flags := 0;
      duration := F32(0);
      gameId := 0;
      startTime := 0;
      playId := 0;
      spyUserLen := 0;
      sniperUserLen := 0;
      spyDisplayLen := 0;
      sniperDisplayLen := 0;
      resultData := new ResultBlock.ResultData();
      latency := F32(0);
      dataSize := 0;
      spyUserName := [];
      sniperUserName := [];
      spyDisplayName := None;
      sniperDisplayName := None;
    }

    method ValidateIdentifier(reader: Reader) returns (o: Outcome<Error>)
      modifies reader
      ensures Follows(IdentifierStep(Value(), old(reader.rest)), o, Value(), reader.rest)
    {
      var id := ReadBytes(reader, 4);
      if id.Failure? {
        return Fail(FromIo(id.error));
      }
      if id.value != Magic {
        return Fail(InvalidIdentifier);
      }
      return Pass;
    }

    method SetReplayVersion(reader: Reader) returns (o: Outcome<Error>)
      modifies this, reader
      ensures Follows(ReplayVersionStep(old(Value()), old(reader.rest)), o, Value(), reader.rest)
    {
      var version := ReadU32(reader);
      if version.Failure? {
        return Fail(FromIo(version.error));
      }
      if !(version.value == 3 || version.value == 4 || version.value == 5) {
        return Fail(UnsupportedReplayVersion(version.value));
      }
      replayVersion := version.value;
      return Pass;
    }

    method SetProtocolVersion(reader: Reader) returns (o: Outcome<Error>)
      modifies this, reader
      ensures Follows(ProtocolVersionStep(old(Value()), old(reader.rest)), o, Value(), reader.rest)
    {
      var version := ReadU32(reader);
      if version.Failure? {
        return Fail(FromIo(version.error));
      }
      protocolVersion := version.value;
      return Pass;
    }

    method SetSpypartyVersion(reader: Reader) returns (o: Outcome<Error>)
      modifies this, reader
      ensures Follows(SpypartyVersionStep(old(Value()), old(reader.rest)), o, Value(), reader.rest)
    {
      var version := ReadU32(reader);
      if version.Failure? {
        return Fail(FromIo(version.error));
      }
      spypartyVersion := version.value;
      return Pass;
    }

    method SetFlags(reader: Reader) returns (o: Outcome<Error>)
      modifies this, reader
      ensures Follows(FlagsStep(old(Value()), old(reader.rest)), o, Value(), reader.rest)
    {
      var word := ReadU32(reader);
      if word.Failure? {
        return Fail(FromIo(word.error));
      }
      flags := word.value;
      return Pass;
    }

    method SetDuration(reader: Reader) returns (o: Outcome<Error>)
      modifies this, reader
      ensures Follows(DurationStep(old(Value()), old(reader.rest)), o, Value(), reader.rest)
    {
      var seconds := ReadF32(reader);
      if seconds.Failure? {
        return Fail(FromIo(seconds.error));
      }
      duration := seconds.value;
      return Pass;
    }

    method SetGameId(reader: Reader) returns (o: Outcome<Error>)
      modifies this, reader
      ensures Follows(GameIdStep(old(Value()), old(reader.rest)), o, Value(), reader.rest)
    {
      var id := ReadU128(reader);
      if id.Failure? {
        return Fail(FromIo(id.error));
      }
      gameId := id.value;
      return Pass;
    }

    method SetStartTime(reader: Reader) returns (o: Outcome<Error>)
      modifies this, reader
      ensures Follows(StartTimeStep(old(Value()), old(reader.rest)), o, Value(), reader.rest)
    {
      var time := ReadU32(reader);
      if time.Failure? {
        return Fail(FromIo(time.error));
      }
      startTime := time.value;
      return Pass;
    }

    method SetPlayId(reader: Reader) returns (o: Outcome<Error>)
      modifies this, reader
      ensures Follows(PlayIdStep(old(Value()), old(reader.rest)), o, Value(), reader.rest)
    {
      var id := ReadU16(reader);
      if id.Failure? {
        return Fail(FromIo(id.error));
      }
      playId := id.value;
      return Pass;
    }

    method SetSpyUserLen(reader: Reader) returns (o: Outcome<Error>)
      modifies this, reader
      ensures Follows(SpyUserLenStep(old(Value()), old(reader.rest)), o, Value(), reader.rest)
    {
      var len := ReadU8(reader);
      if len.Failure? {
        return Fail(FromIo(len.error));
      }
      if len.value > 0 {
        spyUserLen := len.value;
        return Pass;
      } else {
        return Fail(MissingSpyUsername);
      }
    }

    method SetSniperUserLen(reader: Reader) returns (o: Outcome<Error>)
      modifies this, reader
      ensures Follows(SniperUserLenStep(old(Value()), old(reader.rest)), o, Value(), reader.rest)
    {
      var len := ReadU8(reader);
      if len.Failure? {
        return Fail(FromIo(len.error));
      }
      if len.value > 0 {
        sniperUserLen := len.value;
        return Pass;
      } else {
        return Fail(MissingSniperUsername);
      }
    }

    method SetSpyDisplayLen(reader: Reader) returns (o: Outcome<Error>)
      modifies this, reader
      ensures Follows(SpyDisplayLenStep(old(Value()), old(reader.rest)), o, Value(), reader.rest)
    {
      var len := ReadU8(reader);
      if len.Failure? {
        return Fail(FromIo(len.error));
      }
      spyDisplayLen := len.value;
      return Pass;
    }

    method SetSniperDisplayLen(reader: Reader) returns (o: Outcome<Error>)
      modifies this, reader
      ensures Follows(SniperDisplayLenStep(old(Value()), old(reader.rest)), o, Value(), reader.rest)
    {
      var len := ReadU8(reader);
      if len.Failure? {
        return Fail(FromIo(len.error));
      }
      sniperDisplayLen := len.value;
      return Pass;
    }

    method SkipUnused(reader: Reader) returns (o: Outcome<Error>)
      modifies reader
      ensures Follows(SkipUnusedStep(Value(), old(reader.rest)), o, Value(), reader.rest)
    {
      var unused := ReadBytes(reader, 2);
      if unused.Failure? {
        return Fail(FromIo(unused.error));
      }
      return Pass;
    }

    method SetResultData(reader: Reader) returns (o: Outcome<Error>)
      modifies this, reader
      ensures Follows(ResultDataStep(old(Value()), old(reader.rest)), o, Value(), reader.rest)
    {
      var data := ResultBlock.ResultData.FromReader(reader, replayVersion);
      if data.Failure? {
        return Fail(data.error);
      }
      resultData := data.value;
      return Pass;
    }

    method SetLatency(reader: Reader) returns (o: Outcome<Error>)
      modifies this, reader
      ensures Follows(LatencyStep(old(Value()), old(reader.rest)), o, Value(), reader.rest)
    {
      var seconds := ReadF32(reader);
      if seconds.Failure? {
        return Fail(FromIo(seconds.error));
      }
      latency := seconds.value;
      return Pass;
    }

    method SetDataSize(reader: Reader) returns (o: Outcome<Error>)
      modifies this, reader
      ensures Follows(DataSizeStep(old(Value()), old(reader.rest)), o, Value(), reader.rest)
    {
      var size := ReadU32(reader);
      if size.Failure? {
        return Fail(FromIo(size.error));
      }
      dataSize := size.value;
      return Pass;
    }

    method SetSpyUserName(reader: Reader) returns (o: Outcome<Error>)
      modifies this, reader
      ensures Follows(SpyUserNameStep(old(Value()), old(reader.rest)), o, Value(), reader.rest)
    {
      var name := ReadName(reader, spyUserLen);
      if name.Failure? {
        return Fail(name.error);
      }
      spyUserName := name.value;
      return Pass;
    }

    method SetSniperUserName(reader: Reader) returns (o: Outcome<Error>)
      modifies this, reader
      ensures Follows(SniperUserNameStep(old(Value()), old(reader.rest)), o, Value(), reader.rest)
    {
      var name := ReadName(reader, sniperUserLen);
      if name.Failure? {
        return Fail(name.error);
      }
      sniperUserName := name.value;
      return Pass;
    }

    method SetSpyDisplayName(reader: Reader) returns (o: Outcome<Error>)
      modifies this, reader
      ensures Follows(SpyDisplayNameStep(old(Value()), old(reader.rest)), o, Value(), reader.rest)
    {
      if spyDisplayLen > 0 {
        var name := ReadName(reader, spyDisplayLen);
        if name.Failure? {
          return Fail(name.error);
        }
        spyDisplayName := Some(name.value);
      } else {
        spyDisplayName := None;
      }
      return Pass;
    }

    method SetSniperDisplayName(reader: Reader) returns (o: Outcome<Error>)
      modifies this, reader
      ensures Follows(SniperDisplayNameStep(old(Value()), old(reader.rest)), o, Value(), reader.rest)
    {
      if sniperDisplayLen > 0 {
        var name := ReadName(reader, sniperDisplayLen);
        if name.Failure? {
          return Fail(name.error);
        }
        sniperDisplayName := Some(name.value);
      } else {
        sniperDisplayName := None;
      }
      return Pass;
    }

    method ReadVersions(reader: Reader) returns (o: Outcome<Error>)
      modifies this, reader
      ensures Follows(DecodeVersions(old(Value()), old(reader.rest)), o, Value(), reader.rest)
    {
      o := ValidateIdentifier(reader);
      if o.Fail? { return; }
      o := SetReplayVersion(reader);
      if o.Fail? { return; }
      o := SetProtocolVersion(reader);
      if o.Fail? { return; }
      o := SetSpypartyVersion(reader);
      if o.Fail? { return; }
      o := SetFlags(reader);
    }

    method ReadGame(reader: Reader) returns (o: Outcome<Error>)
      modifies this, reader
      ensures Follows(DecodeGame(old(Value()), old(reader.rest)), o, Value(), reader.rest)
    {
      o := SetDuration(reader);
      if o.Fail? { return; }
      o := SetGameId(reader);
      if o.Fail? { return; }
      o := SetStartTime(reader);
      if o.Fail? { return; }
      o := SetPlayId(reader);
    }

    method ReadLengths(reader: Reader) returns (o: Outcome<Error>)
      modifies this, reader
      ensures Follows(DecodeLengths(old(Value()), old(reader.rest)), o, Value(), reader.rest)
    {
      o := SetSpyUserLen(reader);
      if o.Fail? { return; }
      o := SetSniperUserLen(reader);
      if o.Fail? { return; }
      if replayVersion == 5 {
        o := SetSpyDisplayLen(reader);
        if o.Fail? { return; }
        o := SetSniperDisplayLen(reader);
        if o.Fail? { return; }
        o := SkipUnused(reader);
      }
    }

    method ReadPrefix(reader: Reader) returns (o: Outcome<Error>)
      modifies this, reader
      ensures Follows(DecodePrefix(old(Value()), old(reader.rest)), o, Value(), reader.rest)
    {
      o := ReadVersions(reader);
      if o.Fail? { return; }
      o := ReadGame(reader);
      if o.Fail? { return; }
      o := ReadLengths(reader);
    }

    method ReadTrailer(reader: Reader) returns (o: Outcome<Error>)
      modifies this, reader
      ensures Follows(DecodeTrailer(old(Value()), old(reader.rest)), o, Value(), reader.rest)
    {
      o := SetLatency(reader);
      if o.Fail? { return; }
      o := SetDataSize(reader);
    }

    method ReadNames(reader: Reader) returns (o: Outcome<Error>)
      modifies this, reader
      ensures Follows(DecodeNames(old(Value()), old(reader.rest)), o, Value(), reader.rest)
    {
      o := SetSpyUserName(reader);
      if o.Fail? { return; }
      o := SetSniperUserName(reader);
      if o.Fail? { return; }
      o := SetSpyDisplayName(reader);
      if o.Fail? { return; }
      o := SetSniperDisplayName(reader);
    }

    method ReadTail(reader: Reader) returns (o: Outcome<Error>)
      modifies this, reader
      ensures Follows(DecodeTail(old(Value()), old(reader.rest)), o, Value(), reader.rest)
    {
      o := ReadTrailer(reader);
      if o.Fail? { return; }
      o := ReadNames(reader);
    }

    method ReadBody(reader: Reader) returns (o: Outcome<Error>)
      modifies this, reader
      ensures Follows(DecodeBody(old(Value()), old(reader.rest)), o, Value(), reader.rest)
    {
      o := SetResultData(reader);
      if o.Fail? { return; }
      o := ReadTail(reader);
    }

    /** `Header::from_reader`: a fresh header holding what `Decode` computes, or its error. */
    static method FromReader(reader: Reader) returns (r: Result<Header, Error>)
      modifies reader
      ensures var d := Decode(old(reader.rest));
        && (r.Failure? <==> d.Failure?)
        && (r.Failure? ==> r.error == d.error)
        && (r.Success? ==> fresh(r.value) && r.value.Value() == d.value.0 && reader.rest == d.value.1)
    {
      var header := new Header();
      var o := header.ReadPrefix(reader);
      if o.Fail? { return Failure(o.error); }
      o := header.ReadBody(reader);
      if o.Fail? { return Failure(o.error); }
      return Success(header);
    }
  }

  // The header described by positions in the input: an independent account
  // of what `Decode` reads, which the lemmas below connect it to.

  /** Bytes before the result block: 48, or 52 in version 5 (display-name lengths and two unused bytes). */
  function PrefixSize(replayVersion: u32): nat {
    if replayVersion == 5 then 52 else 48
  }

  /** The part before the result block is whole, starts with the magic, has a supported version and both user names. */
  predicate PrefixOk(s: seq<u8>) {
    && 8 <= |s|
    && s[..4] == Magic
    && WordAt(s, 4) in {3, 4, 5}
    && PrefixSize(WordAt(s, 4)) <= |s|
    && s[46] > 0 && s[47] > 0
  }

  /** The fields before the result block, each read at its own position. */
  function LaidOutPrefix(s: seq<u8>): HeaderValue
    requires PrefixOk(s)
  {
    var rv := WordAt(s, 4);
    DefaultValue.(
      versions := Versions(rv, WordAt(s, 8), WordAt(s, 12), WordAt(s, 16)),
      game := Game(F32(WordAt(s, 20)), WideAt(s, 24), WordAt(s, 40), HalfAt(s, 44)),
      lengths := Lengths(s[46], s[47], if rv == 5 then s[48] else 0, if rv == 5 then s[49] else 0))
  }

  /** The bytes the four names take. */
  function NamesSize(l: Lengths): nat {
    l.spyUser + l.sniperUser + l.spyDisplay + l.sniperDisplay
  }

  /** The names from byte `i` on are all present and well-formed UTF-8. */
  predicate NamesOk(l: Lengths, s: seq<u8>, i: nat) {
    var a := i + l.spyUser;
    var b := a + l.sniperUser;
    var c := b + l.spyDisplay;
    var e := c + l.sniperDisplay;
    && a <= |s| && Utf8.Valid(s[i..a])
    && b <= |s| && Utf8.Valid(s[a..b])
    && c <= |s| && (c > b ==> Utf8.Valid(s[b..c]))
    && e <= |s| && (e > c ==> Utf8.Valid(s[c..e]))
  }

  /** The names, each read at its own position; a display name of length zero is absent. */
  function NamesAt(l: Lengths, s: seq<u8>, i: nat): Names
    requires NamesOk(l, s, i)
  {
    var a := i + l.spyUser;
    var b := a + l.sniperUser;
    var c := b + l.spyDisplay;
    var e := c + l.sniperDisplay;
    Names(s[i..a], s[a..b], if c > b then Some(s[b..c]) else None, if e > c then Some(s[c..e]) else None)
  }

  /** Where the result block starts. */
  function BlockStart(s: seq<u8>): nat
    requires PrefixOk(s)
  {
    PrefixSize(WordAt(s, 4))
  }

  /** Where latency and data size start: after the prefix and the result block. */
  function TrailerStart(s: seq<u8>): nat
    requires PrefixOk(s)
  {
    var rv := WordAt(s, 4);
    var p := BlockStart(s);
    p + ResultBlock.BlockSize(rv, ResultBlock.VersionOf(s[p..], rv))
  }

  /** The input holds a whole header that decodes without error. */
  predicate HeaderOk(s: seq<u8>) {
    && PrefixOk(s)
    && ResultBlock.BlockOk(s[BlockStart(s)..], WordAt(s, 4))
    && TrailerStart(s) + 8 <= |s|
    && NamesOk(LaidOutPrefix(s).lengths, s, TrailerStart(s) + 8)
  }

  /** The header such an input holds, every field read at its own position. */
  function LaidOut(s: seq<u8>): HeaderValue
    requires HeaderOk(s)
  {
    var p := LaidOutPrefix(s);
    var t := TrailerStart(s);
    p.(resultData := ResultBlock.LaidOut(s[BlockStart(s)..], WordAt(s, 4)),
       latency := F32(WordAt(s, t)),
       dataSize := WordAt(s, t + 4),
       names := NamesAt(p.lengths, s, t + 8))
  }

  /** All the bytes the header takes. */
  function HeaderSize(s: seq<u8>): nat
    requires HeaderOk(s)
  {
    TrailerStart(s) + 8 + NamesSize(LaidOutPrefix(s).lengths)
  }

  /** Magic and the three version words and the flags, at offsets 0 to 19. */
  lemma VersionsLayout(v: HeaderValue, s: seq<u8>)
    ensures var d := DecodeVersions(v, s);
      && (d.Success? <==> 20 <= |s| && s[..4] == Magic && WordAt(s, 4) in {3, 4, 5})
      && (d.Success? ==> d.value == (v.(versions := Versions(WordAt(s, 4), WordAt(s, 8), WordAt(s, 12), WordAt(s, 16))), s[20..]))
  {
    ParseBytesAt(s, 0, 4);
    assert s[0..] == s;
    if 4 <= |s| {
      ParseU32At(s, 4);
      if 8 <= |s| {
        ParseU32At(s, 8);
        if 12 <= |s| {
          ParseU32At(s, 12);
          if 16 <= |s| {
            ParseU32At(s, 16);
          }
        }
      }
    }
  }

  /** Duration, game id, start time and play id, in 26 bytes from `i`. */
  lemma GameLayout(v: HeaderValue, s: seq<u8>, i: nat)
    requires i <= |s|
    ensures var d := DecodeGame(v, s[i..]);
      && (d.Success? <==> i + 26 <= |s|)
      && (d.Failure? ==> d.error == Io(UnexpectedEof))
      && (d.Success? ==> d.value == (v.(game := Game(F32(WordAt(s, i)), WideAt(s, i + 4), WordAt(s, i + 20), HalfAt(s, i + 24))), s[i + 26..]))
  {
    ParseF32At(s, i);
    if i + 4 <= |s| {
      ParseU128At(s, i + 4);
      if i + 20 <= |s| {
        ParseU32At(s, i + 20);
        if i + 24 <= |s| {
          ParseU16At(s, i + 24);
        }
      }
    }
  }

  /** The name lengths from `i`: two bytes, both non-zero, then in version 5 four more. */
  lemma LengthsLayout(v: HeaderValue, s: seq<u8>, i: nat)
    requires i <= |s|
    ensures var d := DecodeLengths(v, s[i..]);
      var five := v.versions.replay == 5;
      var n := if five then 6 else 2;
      && (d.Success? <==> i + n <= |s| && s[i] > 0 && s[i + 1] > 0)
      && (d.Success? ==> d.value == (v.(lengths := Lengths(s[i], s[i + 1],
            if five then s[i + 2] else v.lengths.spyDisplay,
            if five then s[i + 3] else v.lengths.sniperDisplay)), s[i + n..]))
  {
    ParseU8At(s, i);
    if i + 1 <= |s| {
      ParseU8At(s, i + 1);
      if i + 2 <= |s| {
        ParseU8At(s, i + 2);
        if i + 3 <= |s| {
          ParseU8At(s, i + 3);
          if i + 4 <= |s| {
            ParseBytesAt(s, i + 4, 2);
          }
        }
      }
    }
  }

  /** Everything before the result block is read at fixed positions. */
  lemma PrefixLayout(s: seq<u8>)
    ensures DecodePrefix(DefaultValue, s).Success? <==> PrefixOk(s)
    ensures PrefixOk(s) ==> DecodePrefix(DefaultValue, s) == Success((LaidOutPrefix(s), s[BlockStart(s)..]))
  {
    VersionsLayout(DefaultValue, s);
    var a := DecodeVersions(DefaultValue, s);
    if a.Success? {
      GameLayout(a.value.0, s, 20);
      var b := DecodeGame(a.value.0, s[20..]);
      if b.Success? {
        LengthsLayout(b.value.0, s, 46);
      }
    }
  }

  /** A name of `n` bytes from `i`: there must be `n` bytes and they must be UTF-8. */
  lemma NameAt(s: seq<u8>, i: nat, n: nat)
    requires i <= |s|
    ensures Name(s[i..], n).Success? <==> i + n <= |s| && Utf8.Valid(s[i..i + n])
    ensures Name(s[i..], n).Success? ==> Name(s[i..], n).value == (s[i..i + n], s[i + n..])
    ensures i + n > |s| ==> Name(s[i..], n) == Failure(Io(UnexpectedEof))
    ensures i + n <= |s| && !Utf8.Valid(s[i..i + n]) ==>
      Name(s[i..], n) == Failure(InvalidString(Utf8.FromUtf8(s[i..i + n]).error))
  {
    ParseBytesAt(s, i, n);
  }

  lemma SpyUserNameLayout(v: HeaderValue, s: seq<u8>, i: nat, j: nat)
    requires i <= |s| && j == i + v.lengths.spyUser
    ensures var d := SpyUserNameStep(v, s[i..]);
      && (d.Success? <==> j <= |s| && Utf8.Valid(s[i..j]))
      && (d.Success? ==> d.value == (v.(names := v.names.(spyUser := s[i..j])), s[j..]))
  {
    NameAt(s, i, v.lengths.spyUser);
  }

  lemma SniperUserNameLayout(v: HeaderValue, s: seq<u8>, i: nat, j: nat)
    requires i <= |s| && j == i + v.lengths.sniperUser
    ensures var d := SniperUserNameStep(v, s[i..]);
      && (d.Success? <==> j <= |s| && Utf8.Valid(s[i..j]))
      && (d.Success? ==> d.value == (v.(names := v.names.(sniperUser := s[i..j])), s[j..]))
  {
    NameAt(s, i, v.lengths.sniperUser);
  }

  lemma SpyDisplayNameLayout(v: HeaderValue, s: seq<u8>, i: nat, j: nat)
    requires i <= |s| && j == i + v.lengths.spyDisplay
    ensures var d := SpyDisplayNameStep(v, s[i..]);
      && (d.Success? <==> j <= |s| && (j > i ==> Utf8.Valid(s[i..j])))
      && (d.Success? ==> d.value == (v.(names := v.names.(spyDisplay := if j > i then Some(s[i..j]) else None)), s[j..]))
  {
    NameAt(s, i, v.lengths.spyDisplay);
  }

  lemma SniperDisplayNameLayout(v: HeaderValue, s: seq<u8>, i: nat, j: nat)
    requires i <= |s| && j == i + v.lengths.sniperDisplay
    ensures var d := SniperDisplayNameStep(v, s[i..]);
      && (d.Success? <==> j <= |s| && (j > i ==> Utf8.Valid(s[i..j])))
      && (d.Success? ==> d.value == (v.(names := v.names.(sniperDisplay := if j > i then Some(s[i..j]) else None)), s[j..]))
  {
    NameAt(s, i, v.lengths.sniperDisplay);
  }

  /** Setting the four names one after another sets them all at once. */
  lemma NamesCompose(v: HeaderValue, v1: HeaderValue, v2: HeaderValue, v3: HeaderValue, v4: HeaderValue, n: Names)
    requires v1 == v.(names := v.names.(spyUser := n.spyUser))
    requires v2 == v1.(names := v1.names.(sniperUser := n.sniperUser))
    requires v3 == v2.(names := v2.names.(spyDisplay := n.spyDisplay))
    requires v4 == v3.(names := v3.names.(sniperDisplay := n.sniperDisplay))
    ensures v4 == v.(names := n)
  {
  }

  /** Four name steps that succeed one after another are the names decoded. */
  lemma NamesChain(v: HeaderValue, x: seq<u8>, v1: HeaderValue, x1: seq<u8>, v2: HeaderValue, x2: seq<u8>, v3: HeaderValue, x3: seq<u8>)
    requires SpyUserNameStep(v, x) == Success((v1, x1))
    requires SniperUserNameStep(v1, x1) == Success((v2, x2))
    requires SpyDisplayNameStep(v2, x2) == Success((v3, x3))
    ensures DecodeNames(v, x) == SniperDisplayNameStep(v3, x3)
  {
  }

  /** The four name steps at the offsets `i <= a <= b <= c <= e`, each name accepted. */
  lemma NamesSteps(v: HeaderValue, s: seq<u8>, i: nat, a: nat, b: nat, c: nat, e: nat)
    requires a == i + v.lengths.spyUser && b == a + v.lengths.sniperUser
    requires c == b + v.lengths.spyDisplay && e == c + v.lengths.sniperDisplay && e <= |s|
    requires Utf8.Valid(s[i..a]) && Utf8.Valid(s[a..b])
    requires (c > b ==> Utf8.Valid(s[b..c])) && (e > c ==> Utf8.Valid(s[c..e]))
    ensures DecodeNames(v, s[i..]) ==
      Success((v.(names := Names(s[i..a], s[a..b], if c > b then Some(s[b..c]) else None, if e > c then Some(s[c..e]) else None)), s[e..]))
  {
    var n := Names(s[i..a], s[a..b], if c > b then Some(s[b..c]) else None, if e > c then Some(s[c..e]) else None);
    var v1 := v.(names := v.names.(spyUser := n.spyUser));
    var v2 := v1.(names := v1.names.(sniperUser := n.sniperUser));
    var v3 := v2.(names := v2.names.(spyDisplay := n.spyDisplay));
    var v4 := v3.(names := v3.names.(sniperDisplay := n.sniperDisplay));
    NamesCompose(v, v1, v2, v3, v4, n);
    SpyUserNameLayout(v, s, i, a);
    SniperUserNameLayout(v1, s, a, b);
    SpyDisplayNameLayout(v2, s, b, c);
    SniperDisplayNameLayout(v3, s, c, e);
    NamesChain(v, s[i..], v1, s[a..], v2, s[b..], v3, s[c..]);
  }

  /** `NamesOk` and `NamesAt` spelled out at the four offsets. */
  lemma NamesAtOffsets(l: Lengths, s: seq<u8>, i: nat, a: nat, b: nat, c: nat, e: nat)
    requires a == i + l.spyUser && b == a + l.sniperUser && c == b + l.spyDisplay && e == c + l.sniperDisplay
    requires NamesOk(l, s, i)
    ensures e == i + NamesSize(l) && e <= |s|
    ensures Utf8.Valid(s[i..a]) && Utf8.Valid(s[a..b])
    ensures (c > b ==> Utf8.Valid(s[b..c])) && (e > c ==> Utf8.Valid(s[c..e]))
    ensures NamesAt(l, s, i) == Names(s[i..a], s[a..b], if c > b then Some(s[b..c]) else None, if e > c then Some(s[c..e]) else None)
  {
  }

  /** All four names present and well-formed: each is read at its own position. */
  lemma NamesSucceed(v: HeaderValue, s: seq<u8>, i: nat)
    requires i <= |s| && NamesOk(v.lengths, s, i)
    ensures DecodeNames(v, s[i..]) == Success((v.(names := NamesAt(v.lengths, s, i)), s[i + NamesSize(v.lengths)..]))
  {
    var l := v.lengths;
    var a := i + l.spyUser;
    var b := a + l.sniperUser;
    var c := b + l.spyDisplay;
    var e := c + l.sniperDisplay;
    NamesAtOffsets(l, s, i, a, b, c, e);
    NamesSteps(v, s, i, a, b, c, e);
  }

  /** A name step that fails ends the decoding with its error. */
  lemma NamesChainFails(v: HeaderValue, x: seq<u8>, v1: HeaderValue, x1: seq<u8>, v2: HeaderValue, x2: seq<u8>)
    ensures SpyUserNameStep(v, x).Failure? ==> DecodeNames(v, x) == Failure(SpyUserNameStep(v, x).error)
    ensures SpyUserNameStep(v, x) == Success((v1, x1)) && SniperUserNameStep(v1, x1).Failure? ==>
      DecodeNames(v, x) == Failure(SniperUserNameStep(v1, x1).error)
    ensures SpyUserNameStep(v, x) == Success((v1, x1)) && SniperUserNameStep(v1, x1) == Success((v2, x2)) && SpyDisplayNameStep(v2, x2).Failure? ==>
      DecodeNames(v, x) == Failure(SpyDisplayNameStep(v2, x2).error)
  {
  }

  /** A name that is cut short or not UTF-8 fails the whole decoding. */
  lemma NamesFail(v: HeaderValue, s: seq<u8>, i: nat)
    requires i <= |s| && !NamesOk(v.lengths, s, i)
    ensures DecodeNames(v, s[i..]).Failure?
  {
    var l := v.lengths;
    var a := i + l.spyUser;
    var b := a + l.sniperUser;
    var c := b + l.spyDisplay;
    var e := c + l.sniperDisplay;
    assert !(&& a <= |s| && Utf8.Valid(s[i..a])
             && b <= |s| && Utf8.Valid(s[a..b])
             && c <= |s| && (c > b ==> Utf8.Valid(s[b..c]))
             && e <= |s| && (e > c ==> Utf8.Valid(s[c..e])));
    SpyUserNameLayout(v, s, i, a);
    if a <= |s| && Utf8.Valid(s[i..a]) {
      var v1 := v.(names := v.names.(spyUser := s[i..a]));
      SniperUserNameLayout(v1, s, a, b);
      if b <= |s| && Utf8.Valid(s[a..b]) {
        var v2 := v1.(names := v1.names.(sniperUser := s[a..b]));
        SpyDisplayNameLayout(v2, s, b, c);
        if c <= |s| && (c > b ==> Utf8.Valid(s[b..c])) {
          var v3 := v2.(names := v2.names.(spyDisplay := if c > b then Some(s[b..c]) else None));
          SniperDisplayNameLayout(v3, s, c, e);
          NamesChain(v, s[i..], v1, s[a..], v2, s[b..], v3, s[c..]);
        } else {
          NamesChainFails(v, s[i..], v1, s[a..], v2, s[b..]);
        }
      } else {
        NamesChainFails(v, s[i..], v1, s[a..], v, s);
      }
    } else {
      NamesChainFails(v, s[i..], v, s, v, s);
    }
  }

  /** The four names from `i`, by the lengths in `v`. */
  lemma NamesLayout(v: HeaderValue, s: seq<u8>, i: nat)
    requires i <= |s|
    ensures var l := v.lengths;
      && (DecodeNames(v, s[i..]).Success? <==> NamesOk(l, s, i))
      && (NamesOk(l, s, i) ==> DecodeNames(v, s[i..]) == Success((v.(names := NamesAt(l, s, i)), s[i + NamesSize(l)..])))
  {
    if NamesOk(v.lengths, s, i) {
      NamesSucceed(v, s, i);
    } else {
      NamesFail(v, s, i);
    }
  }

  /** Latency and data size, in 8 bytes from `i`. */
  lemma TrailerLayout(v: HeaderValue, s: seq<u8>, i: nat)
    requires i <= |s|
    ensures var d := DecodeTrailer(v, s[i..]);
      && (d.Success? <==> i + 8 <= |s|)
      && (d.Failure? ==> d.error == Io(UnexpectedEof))
      && (d.Success? ==> d.value == (v.(latency := F32(WordAt(s, i)), dataSize := WordAt(s, i + 4)), s[i + 8..]))
  {
    ParseF32At(s, i);
    if i + 4 <= |s| {
      ParseU32At(s, i + 4);
    }
  }

  /** Latency, data size and the names from `i`. */
  lemma TailLayout(v: HeaderValue, s: seq<u8>, i: nat)
    requires i <= |s|
    ensures var l := v.lengths;
      && (DecodeTail(v, s[i..]).Success? <==> i + 8 <= |s| && NamesOk(l, s, i + 8))
      && (i + 8 <= |s| && NamesOk(l, s, i + 8) ==>
            DecodeTail(v, s[i..]) == Success((v.(latency := F32(WordAt(s, i)), dataSize := WordAt(s, i + 4),
              names := NamesAt(l, s, i + 8)), s[i + 8 + NamesSize(l)..])))
  {
    TrailerLayout(v, s, i);
    if i + 8 <= |s| {
      var w := v.(latency := F32(WordAt(s, i)), dataSize := WordAt(s, i + 4));
      assert s[i..][8..] == s[i + 8..];
      NamesLayout(w, s, i + 8);
    }
  }

  /** The result block from `p`, decoded for the replay version in `v`, and the block consumed. */
  lemma ResultDataLayout(v: HeaderValue, s: seq<u8>, p: nat)
    requires p <= |s|
    ensures var rv := v.versions.replay; var d := ResultDataStep(v, s[p..]);
      && (d.Success? <==> ResultBlock.BlockOk(s[p..], rv))
      && (d.Success? ==> d.value == (v.(resultData := ResultBlock.LaidOut(s[p..], rv)),
            s[p + ResultBlock.BlockSize(rv, ResultBlock.VersionOf(s[p..], rv))..]))
  {
    var rv := v.versions.replay;
    ResultBlock.DecodeLayout(s[p..], rv);
    if ResultBlock.BlockOk(s[p..], rv) {
      var n := ResultBlock.BlockSize(rv, ResultBlock.VersionOf(s[p..], rv));
      assert s[p..][n..] == s[p + n..];
    }
  }

  /** Everything from the result block on: once the block is read, what remains is the tail. */
  lemma BodyThroughBlock(v: HeaderValue, s: seq<u8>)
    ensures ResultDataStep(v, s).Failure? ==> DecodeBody(v, s) == Failure(ResultDataStep(v, s).error)
    ensures ResultDataStep(v, s).Success? ==>
      DecodeBody(v, s) == DecodeTail(ResultDataStep(v, s).value.0, ResultDataStep(v, s).value.1)
  {
  }

  /** The whole decoder: the prefix, and the body after it. */
  lemma DecodeChain(s: seq<u8>, a: HeaderValue, x: seq<u8>)
    ensures DecodePrefix(DefaultValue, s).Failure? ==> Decode(s) == Failure(DecodePrefix(DefaultValue, s).error)
    ensures DecodePrefix(DefaultValue, s) == Success((a, x)) ==> Decode(s) == DecodeBody(a, x)
  {
  }

  /** `HeaderOk` and `LaidOut` spelled out stage by stage. */
  lemma HeaderAt(s: seq<u8>)
    requires HeaderOk(s)
    ensures var rv := WordAt(s, 4); var p := BlockStart(s); var a := LaidOutPrefix(s); var t := TrailerStart(s);
      var r := a.(resultData := ResultBlock.LaidOut(s[p..], rv));
      && a.versions.replay == rv && ResultBlock.BlockOk(s[p..], rv)
      && t == p + ResultBlock.BlockSize(rv, ResultBlock.VersionOf(s[p..], rv))
      && t + 8 <= |s| && NamesOk(r.lengths, s, t + 8)
      && LaidOut(s) == r.(latency := F32(WordAt(s, t)), dataSize := WordAt(s, t + 4), names := NamesAt(r.lengths, s, t + 8))
      && HeaderSize(s) == t + 8 + NamesSize(r.lengths)
  {
  }

  /** The three stages that succeed one after another are the header decoded. */
  lemma DecodeSteps(s: seq<u8>, a: HeaderValue, x: seq<u8>, r: HeaderValue, y: seq<u8>, f: HeaderValue, z: seq<u8>)
    requires DecodePrefix(DefaultValue, s) == Success((a, x))
    requires ResultDataStep(a, x) == Success((r, y))
    requires DecodeTail(r, y) == Success((f, z))
    ensures Decode(s) == Success((f, z))
  {
    DecodeChain(s, a, x);
    BodyThroughBlock(a, x);
  }

  /** In a whole header, the result block after the prefix decodes to its laid-out value and ends where the trailer starts. */
  lemma ResultStageAt(s: seq<u8>)
    requires HeaderOk(s)
    ensures var p := BlockStart(s); var a := LaidOutPrefix(s);
      ResultDataStep(a, s[p..]) == Success((a.(resultData := ResultBlock.LaidOut(s[p..], WordAt(s, 4))), s[TrailerStart(s)..]))
  {
    HeaderAt(s);
    ResultDataLayout(LaidOutPrefix(s), s, BlockStart(s));
  }

  /** Latency, data size and names that are all there complete the header `r` and end after the names. */
  lemma TailStage(r: HeaderValue, s: seq<u8>, t: nat, f: HeaderValue, e: nat)
    requires t + 8 <= |s| && NamesOk(r.lengths, s, t + 8)
    requires f == r.(latency := F32(WordAt(s, t)), dataSize := WordAt(s, t + 4), names := NamesAt(r.lengths, s, t + 8))
    requires e == t + 8 + NamesSize(r.lengths)
    ensures DecodeTail(r, s[t..]) == Success((f, s[e..]))
  {
    TailLayout(r, s, t);
  }

  /** A whole header decodes to its fields at their positions and consumes exactly its bytes. */
  lemma DecodeSucceeds(s: seq<u8>)
    requires HeaderOk(s)
    ensures Decode(s) == Success((LaidOut(s), s[HeaderSize(s)..]))
  {
    var p := BlockStart(s);
    var t := TrailerStart(s);
    var a := LaidOutPrefix(s);
    var r := a.(resultData := ResultBlock.LaidOut(s[p..], WordAt(s, 4)));
    HeaderAt(s);
    PrefixLayout(s);
    ResultStageAt(s);
    TailStage(r, s, t, LaidOut(s), HeaderSize(s));
    DecodeSteps(s, a, s[p..], r, s[t..], LaidOut(s), s[HeaderSize(s)..]);
  }

  /** A result block that decodes takes its laid-out value and ends `BlockSize` bytes on. */
  lemma BlockStage(a: HeaderValue, s: seq<u8>, p: nat, rv: u32, t: nat)
    requires p <= |s| && a.versions.replay == rv && ResultBlock.BlockOk(s[p..], rv)
    requires t == p + ResultBlock.BlockSize(rv, ResultBlock.VersionOf(s[p..], rv))
    ensures ResultDataStep(a, s[p..]) == Success((a.(resultData := ResultBlock.LaidOut(s[p..], rv)), s[t..]))
  {
    ResultDataLayout(a, s, p);
  }

  /** Latency, data size or a name missing or not UTF-8 from `t` fail the tail. */
  lemma TailFailure(r: HeaderValue, s: seq<u8>, t: nat)
    requires t <= |s| && !(t + 8 <= |s| && NamesOk(r.lengths, s, t + 8))
    ensures DecodeTail(r, s[t..]).Failure?
  {
    TailLayout(r, s, t);
  }

  /** A result block that fails after the prefix fails the header. */
  lemma FailsInBlock(s: seq<u8>, a: HeaderValue, x: seq<u8>)
    requires DecodePrefix(DefaultValue, s) == Success((a, x))
    requires ResultDataStep(a, x).Failure?
    ensures Decode(s).Failure?
  {
    DecodeChain(s, a, x);
    BodyThroughBlock(a, x);
  }

  /** A trailer or names that fail after the result block fail the header. */
  lemma FailsInTail(s: seq<u8>, a: HeaderValue, x: seq<u8>, r: HeaderValue, y: seq<u8>)
    requires DecodePrefix(DefaultValue, s) == Success((a, x))
    requires ResultDataStep(a, x) == Success((r, y))
    requires DecodeTail(r, y).Failure?
    ensures Decode(s).Failure?
  {
    DecodeChain(s, a, x);
    BodyThroughBlock(a, x);
  }

  /** A prefix that is cut short or fails a check fails the header. */
  lemma FailsAtPrefix(s: seq<u8>)
    requires !PrefixOk(s)
    ensures Decode(s).Failure?
  {
    PrefixLayout(s);
    DecodeChain(s, DefaultValue, s);
  }

  /** A result block that does not decode after a good prefix fails the header. */
  lemma FailsAtBlock(s: seq<u8>)
    requires PrefixOk(s)
    requires !ResultBlock.BlockOk(s[BlockStart(s)..], WordAt(s, 4))
    ensures Decode(s).Failure?
  {
    var p := BlockStart(s);
    var a := LaidOutPrefix(s);
    PrefixLayout(s);
    ResultDataLayout(a, s, p);
    FailsInBlock(s, a, s[p..]);
  }

  /** A trailer or names missing or not UTF-8 after a good result block fail the header. */
  lemma FailsAtTail(s: seq<u8>)
    requires PrefixOk(s)
    requires ResultBlock.BlockOk(s[BlockStart(s)..], WordAt(s, 4))
    requires !(TrailerStart(s) + 8 <= |s| && NamesOk(LaidOutPrefix(s).lengths, s, TrailerStart(s) + 8))
    ensures Decode(s).Failure?
  {
    var p := BlockStart(s);
    var t := TrailerStart(s);
    var a := LaidOutPrefix(s);
    var r := a.(resultData := ResultBlock.LaidOut(s[p..], WordAt(s, 4)));
    PrefixLayout(s);
    BlockStage(a, s, p, WordAt(s, 4), t);
    TailFailure(r, s, t);
    FailsInTail(s, a, s[p..], r, s[t..]);
  }

  /** An input without a whole, valid header fails to decode. */
  lemma DecodeFails(s: seq<u8>)
    requires !HeaderOk(s)
    ensures Decode(s).Failure?
  {
    if !PrefixOk(s) {
      FailsAtPrefix(s);
    } else if !ResultBlock.BlockOk(s[BlockStart(s)..], WordAt(s, 4)) {
      FailsAtBlock(s);
    } else {
      FailsAtTail(s);
    }
  }

  /**
   * Decoding reads the header laid out at fixed and length-given positions:
   * it succeeds exactly when the input holds a whole header every check of
   * which passes, and then yields the fields at their positions and
   * consumes precisely the header.
   */
  lemma DecodeLayout(s: seq<u8>)
    ensures Decode(s).Success? <==> HeaderOk(s)
    ensures HeaderOk(s) ==> Decode(s) == Success((LaidOut(s), s[HeaderSize(s)..]))
  {
    if HeaderOk(s) {
      DecodeSucceeds(s);
    } else {
      DecodeFails(s);
    }
  }

  // The error each failing check reports.

  /** The prefix stops at the first stage that fails, with that stage's error. */
  lemma PrefixChain(s: seq<u8>, a: HeaderValue, x: seq<u8>, b: HeaderValue, y: seq<u8>)
    ensures DecodeVersions(DefaultValue, s).Failure? ==>
      DecodePrefix(DefaultValue, s) == Failure(DecodeVersions(DefaultValue, s).error)
    ensures DecodeVersions(DefaultValue, s) == Success((a, x)) && DecodeGame(a, x) == Success((b, y)) ==>
      DecodePrefix(DefaultValue, s) == DecodeLengths(b, y)
  {
  }

  /** Fewer than four bytes are an I/O error; four that are not `RPLY` are an invalid identifier. */
  lemma IdentifierErrors(s: seq<u8>)
    ensures |s| < 4 ==> Decode(s) == Failure(Io(UnexpectedEof))
    ensures 4 <= |s| && s[..4] != Magic ==> Decode(s) == Failure(InvalidIdentifier)
  {
    DecodeChain(s, DefaultValue, s);
    PrefixChain(s, DefaultValue, s, DefaultValue, s);
  }

  /** A replay version other than 3, 4 and 5 is reported with its value. */
  lemma ReplayVersionError(s: seq<u8>)
    requires 8 <= |s| && s[..4] == Magic && WordAt(s, 4) !in {3, 4, 5}
    ensures Decode(s) == Failure(UnsupportedReplayVersion(WordAt(s, 4)))
  {
    ParseBytesAt(s, 0, 4);
    assert s[0..] == s;
    ParseU32At(s, 4);
    DecodeChain(s, DefaultValue, s);
    PrefixChain(s, DefaultValue, s, DefaultValue, s);
  }

  /** A user-name length of zero is that name missing, the spy's checked before the sniper's. */
  lemma UserLengthErrors(s: seq<u8>)
    requires 47 <= |s| && s[..4] == Magic && WordAt(s, 4) in {3, 4, 5}
    ensures s[46] == 0 ==> Decode(s) == Failure(MissingSpyUsername)
    ensures s[46] > 0 && 48 <= |s| && s[47] == 0 ==> Decode(s) == Failure(MissingSniperUsername)
  {
    VersionsLayout(DefaultValue, s);
    var a := DefaultValue.(versions := Versions(WordAt(s, 4), WordAt(s, 8), WordAt(s, 12), WordAt(s, 16)));
    GameLayout(a, s, 20);
    var b := a.(game := Game(F32(WordAt(s, 20)), WideAt(s, 24), WordAt(s, 40), HalfAt(s, 44)));
    ParseU8At(s, 46);
    if 48 <= |s| {
      ParseU8At(s, 47);
    }
    PrefixChain(s, a, s[20..], b, s[46..]);
    DecodeChain(s, DefaultValue, s);
  }

  /** An error in the result block after a good prefix is the header's error. */
  lemma ResultBlockError(s: seq<u8>)
    requires PrefixOk(s) && ResultBlock.Decode(s[BlockStart(s)..], WordAt(s, 4)).Failure?
    ensures Decode(s) == Failure(ResultBlock.Decode(s[BlockStart(s)..], WordAt(s, 4)).error)
  {
    var a := LaidOutPrefix(s);
    var p := BlockStart(s);
    assert a.versions.replay == WordAt(s, 4);
    PrefixLayout(s);
    DecodeChain(s, a, s[p..]);
    BodyThroughBlock(a, s[p..]);
  }

  /** A name cut short is an I/O error; one that is not UTF-8 is an invalid string carrying the bytes and where they went wrong. */
  lemma NameErrors(s: seq<u8>, n: nat)
    ensures n > |s| ==> Name(s, n) == Failure(Io(UnexpectedEof))
    ensures n <= |s| && !Utf8.WellFormed(s[..n]) ==>
      var b := s[..n]; var k := Utf8.ValidUpTo(b);
      Name(s, n) == Failure(InvalidString(Utf8.FromUtf8Error(b, Utf8.Utf8Error(k, Utf8.ErrorLen(b, k)))))
  {
    if n <= |s| {
      Utf8.FromUtf8Spec(s[..n]);
    }
  }

  // The source's own test inputs, each given to one step of a default header.

  /** `b"RPLY"` passes; `b"NOPE"` is an invalid identifier; `b"RPL"` is an I/O error. */
  lemma IdentifierExamples()
    ensures IdentifierStep(DefaultValue, Magic) == Success((DefaultValue, []))
    ensures IdentifierStep(DefaultValue, [0x4E, 0x4F, 0x50, 0x45]) == Failure(InvalidIdentifier)
    ensures IdentifierStep(DefaultValue, [0x52, 0x50, 0x4C]) == Failure(Io(UnexpectedEof))
  {
    var nope: seq<u8> := [0x4E, 0x4F, 0x50, 0x45];
    assert nope[..4] == nope && nope[0] != Magic[0];
  }

  /** Replay version 2 is unsupported, and reported as 2. */
  lemma UnsupportedVersionExample()
    ensures ReplayVersionStep(DefaultValue, [2, 0, 0, 0]) == Failure(UnsupportedReplayVersion(2))
  {
    var s: seq<u8> := [2, 0, 0, 0];
    ParseU32At(s, 0);
    assert s[0..] == s && s[0..4] == s;
  }

  /** A length byte of zero: the spy's or the sniper's user name is missing. */
  lemma MissingUserNameExamples()
    ensures SpyUserLenStep(DefaultValue, [0]) == Failure(MissingSpyUsername)
    ensures SniperUserLenStep(DefaultValue, [0]) == Failure(MissingSniperUsername)
  {
  }

  /** `b"adam"`. */
  const Adam: seq<u8> := [0x61, 0x64, 0x61, 0x6D]

  /** `b"Hello \xF0\x90\x80World"`. */
  const Garbled: seq<u8> := [0x48, 0x65, 0x6C, 0x6C, 0x6F, 0x20, 0xF0, 0x90, 0x80, 0x57, 0x6F, 0x72, 0x6C, 0x64]

  lemma AdamIsValid()
    ensures Utf8.Valid(Adam)
  {
    assert Utf8.Validate(Adam, 3) == None;
    assert Utf8.Validate(Adam, 1) == Utf8.Validate(Adam, 3);
    assert Utf8.Validate(Adam, 0) == Utf8.Validate(Adam, 1);
  }

  /** `b"adam"` read as each of the four names, its length set: the name is set and all four bytes are consumed. */
  lemma NameExamples()
    ensures SpyUserNameStep(DefaultValue.(lengths := Lengths(4, 0, 0, 0)), Adam)
      == Success((DefaultValue.(lengths := Lengths(4, 0, 0, 0), names := Names(Adam, [], None, None)), []))
    ensures SniperUserNameStep(DefaultValue.(lengths := Lengths(0, 4, 0, 0)), Adam)
      == Success((DefaultValue.(lengths := Lengths(0, 4, 0, 0), names := Names([], Adam, None, None)), []))
    ensures SpyDisplayNameStep(DefaultValue.(lengths := Lengths(0, 0, 4, 0)), Adam)
      == Success((DefaultValue.(lengths := Lengths(0, 0, 4, 0), names := Names([], [], Some(Adam), None)), []))
    ensures SniperDisplayNameStep(DefaultValue.(lengths := Lengths(0, 0, 0, 4)), Adam)
      == Success((DefaultValue.(lengths := Lengths(0, 0, 0, 4), names := Names([], [], None, Some(Adam))), []))
  {
    AdamIsValid();
    assert Adam[..4] == Adam && Adam[4..] == [];
  }

  /** A display-name length of zero reads nothing and leaves the name absent. */
  lemma NoDisplayNameExamples()
    ensures SpyDisplayNameStep(DefaultValue, []) == Success((DefaultValue, []))
    ensures SniperDisplayNameStep(DefaultValue, []) == Success((DefaultValue, []))
  {
  }

  /** The garbled input, its length set, is an invalid string for each of the four names, valid up to byte 6. */
  lemma InvalidNameExamples()
    ensures var e := Failure(InvalidString(Utf8.FromUtf8Error(Garbled, Utf8.Utf8Error(6, Some(3)))));
      && SpyUserNameStep(DefaultValue.(lengths := Lengths(14, 0, 0, 0)), Garbled) == e
      && SniperUserNameStep(DefaultValue.(lengths := Lengths(0, 14, 0, 0)), Garbled) == e
      && SpyDisplayNameStep(DefaultValue.(lengths := Lengths(0, 0, 14, 0)), Garbled) == e
      && SniperDisplayNameStep(DefaultValue.(lengths := Lengths(0, 0, 0, 14)), Garbled) == e
  {
    Utf8.TruncatedCharacterIsRejected();
    assert Garbled[..14] == Garbled;
  }
}
