/**
 * The result block of the older decoder, as src/replay/header/result_data.rs
 * and its successor src/replay/header/result_data/mod.rs read it: a flags
 * word that is always present, the result word, a one-byte required count, a
 * two-byte total looked up in a table (with a simple-rules fallback), a
 * one-byte game mode, the map word and three mission bitfields, and, for
 * result version 2, the guest count and clock start.
 *
 * The two files differ only in what the mode byte becomes: result_data.rs
 * matches it against three tags (`ModeFromByte`), result_data/mod.rs widens
 * it to a word for the table-based decoder of `LegacyGameModes`
 * (`WidenedMode`). The block is therefore written once, over the type `M` of
 * the game mode and the function that decodes the mode byte into it.
 */
module LegacyResultData {
  import opened Results
  import opened Utils
  import opened LegacyErrors
  import GameResults
  import Maps
  import Missions
  import LegacyGameModes

  /** The game mode of result_data.rs: the tag alone, with no counts. */
  datatype GameMode = Known | Pick | Any

  /** `Default for GameMode`. */
  const DefaultMode: GameMode := Known

  /** The byte each tag is stored as. */
  function ModeByte(g: GameMode): u8 {
    match g
    case Known => 0x00
    case Pick => 0x10
    case Any => 0x20
  }

  /** result_data.rs's `set_game_mode` match: three bytes are tags, any other is invalid and reported as itself. */
  function ModeFromByte(b: u8): (r: Result<GameMode, LegacyError>)
    ensures r.Success? <==> b in {0x00, 0x10, 0x20}
    ensures r.Success? ==> ModeByte(r.value) == b
    ensures r.Failure? ==> r.error == InvalidGameMode(b)
  {
    match b
    case 0x00 => Success(Known)
    case 0x10 => Success(Pick)
    case 0x20 => Success(Any)
    case _ => Failure(InvalidGameMode(b))
  }

  lemma ModeByteRoundTrip(g: GameMode)
    ensures ModeFromByte(ModeByte(g)) == Success(g)
  {
  }

  /**
   * result_data/mod.rs's `set_game_mode`: the byte, widened to a word, goes
   * through `GameMode::try_from(u32)`. Its top byte is then always 0, so it
   * is always the Known mode with the byte as the required count.
   */
  function WidenedMode(b: u8): (r: Result<LegacyGameModes.GameMode, LegacyError>)
    ensures r == Success(LegacyGameModes.Known(b))
  {
    LegacyGameModes.FromU32(b)
  }

  /** The match of result_data.rs's `set_game_result`: the codes 0 to 4, anything else invalid. */
  function GameResultOf(result: u32): (r: Result<GameResults.GameResult, LegacyError>)
    ensures r.Success? <==> result <= 4
    ensures r.Success? ==> GameResults.Code(r.value) == result
    ensures r.Failure? ==> r.error == InvalidGameResult(result)
  {
    match result
    case 0 => Success(GameResults.MissionsWin)
    case 1 => Success(GameResults.SpyTimeout)
    case 2 => Success(GameResults.SpyShot)
    case 3 => Success(GameResults.CivilianShot)
    case 4 => Success(GameResults.InProgress)
    case _ => Failure(InvalidGameResult(result))
  }

  /** The older table agrees with the newer decoder's `TryFrom<u32>`. */
  lemma GameResultsAgree(result: u32)
    ensures GameResultOf(result).Success? <==> GameResults.FromU32(result).Success?
    ensures GameResultOf(result).Success? ==> GameResultOf(result).value == GameResults.FromU32(result).value
  {
  }

  /** The table of totals: the raw values 0x00C0 to 0x0200, in steps of 0x40, give 3 to 8. */
  function TotalOf(raw: u16): (t: Option<u16>)
    ensures t.Some? <==> raw % 0x40 == 0 && 3 <= raw / 0x40 <= 8
    ensures t.Some? ==> t.value == raw / 0x40
  {
    match raw
    case 0x00C0 => Some(3)
    case 0x0100 => Some(4)
    case 0x0140 => Some(5)
    case 0x0180 => Some(6)
    case 0x01C0 => Some(7)
    case 0x0200 => Some(8)
    case _ => None
  }

  /** A snapshot of the fields of a `ResultData` whose game mode is an `M`. */
  datatype ResultValue<M> = ResultValue(
    version: u32,
    simpleRules: bool,
    gameResult: GameResults.GameResult,
    missionsRequired: u8,
    totalMissions: u16,
    gameMode: M,
    playedMap: Maps.Map,
    selectedMissions: seq<Missions.Mission>,
    pickedMissions: seq<Missions.Mission>,
    completedMissions: seq<Missions.Mission>,
    guests: Option<u32>,
    clockStart: Option<u32>)

  /** `#[derive(Default)]`, with `mode` the default of the game-mode type. */
  function DefaultValue<M>(mode: M): ResultValue<M> {
    ResultValue(0, false, GameResults.DefaultResult, 0, 0, mode, Maps.DefaultMap, [], [], [], None, None)
  }

  /** A decoding step: the updated fields and the input left, or the error that ends the decode. */
  type Step<M> = Result<(ResultValue<M>, seq<u8>), LegacyError>

  /** What the mode byte becomes. */
  type ModeDecoder<M> = u8 -> Result<M, LegacyError>

  // The readers of `utils`, whose I/O errors become `Io`.

  function Word(s: seq<u8>): Result<(u32, seq<u8>), LegacyError> {
    ChainErr(ParseU32(s))
  }

  function Half(s: seq<u8>): Result<(u16, seq<u8>), LegacyError> {
    ChainErr(ParseU16(s))
  }

  function Byte(s: seq<u8>): Result<(u8, seq<u8>), LegacyError> {
    ChainErr(ParseU8(s))
  }

  // One function per setter of the source.

  /** `set_flags`: the low nibble is the version, which must be 1 or 2; the next nibble 1 means simple rules. */
  function FlagsStep<M>(v: ResultValue<M>, s: seq<u8>): Step<M> {
    var w :- Word(s);
    var version := w.0 % 0x10;
    var simple := (w.0 / 0x10) % 0x10 == 1;
    :- Ensure(version == 1 || version == 2, UnsupportedResultVersion(version));
    Success((v.(version := version, simpleRules := simple), w.1))
  }

  function GameResultStep<M>(v: ResultValue<M>, s: seq<u8>): Step<M> {
    var w :- Word(s);
    var g :- GameResultOf(w.0);
    Success((v.(gameResult := g), w.1))
  }

  /** `set_missions_required`: the byte as it is. */
  function RequiredStep<M>(v: ResultValue<M>, s: seq<u8>): Step<M> {
    var b :- Byte(s);
    Success((v.(missionsRequired := b.0), b.1))
  }

  /** `set_total_missions`: the table, or under simple rules the required count, or an error carrying the raw value. */
  function TotalStep<M>(v: ResultValue<M>, s: seq<u8>): Step<M> {
    var h :- Half(s);
    match TotalOf(h.0)
    case Some(t) => Success((v.(totalMissions := t), h.1))
    case None =>
      if v.simpleRules then Success((v.(totalMissions := v.missionsRequired), h.1))
      else Failure(InvalidTotalMissions(h.0))
  }

  function ModeStep<M>(v: ResultValue<M>, s: seq<u8>, modeOf: ModeDecoder<M>): Step<M> {
    var b :- Byte(s);
    var g :- modeOf(b.0);
    Success((v.(gameMode := g), b.1))
  }

  /** `set_map`: any hash is accepted. */
  function MapStep<M>(v: ResultValue<M>, s: seq<u8>): Step<M> {
    var w :- Word(s);
    Success((v.(playedMap := Maps.FromHash(w.0)), w.1))
  }

  function SelectedStep<M>(v: ResultValue<M>, s: seq<u8>): Step<M> {
    var w :- Word(s);
    Success((v.(selectedMissions := Missions.Unpacked(w.0)), w.1))
  }

  function PickedStep<M>(v: ResultValue<M>, s: seq<u8>): Step<M> {
    var w :- Word(s);
    Success((v.(pickedMissions := Missions.Unpacked(w.0)), w.1))
  }

  function CompletedStep<M>(v: ResultValue<M>, s: seq<u8>): Step<M> {
    var w :- Word(s);
    Success((v.(completedMissions := Missions.Unpacked(w.0)), w.1))
  }

  function GuestsStep<M>(v: ResultValue<M>, s: seq<u8>): Step<M> {
    var w :- Word(s);
    Success((v.(guests := Some(w.0)), w.1))
  }

  function ClockStartStep<M>(v: ResultValue<M>, s: seq<u8>): Step<M> {
    var w :- Word(s);
    Success((v.(clockStart := Some(w.0)), w.1))
  }

  /** The flags and result words, read into the default block. */
  function DecodeHead<M>(s: seq<u8>, init: M): Step<M> {
    var a :- FlagsStep(DefaultValue(init), s);
    GameResultStep(a.0, a.1)
  }

  /** The required count, the total and the mode byte. */
  function DecodeCounts<M>(v: ResultValue<M>, s: seq<u8>, modeOf: ModeDecoder<M>): Step<M> {
    var b :- RequiredStep(v, s);
    var c :- TotalStep(b.0, b.1);
    ModeStep(c.0, c.1, modeOf)
  }

  /** The steps that can reject a value: flags, result, total and mode. */
  function DecodeChecked<M>(s: seq<u8>, modeOf: ModeDecoder<M>, init: M): Step<M> {
    var a :- DecodeHead(s, init);
    DecodeCounts(a.0, a.1, modeOf)
  }

  /** The steps that only fail when the input runs out: the map and the three mission sets. */
  function DecodeUnchecked<M>(v: ResultValue<M>, s: seq<u8>): Step<M> {
    var d :- MapStep(v, s);
    var e :- SelectedStep(d.0, d.1);
    var f :- PickedStep(e.0, e.1);
    CompletedStep(f.0, f.1)
  }

  function DecodeFixed<M>(s: seq<u8>, modeOf: ModeDecoder<M>, init: M): Step<M> {
    var c :- DecodeChecked(s, modeOf, init);
    DecodeUnchecked(c.0, c.1)
  }

  /** `ResultData::from_reader` on the bytes `s`, starting from the default block whose mode is `init`. */
  function Decode<M>(s: seq<u8>, modeOf: ModeDecoder<M>, init: M): Step<M> {
    var g :- DecodeFixed(s, modeOf, init);
    if g.0.version == 2 then
      var h :- GuestsStep(g.0, g.1);
      ClockStartStep(h.0, h.1)
    else
      Success(g)
  }

  /** The block of result_data.rs, with the three-tag mode. */
  function DecodeTagged(s: seq<u8>): Step<GameMode> {
    Decode(s, ModeFromByte, DefaultMode)
  }

  /** The block of result_data/mod.rs, with the mode byte widened. */
  function DecodeWidened(s: seq<u8>): Step<LegacyGameModes.GameMode> {
    Decode(s, WidenedMode, LegacyGameModes.DefaultMode)
  }

  /** A setter ran as `step` says: it failed with the step's error, or it left the fields and input the step computes. */
  predicate Follows<M(==)>(step: Step<M>, o: Outcome<LegacyError>, v: ResultValue<M>, rest: seq<u8>) {
    && (o.Fail? <==> step.Failure?)
    && (o.Fail? ==> o.error == step.error)
    && (o.Pass? ==> v == step.value.0 && rest == step.value.1)
  }

  class ResultData<M(==)> {
    var version: u32
    var simpleRules: bool
    var gameResult: GameResults.GameResult
    var missionsRequired: u8
    var totalMissions: u16
    var gameMode: M
    var playedMap: Maps.Map
    var selectedMissions: seq<Missions.Mission>
    var pickedMissions: seq<Missions.Mission>
    var completedMissions: seq<Missions.Mission>
    var guests: Option<u32>
    var clockStart: Option<u32>

    function Value(): ResultValue<M>
      reads this
    {
      ResultValue(version, simpleRules, gameResult, missionsRequired, totalMissions, gameMode, playedMap,
                  selectedMissions, pickedMissions, completedMissions, guests, clockStart)
    }

    /** `Default::default()`, with `mode` the default of the game-mode type. */
    constructor (mode: M)
      ensures Value() == DefaultValue(mode)
    {
      version := 0;
      simpleRules := false;
      gameResult := GameResults.DefaultResult;
      missionsRequired := 0;
      totalMissions := 0;
      gameMode := mode;
      playedMap := Maps.DefaultMap;
      selectedMissions := [];
      pickedMissions := [];
      completedMissions := [];
      guests := None;
      clockStart := None;
    }

    method SetFlags(reader: Reader) returns (o: Outcome<LegacyError>)
      modifies this, reader
      ensures Follows(FlagsStep(old(Value()), old(reader.rest)), o, Value(), reader.rest)
    {
      var flags := ReadU32(reader);
      if flags.Failure? {
        return Fail(Io(flags.error));
      }
      var v := flags.value % 0x10;
      var simple := (flags.value / 0x10) % 0x10 == 1;
      if !(v == 1 || v == 2) {
        return Fail(UnsupportedResultVersion(v));
      }
      version := v;
      simpleRules := simple;
      return Pass;
    }

    method SetGameResult(reader: Reader) returns (o: Outcome<LegacyError>)
      modifies this, reader
      ensures Follows(GameResultStep(old(Value()), old(reader.rest)), o, Value(), reader.rest)
    {
      var result := ReadU32(reader);
      if result.Failure? {
        return Fail(Io(result.error));
      }
      var g := GameResultOf(result.value);
      if g.Failure? {
        return Fail(g.error);
      }
      gameResult := g.value;
      return Pass;
    }

    method SetMissionsRequired(reader: Reader) returns (o: Outcome<LegacyError>)
      modifies this, reader
      ensures Follows(RequiredStep(old(Value()), old(reader.rest)), o, Value(), reader.rest)
    {
      var num := ReadU8(reader);
      if num.Failure? {
        return Fail(Io(num.error));
      }
      missionsRequired := num.value;
      return Pass;
    }

    method SetTotalMissions(reader: Reader) returns (o: Outcome<LegacyError>)
      modifies this, reader
      ensures Follows(TotalStep(old(Value()), old(reader.rest)), o, Value(), reader.rest)
    {
      var total := ReadU16(reader);
      if total.Failure? {
        return Fail(Io(total.error));
      }
      var t := TotalOf(total.value);
      if t.Some? {
        totalMissions := t.value;
      } else if simpleRules {
        totalMissions := missionsRequired;
      } else {
        return Fail(InvalidTotalMissions(total.value));
      }
      return Pass;
    }

    method SetGameMode(reader: Reader, modeOf: ModeDecoder<M>) returns (o: Outcome<LegacyError>)
      modifies this, reader
      ensures Follows(ModeStep(old(Value()), old(reader.rest), modeOf), o, Value(), reader.rest)
    {
      var mode := ReadU8(reader);
      if mode.Failure? {
        return Fail(Io(mode.error));
      }
      var g := modeOf(mode.value);
      if g.Failure? {
        return Fail(g.error);
      }
      gameMode := g.value;
      return Pass;
    }

    method SetMap(reader: Reader) returns (o: Outcome<LegacyError>)
      modifies this, reader
      ensures Follows(MapStep(old(Value()), old(reader.rest)), o, Value(), reader.rest)
    {
      var hash := ReadU32(reader);
      if hash.Failure? {
        return Fail(Io(hash.error));
      }
      playedMap := Maps.FromHash(hash.value);
      return Pass;
    }

    method SetSelectedMissions(reader: Reader) returns (o: Outcome<LegacyError>)
      modifies this, reader
      ensures Follows(SelectedStep(old(Value()), old(reader.rest)), o, Value(), reader.rest)
    {
      var missions := ReadU32(reader);
      if missions.Failure? {
        return Fail(Io(missions.error));
      }
      selectedMissions := Missions.UnpackMissions(missions.value);
      return Pass;
    }

    method SetPickedMissions(reader: Reader) returns (o: Outcome<LegacyError>)
      modifies this, reader
      ensures Follows(PickedStep(old(Value()), old(reader.rest)), o, Value(), reader.rest)
    {
      var missions := ReadU32(reader);
      if missions.Failure? {
        return Fail(Io(missions.error));
      }
      pickedMissions := Missions.UnpackMissions(missions.value);
      return Pass;
    }

    method SetCompletedMissions(reader: Reader) returns (o: Outcome<LegacyError>)
      modifies this, reader
      ensures Follows(CompletedStep(old(Value()), old(reader.rest)), o, Value(), reader.rest)
    {
      var missions := ReadU32(reader);
      if missions.Failure? {
        return Fail(Io(missions.error));
      }
      completedMissions := Missions.UnpackMissions(missions.value);
      return Pass;
    }

    method SetGuests(reader: Reader) returns (o: Outcome<LegacyError>)
      modifies this, reader
      ensures Follows(GuestsStep(old(Value()), old(reader.rest)), o, Value(), reader.rest)
    {
      var count := ReadU32(reader);
      if count.Failure? {
        return Fail(Io(count.error));
      }
      guests := Some(count.value);
      return Pass;
    }

    method SetClockStart(reader: Reader) returns (o: Outcome<LegacyError>)
      modifies this, reader
      ensures Follows(ClockStartStep(old(Value()), old(reader.rest)), o, Value(), reader.rest)
    {
      var seconds := ReadU32(reader);
      if seconds.Failure? {
        return Fail(Io(seconds.error));
      }
      clockStart := Some(seconds.value);
      return Pass;
    }

    /** `ResultData::from_reader`: a fresh object holding what `Decode` computes, or its error. */
    static method FromReader(reader: Reader, modeOf: ModeDecoder<M>, init: M) returns (r: Result<ResultData<M>, LegacyError>)
      modifies reader
      ensures var d := Decode(old(reader.rest), modeOf, init);
        && (r.Failure? <==> d.Failure?)
        && (r.Failure? ==> r.error == d.error)
        && (r.Success? ==> fresh(r.value) && r.value.Value() == d.value.0 && reader.rest == d.value.1)
    {
      var data := new ResultData(init);
      var o := data.SetFlags(reader);
      if o.Fail? { return Failure(o.error); }
      o := data.SetGameResult(reader);
      if o.Fail? { return Failure(o.error); }
      o := data.SetMissionsRequired(reader);
      if o.Fail? { return Failure(o.error); }
      o := data.SetTotalMissions(reader);
      if o.Fail? { return Failure(o.error); }
      o := data.SetGameMode(reader, modeOf);
      if o.Fail? { return Failure(o.error); }
      o := data.SetMap(reader);
      if o.Fail? { return Failure(o.error); }
      o := data.SetSelectedMissions(reader);
      if o.Fail? { return Failure(o.error); }
      o := data.SetPickedMissions(reader);
      if o.Fail? { return Failure(o.error); }
      o := data.SetCompletedMissions(reader);
      if o.Fail? { return Failure(o.error); }
      if data.version == 2 {
        o := data.SetGuests(reader);
        if o.Fail? { return Failure(o.error); }
        o := data.SetClockStart(reader);
        if o.Fail? { return Failure(o.error); }
      }
      return Success(data);
    }
  }

  // The block described by positions in the input: an independent account of
  // what `Decode` reads, which the lemmas below connect it to.

  /** The result version the flags word announces; 0 when the input cannot hold one. */
  function VersionOf(s: seq<u8>): u32 {
    if 4 <= |s| then WordAt(s, 0) % 0x10 else 0
  }

  /** The simple-rules nibble of the flags word is 1. */
  predicate SimpleOf(s: seq<u8>)
    requires 4 <= |s|
  {
    (WordAt(s, 0) / 0x10) % 0x10 == 1
  }

  /** 28 bytes, and 8 more for result version 2. */
  function BlockSize(version: u32): nat {
    28 + (if version == 2 then 8 else 0)
  }

  /** The input holds a whole block whose version, result, total and mode are all accepted. */
  predicate BlockOk<M>(s: seq<u8>, modeOf: ModeDecoder<M>) {
    && 28 <= |s|
    && VersionOf(s) in {1, 2}
    && BlockSize(VersionOf(s)) <= |s|
    && WordAt(s, 4) <= 4
    && (TotalOf(HalfAt(s, 9)).Some? || SimpleOf(s))
    && modeOf(s[11]).Success?
  }

  /** The tabled total of `raw`, or else the required count the simple rules fall back to. */
  function TotalOr(raw: u16, required: u8): u16 {
    if TotalOf(raw).Some? then TotalOf(raw).value else required
  }

  /** A trailer word at byte `i`, present in version 2 only. */
  function Trailer(s: seq<u8>, i: nat): Option<u32>
    requires i + 4 <= |s| || VersionOf(s) != 2
  {
    if VersionOf(s) == 2 then Some(WordAt(s, i)) else None
  }

  /** The fields such a block holds, each read at its own position. */
  function LaidOut<M>(s: seq<u8>, modeOf: ModeDecoder<M>): ResultValue<M>
    requires BlockOk(s, modeOf)
  {
    var version := VersionOf(s);
    ResultValue(
      version,
      SimpleOf(s),
      GameResultOf(WordAt(s, 4)).value,
      s[8],
      TotalOr(HalfAt(s, 9), s[8]),
      modeOf(s[11]).value,
      Maps.FromHash(WordAt(s, 12)),
      Missions.Unpacked(WordAt(s, 16)),
      Missions.Unpacked(WordAt(s, 20)),
      Missions.Unpacked(WordAt(s, 24)),
      Trailer(s, 28),
      Trailer(s, 32))
  }

  // Each reader applied at byte `i` reads the bytes there.

  lemma WordSlides(s: seq<u8>, i: nat)
    requires i <= |s|
    ensures Word(s[i..]).Success? <==> i + 4 <= |s|
    ensures i + 4 <= |s| ==> Word(s[i..]) == Success((WordAt(s, i), s[i + 4..]))
    ensures Word(s[i..]).Failure? ==> Word(s[i..]).error == Io(UnexpectedEof)
  {
    if i + 4 <= |s| {
      assert s[i..][..4] == s[i..i + 4];
      assert s[i..][4..] == s[i + 4..];
    }
  }

  lemma HalfSlides(s: seq<u8>, i: nat)
    requires i <= |s|
    ensures Half(s[i..]).Success? <==> i + 2 <= |s|
    ensures i + 2 <= |s| ==> Half(s[i..]) == Success((HalfAt(s, i), s[i + 2..]))
    ensures Half(s[i..]).Failure? ==> Half(s[i..]).error == Io(UnexpectedEof)
  {
    if i + 2 <= |s| {
      assert s[i..][..2] == s[i..i + 2];
      assert s[i..][2..] == s[i + 2..];
    }
  }

  lemma ByteSlides(s: seq<u8>, i: nat)
    requires i <= |s|
    ensures Byte(s[i..]).Success? <==> i + 1 <= |s|
    ensures i + 1 <= |s| ==> Byte(s[i..]) == Success((s[i], s[i + 1..]))
    ensures Byte(s[i..]).Failure? ==> Byte(s[i..]).error == Io(UnexpectedEof)
  {
    if i + 1 <= |s| {
      assert s[i..][1..] == s[i + 1..];
    }
  }

  /** The flags and result words. */
  lemma HeadLayout<M>(s: seq<u8>, init: M)
    ensures var h := DecodeHead(s, init);
      && (h.Success? <==> 8 <= |s| && VersionOf(s) in {1, 2} && WordAt(s, 4) <= 4)
      && (h.Success? ==> h.value.1 == s[8..] && h.value.0 == DefaultValue(init).(
            version := VersionOf(s), simpleRules := SimpleOf(s), gameResult := GameResultOf(WordAt(s, 4)).value))
  {
    WordSlides(s, 0);
    assert s[0..] == s;
    if 4 <= |s| {
      WordSlides(s, 4);
    }
  }

  /** The required count, the total and the mode byte, from byte `i`. */
  lemma CountsLayout<M>(v: ResultValue<M>, s: seq<u8>, i: nat, modeOf: ModeDecoder<M>)
    requires i <= |s|
    ensures var c := DecodeCounts(v, s[i..], modeOf);
      && (c.Success? <==>
            i + 4 <= |s| && (TotalOf(HalfAt(s, i + 1)).Some? || v.simpleRules) && modeOf(s[i + 3]).Success?)
      && (c.Success? ==> c.value.1 == s[i + 4..] && c.value.0 == v.(
            missionsRequired := s[i],
            totalMissions := TotalOr(HalfAt(s, i + 1), s[i]),
            gameMode := modeOf(s[i + 3]).value))
  {
    ByteSlides(s, i);
    if i + 1 <= |s| {
      HalfSlides(s, i + 1);
      if i + 3 <= |s| {
        ByteSlides(s, i + 3);
      }
    }
  }

  /** The ways the counts can fail: the input ends, the total is not in the table without simple rules, or the mode is rejected. */
  lemma CountsErrors<M>(v: ResultValue<M>, s: seq<u8>, i: nat, modeOf: ModeDecoder<M>)
    requires i <= |s|
    requires DecodeCounts(v, s[i..], modeOf).Failure?
    ensures var e := DecodeCounts(v, s[i..], modeOf).error;
      || (e == Io(UnexpectedEof) && |s| < i + 4)
      || (i + 3 <= |s| && TotalOf(HalfAt(s, i + 1)).None? && !v.simpleRules && e == InvalidTotalMissions(HalfAt(s, i + 1)))
      || (i + 4 <= |s| && modeOf(s[i + 3]).Failure? && e == modeOf(s[i + 3]).error)
  {
    ByteSlides(s, i);
    if i + 1 <= |s| {
      HalfSlides(s, i + 1);
      if i + 3 <= |s| {
        ByteSlides(s, i + 3);
      }
    }
  }

  /** The map and mission words, from byte `i`. */
  lemma UncheckedLayout<M>(v: ResultValue<M>, s: seq<u8>, i: nat)
    requires i <= |s|
    ensures var d := DecodeUnchecked(v, s[i..]);
      && (d.Success? <==> i + 16 <= |s|)
      && (d.Failure? ==> d.error == Io(UnexpectedEof))
      && (d.Success? ==> d.value.1 == s[i + 16..] && d.value.0 == v.(
            playedMap := Maps.FromHash(WordAt(s, i)),
            selectedMissions := Missions.Unpacked(WordAt(s, i + 4)),
            pickedMissions := Missions.Unpacked(WordAt(s, i + 8)),
            completedMissions := Missions.Unpacked(WordAt(s, i + 12))))
  {
    WordSlides(s, i);
    if i + 4 <= |s| {
      WordSlides(s, i + 4);
      if i + 8 <= |s| {
        WordSlides(s, i + 8);
        if i + 12 <= |s| {
          WordSlides(s, i + 12);
        }
      }
    }
  }

  /** The checked steps read the first 12 bytes. */
  lemma CheckedLayout<M>(s: seq<u8>, modeOf: ModeDecoder<M>, init: M)
    ensures var c := DecodeChecked(s, modeOf, init);
      && (c.Success? <==>
            12 <= |s| && VersionOf(s) in {1, 2} && WordAt(s, 4) <= 4
            && (TotalOf(HalfAt(s, 9)).Some? || SimpleOf(s)) && modeOf(s[11]).Success?)
      && (c.Success? ==> c.value.1 == s[12..])
  {
    HeadLayout(s, init);
    var h := DecodeHead(s, init);
    if h.Success? {
      CountsLayout(h.value.0, s, 8, modeOf);
    }
  }

  /** The six fields the checked steps set, over the default block. */
  function CheckedPart<M>(s: seq<u8>, modeOf: ModeDecoder<M>, init: M): ResultValue<M>
    requires BlockOk(s, modeOf)
  {
    DefaultValue(init).(
      version := VersionOf(s), simpleRules := SimpleOf(s), gameResult := GameResultOf(WordAt(s, 4)).value,
      missionsRequired := s[8], totalMissions := TotalOr(HalfAt(s, 9), s[8]), gameMode := modeOf(s[11]).value)
  }

  /** On a whole block, the checked steps consume 12 bytes and set their six fields. */
  lemma CheckedFields<M>(s: seq<u8>, modeOf: ModeDecoder<M>, init: M)
    requires BlockOk(s, modeOf)
    ensures DecodeChecked(s, modeOf, init) == Success((CheckedPart(s, modeOf, init), s[12..]))
  {
    HeadLayout(s, init);
    var h := DecodeHead(s, init);
    CountsLayout(h.value.0, s, 8, modeOf);
  }

  /** On a whole block, the unchecked steps then set the map and mission fields from the next 16 bytes. */
  lemma FixedFields<M>(s: seq<u8>, modeOf: ModeDecoder<M>, init: M)
    requires BlockOk(s, modeOf)
    ensures DecodeFixed(s, modeOf, init) == Success((CheckedPart(s, modeOf, init).(
      playedMap := Maps.FromHash(WordAt(s, 12)),
      selectedMissions := Missions.Unpacked(WordAt(s, 16)),
      pickedMissions := Missions.Unpacked(WordAt(s, 20)),
      completedMissions := Missions.Unpacked(WordAt(s, 24))), s[28..]))
  {
    CheckedFields(s, modeOf, init);
    UncheckedLayout(CheckedPart(s, modeOf, init), s, 12);
  }

  /** The laid-out block is the ten fixed fields over the default, and then the trailer. */
  lemma LaidOutParts<M>(s: seq<u8>, modeOf: ModeDecoder<M>, init: M)
    requires BlockOk(s, modeOf)
    ensures LaidOut(s, modeOf) == CheckedPart(s, modeOf, init).(
      playedMap := Maps.FromHash(WordAt(s, 12)),
      selectedMissions := Missions.Unpacked(WordAt(s, 16)),
      pickedMissions := Missions.Unpacked(WordAt(s, 20)),
      completedMissions := Missions.Unpacked(WordAt(s, 24)),
      guests := Trailer(s, 28), clockStart := Trailer(s, 32))
  {
  }

  lemma FixedLayout<M>(s: seq<u8>, modeOf: ModeDecoder<M>, init: M)
    ensures var g := DecodeFixed(s, modeOf, init);
      && (g.Success? <==>
            28 <= |s| && VersionOf(s) in {1, 2} && WordAt(s, 4) <= 4
            && (TotalOf(HalfAt(s, 9)).Some? || SimpleOf(s)) && modeOf(s[11]).Success?)
      && (g.Success? ==> g.value.1 == s[28..] && g.value.0.version == VersionOf(s))
  {
    CheckedLayout(s, modeOf, init);
    HeadLayout(s, init);
    var h := DecodeHead(s, init);
    if h.Success? {
      CountsLayout(h.value.0, s, 8, modeOf);
      var c := DecodeCounts(h.value.0, s[8..], modeOf);
      if c.Success? {
        UncheckedLayout(c.value.0, s, 12);
      }
    }
  }

  /**
   * Decoding reads the block laid out at fixed positions: it succeeds exactly
   * when the input holds a whole block whose version, result, total and mode
   * are accepted, and then yields the fields at their positions and consumes
   * precisely the block. The default the block starts from leaves no trace.
   */
  lemma DecodeLayout<M>(s: seq<u8>, modeOf: ModeDecoder<M>, init: M)
    ensures Decode(s, modeOf, init).Success? <==> BlockOk(s, modeOf)
    ensures BlockOk(s, modeOf) ==>
      Decode(s, modeOf, init) == Success((LaidOut(s, modeOf), s[BlockSize(VersionOf(s))..]))
  {
    FixedLayout(s, modeOf, init);
    if DecodeFixed(s, modeOf, init).Success? {
      WordSlides(s, 28);
      if 32 <= |s| {
        WordSlides(s, 32);
      }
      if BlockOk(s, modeOf) {
        FixedFields(s, modeOf, init);
        LaidOutParts(s, modeOf, init);
      }
    }
  }

  /** The ways the checked steps fail, each with the value that caused it. */
  lemma CheckedErrors<M>(s: seq<u8>, modeOf: ModeDecoder<M>, init: M)
    requires DecodeChecked(s, modeOf, init).Failure?
    ensures var e := DecodeChecked(s, modeOf, init).error;
      || (e == Io(UnexpectedEof) && |s| < 12)
      || (4 <= |s| && VersionOf(s) !in {1, 2} && e == UnsupportedResultVersion(VersionOf(s)))
      || (8 <= |s| && WordAt(s, 4) > 4 && e == InvalidGameResult(WordAt(s, 4)))
      || (11 <= |s| && TotalOf(HalfAt(s, 9)).None? && !SimpleOf(s) && e == InvalidTotalMissions(HalfAt(s, 9)))
      || (12 <= |s| && modeOf(s[11]).Failure? && e == modeOf(s[11]).error)
  {
    HeadLayout(s, init);
    var h := DecodeHead(s, init);
    if h.Failure? {
      WordSlides(s, 0);
      assert s[0..] == s;
      if 4 <= |s| {
        WordSlides(s, 4);
      }
    } else {
      CountsErrors(h.value.0, s, 8, modeOf);
    }
  }

  /**
   * Every way the block can fail: the input ends before the block does, or
   * the version, result, total or mode is rejected, with that value.
   */
  lemma DecodeErrors<M>(s: seq<u8>, modeOf: ModeDecoder<M>, init: M)
    requires Decode(s, modeOf, init).Failure?
    ensures var e := Decode(s, modeOf, init).error;
      || (e == Io(UnexpectedEof) && |s| < BlockSize(VersionOf(s)))
      || (4 <= |s| && VersionOf(s) !in {1, 2} && e == UnsupportedResultVersion(VersionOf(s)))
      || (8 <= |s| && WordAt(s, 4) > 4 && e == InvalidGameResult(WordAt(s, 4)))
      || (11 <= |s| && TotalOf(HalfAt(s, 9)).None? && !SimpleOf(s) && e == InvalidTotalMissions(HalfAt(s, 9)))
      || (12 <= |s| && modeOf(s[11]).Failure? && e == modeOf(s[11]).error)
  {
    var c := DecodeChecked(s, modeOf, init);
    if c.Failure? {
      CheckedErrors(s, modeOf, init);
    } else {
      CheckedLayout(s, modeOf, init);
      UncheckedLayout(c.value.0, s, 12);
      FixedLayout(s, modeOf, init);
      if DecodeFixed(s, modeOf, init).Success? {
        WordSlides(s, 28);
        if 32 <= |s| {
          WordSlides(s, 32);
        }
      }
    }
  }

  /** What every decoded block satisfies. */
  lemma DecodeInvariants<M>(s: seq<u8>, modeOf: ModeDecoder<M>, init: M)
    requires Decode(s, modeOf, init).Success?
    ensures var (v, rest) := Decode(s, modeOf, init).value;
      && (v.version == 1 || v.version == 2)
      && (v.guests.Some? <==> v.version == 2)
      && (v.clockStart.Some? <==> v.version == 2)
      && ((3 <= v.totalMissions <= 8) || (v.simpleRules && v.totalMissions == v.missionsRequired))
      && |rest| == |s| - BlockSize(v.version)
      && s == s[..BlockSize(v.version)] + rest
  {
    DecodeLayout(s, modeOf, init);
    var n := BlockSize(VersionOf(s));
    assert s == s[..n] + s[n..];
  }

  /** A flags version other than 1 or 2 is reported before anything else is read. */
  lemma RejectsVersion<M>(s: seq<u8>, modeOf: ModeDecoder<M>, init: M)
    requires 4 <= |s| && VersionOf(s) !in {1, 2}
    ensures Decode(s, modeOf, init) == Failure(UnsupportedResultVersion(VersionOf(s)))
  {
    WordSlides(s, 0);
    assert s[0..] == s;
  }

  /** A result word above 4 aborts the block once the flags are accepted. */
  lemma RejectsResult<M>(s: seq<u8>, modeOf: ModeDecoder<M>, init: M)
    requires 8 <= |s| && VersionOf(s) in {1, 2} && WordAt(s, 4) > 4
    ensures Decode(s, modeOf, init) == Failure(InvalidGameResult(WordAt(s, 4)))
  {
    WordSlides(s, 0);
    assert s[0..] == s;
    WordSlides(s, 4);
  }

  /** A total outside the table aborts the block, unless the flags say simple rules. */
  lemma RejectsTotal<M>(s: seq<u8>, modeOf: ModeDecoder<M>, init: M)
    requires 11 <= |s| && VersionOf(s) in {1, 2} && WordAt(s, 4) <= 4
    requires TotalOf(HalfAt(s, 9)).None? && !SimpleOf(s)
    ensures Decode(s, modeOf, init) == Failure(InvalidTotalMissions(HalfAt(s, 9)))
  {
    HeadLayout(s, init);
    var h := DecodeHead(s, init);
    ByteSlides(s, 8);
    HalfSlides(s, 9);
  }

  /** A rejected mode byte aborts the block, with the decoder's error, once the total is accepted. */
  lemma RejectsMode<M>(s: seq<u8>, modeOf: ModeDecoder<M>, init: M)
    requires 12 <= |s| && VersionOf(s) in {1, 2} && WordAt(s, 4) <= 4
    requires TotalOf(HalfAt(s, 9)).Some? || SimpleOf(s)
    requires modeOf(s[11]).Failure?
    ensures Decode(s, modeOf, init) == Failure(modeOf(s[11]).error)
  {
    HeadLayout(s, init);
    var h := DecodeHead(s, init);
    CountsErrors(h.value.0, s, 8, modeOf);
    CountsLayout(h.value.0, s, 8, modeOf);
  }

  /** In result_data.rs, a mode byte other than 0x00, 0x10 and 0x20 is reported as itself. */
  lemma TaggedRejectsMode(s: seq<u8>)
    requires 12 <= |s| && VersionOf(s) in {1, 2} && WordAt(s, 4) <= 4
    requires TotalOf(HalfAt(s, 9)).Some? || SimpleOf(s)
    requires s[11] !in {0x00, 0x10, 0x20}
    ensures DecodeTagged(s) == Failure(InvalidGameMode(s[11]))
  {
    RejectsMode(s, ModeFromByte, DefaultMode);
  }

  /**
   * In result_data/mod.rs, the mode byte is never rejected: a block fails
   * only on its length, version, result or total, and a decoded block is
   * always in the Known mode with the byte as its required count.
   */
  lemma WidenedModeIsKnown(s: seq<u8>)
    ensures DecodeWidened(s).Success? ==> DecodeWidened(s).value.0.gameMode == LegacyGameModes.Known(s[11])
    ensures DecodeWidened(s).Failure? ==> !DecodeWidened(s).error.InvalidGameMode?
  {
    DecodeLayout(s, WidenedMode, LegacyGameModes.DefaultMode);
    if DecodeWidened(s).Failure? {
      DecodeErrors(s, WidenedMode, LegacyGameModes.DefaultMode);
    }
  }

  // The source's tests, each on one setter and a default block.

  lemma FlagsExamples()
    ensures var d := DefaultValue(DefaultMode);
      && FlagsStep(d, [0x01, 0, 0, 0]) == Success((d.(version := 1, simpleRules := false), []))
      && FlagsStep(d, [0x11, 0, 0, 0]) == Success((d.(version := 1, simpleRules := true), []))
      && FlagsStep(d, [0x03, 0, 0, 0]) == Failure(UnsupportedResultVersion(3))
  {
    LittleEndianWords([0x01, 0, 0, 0]);
    LittleEndianWords([0x11, 0, 0, 0]);
    LittleEndianWords([0x03, 0, 0, 0]);
  }

  lemma GameResultExamples()
    ensures var d := DefaultValue(DefaultMode);
      && GameResultStep(d, [0, 0, 0, 0]) == Success((d.(gameResult := GameResults.MissionsWin), []))
      && GameResultStep(d, [5, 0, 0, 0]) == Failure(InvalidGameResult(5))
  {
    LittleEndianWords([0, 0, 0, 0]);
    LittleEndianWords([5, 0, 0, 0]);
  }

  /** `[0x40, 0x01]` is 0x0140, five missions; `[0, 0]` is the required count under simple rules and an error otherwise. */
  lemma TotalExamples()
    ensures var d := DefaultValue(DefaultMode);
      && TotalStep(d, [0x40, 0x01]) == Success((d.(totalMissions := 5), []))
      && TotalStep(d.(simpleRules := true, missionsRequired := 4), [0, 0]) ==
           Success((d.(simpleRules := true, missionsRequired := 4, totalMissions := 4), []))
      && TotalStep(d, [0, 0]) == Failure(InvalidTotalMissions(0))
  {
    LittleEndianWords([0x40, 0x01]);
    LittleEndianWords([0, 0]);
  }

  lemma ModeExample()
    ensures ModeStep(DefaultValue(DefaultMode), [9], ModeFromByte) == Failure(InvalidGameMode(9))
  {
  }
}
