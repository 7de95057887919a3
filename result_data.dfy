/**
 * The result block of a replay header, as
 * spyparty-rs/src/replay/header/result_data/mod.rs decodes it: an optional
 * flags word (replay versions above 3), the result, mode and map words,
 * three mission bitfields, and for result version 2 the guest count and
 * clock start.
 *
 * `ResultData` is the object the decoder fills in field by field. Each of its
 * setters is proved against one step of the pure decoder `Decode`, and the
 * lemmas below state what `Decode` does in terms of the bytes it is given.
 */
module ResultBlock {
  import opened Results
  import opened Utils
  import opened Errors
  import GameResults
  import GameModes
  import Maps
  import Missions

  /** A snapshot of the fields of a `ResultData`. */
  datatype ResultValue = ResultValue(
    version: u32,
    simpleRules: Option<bool>,
    gameResult: GameResults.GameResult,
    gameMode: GameModes.GameMode,
    playedMap: Maps.Map,
    selectedMissions: seq<Missions.Mission>,
    pickedMissions: seq<Missions.Mission>,
    completedMissions: seq<Missions.Mission>,
    completedMissionsRaw: u32,
    guests: Option<u32>,
    clockStart: Option<u32>)

  /** `#[derive(Default)]`: every field at its type's default. */
  const DefaultValue: ResultValue :=
    ResultValue(0, None, GameResults.DefaultResult, GameModes.DefaultMode, Maps.DefaultMap,
                [], [], [], 0, None, None)

  /** A decoding step: the updated fields and the input left, or the error that ends the decode. */
  type Step = Result<(ResultValue, seq<u8>), Error>

  /** `utils::read_u32(reader)?`. */
  function Word(s: seq<u8>): Result<(u32, seq<u8>), Error> {
    LiftIo(ParseU32(s))
  }

  // One function per setter of the source.

  /** `set_explicit_version`. */
  function ExplicitVersion(v: ResultValue): ResultValue {
    v.(version := 0, simpleRules := None)
  }

  /** `set_flags`: the low nibble is the version, which must be 1 or 2; the next nibble 1 means simple rules. */
  function FlagsStep(v: ResultValue, s: seq<u8>): Step {
    var w :- Word(s);
    var version := w.0 % 0x10;
    var simple := (w.0 / 0x10) % 0x10 == 1;
    :- Ensure(version == 1 || version == 2, UnsupportedResultVersion(version));
    Success((v.(version := version, simpleRules := Some(simple)), w.1))
  }

  function GameResultStep(v: ResultValue, s: seq<u8>): Step {
    var w :- Word(s);
    var g :- GameResults.FromU32(w.0);
    Success((v.(gameResult := g), w.1))
  }

  function GameModeStep(v: ResultValue, s: seq<u8>): Step {
    var w :- Word(s);
    var g :- GameModes.FromWord(w.0);
    Success((v.(gameMode := g), w.1))
  }

  /** `set_map`: any hash is accepted. */
  function MapStep(v: ResultValue, s: seq<u8>): Step {
    var w :- Word(s);
    Success((v.(playedMap := Maps.FromHash(w.0)), w.1))
  }

  function SelectedStep(v: ResultValue, s: seq<u8>): Step {
    var w :- Word(s);
    Success((v.(selectedMissions := Missions.Unpacked(w.0)), w.1))
  }

  function PickedStep(v: ResultValue, s: seq<u8>): Step {
    var w :- Word(s);
    Success((v.(pickedMissions := Missions.Unpacked(w.0)), w.1))
  }

  /** `set_completed_missions`: keeps the raw word as well as its missions. */
  function CompletedStep(v: ResultValue, s: seq<u8>): Step {
    var w :- Word(s);
    Success((v.(completedMissionsRaw := w.0, completedMissions := Missions.Unpacked(w.0)), w.1))
  }

  function GuestsStep(v: ResultValue, s: seq<u8>): Step {
    var w :- Word(s);
    Success((v.(guests := Some(w.0)), w.1))
  }

  function ClockStartStep(v: ResultValue, s: seq<u8>): Step {
    var w :- Word(s);
    Success((v.(clockStart := Some(w.0)), w.1))
  }

  /** The first steps of `from_reader`, the ones that can reject a value: flags, result and mode. */
  function DecodeChecked(s: seq<u8>, replayVersion: u32): Step {
    var a :- Prefix(s, replayVersion);
    DecodeResultAndMode(a.0, a.1)
  }

  /** The flags word when the replay version is above 3, otherwise the explicit version 0. */
  function Prefix(s: seq<u8>, replayVersion: u32): Step {
    if replayVersion > 3 then FlagsStep(DefaultValue, s) else Success((ExplicitVersion(DefaultValue), s))
  }

  function DecodeResultAndMode(v: ResultValue, s: seq<u8>): Step {
    var b :- GameResultStep(v, s);
    GameModeStep(b.0, b.1)
  }

  /** The steps that follow, which only fail when the input runs out: map and the three mission sets. */
  function DecodeUnchecked(v: ResultValue, s: seq<u8>): Step {
    var d :- MapStep(v, s);
    DecodeMissionWords(d.0, d.1)
  }

  function DecodeMissionWords(v: ResultValue, s: seq<u8>): Step {
    var e :- SelectedStep(v, s);
    var f :- PickedStep(e.0, e.1);
    CompletedStep(f.0, f.1)
  }

  /** The steps of `from_reader` up to the completed missions. */
  function DecodeFixed(s: seq<u8>, replayVersion: u32): Step {
    var c :- DecodeChecked(s, replayVersion);
    DecodeUnchecked(c.0, c.1)
  }

  /** `ResultData::from_reader` on the bytes `s`: the block and what follows it. */
  function Decode(s: seq<u8>, replayVersion: u32): Step {
    var g :- DecodeFixed(s, replayVersion);
    if g.0.version == 2 then
      var h :- GuestsStep(g.0, g.1);
      ClockStartStep(h.0, h.1)
    else
      Success(g)
  }

  /** A setter ran as `step` says: it failed with the step's error, or it left the fields and input the step computes. */
  predicate Follows(step: Step, o: Outcome<Error>, v: ResultValue, rest: seq<u8>) {
    && (o.Fail? <==> step.Failure?)
    && (o.Fail? ==> o.error == step.error)
    && (o.Pass? ==> v == step.value.0 && rest == step.value.1)
  }

  class ResultData {
    var version: u32
    var simpleRules: Option<bool>
    var gameResult: GameResults.GameResult
    var gameMode: GameModes.GameMode
    var playedMap: Maps.Map
    var selectedMissions: seq<Missions.Mission>
    var pickedMissions: seq<Missions.Mission>
    var completedMissions: seq<Missions.Mission>
    var completedMissionsRaw: u32
    var guests: Option<u32>
    var clockStart: Option<u32>

    function Value(): ResultValue
      reads this
    {
      ResultValue(version, simpleRules, gameResult, gameMode, playedMap, selectedMissions,
                  pickedMissions, completedMissions, completedMissionsRaw, guests, clockStart)
    }

    /** `Default::default()`. */
    constructor ()
      ensures Value() == DefaultValue
    {
      version := 0;
      simpleRules := None;
      gameResult := GameResults.DefaultResult;
      gameMode := GameModes.DefaultMode;
      playedMap := Maps.DefaultMap;
      selectedMissions := [];
      pickedMissions := [];
      completedMissions := [];
      completedMissionsRaw := 0;
      guests := None;
      clockStart := None;
    }

    method SetExplicitVersion()
      modifies this
      ensures Value() == ExplicitVersion(old(Value()))
    {
      version := 0;
      simpleRules := None;
    }

    method SetFlags(reader: Reader) returns (o: Outcome<Error>)
      modifies this, reader
      ensures Follows(FlagsStep(old(Value()), old(reader.rest)), o, Value(), reader.rest)
    {
      var flags := ReadU32(reader);
      if flags.Failure? {
        return Fail(FromIo(flags.error));
      }
      var v := flags.value % 0x10;
      var simple := (flags.value / 0x10) % 0x10 == 1;
      if !(v == 1 || v == 2) {
        return Fail(UnsupportedResultVersion(v));
      }
      version := v;
      simpleRules := Some(simple);
      return Pass;
    }

    method SetGameResult(reader: Reader) returns (o: Outcome<Error>)
      modifies this, reader
      ensures Follows(GameResultStep(old(Value()), old(reader.rest)), o, Value(), reader.rest)
    {
      var result := ReadU32(reader);
      if result.Failure? {
        return Fail(FromIo(result.error));
      }
      var g := GameResults.FromU32(result.value);
      if g.Failure? {
        return Fail(g.error);
      }
      gameResult := g.value;
      return Pass;
    }

    method SetGameMode(reader: Reader) returns (o: Outcome<Error>)
      modifies this, reader
      ensures Follows(GameModeStep(old(Value()), old(reader.rest)), o, Value(), reader.rest)
    {
      var mode := ReadU32(reader);
      if mode.Failure? {
        return Fail(FromIo(mode.error));
      }
      var g := GameModes.FromWord(mode.value);
      if g.Failure? {
        return Fail(g.error);
      }
      gameMode := g.value;
      return Pass;
    }

    method SetMap(reader: Reader) returns (o: Outcome<Error>)
      modifies this, reader
      ensures Follows(MapStep(old(Value()), old(reader.rest)), o, Value(), reader.rest)
    {
      var hash := ReadU32(reader);
      if hash.Failure? {
        return Fail(FromIo(hash.error));
      }
      playedMap := Maps.FromHash(hash.value);
      return Pass;
    }

    method SetSelectedMissions(reader: Reader) returns (o: Outcome<Error>)
      modifies this, reader
      ensures Follows(SelectedStep(old(Value()), old(reader.rest)), o, Value(), reader.rest)
    {
      var missions := ReadU32(reader);
      if missions.Failure? {
        return Fail(FromIo(missions.error));
      }
      selectedMissions := Missions.UnpackMissions(missions.value);
      return Pass;
    }

    method SetPickedMissions(reader: Reader) returns (o: Outcome<Error>)
      modifies this, reader
      ensures Follows(PickedStep(old(Value()), old(reader.rest)), o, Value(), reader.rest)
    {
      var missions := ReadU32(reader);
      if missions.Failure? {
        return Fail(FromIo(missions.error));
      }
      pickedMissions := Missions.UnpackMissions(missions.value);
      return Pass;
    }

    method SetCompletedMissions(reader: Reader) returns (o: Outcome<Error>)
      modifies this, reader
      ensures Follows(CompletedStep(old(Value()), old(reader.rest)), o, Value(), reader.rest)
    {
      var missions := ReadU32(reader);
      if missions.Failure? {
        return Fail(FromIo(missions.error));
      }
      completedMissionsRaw := missions.value;
      completedMissions := Missions.UnpackMissions(missions.value);
      return Pass;
    }

    method SetGuests(reader: Reader) returns (o: Outcome<Error>)
      modifies this, reader
      ensures Follows(GuestsStep(old(Value()), old(reader.rest)), o, Value(), reader.rest)
    {
      var count := ReadU32(reader);
      if count.Failure? {
        return Fail(FromIo(count.error));
      }
      guests := Some(count.value);
      return Pass;
    }

    method SetClockStart(reader: Reader) returns (o: Outcome<Error>)
      modifies this, reader
      ensures Follows(ClockStartStep(old(Value()), old(reader.rest)), o, Value(), reader.rest)
    {
      var seconds := ReadU32(reader);
      if seconds.Failure? {
        return Fail(FromIo(seconds.error));
      }
      clockStart := Some(seconds.value);
      return Pass;
    }

    /** `ResultData::from_reader`: a fresh object holding what `Decode` computes, or its error. */
    static method FromReader(reader: Reader, replayVersion: u32) returns (r: Result<ResultData, Error>)
      modifies reader
      ensures var d := Decode(old(reader.rest), replayVersion);
        && (r.Failure? <==> d.Failure?)
        && (r.Failure? ==> r.error == d.error)
        && (r.Success? ==> fresh(r.value) && r.value.Value() == d.value.0 && reader.rest == d.value.1)
    {
      var data := new ResultData();
      var o: Outcome<Error>;
      if replayVersion > 3 {
        o := data.SetFlags(reader);
        if o.Fail? { return Failure(o.error); }
      } else {
        data.SetExplicitVersion();
      }
      o := data.SetGameResult(reader);
      if o.Fail? { return Failure(o.error); }
      o := data.SetGameMode(reader);
      if o.Fail? { return Failure(o.error); }
      o := data.SetMap(reader);
      if o.Fail? { return Failure(o.error); }
      o := data.SetSelectedMissions(reader);
      if o.Fail? { return Failure(o.error); }
      o := data.SetPickedMissions(reader);
      if o.Fail? { return Failure(o.error); }
      o := data.SetCompletedMissions(reader);
      if o.Fail? { return Failure(o.error); }
      if data.version == 2 {
        o := data.SetGuests(reader);
        if o.Fail? { return Failure(o.error); }
        o := data.SetClockStart(reader);
        if o.Fail? { return Failure(o.error); }
      }
      return Success(data);
    }
  }

  // The block described by positions in the input: an independent account of
  // what `Decode` reads, which the lemmas below connect it to.

  /** Where the result word starts: after the flags word, when there is one. */
  function FlagsSize(replayVersion: u32): nat {
    if replayVersion > 3 then 4 else 0
  }

  /** The result version the flags word announces; 0 when there is none. */
  function VersionOf(s: seq<u8>, replayVersion: u32): u32 {
    if replayVersion > 3 && 4 <= |s| then WordAt(s, 0) % 0x10 else 0
  }

  /** 24 + 4·[replay version > 3] + 8·[result version = 2]. */
  function BlockSize(replayVersion: u32, version: u32): nat {
    FlagsSize(replayVersion) + 24 + (if version == 2 then 8 else 0)
  }

  /** The input holds a whole block whose version, result and mode are all accepted. */
  predicate BlockOk(s: seq<u8>, replayVersion: u32) {
    var o := FlagsSize(replayVersion);
    var version := VersionOf(s, replayVersion);
    && BlockSize(replayVersion, version) <= |s|
    && (replayVersion > 3 ==> version == 1 || version == 2)
    && WordAt(s, o) <= 4
    && GameModes.Tag(WordAt(s, o + 4)) in {0x00, 0x10, 0x20}
  }

  /** The fields such a block holds, each read at its own position. */
  function LaidOut(s: seq<u8>, replayVersion: u32): ResultValue
    requires BlockOk(s, replayVersion)
  {
    var o := FlagsSize(replayVersion);
    var version := VersionOf(s, replayVersion);
    ResultValue(
      version,
      if replayVersion > 3 then Some((WordAt(s, 0) / 0x10) % 0x10 == 1) else None,
      GameResults.FromU32(WordAt(s, o)).value,
      GameModes.FromWord(WordAt(s, o + 4)).value,
      Maps.FromHash(WordAt(s, o + 8)),
      Missions.Unpacked(WordAt(s, o + 12)),
      Missions.Unpacked(WordAt(s, o + 16)),
      Missions.Unpacked(WordAt(s, o + 20)),
      WordAt(s, o + 20),
      if version == 2 then Some(WordAt(s, o + 24)) else None,
      if version == 2 then Some(WordAt(s, o + 28)) else None)
  }

  /** Reading a word at byte `i`. */
  lemma WordSlides(s: seq<u8>, i: nat)
    requires i <= |s|
    ensures Word(s[i..]).Success? <==> i + 4 <= |s|
    ensures i + 4 <= |s| ==> Word(s[i..]) == Success((WordAt(s, i), s[i + 4..]))
    ensures Word(s[i..]).Failure? ==> Word(s[i..]).error == Io(UnexpectedEof)
  {
    if i + 4 <= |s| {
      assert s[i..][..4] == s[i..i + 4];
      assert s[i..][4..] == s[i + 4..];
    }
  }

  /** The flags word, or its absence. */
  lemma PrefixLayout(s: seq<u8>, replayVersion: u32)
    ensures var a := Prefix(s, replayVersion);
      && (a.Success? <==> FlagsSize(replayVersion) <= |s| && (replayVersion > 3 ==> VersionOf(s, replayVersion) in {1, 2}))
      && (a.Success? ==> a.value.1 == s[FlagsSize(replayVersion)..])
      && (a.Success? ==> a.value.0 == DefaultValue.(version := VersionOf(s, replayVersion),
            simpleRules := if replayVersion > 3 then Some((WordAt(s, 0) / 0x10) % 0x10 == 1) else None))
  {
    WordSlides(s, 0);
    assert s[0..] == s;
  }

  /** The flags, result and mode words, each at its position. */
  lemma CheckedLayout(s: seq<u8>, replayVersion: u32)
    ensures var o := FlagsSize(replayVersion);
      var version := VersionOf(s, replayVersion);
      var c := DecodeChecked(s, replayVersion);
      && (c.Success? <==>
            o + 8 <= |s| && (replayVersion > 3 ==> version == 1 || version == 2)
            && WordAt(s, o) <= 4 && GameModes.Tag(WordAt(s, o + 4)) in {0x00, 0x10, 0x20})
      && (c.Success? ==> c.value.1 == s[o + 8..])
      && (c.Success? ==> c.value.0 == DefaultValue.(
            version := version,
            simpleRules := if replayVersion > 3 then Some((WordAt(s, 0) / 0x10) % 0x10 == 1) else None,
            gameResult := GameResults.FromU32(WordAt(s, o)).value,
            gameMode := GameModes.FromWord(WordAt(s, o + 4)).value))
  {
    var o := FlagsSize(replayVersion);
    PrefixLayout(s, replayVersion);
    if o <= |s| {
      WordSlides(s, o);
      if o + 4 <= |s| {
        WordSlides(s, o + 4);
      }
    }
  }

  /** The map and mission words, each at its position. */
  lemma UncheckedLayout(v: ResultValue, s: seq<u8>, i: nat)
    requires i <= |s|
    ensures var d := DecodeUnchecked(v, s[i..]);
      && (d.Success? <==> i + 16 <= |s|)
      && (d.Failure? ==> d.error == Io(UnexpectedEof))
      && (d.Success? ==> d.value.1 == s[i + 16..])
      && (d.Success? ==> d.value.0 == v.(
            playedMap := Maps.FromHash(WordAt(s, i)),
            selectedMissions := Missions.Unpacked(WordAt(s, i + 4)),
            pickedMissions := Missions.Unpacked(WordAt(s, i + 8)),
            completedMissions := Missions.Unpacked(WordAt(s, i + 12)),
            completedMissionsRaw := WordAt(s, i + 12)))
  {
    WordSlides(s, i);
    if i + 4 <= |s| {
      WordSlides(s, i + 4);
      if i + 8 <= |s| {
        WordSlides(s, i + 8);
        if i + 12 <= |s| {
          WordSlides(s, i + 12);
        }
      }
    }
  }

  lemma DecodeFixedLayout(s: seq<u8>, replayVersion: u32)
    ensures var o := FlagsSize(replayVersion);
      var version := VersionOf(s, replayVersion);
      var g := DecodeFixed(s, replayVersion);
      && (g.Success? <==>
            o + 24 <= |s| && (replayVersion > 3 ==> version == 1 || version == 2)
            && WordAt(s, o) <= 4 && GameModes.Tag(WordAt(s, o + 4)) in {0x00, 0x10, 0x20})
      && (g.Success? ==> g.value.1 == s[o + 24..] && g.value.0.version == version)
  {
    var o := FlagsSize(replayVersion);
    CheckedLayout(s, replayVersion);
    var c := DecodeChecked(s, replayVersion);
    if c.Success? {
      UncheckedLayout(c.value.0, s, o + 8);
    }
  }

  /**
   * Decoding reads the block laid out at fixed positions: it succeeds
   * exactly when the input holds a whole block whose version, result and
   * mode words are accepted, and then yields the fields at their positions
   * and consumes precisely the block.
   */
  lemma DecodeLayout(s: seq<u8>, replayVersion: u32)
    ensures Decode(s, replayVersion).Success? <==> BlockOk(s, replayVersion)
    ensures BlockOk(s, replayVersion) ==>
      Decode(s, replayVersion) == Success((LaidOut(s, replayVersion), s[BlockSize(replayVersion, VersionOf(s, replayVersion))..]))
  {
    var o := FlagsSize(replayVersion);
    DecodeFixedLayout(s, replayVersion);
    if DecodeFixed(s, replayVersion).Success? {
      WordSlides(s, o + 24);
      if o + 28 <= |s| {
        WordSlides(s, o + 28);
      }
      if BlockOk(s, replayVersion) {
        FixedFields(s, replayVersion);
      }
    }
  }

  lemma FixedFields(s: seq<u8>, replayVersion: u32)
    requires BlockOk(s, replayVersion)
    ensures var g := DecodeFixed(s, replayVersion); var v := LaidOut(s, replayVersion);
      g.Success? && g.value.0 == v.(guests := None, clockStart := None)
  {
    var o := FlagsSize(replayVersion);
    CheckedLayout(s, replayVersion);
    var c := DecodeChecked(s, replayVersion);
    UncheckedLayout(c.value.0, s, o + 8);
  }

  lemma CheckedErrors(s: seq<u8>, replayVersion: u32)
    requires DecodeChecked(s, replayVersion).Failure?
    ensures var e := DecodeChecked(s, replayVersion).error;
      var o := FlagsSize(replayVersion);
      var version := VersionOf(s, replayVersion);
      || (e == Io(UnexpectedEof) && |s| < o + 8)
      || (replayVersion > 3 && version != 1 && version != 2 && e == UnsupportedResultVersion(version))
      || (o + 4 <= |s| && WordAt(s, o) > 4 && e == InvalidGameResult(WordAt(s, o)))
      || (o + 8 <= |s| && GameModes.Tag(WordAt(s, o + 4)) !in {0x00, 0x10, 0x20} && e == InvalidGameMode(WordAt(s, o + 4)))
  {
    var o := FlagsSize(replayVersion);
    WordSlides(s, 0);
    assert s[0..] == s;
    PrefixLayout(s, replayVersion);
    if o <= |s| {
      WordSlides(s, o);
      if o + 4 <= |s| {
        WordSlides(s, o + 4);
      }
    }
  }

  /**
   * Every way the block can fail: the input ends before the block does, or
   * the version, result or mode word is rejected with that word's value.
   */
  lemma DecodeErrors(s: seq<u8>, replayVersion: u32)
    requires Decode(s, replayVersion).Failure?
    ensures var e := Decode(s, replayVersion).error;
      var o := FlagsSize(replayVersion);
      var version := VersionOf(s, replayVersion);
      || (e == Io(UnexpectedEof) && |s| < BlockSize(replayVersion, version))
      || (replayVersion > 3 && version != 1 && version != 2 && e == UnsupportedResultVersion(version))
      || (o + 4 <= |s| && WordAt(s, o) > 4 && e == InvalidGameResult(WordAt(s, o)))
      || (o + 8 <= |s| && GameModes.Tag(WordAt(s, o + 4)) !in {0x00, 0x10, 0x20} && e == InvalidGameMode(WordAt(s, o + 4)))
  {
    var o := FlagsSize(replayVersion);
    var c := DecodeChecked(s, replayVersion);
    CheckedLayout(s, replayVersion);
    if c.Failure? {
      CheckedErrors(s, replayVersion);
    } else {
      UncheckedLayout(c.value.0, s, o + 8);
      DecodeFixedLayout(s, replayVersion);
      if DecodeFixed(s, replayVersion).Success? {
        WordSlides(s, o + 24);
        if o + 28 <= |s| {
          WordSlides(s, o + 28);
        }
      }
    }
  }

  /** A flags version other than 1 or 2 is reported before anything else is read. */
  lemma RejectsVersion(s: seq<u8>, replayVersion: u32)
    requires replayVersion > 3 && 4 <= |s|
    requires VersionOf(s, replayVersion) != 1 && VersionOf(s, replayVersion) != 2
    ensures Decode(s, replayVersion) == Failure(UnsupportedResultVersion(VersionOf(s, replayVersion)))
  {
    WordSlides(s, 0);
    assert s[0..] == s;
  }

  /** A result word above 4 aborts the block once the flags are accepted. */
  lemma RejectsResult(s: seq<u8>, replayVersion: u32)
    requires FlagsSize(replayVersion) + 4 <= |s|
    requires replayVersion > 3 ==> VersionOf(s, replayVersion) in {1, 2}
    requires WordAt(s, FlagsSize(replayVersion)) > 4
    ensures Decode(s, replayVersion) == Failure(InvalidGameResult(WordAt(s, FlagsSize(replayVersion))))
  {
    PrefixLayout(s, replayVersion);
    WordSlides(s, FlagsSize(replayVersion));
  }

  /** A mode word with an unknown tag aborts the block once the result is accepted. */
  lemma RejectsMode(s: seq<u8>, replayVersion: u32)
    requires FlagsSize(replayVersion) + 8 <= |s|
    requires replayVersion > 3 ==> VersionOf(s, replayVersion) in {1, 2}
    requires WordAt(s, FlagsSize(replayVersion)) <= 4
    requires GameModes.Tag(WordAt(s, FlagsSize(replayVersion) + 4)) !in {0x00, 0x10, 0x20}
    ensures Decode(s, replayVersion) == Failure(InvalidGameMode(WordAt(s, FlagsSize(replayVersion) + 4)))
  {
    PrefixLayout(s, replayVersion);
    WordSlides(s, FlagsSize(replayVersion));
    WordSlides(s, FlagsSize(replayVersion) + 4);
  }

  /** The flags words of the source's tests. */
  lemma FlagsExampleNotSimple()
    ensures FlagsStep(DefaultValue, [0x01, 0, 0, 0]) == Success((DefaultValue.(version := 1, simpleRules := Some(false)), []))
  {
    LittleEndianWords([0x01, 0, 0, 0]);
  }

  lemma FlagsExampleSimple()
    ensures FlagsStep(DefaultValue, [0x11, 0, 0, 0]) == Success((DefaultValue.(version := 1, simpleRules := Some(true)), []))
  {
    LittleEndianWords([0x11, 0, 0, 0]);
  }

  lemma FlagsExampleUnsupported()
    ensures FlagsStep(DefaultValue, [0x03, 0, 0, 0]) == Failure(UnsupportedResultVersion(3))
  {
    LittleEndianWords([0x03, 0, 0, 0]);
  }

  // The encoder: the partner the decoder is proved to invert.

  /** What a decoded block always satisfies, and all an encoder needs to know. */
  predicate WellFormed(v: ResultValue, replayVersion: u32) {
    && (replayVersion > 3 ==> (v.version == 1 || v.version == 2) && v.simpleRules.Some?)
    && (replayVersion <= 3 ==> v.version == 0 && v.simpleRules.None?)
    && GameModes.Packable(v.gameMode)
    && (v.playedMap.Unknown? ==> !Maps.IsNamedHash(v.playedMap.hash))
    && Missions.IsBitfield(v.selectedMissions)
    && Missions.IsBitfield(v.pickedMissions)
    && v.completedMissions == Missions.Unpacked(v.completedMissionsRaw)
    && (v.guests.Some? <==> v.version == 2)
    && (v.clockStart.Some? <==> v.version == 2)
  }

  /** Every block the decoder returns is well formed. */
  lemma DecodeWellFormed(s: seq<u8>, replayVersion: u32)
    requires Decode(s, replayVersion).Success?
    ensures WellFormed(Decode(s, replayVersion).value.0, replayVersion)
  {
    DecodeLayout(s, replayVersion);
    var o := FlagsSize(replayVersion);
    var v := LaidOut(s, replayVersion);
    GameModes.FromWordNormalizes(WordAt(s, o + 4));
    Missions.PackedOfBitfield(v.selectedMissions);
    Missions.PackedOfBitfield(v.pickedMissions);
  }

  function W(x: nat): seq<u8> {
    ToLittleEndian(x, 4)
  }

  /** The flags word of a block: its version and, in the next nibble, 1 for simple rules. */
  function FlagsWord(v: ResultValue): nat {
    v.version + (if v.simpleRules == Some(true) then 0x10 else 0)
  }

  /** The flags, result and mode words, followed by `t`. */
  function EncodedChecked(v: ResultValue, replayVersion: u32, t: seq<u8>): seq<u8> {
    (if replayVersion > 3 then W(FlagsWord(v)) else [])
      + (W(GameResults.Code(v.gameResult)) + (W(GameModes.Pack(v.gameMode)) + t))
  }

  /** The map hash and the three mission words, followed by `t`. */
  function EncodedUnchecked(v: ResultValue, t: seq<u8>): seq<u8> {
    W(Maps.Hash(v.playedMap)) + (W(Missions.Packed(v.selectedMissions))
      + (W(Missions.Packed(v.pickedMissions)) + (W(v.completedMissionsRaw) + t)))
  }

  /** The guest count and clock start of a version 2 block, followed by `t`. */
  function EncodedTrailer(v: ResultValue, t: seq<u8>): seq<u8> {
    if v.version == 2 && v.guests.Some? && v.clockStart.Some? then
      W(v.guests.value) + (W(v.clockStart.value) + t)
    else t
  }

  /** The bytes of the block `v` in a replay of version `replayVersion`, followed by `t`. */
  function Encoded(v: ResultValue, replayVersion: u32, t: seq<u8>): seq<u8> {
    EncodedChecked(v, replayVersion, EncodedUnchecked(v, EncodedTrailer(v, t)))
  }

  lemma FlagsRoundTrip(v: ResultValue, t: seq<u8>)
    requires (v.version == 1 || v.version == 2) && v.simpleRules.Some?
    ensures FlagsStep(DefaultValue, W(FlagsWord(v)) + t) ==
      Success((DefaultValue.(version := v.version, simpleRules := v.simpleRules), t))
  {
    var w := FlagsWord(v);
    ParseU32OfEncoding(w, t);
    assert Word(W(w) + t) == Success((w, t));
    assert w % 0x10 == v.version;
    if v.simpleRules.value {
      assert w == v.version + 0x10 && (w / 0x10) % 0x10 == 1;
    } else {
      assert w == v.version && (w / 0x10) % 0x10 == 0;
    }
  }

  lemma ModeRoundTrip(u: ResultValue, v: ResultValue, t: seq<u8>)
    requires GameModes.Packable(v.gameMode)
    ensures GameModeStep(u, W(GameModes.Pack(v.gameMode)) + t) == Success((u.(gameMode := v.gameMode), t))
  {
    GameModes.PackRoundTrip(v.gameMode);
    ParseU32OfEncoding(GameModes.Pack(v.gameMode), t);
  }

  lemma ResultRoundTrip(u: ResultValue, v: ResultValue, t: seq<u8>)
    ensures GameResultStep(u, W(GameResults.Code(v.gameResult)) + t) == Success((u.(gameResult := v.gameResult), t))
  {
    GameResults.CodeRoundTrip(v.gameResult);
    ParseU32OfEncoding(GameResults.Code(v.gameResult), t);
  }

  lemma PrefixRoundTrip(v: ResultValue, replayVersion: u32, t: seq<u8>)
    requires WellFormed(v, replayVersion)
    ensures Prefix((if replayVersion > 3 then W(FlagsWord(v)) else []) + t, replayVersion) ==
      Success((DefaultValue.(version := v.version, simpleRules := v.simpleRules), t))
  {
    if replayVersion > 3 {
      FlagsRoundTrip(v, t);
    } else {
      assert [] + t == t;
    }
  }

  lemma CheckedRoundTrip(v: ResultValue, replayVersion: u32, t: seq<u8>)
    requires WellFormed(v, replayVersion)
    ensures DecodeChecked(EncodedChecked(v, replayVersion, t), replayVersion) == Success((DefaultValue.(
      version := v.version, simpleRules := v.simpleRules, gameResult := v.gameResult, gameMode := v.gameMode), t))
  {
    var rest := W(GameResults.Code(v.gameResult)) + (W(GameModes.Pack(v.gameMode)) + t);
    var a := DefaultValue.(version := v.version, simpleRules := v.simpleRules);
    PrefixRoundTrip(v, replayVersion, rest);
    ResultRoundTrip(a, v, W(GameModes.Pack(v.gameMode)) + t);
    ModeRoundTrip(a.(gameResult := v.gameResult), v, t);
  }

  lemma MapRoundTrip(u: ResultValue, v: ResultValue, t: seq<u8>)
    requires v.playedMap.Unknown? ==> !Maps.IsNamedHash(v.playedMap.hash)
    ensures MapStep(u, W(Maps.Hash(v.playedMap)) + t) == Success((u.(playedMap := v.playedMap), t))
  {
    Maps.HashRoundTrip(v.playedMap);
    ParseU32OfEncoding(Maps.Hash(v.playedMap), t);
  }

  lemma MissionWordsRoundTrip(u: ResultValue, v: ResultValue, t: seq<u8>)
    requires Missions.IsBitfield(v.selectedMissions) && Missions.IsBitfield(v.pickedMissions)
    requires v.completedMissions == Missions.Unpacked(v.completedMissionsRaw)
    ensures var t2 := W(Missions.Packed(v.pickedMissions)) + (W(v.completedMissionsRaw) + t);
      DecodeMissionWords(u, W(Missions.Packed(v.selectedMissions)) + t2) == Success((u.(selectedMissions := v.selectedMissions,
        pickedMissions := v.pickedMissions, completedMissions := v.completedMissions,
        completedMissionsRaw := v.completedMissionsRaw), t))
  {
    Missions.PackedOfBitfield(v.selectedMissions);
    Missions.PackedOfBitfield(v.pickedMissions);
    var t3 := W(v.completedMissionsRaw) + t;
    var t2 := W(Missions.Packed(v.pickedMissions)) + t3;
    ParseU32OfEncoding(Missions.Packed(v.selectedMissions), t2);
    ParseU32OfEncoding(Missions.Packed(v.pickedMissions), t3);
    ParseU32OfEncoding(v.completedMissionsRaw, t);
  }

  lemma UncheckedRoundTrip(u: ResultValue, v: ResultValue, t: seq<u8>)
    requires WellFormed(v, 0) || WellFormed(v, 4)
    ensures DecodeUnchecked(u, EncodedUnchecked(v, t)) == Success((u.(
      playedMap := v.playedMap, selectedMissions := v.selectedMissions, pickedMissions := v.pickedMissions,
      completedMissions := v.completedMissions, completedMissionsRaw := v.completedMissionsRaw), t))
  {
    var t1 := W(Missions.Packed(v.selectedMissions)) + (W(Missions.Packed(v.pickedMissions)) + (W(v.completedMissionsRaw) + t));
    MapRoundTrip(u, v, t1);
    MissionWordsRoundTrip(u.(playedMap := v.playedMap), v, t);
  }

  /** Decoding an encoded block gives it back and leaves exactly what followed it. */
  lemma RoundTrip(v: ResultValue, replayVersion: u32, t: seq<u8>)
    requires WellFormed(v, replayVersion)
    ensures Decode(Encoded(v, replayVersion, t), replayVersion) == Success((v, t))
  {
    var trailer := EncodedTrailer(v, t);
    var unchecked := EncodedUnchecked(v, trailer);
    CheckedRoundTrip(v, replayVersion, unchecked);
    var c := DefaultValue.(version := v.version, simpleRules := v.simpleRules,
      gameResult := v.gameResult, gameMode := v.gameMode);
    UncheckedRoundTrip(c, v, trailer);
    if v.version == 2 {
      ParseU32OfEncoding(v.guests.value, W(v.clockStart.value) + t);
      ParseU32OfEncoding(v.clockStart.value, t);
    }
  }
}
