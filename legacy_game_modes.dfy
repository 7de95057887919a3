/**
 * The game mode of the older decoder, src/replay/header/result_data/game_mode.rs:
 * a word whose top byte is the mode's tag, whose low byte is the number of
 * missions required, and whose middle field `mode & 0x00ffff00` is looked up
 * in a table of mission totals.
 */
module LegacyGameModes {
  import opened Results
  import opened Utils
  import opened LegacyErrors
  import Bits

  datatype GameMode = Known(required: u8) | Pick(required: u8, total: u16) | Any(required: u8, total: u16)

  /** `Default::default()`. */
  const DefaultMode: GameMode := Known(4)

  /** `mode & 0xff000000`. */
  function TagField(mode: u32): nat {
    (mode / 0x100_0000) * 0x100_0000
  }

  /** `mode & 0x00ffff00`. */
  function MiddleField(mode: u32): nat {
    ((mode / 0x100) % 0x1_0000) * 0x100
  }

  /** The table of totals: the middle fields 0x00C000 to 0x020000, in steps of 0x4000, give 3 to 8. */
  function TotalOf(middle: nat): (t: Option<u16>)
    ensures t.Some? <==> middle % 0x4000 == 0 && 3 <= middle / 0x4000 <= 8
    ensures t.Some? ==> t.value == middle / 0x4000
  {
    if middle == 0x00_C000 then Some(3)
    else if middle == 0x01_0000 then Some(4)
    else if middle == 0x01_4000 then Some(5)
    else if middle == 0x01_8000 then Some(6)
    else if middle == 0x01_C000 then Some(7)
    else if middle == 0x02_0000 then Some(8)
    else None
  }

  /** The total the word announces; a middle field outside the table is only allowed a Known mode, as 0. */
  function TotalStep(mode: u32): Result<u16, LegacyError> {
    match TotalOf(MiddleField(mode))
    case Some(t) => Success(t)
    case None => if TagField(mode) == 0 then Success(0) else Failure(InvalidGameMode(mode))
  }

  /** `GameMode::try_from(u32)`. */
  function FromU32(mode: u32): (r: Result<GameMode, LegacyError>)
    ensures r.Success? <==>
      TagField(mode) == 0 || (TagField(mode) in {0x1000_0000, 0x2000_0000} && TotalOf(MiddleField(mode)).Some?)
    ensures r.Failure? ==> r.error == InvalidGameMode(mode)
    ensures r.Success? ==> r.value.required == mode % 0x100 && Tag(r.value) == TagField(mode)
    ensures TagField(mode) == 0 ==> r == Success(Known(mode % 0x100))
    ensures r.Success? && !r.value.Known? ==> 3 <= r.value.total <= 8 && r.value.total * 0x4000 == MiddleField(mode)
  {
    var required := mode % 0x100;
    var total :- TotalStep(mode);
    if TagField(mode) == 0 then Success(Known(required))
    else if TagField(mode) == 0x1000_0000 then Success(Pick(required, total))
    else if TagField(mode) == 0x2000_0000 then Success(Any(required, total))
    else Failure(InvalidGameMode(mode))
  }

  // The encoder: the partner the decoder is proved to invert.

  /** The top byte of a mode's word, in place. */
  function Tag(g: GameMode): nat {
    match g
    case Known(_) => 0
    case Pick(_, _) => 0x1000_0000
    case Any(_, _) => 0x2000_0000
  }

  /** The modes a word can carry: Pick and Any need a total in the table. */
  predicate Packable(g: GameMode) {
    !g.Known? ==> 3 <= g.total <= 8
  }

  /** The word of a mode: tag, total times 0x4000, required count. */
  function Pack(g: GameMode): nat {
    match g
    case Known(r) => r
    case Pick(r, t) => 0x1000_0000 + t * 0x4000 + r
    case Any(r, t) => 0x2000_0000 + t * 0x4000 + r
  }

  /** A word is its tag, middle and low fields added up. */
  lemma FieldsSum(mode: u32)
    ensures mode == TagField(mode) + MiddleField(mode) + mode % 0x100
  {
    var q := mode / 0x100;
    var hi, mid := q / 0x1_0000, q % 0x1_0000;
    var low := mid * 0x100 + mode % 0x100;
    assert mode == q * 0x100 + mode % 0x100;
    assert q * 0x100 == hi * 0x100_0000 + mid * 0x100;
    Bits.DivUnique(mode, 0x100_0000, hi, low);
  }

  /** The fields of an encoded mode are the ones it was built from. */
  lemma PackFields(g: GameMode)
    requires Packable(g)
    ensures Pack(g) < 0x1_0000_0000
    ensures TagField(Pack(g)) == Tag(g) && Pack(g) % 0x100 == g.required
    ensures !g.Known? ==> MiddleField(Pack(g)) == g.total * 0x4000
    ensures g.Known? ==> MiddleField(Pack(g)) == 0
  {
    var w := Pack(g);
    var low := (if g.Known? then 0 else g.total * 0x4000) + g.required;
    assert w == Tag(g) + low && low < 0x100_0000;
    Bits.DivUnique(w, 0x100_0000, Tag(g) / 0x100_0000, low);
    Bits.DivUnique(w, 0x100, Tag(g) / 0x100 + (if g.Known? then 0 else g.total * 0x40), g.required);
    if !g.Known? {
      var q := w / 0x100;
      Bits.DivUnique(q, 0x1_0000, Tag(g) / 0x100_0000, g.total * 0x40);
    }
  }

  /** Decoding an encoded mode gives it back. */
  lemma PackRoundTrip(g: GameMode)
    requires Packable(g)
    ensures Pack(g) < 0x1_0000_0000 && FromU32(Pack(g)) == Success(g)
  {
    PackFields(g);
  }

  /** A Pick or Any word is determined by its mode: encoding the decoded mode gives the word back. */
  lemma DecodedPacks(mode: u32)
    requires FromU32(mode).Success? && !FromU32(mode).value.Known?
    ensures Packable(FromU32(mode).value) && Pack(FromU32(mode).value) == mode
  {
    FieldsSum(mode);
  }

  /** The source's tests. */
  lemma Examples()
    ensures FromU32(0x00_0000_04) == Success(Known(4))
    ensures FromU32(0x20_01c0_04) == Success(Any(4, 7))
    ensures FromU32(0x10_0200_04) == Success(Pick(4, 8))
    ensures FromU32(0x30_0000_00) == Failure(InvalidGameMode(0x30_0000_00))
  {
  }
}
