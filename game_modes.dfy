/**
 * The game mode of spyparty-rs/src/replay/header/result_data/game_mode.rs:
 * how many missions the spy must complete out of how many, decoded from the
 * packed mode word of a replay or parsed from filter text such as "a4/8".
 */
module GameModes {
  import opened Results
  import opened Utils
  import opened Text
  import opened Errors
  import opened Bits

  datatype GameMode =
    | Known(required: u8)
    | Pick(required: u8, total: u16)
    | Any(required: u8, total: u16)

  /** `Default for GameMode`. */
  const DefaultMode: GameMode := Known(4)

  /** `mode & 0xff000000`, shifted down: the byte that says which mode. */
  function Tag(mode: u32): nat {
    mode / 0x100_0000
  }

  /** `(mode & 0x00fffc00) >> 14`: bits 14 to 23. */
  function TotalField(mode: u32): (t: u16)
    ensures t < 0x400
  {
    (mode / 0x4000) % 0x400
  }

  /** `mode & 0xff`. */
  function RequiredField(mode: u32): u8 {
    mode % 0x100
  }

  /** `TryFrom<u32> for GameMode`. */
  function FromWord(mode: u32): (r: Result<GameMode, Error>)
    ensures r.Success? <==> Tag(mode) in {0x00, 0x10, 0x20}
    ensures r.Failure? ==> r.error == InvalidGameMode(mode)
    ensures r.Success? ==> r.value.required == mode % 0x100
    ensures r.Success? && !r.value.Known? ==> r.value.total < 0x400
    ensures r.Success? ==> (r.value.Known? <==> Tag(mode) == 0x00) && (r.value.Pick? <==> Tag(mode) == 0x10)
  {
    var required := RequiredField(mode);
    var total := TotalField(mode);
    match Tag(mode)
    case 0x00 => Success(Known(required))
    case 0x10 => Success(Pick(required, total))
    case 0x20 => Success(Any(required, total))
    case _ => Failure(InvalidGameMode(mode))
  }

  /** The word a replay would store for a mode: tag byte, total in bits 14 to 23, required count in the low byte. */
  function Pack(g: GameMode): nat {
    match g
    case Known(r) => r
    case Pick(r, t) => 0x10 * 0x100_0000 + t * 0x4000 + r
    case Any(r, t) => 0x20 * 0x100_0000 + t * 0x4000 + r
  }

  /** A total that fits the ten bits of the word. */
  predicate Packable(g: GameMode) {
    g.Known? || g.total < 0x400
  }

  /** The three fields of a packed word come apart again. */
  lemma UnpackFields(tag: nat, t: nat, r: nat)
    requires tag < 0x100 && t < 0x400 && r < 0x100
    ensures var w := tag * 0x100_0000 + t * 0x4000 + r;
      w / 0x100_0000 == tag && (w / 0x4000) % 0x400 == t && w % 0x100 == r
  {
    var w := tag * 0x100_0000 + t * 0x4000 + r;
    var low := t * 0x4000 + r;
    assert low < 0x100_0000;
    DivUnique(w, 0x100_0000, tag, low);
    var q := tag * 0x400 + t;
    assert w == q * 0x4000 + r;
    DivUnique(w, 0x4000, q, r);
    DivUnique(q, 0x400, tag, t);
    var m := tag * 0x1_0000 + t * 0x40;
    assert w == m * 0x100 + r;
    DivUnique(w, 0x100, m, r);
  }

  /** Decoding a packed mode gives it back. */
  lemma PackRoundTrip(g: GameMode)
    requires Packable(g)
    ensures Pack(g) < 0x1_0000_0000
    ensures FromWord(Pack(g)) == Success(g)
  {
    match g
    case Known(r) =>
      UnpackFields(0, 0, r);
    case Pick(r, t) =>
      UnpackFields(0x10, t, r);
    case Any(r, t) =>
      UnpackFields(0x20, t, r);
  }

  /** Every decoded mode is packable, and re-packing and decoding it again changes nothing. */
  lemma FromWordNormalizes(mode: u32)
    requires FromWord(mode).Success?
    ensures Packable(FromWord(mode).value)
    ensures FromWord(Pack(FromWord(mode).value)) == FromWord(mode)
  {
    PackRoundTrip(FromWord(mode).value);
  }

  /** A known-mode word keeps only its low byte: bits 8 to 23 are ignored. */
  lemma KnownIgnoresTotal(mode: u32)
    requires Tag(mode) == 0
    ensures FromWord(mode) == Success(Known(mode % 0x100))
  {
  }

  /**
   * A pick or any word is read through its tag, its total field and its low
   * byte only: bits 8 to 13 are ignored. With `PackRoundTrip` this fixes the
   * mode of every accepted word.
   */
  lemma TaggedIgnoresMiddleBits(mode: u32)
    requires Tag(mode) in {0x10, 0x20}
    ensures Tag(mode) * 0x100_0000 + TotalField(mode) * 0x4000 + mode % 0x100 < 0x1_0000_0000
    ensures FromWord(mode) == FromWord(Tag(mode) * 0x100_0000 + TotalField(mode) * 0x4000 + mode % 0x100)
  {
    UnpackFields(Tag(mode), TotalField(mode), mode % 0x100);
  }

  /** The words of the source's examples. */
  lemma FromWordExamples()
    ensures FromWord(0x00_0000_04) == Success(Known(4))
    ensures FromWord(0x20_01c0_04) == Success(Any(4, 7))
    ensures FromWord(0x10_0200_04) == Success(Pick(4, 8))
    ensures FromWord(0x30_0000_00) == Failure(InvalidGameMode(0x30_0000_00))
  {
  }

  /**
   * What the pattern `^(\w+)(\d)(/|of)(\d)$` captures: a mode word, one
   * character for the required count, the separator and one for the total.
   */
  datatype Fields = Fields(mode: string, required: char, sep: string, total: char)

  function Join(f: Fields): string {
    f.mode + [f.required] + f.sep + [f.total]
  }

  predicate IsSeparator(sep: string) {
    sep == "/" || sep == "of"
  }

  /**
   * Splits a normalised string the way the pattern does. Its tail has a fixed
   * length once the separator is known, and the separator is told apart by
   * the next-to-last character, so at most one split exists.
   */
  function Split(t: string): (r: Option<Fields>)
    ensures r.Some? ==> Join(r.value) == t && IsSeparator(r.value.sep)
  {
    var n := |t|;
    if n >= 3 && t[n - 2] == '/' then
      assert t == t[..n - 3] + [t[n - 3]] + "/" + [t[n - 1]];
      Some(Fields(t[..n - 3], t[n - 3], "/", t[n - 1]))
    else if n >= 4 && t[n - 3] == 'o' && t[n - 2] == 'f' then
      assert t == t[..n - 4] + [t[n - 4]] + "of" + [t[n - 1]];
      Some(Fields(t[..n - 4], t[n - 4], "of", t[n - 1]))
    else
      None
  }

  /** The split is the only one: any string of the pattern's shape splits back into its own fields. */
  lemma SplitUnique(f: Fields)
    requires IsSeparator(f.sep)
    ensures Split(Join(f)) == Some(f)
  {
    var t := Join(f);
    var n := |t|;
    if f.sep == "/" {
      assert t[n - 2] == '/' && t[n - 3] == f.required && t[n - 1] == f.total;
      assert t[..n - 3] == f.mode;
    } else {
      assert t[n - 2] == 'f' && t[n - 3] == 'o' && t[n - 4] == f.required && t[n - 1] == f.total;
      assert t[..n - 4] == f.mode;
    }
  }

  predicate IsDigit(c: char) {
    '0' <= c <= '9'
  }

  /**
   * The mode the captured fields denote. The two counts must be ASCII digits
   * (`str::parse` accepts nothing else) and the mode word one of the six
   * spellings; a `known` mode drops its total.
   */
  function Interpret(f: Fields): Option<GameMode> {
    if !IsDigit(f.required) || !IsDigit(f.total) then None
    else
      var required := DigitValue(f.required);
      var total := DigitValue(f.total);
      match f.mode
      case "any" => Some(Any(required, total))
      case "a" => Some(Any(required, total))
      case "pick" => Some(Pick(required, total))
      case "p" => Some(Pick(required, total))
      case "known" => Some(Known(required))
      case "k" => Some(Known(required))
      case _ => None
  }

  /** `TryFrom<&str> for GameMode`: every failure reports the original text. */
  function Parse(s: string): (r: Result<GameMode, Error>)
    ensures r.Failure? ==> r.error == UnknownGameMode(s)
    ensures r.Success? ==> r.value.required <= 9 && (!r.value.Known? ==> r.value.total <= 9)
  {
    match Split(Normalize(s))
    case None => Failure(UnknownGameMode(s))
    case Some(f) =>
      match Interpret(f)
      case Some(g) => Success(g)
      case None => Failure(UnknownGameMode(s))
  }

  /**
   * Parsing, characterised by the pattern: when the normal form of the text
   * is a mode word, a count, `/` or `of` and a count, the result is what
   * those fields denote, or the failure that reports the text.
   */
  lemma ParseOfShape(s: string, f: Fields)
    requires IsSeparator(f.sep) && Normalize(s) == Join(f)
    ensures Interpret(f).Some? ==> Parse(s) == Success(Interpret(f).value)
    ensures Interpret(f).None? ==> Parse(s) == Failure(UnknownGameMode(s))
  {
    SplitUnique(f);
  }

  /** And conversely every successful parse comes from such fields. */
  lemma ParseHasShape(s: string)
    requires Parse(s).Success?
    ensures exists f: Fields :: IsSeparator(f.sep) && Normalize(s) == Join(f) && Interpret(f) == Some(Parse(s).value)
  {
    var f := Split(Normalize(s)).value;
    assert IsSeparator(f.sep) && Normalize(s) == Join(f) && Interpret(f) == Some(Parse(s).value);
  }

  lemma A48Word() ensures Normalize("a4/8") == "a4/8" { NormalizeWord("a4/8", "a4/8"); }
  lemma A48Fields() ensures "a4/8" == Join(Fields("a", '4', "/", '8')) {}
  lemma A48Meaning() ensures Interpret(Fields("a", '4', "/", '8')) == Some(Any(4, 8)) {}
  lemma A485Word() ensures Normalize("a4/85") == "a4/85" { NormalizeWord("a4/85", "a4/85"); }
  lemma A485Split() ensures Split("a4/85") == None {}
  lemma Pick37Text() ensures "pick 3 of 7" == "pick" + " " + "3" + " " + "of" + " " + "7" {}
  lemma Pick37Join()
    ensures Normalize("pick" + " " + "3" + " " + "of" + " " + "7") ==
      Normalize("pick") + Normalize("3") + Normalize("of") + Normalize("7")
  {
    NormalizeJoin("pick" + " " + "3" + " " + "of", "7");
    NormalizeJoin("pick" + " " + "3", "of");
    NormalizeJoin("pick", "3");
  }
  lemma PickWord() ensures Normalize("pick") == "pick" { NormalizeWord("pick", "pick"); }
  lemma OfWord() ensures Normalize("of") == "of" { NormalizeWord("of", "of"); }
  lemma ThreeWord() ensures Normalize("3") == "3" { NormalizeWord("3", "3"); }
  lemma SevenWord() ensures Normalize("7") == "7" { NormalizeWord("7", "7"); }
  lemma Pick37Fields() ensures "pick" + "3" + "of" + "7" == Join(Fields("pick", '3', "of", '7')) {}
  lemma Pick37Normal() ensures Normalize("pick 3 of 7") == Join(Fields("pick", '3', "of", '7'))
  {
    Pick37Text();
    Pick37Join();
    PickWord(); ThreeWord(); OfWord(); SevenWord();
    Pick37Fields();
  }
  lemma Pick37Meaning() ensures Interpret(Fields("pick", '3', "of", '7')) == Some(Pick(3, 7)) {}
  lemma Pick55Text() ensures "pick 5/5" == "pick" + " " + "5/5" {}
  lemma FiveOfFiveWord() ensures Normalize("5/5") == "5/5" { NormalizeWord("5/5", "5/5"); }
  lemma Pick55Fields() ensures "pick" + "5/5" == Join(Fields("pick", '5', "/", '5')) {}
  lemma Pick55Normal() ensures Normalize("pick 5/5") == Join(Fields("pick", '5', "/", '5'))
  {
    Pick55Text();
    NormalizeJoin("pick", "5/5");
    PickWord(); FiveOfFiveWord();
    Pick55Fields();
  }
  lemma Pick55Meaning() ensures Interpret(Fields("pick", '5', "/", '5')) == Some(Pick(5, 5)) {}

  /** "a4/8" is any four missions of eight. */
  lemma ParseAny48()
    ensures Parse("a4/8") == Success(Any(4, 8))
  {
    A48Word();
    A48Fields();
    A48Meaning();
    ParseOfShape("a4/8", Fields("a", '4', "/", '8'));
  }

  /** Spaces and the word "of" are allowed: "pick 3 of 7". */
  lemma ParsePick37()
    ensures Parse("pick 3 of 7") == Success(Pick(3, 7))
  {
    Pick37Normal();
    Pick37Meaning();
    ParseOfShape("pick 3 of 7", Fields("pick", '3', "of", '7'));
  }

  /** "pick 5/5". */
  lemma ParsePick55()
    ensures Parse("pick 5/5") == Success(Pick(5, 5))
  {
    Pick55Normal();
    Pick55Meaning();
    ParseOfShape("pick 5/5", Fields("pick", '5', "/", '5'));
  }

  /** Counts are single digits, so "a4/85" is no mode, and the error reports it as typed. */
  lemma ParseTwoDigitTotal()
    ensures Parse("a4/85") == Failure(UnknownGameMode("a4/85"))
  {
    A485Word();
    A485Split();
  }
}
