/**
 * How a game ended, as spyparty-rs/src/replay/header/result_data/game_result.rs
 * decodes it from the replay's result word.
 */
module GameResults {
  import opened Results
  import opened Utils
  import opened Errors

  datatype GameResult = MissionsWin | SpyTimeout | SpyShot | CivilianShot | InProgress

  /** `Default for GameResult`: a game with no result yet. */
  const DefaultResult: GameResult := InProgress

  /** The word a replay stores for each result. */
  function Code(g: GameResult): (v: u32)
    ensures v <= 4
  {
    match g
    case MissionsWin => 0
    case SpyTimeout => 1
    case SpyShot => 2
    case CivilianShot => 3
    case InProgress => 4
  }

  /** `TryFrom<u32> for GameResult`: the five codes 0 to 4, anything else is invalid. */
  function FromU32(v: u32): (r: Result<GameResult, Error>)
    ensures r.Success? <==> v <= 4
    ensures r.Success? ==> Code(r.value) == v
    ensures r.Failure? ==> r.error == InvalidGameResult(v)
  {
    match v
    case 0 => Success(MissionsWin)
    case 1 => Success(SpyTimeout)
    case 2 => Success(SpyShot)
    case 3 => Success(CivilianShot)
    case 4 => Success(InProgress)
    case _ => Failure(InvalidGameResult(v))
  }

  /** Every result decodes from its own code. */
  lemma CodeRoundTrip(g: GameResult)
    ensures FromU32(Code(g)) == Success(g)
  {
  }

  /** Distinct accepted codes give distinct results. */
  lemma FromU32Injective(a: u32, b: u32)
    requires FromU32(a).Success? && FromU32(b).Success?
    ensures FromU32(a).value == FromU32(b).value ==> a == b
  {
  }

  /** 0 is a win on missions; 5 is no result at all and is reported as 5. */
  lemma FromU32Examples()
    ensures FromU32(0) == Success(MissionsWin)
    ensures FromU32(5) == Failure(InvalidGameResult(5))
    ensures DefaultResult == InProgress && Code(DefaultResult) == 4
  {
  }
}
