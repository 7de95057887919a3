/**
 * spyparty-rs/src/replay/mod.rs: a replay is its header, and the questions
 * asked of it are who played which side and which side won.
 *
 * A name asked about is compared with the header's names byte for byte, as
 * Rust compares a `&str` with a `String`; names are their UTF-8 bytes here.
 */
module Replays {
  import opened Results
  import opened Utils
  import opened Errors
  import GameResults
  import ReplayHeader

  datatype Replay = Replay(header: ReplayHeader.HeaderValue)

  /** The names a side goes by: its user name, and its display name when it has one. */
  function SideNames(user: seq<u8>, display: Option<seq<u8>>): (names: set<seq<u8>>)
    ensures user in names
    ensures forall n :: n in names ==> n == user || display == Some(n)
    ensures display.Some? ==> display.value in names
  {
    if display.Some? then {user, display.value} else {user}
  }

  /** `has_spy`: the user name matches, or else the display name, if there is one, does. */
  function HasSpy(r: Replay, name: seq<u8>): (b: bool)
    ensures b <==> name in SideNames(r.header.names.spyUser, r.header.names.spyDisplay)
  {
    if r.header.names.spyUser == name then true
    else if r.header.names.spyDisplay.Some? then r.header.names.spyDisplay.value == name
    else false
  }

  /** `has_sniper`, the same for the sniper's names. */
  function HasSniper(r: Replay, name: seq<u8>): (b: bool)
    ensures b <==> name in SideNames(r.header.names.sniperUser, r.header.names.sniperDisplay)
  {
    if r.header.names.sniperUser == name then true
    else if r.header.names.sniperDisplay.Some? then r.header.names.sniperDisplay.value == name
    else false
  }

  /** `has_player`. */
  function HasPlayer(r: Replay, name: seq<u8>): (b: bool)
    ensures b <==> name in PlayerNames(r)
  {
    HasSpy(r, name) || HasSniper(r, name)
  }

  /** All the names anyone in the replay goes by. */
  function PlayerNames(r: Replay): set<seq<u8>> {
    SideNames(r.header.names.spyUser, r.header.names.spyDisplay)
      + SideNames(r.header.names.sniperUser, r.header.names.sniperDisplay)
  }

  /** A replay has a player exactly when the name is one of the up to four names in its header. */
  lemma HasPlayerNames(r: Replay, name: seq<u8>)
    ensures HasPlayer(r, name) <==> name in PlayerNames(r)
    ensures HasPlayer(r, name) <==>
      || name == r.header.names.spyUser || r.header.names.spyDisplay == Some(name)
      || name == r.header.names.sniperUser || r.header.names.sniperDisplay == Some(name)
  {
  }

  function GameResultOf(r: Replay): GameResults.GameResult {
    r.header.resultData.gameResult
  }

  /** `is_spy_win`: the spy finished the missions or the sniper shot a civilian. */
  predicate IsSpyWin(r: Replay): (b: bool)
    ensures b ==> GameResultOf(r) != GameResults.InProgress && !IsSniperWin(r)
  {
    GameResultOf(r) == GameResults.MissionsWin || GameResultOf(r) == GameResults.CivilianShot
  }

  /** `is_sniper_win`: the sniper shot the spy or the clock ran out. */
  predicate IsSniperWin(r: Replay): (b: bool)
    ensures b ==> GameResultOf(r) != GameResults.InProgress
  {
    GameResultOf(r) == GameResults.SpyShot || GameResultOf(r) == GameResults.SpyTimeout
  }

  /** `is_win_for`. */
  predicate IsWinFor(r: Replay, name: seq<u8>): (b: bool)
    ensures b ==> HasPlayer(r, name) && GameResultOf(r) != GameResults.InProgress
  {
    (HasSpy(r, name) && IsSpyWin(r)) || (HasSniper(r, name) && IsSniperWin(r))
  }

  /** `is_loss_for`: not the negation of `is_win_for`, since a game may be unfinished. */
  predicate IsLossFor(r: Replay, name: seq<u8>): (b: bool)
    ensures b ==> HasPlayer(r, name) && GameResultOf(r) != GameResults.InProgress
  {
    (HasSpy(r, name) && IsSniperWin(r)) || (HasSniper(r, name) && IsSpyWin(r))
  }

  /** At most one side wins, and one does exactly when the game is over. */
  lemma WinsPartitionResults(r: Replay)
    ensures !(IsSpyWin(r) && IsSniperWin(r))
    ensures IsSpyWin(r) || IsSniperWin(r) <==> GameResultOf(r) != GameResults.InProgress
  {
  }

  /** A game still in progress is neither a win nor a loss for anyone. */
  lemma InProgressDecidesNothing(r: Replay, name: seq<u8>)
    requires GameResultOf(r) == GameResults.InProgress
    ensures !IsWinFor(r, name) && !IsLossFor(r, name)
  {
  }

  /** A win or a loss is only ever someone's who played. */
  lemma WinOrLossNeedsPlayer(r: Replay, name: seq<u8>)
    ensures IsWinFor(r, name) ==> HasPlayer(r, name)
    ensures IsLossFor(r, name) ==> HasPlayer(r, name)
  {
  }

  /** For a finished game, someone who played one side only has won exactly when they have not lost. */
  lemma OneSideDecided(r: Replay, name: seq<u8>)
    requires GameResultOf(r) != GameResults.InProgress
    requires HasSpy(r, name) != HasSniper(r, name)
    ensures IsWinFor(r, name) <==> !IsLossFor(r, name)
  {
  }

  /** Someone named on both sides of a finished game both wins and loses it. */
  lemma BothSidesDecided(r: Replay, name: seq<u8>)
    requires GameResultOf(r) != GameResults.InProgress
    requires HasSpy(r, name) && HasSniper(r, name)
    ensures IsWinFor(r, name) && IsLossFor(r, name)
  {
  }

  /** `Default::default()`. */
  const DefaultReplay: Replay := Replay(ReplayHeader.DefaultValue)

  /** "test" */
  const Test: seq<u8> := [0x74, 0x65, 0x73, 0x74]

  /** The source's tests: a default replay with one name or the result set. */
  lemma PlayerExamples()
    ensures var h := DefaultReplay.header;
      && HasPlayer(Replay(h.(names := h.names.(spyUser := Test))), Test)
      && HasSpy(Replay(h.(names := h.names.(spyDisplay := Some(Test)))), Test)
      && HasSniper(Replay(h.(names := h.names.(sniperUser := Test))), Test)
      && HasSniper(Replay(h.(names := h.names.(sniperDisplay := Some(Test)))), Test)
      && !HasSpy(Replay(h.(names := h.names.(sniperDisplay := Some(Test)))), Test)
      && !HasSniper(Replay(h.(names := h.names.(spyDisplay := Some(Test)))), Test)
  {
  }

  lemma WinExamples()
    ensures var h := DefaultReplay.header;
      && IsSpyWin(Replay(h.(resultData := h.resultData.(gameResult := GameResults.MissionsWin))))
      && IsSniperWin(Replay(h.(resultData := h.resultData.(gameResult := GameResults.SpyTimeout))))
      && IsWinFor(Replay(h.(names := h.names.(spyUser := Test), resultData := h.resultData.(gameResult := GameResults.MissionsWin))), Test)
      && IsWinFor(Replay(h.(names := h.names.(sniperUser := Test), resultData := h.resultData.(gameResult := GameResults.SpyShot))), Test)
  {
  }

  /** `Replay::from_reader`: the header `Header::from_reader` reads, or its error unchanged. */
  method FromReader(reader: Reader) returns (r: Result<Replay, Error>)
    modifies reader
    ensures var d := ReplayHeader.Decode(old(reader.rest));
      && (r.Failure? <==> d.Failure?)
      && (r.Failure? ==> r.error == d.error)
      && (r.Success? ==> r.value == Replay(d.value.0) && reader.rest == d.value.1)
  {
    var header := ReplayHeader.Header.FromReader(reader);
    if header.Failure? {
      return Failure(header.error);
    }
    var value := header.value.Value();
    return Success(Replay(value));
  }
}
