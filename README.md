# spyparty-rs replay headers, in Dafny

A model of the decoder that reads the header of a SpyParty replay file (an
`RPLY` file): the `spyparty-rs` crate's header and result-data decoder with
its value decoders (missions, game modes, game results, maps), its error
type, and the `Replay` predicates built on it. It also covers the older
snapshot of the same decoder kept under `src/replay`, and the command-line
tool's `MatchedReplayCollection::dedup_and_sort`.

The input stream is a cursor over bytes, `Utils.Reader`, whose `rest` field
holds the bytes not yet read. The objects the source fills in field by field
are classes: `ReplayHeader.Header`, `ResultBlock.ResultData` and
`LegacyResultData.ResultData`. Their `set_*` methods are methods of those
classes. Each setter is proved against one step of a pure decoder, and each
`from_reader` against the whole decoder. The lemmas are about the pure
decoders:

- where each field sits in the bytes;
- exactly when decoding succeeds, and which error it reports otherwise;
- the round trip through an encoder;
- the source's unit tests, as concrete lemmas.

Module by file:

| module | file | models |
|---|---|---|
| `Results` | results.dfy | `Result`/`Option`/`Outcome` with Rust's `?` as Dafny's `:-` |
| `Utils` | utils.dfy | spyparty-rs/src/utils.rs: `read_exact` and the little-endian readers |
| `Text` | text.dfy | `to_ascii_lowercase`, `replace(" ", "")`, decimal `{}` formatting |
| `Errors` | errors.dfy | spyparty-rs/src/replay/header/error.rs |
| `Utf8` | utf8.dfy | `String::from_utf8`, with validity as the UTF-8 grammar of section 4 of RFC 3629 |
| `Bits` | bits.dfy | arithmetic facts about bit tests written as `/` and `%` |
| `Missions` | missions.dfy | result_data/mission.rs (both snapshots) |
| `GameResults` | game_results.dfy | result_data/game_result.rs |
| `Maps` | maps.dfy | result_data/map.rs |
| `GameModes` | game_modes.dfy | spyparty-rs result_data/game_mode.rs, including the regex of `TryFrom<&str>` |
| `ResultBlock` | result_data.dfy | spyparty-rs/src/replay/header/result_data/mod.rs |
| `ReplayHeader` | header.dfy | spyparty-rs/src/replay/header/mod.rs |
| `Replays` | replay.dfy | spyparty-rs/src/replay/mod.rs |
| `LegacyErrors` | legacy_errors.dfy | src/replay/header/error.rs |
| `LegacyHeader` | legacy_header.dfy | src/replay/header/mod.rs |
| `LegacyGameModes` | legacy_game_modes.dfy | src/replay/header/result_data/game_mode.rs |
| `LegacyResultData` | legacy_result_data.dfy | src/replay/header/result_data.rs and src/replay/header/result_data/mod.rs |
| `MatchedReplays` | matched_replay.dfy | src/matched_replay.rs |

Integers are the subset types `u8`, `u16`, `u32` and `u128` of `int`. Masks
and shifts are written as Euclidean `/` and `%` by powers of two, which is
exact because every operand is non-negative. Names read from a replay are
their UTF-8 bytes, so Rust's `String` equality is byte equality. Strings typed
by a user for the `TryFrom<&str>` parsers are Dafny `string`s.

Notes on the code:

- The simple-rules flag is `(flags & 0xf0) == 0x10`: the whole second nibble
  equals 1 (spyparty-rs/src/replay/header/result_data/mod.rs:90).
- spyparty-rs/src/replay/header/result_data/game_result.rs has no string
  parser, so the model has none.
- `UnknownGameResult` is declared and modelled, though no test uses it.

## Model

| member | source | states |
|---|---|---|
| Utils.LittleEndianOfEncoding | spyparty-rs/src/utils.rs:15-46 | reading back the n-byte little-endian encoding of any value below 256^n gives that value |
| Utils.EncodingOfLittleEndian | spyparty-rs/src/utils.rs:15-46 | encoding the little-endian value of any byte string gives back exactly those bytes |
| Utils.LittleEndianWords | spyparty-rs/src/utils.rs:15-34 | two bytes are b0 + 256·b1; four bytes are b0 + 2^8·b1 + 2^16·b2 + 2^24·b3 |
| Utils.ParseBytes | spyparty-rs/src/utils.rs:6-7 | reading n bytes succeeds exactly when n remain; it splits off n bytes; otherwise it fails with end of input |
| Utils.ParseBytesSplits | spyparty-rs/src/utils.rs:6-7 | the bytes read followed by the bytes left are the input |
| Utils.ParseU8 | spyparty-rs/src/utils.rs:5-10 | succeeds exactly when a byte remains; that byte followed by the rest is the input |
| Utils.ParseU16 | spyparty-rs/src/utils.rs:15-22 | succeeds exactly when 2 bytes remain; the value's little-endian encoding followed by the rest is the input |
| Utils.ParseU32 | spyparty-rs/src/utils.rs:27-34 | the same, for 4 bytes |
| Utils.ParseU128 | spyparty-rs/src/utils.rs:39-46 | the same, for 16 bytes |
| Utils.ParseF32 | spyparty-rs/src/utils.rs:51-58 | the same, for 4 bytes kept as the float's bit pattern |
| Utils.ParseBytesAt | spyparty-rs/src/utils.rs:6-7 | read at offset i: success iff i + n fits; then the value is s[i..i+n] and the rest is s[i+n..] |
| Utils.ParseU8At | spyparty-rs/src/utils.rs:5-10 | read at offset i: success iff a byte is there; it returns s[i] and leaves s[i+1..] |
| Utils.ParseU16At | spyparty-rs/src/utils.rs:15-22 | read at offset i: success iff 2 bytes fit; it returns the word at i and leaves s[i+2..] |
| Utils.ParseU32At | spyparty-rs/src/utils.rs:27-34 | read at offset i: success iff 4 bytes fit; it returns the word at i and leaves s[i+4..] |
| Utils.ParseU128At | spyparty-rs/src/utils.rs:39-46 | read at offset i: success iff 16 bytes fit; it returns the word at i and leaves s[i+16..] |
| Utils.ParseF32At | spyparty-rs/src/utils.rs:51-58 | read at offset i: success iff 4 bytes fit; it returns the bit pattern at i |
| Utils.ParseBytesOfPrefix | spyparty-rs/src/utils.rs:6-7 | reading as many bytes as b holds from b + t gives b and leaves t |
| Utils.ParseU8OfEncoding | spyparty-rs/src/utils.rs:5-10 | round trip: decoding an encoded byte followed by t gives the byte and t |
| Utils.ParseU16OfEncoding | spyparty-rs/src/utils.rs:15-22 | round trip for u16 |
| Utils.ParseU32OfEncoding | spyparty-rs/src/utils.rs:27-34 | round trip for u32 |
| Utils.ParseU128OfEncoding | spyparty-rs/src/utils.rs:39-46 | round trip for u128 |
| Utils.ParseF32OfEncoding | spyparty-rs/src/utils.rs:51-58 | round trip for the f32 bit pattern |
| Utils.Reader.constructor | spyparty-rs/src/utils.rs:5-7 | a reader over the input, nothing read yet |
| Utils.Reader.ReadExact | spyparty-rs/src/utils.rs:6-7 | fills the buffer with the next buffer-length bytes and consumes them; fails with end of input iff too few remain |
| Utils.ReadU8 | spyparty-rs/src/utils.rs:5-10 | returns the first byte and consumes exactly one; fails with an I/O error on empty input |
| Utils.ReadU16 | spyparty-rs/src/utils.rs:15-22 | returns the little-endian value of the first 2 bytes and consumes exactly those; fails when fewer remain |
| Utils.ReadU32 | spyparty-rs/src/utils.rs:27-34 | the same for 4 bytes |
| Utils.ReadU128 | spyparty-rs/src/utils.rs:39-46 | the same for 16 bytes |
| Utils.ReadF32 | spyparty-rs/src/utils.rs:51-58 | the same for the 4-byte bit pattern of an f32 |
| Text.ToAsciiLowercase | spyparty-rs/src/replay/header/result_data/mission.rs:96 | same length; each character is lowercased if it is an ASCII capital and kept otherwise |
| Text.RemoveSpaces | spyparty-rs/src/replay/header/result_data/mission.rs:96 | never longer; no space is left, and every other character of the input is kept (the order is stated by `Text.RemoveSpacesAppend`) |
| Text.RemoveSpacesChar | spyparty-rs/src/replay/header/result_data/mission.rs:96 | one character is dropped exactly when it is a space, and kept otherwise |
| Text.RemoveSpacesAppend | spyparty-rs/src/replay/header/result_data/mission.rs:96 | removing spaces from a concatenation is the concatenation of the pieces with spaces removed; with `Text.RemoveSpacesChar` this fixes the output, characters in order and with their counts |
| Text.NormalizeIsNormal | spyparty-rs/src/replay/header/result_data/mission.rs:96 | the normal form has no space and no capital, and normalising is idempotent |
| Text.NormalizeOfNormal | spyparty-rs/src/replay/header/result_data/mission.rs:96 | a string without spaces and capitals is its own normal form |
| Text.NormalizeAppend | spyparty-rs/src/replay/header/result_data/mission.rs:96 | normalising distributes over concatenation |
| Text.Decimal | spyparty-rs/src/replay/header/error.rs:35 | `{}` of a number is a non-empty string of digits |
| Text.DecimalRoundTrip | spyparty-rs/src/replay/header/error.rs:35 | the digits read back give the number, and no leading zero appears except in "0" |
| Errors.Cause | spyparty-rs/src/replay/header/error.rs:52-59 | a cause exists exactly for `Io`, and it is the I/O error |
| Errors.ConversionsAndCause | spyparty-rs/src/replay/header/error.rs:53-71 | `From<io::Error>` gives `Io` with that cause; `From<FromUtf8Error>` gives `InvalidString` carrying the error, with no cause |
| Errors.LiftIo | spyparty-rs/src/replay/header/error.rs:61-65 | `?` on an I/O result keeps a value and turns an I/O error into `Io` of it |
| Errors.LiftUtf8 | spyparty-rs/src/replay/header/error.rs:67-71 | `?` on a `from_utf8` result keeps a value and turns its error into `InvalidString` |
| Errors.Bail | spyparty-rs/src/replay/header/error.rs:73-79 | `bail!(e)` always fails with e |
| Errors.Ensure | spyparty-rs/src/replay/header/error.rs:81-89 | `ensure!(c, e)` fails with e exactly when c is false |
| Errors.MessageEmbedsNumber | spyparty-rs/src/replay/header/error.rs:30-50 | the message of a version, result or mode error ends in the carried number in parentheses, and that number reads back from it |
| Errors.MessageEmbedsText | spyparty-rs/src/replay/header/error.rs:44-47 | the message of an `Unknown*` error ends in the user's text, verbatim, in parentheses |
| Errors.UnsupportedVersionTwoMessage | spyparty-rs/src/replay/header/error.rs:35 | version 2 is shown as "unsupported replay version (2)" |
| Utf8.FromUtf8 | spyparty-rs/src/replay/header/mod.rs:275 | success keeps the bytes; failure carries the bytes and a valid-up-to index inside them |
| Utf8.ValidateAccepts | spyparty-rs/src/replay/header/mod.rs:275 | the scan from i accepts exactly when the bytes from i are a sequence of RFC 3629 characters |
| Utf8.FromUtf8Spec | spyparty-rs/src/replay/header/mod.rs:275 | `from_utf8` succeeds iff the bytes are well formed; on failure it reports the longest valid prefix and the length of the bad sequence, as std does |
| Utf8.ValidateStops | spyparty-rs/src/replay/header/mod.rs:275 | a failing scan stops at the end of the longest well-formed run |
| Utf8.ValidUpToIsWhole | spyparty-rs/src/replay/header/mod.rs:275 | bytes are well formed exactly when their valid prefix is all of them |
| Utf8.ValidPrefixIsWellFormed | spyparty-rs/src/replay/header/mod.rs:275 | the reported valid prefix is itself well formed |
| Utf8.TruncatedCharacterIsRejected | spyparty-rs/src/replay/header/mod.rs:419-429 | `b"Hello \xF0\x90\x80World"` is rejected, valid up to 6, with a bad sequence of 3 bytes |
| Missions.Bit | spyparty-rs/src/replay/header/result_data/mission.rs:20-56 | every mission has a bit below 8, and the bit table maps that bit back to it |
| Missions.BitTable | spyparty-rs/src/replay/header/result_data/mission.rs:20-56 | eight bits, each of one mission, one-to-one |
| Missions.UnpackMissions | spyparty-rs/src/replay/header/result_data/mission.rs:20-56 | the eight pushes give `Unpacked(data)`: a mission is in it iff its bit is set, and its length is the number of set bits, so at most 8; likewise at src/replay/header/result_data/mission.rs:36-72; likewise at src/replay/header/result_data.rs:331-368 |
| Missions.UnpackedMembership | spyparty-rs/src/replay/header/result_data/mission.rs:20-56 | a mission is unpacked iff its bit is set |
| Missions.UnpackedOrder | spyparty-rs/src/replay/header/result_data/mission.rs:20-56 | the output is in increasing bit order, so no mission appears twice |
| Missions.UnpackedLength | spyparty-rs/src/replay/header/result_data/mission.rs:20-56 | length is the number of set bits among bits 0 to 7, at most 8 |
| Missions.UnpackedLowByte | spyparty-rs/src/replay/header/result_data/mission.rs:20-56 | bits 8 to 31 are ignored: unpacking d equals unpacking d mod 256 |
| Missions.PackedRoundTrip | spyparty-rs/src/replay/header/result_data/mission.rs:20-56 | packing the unpacked list gives the low byte back, and unpacking that gives the same list |
| Missions.PackedOfBitfield | spyparty-rs/src/replay/header/result_data/mission.rs:20-56 | a list survives pack-then-unpack iff some word unpacks to it, and it then packs into one byte |
| Missions.Parse | spyparty-rs/src/replay/header/result_data/mission.rs:92-110 | succeeds iff the lowercased, space-free text is one of the aliases; a failure is `UnknownMission` of the original text |
| Missions.ParseIgnoresCaseAndSpaces | spyparty-rs/src/replay/header/result_data/mission.rs:96 | two texts with the same normal form parse alike |
| Missions.ShortName | spyparty-rs/src/replay/header/result_data/mission.rs:59-71 | the short name is non-empty and shorter than the display name; `Missions.NamesRoundTrip` proves it parses back |
| Missions.Name | spyparty-rs/src/replay/header/result_data/mission.rs:73-90 | no contract of its own: the display names; `Missions.NamesRoundTrip` and `Missions.NamesDistinct` prove they parse back and are distinct |
| Missions.Lookup | spyparty-rs/src/replay/header/result_data/mission.rs:92-110 | no contract of its own: the alias table; `Missions.Parse` states what it accepts |
| Missions.NamesRoundTrip | spyparty-rs/src/replay/header/result_data/mission.rs:59-106 | every mission's display name and short name parse back to it |
| Missions.NamesDistinct | spyparty-rs/src/replay/header/result_data/mission.rs:59-90 | display names are pairwise distinct, and so are short names; likewise at src/replay/header/result_data/mission.rs:16-33 |
| Missions.ParseSeduce | spyparty-rs/src/replay/header/result_data/mission.rs:117-121 | "seduce" is SeduceTarget |
| Missions.ParseNope | spyparty-rs/src/replay/header/result_data/mission.rs:123-131 | "nope" fails with `UnknownMission("nope")` |
| GameResults.Code | spyparty-rs/src/replay/header/result_data/game_result.rs:24-29 | each result's code is at most 4 |
| GameResults.FromU32 | spyparty-rs/src/replay/header/result_data/game_result.rs:20-33 | decoding succeeds iff the value is at most 4, giving the result of that code; any other v fails with `InvalidGameResult(v)` |
| GameResults.CodeRoundTrip | spyparty-rs/src/replay/header/result_data/game_result.rs:24-29 | every result decodes from its own code |
| GameResults.FromU32Injective | spyparty-rs/src/replay/header/result_data/game_result.rs:24-29 | distinct accepted values give distinct results |
| GameResults.FromU32Examples | spyparty-rs/src/replay/header/result_data/game_result.rs:14-54 | 0 is MissionsWin; 5 fails with `InvalidGameResult(5)`; the default is InProgress |
| Maps.FromHash | spyparty-rs/src/replay/header/result_data/map.rs:49-65 | total: the map's hash is the input, and it is `Unknown` exactly when the hash is not one of the ten; likewise at src/replay/header/result_data.rs:264-282 |
| Maps.NamedHashesDistinct | spyparty-rs/src/replay/header/result_data/map.rs:52-61 | the ten hashes are distinct, so named maps are told apart by hash |
| Maps.HashRoundTrip | spyparty-rs/src/replay/header/result_data/map.rs:49-65 | a named map, or an `Unknown` outside the table, decodes from its own hash |
| Maps.FromHashExamples | spyparty-rs/src/replay/header/result_data/map.rs:94-104 | 0x1dbd8e41 is Balcony; 1 is `Unknown(1)` |
| Maps.Parse | spyparty-rs/src/replay/header/result_data/map.rs:67-87 | succeeds iff the normal form is one of the names, never to `Unknown`; a failure is `UnknownMap` of the original text |
| Maps.ParseIgnoresCaseAndSpaces | spyparty-rs/src/replay/header/result_data/map.rs:71 | two texts with the same normal form parse alike |
| Maps.Name | spyparty-rs/src/replay/header/result_data/map.rs:27-47 | "Unknown" is the display name of exactly the unknown maps; `Maps.NamesRoundTrip` proves the others parse back |
| Maps.Lookup | spyparty-rs/src/replay/header/result_data/map.rs:67-87 | the name table never gives an `Unknown` map |
| Maps.NamesRoundTrip | spyparty-rs/src/replay/header/result_data/map.rs:27-87 | each named map's display name parses back to it; "Unknown" fails as itself |
| Maps.ParsePub | spyparty-rs/src/replay/header/result_data/map.rs:106-110 | "pub" is Pub |
| Maps.ParseBallRoom | spyparty-rs/src/replay/header/result_data/map.rs:112-116 | "BallRoom" is Ballroom |
| Maps.ParseUnknown | spyparty-rs/src/replay/header/result_data/map.rs:118-126 | "unknown" fails with `UnknownMap("unknown")` |
| GameModes.TotalField | spyparty-rs/src/replay/header/result_data/game_mode.rs:28 | `(mode & 0x00fffc00) >> 14` is below 1024 |
| GameModes.FromWord | spyparty-rs/src/replay/header/result_data/game_mode.rs:22-37 | succeeds iff the top byte is 0x00, 0x10 or 0x20; the top byte 0x00 gives `Known` and 0x10 gives `Pick`; the required count is the low byte; a failure is `InvalidGameMode` carrying the whole word |
| GameModes.TaggedIgnoresMiddleBits | spyparty-rs/src/replay/header/result_data/game_mode.rs:26-33 | for the tags 0x10 and 0x20, bits 8 to 13 are ignored: the word decodes like the word built from its tag, its total field (bits 14 to 23) and its low byte alone; with `GameModes.PackRoundTrip` this fixes the variant and both counts of every accepted word |
| GameModes.PackRoundTrip | spyparty-rs/src/replay/header/result_data/game_mode.rs:25-36 | for r < 256 and t < 1024, the word tag·2^24 + t·2^14 + r decodes to that mode (`Known` keeps only r) |
| GameModes.FromWordNormalizes | spyparty-rs/src/replay/header/result_data/game_mode.rs:25-36 | every decoded mode packs into a word that decodes to it again |
| GameModes.KnownIgnoresTotal | spyparty-rs/src/replay/header/result_data/game_mode.rs:31 | top byte 0 is `Known(low byte)`, whatever the middle bits |
| GameModes.FromWordExamples | spyparty-rs/src/replay/header/result_data/game_mode.rs:78-104 | 0x4 is Known(4), 0x2001c004 is Any(4,7), 0x10020004 is Pick(4,8), and 0x30000000 is invalid |
| GameModes.Split | spyparty-rs/src/replay/header/result_data/game_mode.rs:48 | a split of the text into word, digit, separator and digit joins back to the text, with "/" or "of" between |
| GameModes.SplitUnique | spyparty-rs/src/replay/header/result_data/game_mode.rs:48 | the pattern's split is unique: any such split of a joined text is the one found |
| GameModes.Parse | spyparty-rs/src/replay/header/result_data/game_mode.rs:39-71 | every failure is `UnknownGameMode` of the original text; the counts of a success are single digits |
| GameModes.ParseOfShape | spyparty-rs/src/replay/header/result_data/game_mode.rs:42-70 | a text whose normal form matches the pattern parses to what its captures mean, or else fails as itself |
| GameModes.ParseHasShape | spyparty-rs/src/replay/header/result_data/game_mode.rs:42-70 | every successful parse comes from a match of the pattern and means what its captures say |
| GameModes.ParseAny48 | spyparty-rs/src/replay/header/result_data/game_mode.rs:106-110 | "a4/8" is Any(4,8) |
| GameModes.ParsePick37 | spyparty-rs/src/replay/header/result_data/game_mode.rs:122-126 | "pick 3 of 7" is Pick(3,7) |
| GameModes.ParsePick55 | spyparty-rs/src/replay/header/result_data/game_mode.rs:128-132 | "pick 5/5" is Pick(5,5) |
| GameModes.ParseTwoDigitTotal | spyparty-rs/src/replay/header/result_data/game_mode.rs:112-120 | "a4/85" fails with `UnknownGameMode("a4/85")` |
| ResultBlock.ResultData.constructor | spyparty-rs/src/replay/header/result_data/mod.rs:16-54 | a block with the derived default fields |
| ResultBlock.ResultData.SetExplicitVersion | spyparty-rs/src/replay/header/result_data/mod.rs:78-81 | version 0 and no simple-rules flag, nothing read, the other fields kept |
| ResultBlock.ResultData.SetFlags | spyparty-rs/src/replay/header/result_data/mod.rs:86-101 | reads one word: version is its low nibble and must be 1 or 2; simple rules is whether the next nibble is 1 |
| ResultBlock.ResultData.SetGameResult | spyparty-rs/src/replay/header/result_data/mod.rs:104-110 | reads one word and sets the result it decodes to, or fails with that decoder's error |
| ResultBlock.ResultData.SetGameMode | spyparty-rs/src/replay/header/result_data/mod.rs:113-119 | reads one word and sets the mode it decodes to, or fails with that decoder's error |
| ResultBlock.ResultData.SetMap | spyparty-rs/src/replay/header/result_data/mod.rs:127-133 | reads one word and sets its map; fails only when the input runs out |
| ResultBlock.ResultData.SetSelectedMissions | spyparty-rs/src/replay/header/result_data/mod.rs:136-142 | reads one word and sets its unpacked missions |
| ResultBlock.ResultData.SetPickedMissions | spyparty-rs/src/replay/header/result_data/mod.rs:145-151 | reads one word and sets its unpacked missions |
| ResultBlock.ResultData.SetCompletedMissions | spyparty-rs/src/replay/header/result_data/mod.rs:154-161 | reads one word, keeps it verbatim and sets its unpacked missions |
| ResultBlock.ResultData.SetGuests | spyparty-rs/src/replay/header/result_data/mod.rs:164-170 | reads one word into `Some` |
| ResultBlock.ResultData.SetClockStart | spyparty-rs/src/replay/header/result_data/mod.rs:173-179 | reads one word into `Some` |
| ResultBlock.ResultData.FromReader | spyparty-rs/src/replay/header/result_data/mod.rs:53-75 | the fresh block holds what `Decode` computes and the reader is left where `Decode` stops, or the call fails with `Decode`'s error |
| ResultBlock.PrefixLayout | spyparty-rs/src/replay/header/result_data/mod.rs:56-60 | above replay version 3, one flags word is consumed, giving its version (1 or 2) and `Some(simple)`; otherwise nothing is read, the version is 0 and there is no flag |
| ResultBlock.CheckedLayout | spyparty-rs/src/replay/header/result_data/mod.rs:56-62 | flags, result and mode succeed iff their words are there and accepted; then the fields are those words decoded |
| ResultBlock.UncheckedLayout | spyparty-rs/src/replay/header/result_data/mod.rs:63-66 | map and missions fail only when fewer than 16 bytes remain; the map is decoded from the first word, the mission sets from the next three, and the completed word is also kept raw |
| ResultBlock.DecodeFixedLayout | spyparty-rs/src/replay/header/result_data/mod.rs:53-66 | the block up to the completed missions takes 24 bytes after the flags, and succeeds iff version, result and mode are accepted |
| ResultBlock.DecodeLayout | spyparty-rs/src/replay/header/result_data/mod.rs:53-75 | decoding succeeds iff the block is whole and its version, result and mode are accepted; it then reads every field at its offset and consumes 24 + 4·[replay version > 3] + 8·[version = 2] bytes |
| ResultBlock.CheckedErrors | spyparty-rs/src/replay/header/result_data/mod.rs:86-119 | a failure in the first three words is end of input, the unsupported version, the invalid result or the invalid mode, each with its value |
| ResultBlock.DecodeErrors | spyparty-rs/src/replay/header/result_data/mod.rs:53-75 | every failure of the block is one of those four, and the map never fails |
| ResultBlock.RejectsVersion | spyparty-rs/src/replay/header/result_data/mod.rs:92-95 | a flags version outside {1, 2} fails with `UnsupportedResultVersion` of it |
| ResultBlock.RejectsResult | spyparty-rs/src/replay/header/result_data/mod.rs:104-110 | a result word above 4 after good flags fails with `InvalidGameResult` of it |
| ResultBlock.RejectsMode | spyparty-rs/src/replay/header/result_data/mod.rs:113-119 | a mode word with a bad top byte after a good result fails with `InvalidGameMode` of it |
| ResultBlock.FlagsExampleNotSimple | spyparty-rs/src/replay/header/result_data/mod.rs:186-195 | `[0x01,0,0,0]` is version 1 without simple rules |
| ResultBlock.FlagsExampleSimple | spyparty-rs/src/replay/header/result_data/mod.rs:196-205 | `[0x11,0,0,0]` is version 1 with simple rules |
| ResultBlock.FlagsExampleUnsupported | spyparty-rs/src/replay/header/result_data/mod.rs:206-216 | `[0x03,0,0,0]` fails with `UnsupportedResultVersion(3)` |
| ResultBlock.DecodeWellFormed | spyparty-rs/src/replay/header/result_data/mod.rs:53-75 | a decoded block keeps its invariants: version 1 or 2 with a flag (or 0 without, for replay version 3); completed missions are the unpacking of the raw word; guests and clock start are present iff the version is 2 |
| ResultBlock.FlagsRoundTrip | spyparty-rs/src/replay/header/result_data/mod.rs:86-101 | the flags word of a version and flag decodes to them |
| ResultBlock.ResultRoundTrip | spyparty-rs/src/replay/header/result_data/mod.rs:104-110 | the code of a result decodes to it |
| ResultBlock.ModeRoundTrip | spyparty-rs/src/replay/header/result_data/mod.rs:113-119 | the packed word of a mode decodes to it |
| ResultBlock.MapRoundTrip | spyparty-rs/src/replay/header/result_data/mod.rs:127-133 | the hash of a map decodes to it |
| ResultBlock.MissionWordsRoundTrip | spyparty-rs/src/replay/header/result_data/mod.rs:136-161 | the packed mission words decode to the mission lists and the raw completed word |
| ResultBlock.PrefixRoundTrip | spyparty-rs/src/replay/header/result_data/mod.rs:56-60 | the encoded flags word, or nothing for replay version 3, decodes to the version and flag |
| ResultBlock.CheckedRoundTrip | spyparty-rs/src/replay/header/result_data/mod.rs:56-62 | the encoded flags, result and mode decode to those fields |
| ResultBlock.UncheckedRoundTrip | spyparty-rs/src/replay/header/result_data/mod.rs:63-66 | the encoded map and mission words decode to those fields |
| ResultBlock.RoundTrip | spyparty-rs/src/replay/header/result_data/mod.rs:53-75 | every well-formed block, encoded and followed by any bytes, decodes to itself and leaves those bytes |
| ReplayHeader.ReadBytes | spyparty-rs/src/replay/header/mod.rs:101-104 | `read_exact` into a fresh buffer of n bytes: the next n bytes, or the I/O error |
| ReplayHeader.ReadName | spyparty-rs/src/replay/header/mod.rs:271-278 | reads len bytes that must be UTF-8: the bytes, or the I/O or UTF-8 error |
| ReplayHeader.Header.constructor | spyparty-rs/src/replay/header/mod.rs:68-69 | a header with the derived default fields |
| ReplayHeader.Header.ValidateIdentifier | spyparty-rs/src/replay/header/mod.rs:101-108 | consumes four bytes that must be `RPLY`, else `InvalidIdentifier`; fewer than four is an I/O error |
| ReplayHeader.Header.SetReplayVersion | spyparty-rs/src/replay/header/mod.rs:113-124 | reads a word that must be 3, 4 or 5, else `UnsupportedReplayVersion` of it |
| ReplayHeader.Header.SetProtocolVersion | spyparty-rs/src/replay/header/mod.rs:127-133 | reads one word into the protocol version |
| ReplayHeader.Header.SetSpypartyVersion | spyparty-rs/src/replay/header/mod.rs:136-142 | reads one word into the SpyParty version |
| ReplayHeader.Header.SetFlags | spyparty-rs/src/replay/header/mod.rs:145-151 | reads one word into the flags |
| ReplayHeader.Header.SetDuration | spyparty-rs/src/replay/header/mod.rs:154-160 | reads the 4-byte duration |
| ReplayHeader.Header.SetGameId | spyparty-rs/src/replay/header/mod.rs:163-169 | reads the 16-byte game id |
| ReplayHeader.Header.SetStartTime | spyparty-rs/src/replay/header/mod.rs:172-178 | reads one word into the start time |
| ReplayHeader.Header.SetPlayId | spyparty-rs/src/replay/header/mod.rs:181-187 | reads two bytes into the play id |
| ReplayHeader.Header.SetSpyUserLen | spyparty-rs/src/replay/header/mod.rs:190-200 | reads a byte that must be non-zero, else `MissingSpyUsername` |
| ReplayHeader.Header.SetSniperUserLen | spyparty-rs/src/replay/header/mod.rs:203-213 | reads a byte that must be non-zero, else `MissingSniperUsername` |
| ReplayHeader.Header.SetSpyDisplayLen | spyparty-rs/src/replay/header/mod.rs:216-222 | reads a byte into the spy's display length |
| ReplayHeader.Header.SetSniperDisplayLen | spyparty-rs/src/replay/header/mod.rs:225-231 | reads a byte into the sniper's display length |
| ReplayHeader.Header.SkipUnused | spyparty-rs/src/replay/header/mod.rs:234-239 | consumes two bytes and changes no field |
| ReplayHeader.Header.SetResultData | spyparty-rs/src/replay/header/mod.rs:242-246 | decodes the result block for the replay version already read |
| ReplayHeader.Header.SetLatency | spyparty-rs/src/replay/header/mod.rs:251-257 | reads the 4-byte latency |
| ReplayHeader.Header.SetDataSize | spyparty-rs/src/replay/header/mod.rs:260-266 | reads one word into the data size |
| ReplayHeader.Header.SetSpyUserName | spyparty-rs/src/replay/header/mod.rs:271-278 | reads exactly the spy's user-name length of bytes, which must be UTF-8 |
| ReplayHeader.Header.SetSniperUserName | spyparty-rs/src/replay/header/mod.rs:283-290 | the same for the sniper |
| ReplayHeader.Header.SetSpyDisplayName | spyparty-rs/src/replay/header/mod.rs:295-306 | length 0 reads nothing and gives `None`; length n reads n UTF-8 bytes into `Some` |
| ReplayHeader.Header.SetSniperDisplayName | spyparty-rs/src/replay/header/mod.rs:311-322 | the same for the sniper |
| ReplayHeader.Header.ReadVersions | spyparty-rs/src/replay/header/mod.rs:70-74 | the magic and the four version words, in order |
| ReplayHeader.Header.ReadGame | spyparty-rs/src/replay/header/mod.rs:75-78 | duration, game id, start time and play id, in order |
| ReplayHeader.Header.ReadLengths | spyparty-rs/src/replay/header/mod.rs:79-87 | the user-name lengths, and in version 5 the display lengths and the unused bytes |
| ReplayHeader.Header.ReadPrefix | spyparty-rs/src/replay/header/mod.rs:70-87 | everything before the result block, in order |
| ReplayHeader.Header.ReadTrailer | spyparty-rs/src/replay/header/mod.rs:90-91 | latency then data size |
| ReplayHeader.Header.ReadNames | spyparty-rs/src/replay/header/mod.rs:92-95 | the four names, in order |
| ReplayHeader.Header.ReadTail | spyparty-rs/src/replay/header/mod.rs:90-95 | latency, data size and the names |
| ReplayHeader.Header.ReadBody | spyparty-rs/src/replay/header/mod.rs:89-95 | the result block and everything after it |
| ReplayHeader.Header.FromReader | spyparty-rs/src/replay/header/mod.rs:68-98 | the fresh header holds what `Decode` computes and the reader is left where it stops; any failing step is the call's error, and no header is returned |
| ReplayHeader.VersionsLayout | spyparty-rs/src/replay/header/mod.rs:70-74 | the first 20 bytes: success iff the magic is `RPLY` and the version is 3, 4 or 5; the words are at offsets 4, 8, 12 and 16 |
| ReplayHeader.GameLayout | spyparty-rs/src/replay/header/mod.rs:75-78 | the next 26 bytes: fails only at end of input; fields at offsets 0, 4, 20 and 24 of them |
| ReplayHeader.LengthsLayout | spyparty-rs/src/replay/header/mod.rs:79-87 | 2 bytes, or 6 in version 5; succeeds iff both user lengths are non-zero; display lengths stay 0 outside version 5 |
| ReplayHeader.PrefixLayout | spyparty-rs/src/replay/header/mod.rs:70-87 | the prefix decodes iff it is whole and valid; it is then 48 bytes, or 52 in version 5, with each field at its offset |
| ReplayHeader.NameAt | spyparty-rs/src/replay/header/mod.rs:271-278 | a name of n bytes at i succeeds iff they fit and are UTF-8; short input is an I/O error and bad bytes are `InvalidString` |
| ReplayHeader.NamesLayout | spyparty-rs/src/replay/header/mod.rs:92-95 | the names are read one after another at their lengths; a display name of length 0 takes no bytes and is `None` |
| ReplayHeader.TrailerLayout | spyparty-rs/src/replay/header/mod.rs:90-91 | latency and data size take 8 bytes and fail only at end of input |
| ReplayHeader.TailLayout | spyparty-rs/src/replay/header/mod.rs:90-95 | the tail is the trailer followed by the names |
| ReplayHeader.ResultDataLayout | spyparty-rs/src/replay/header/mod.rs:242-246 | the block is decoded with the replay version already read, passed through unchanged |
| ReplayHeader.DecodeSucceeds | spyparty-rs/src/replay/header/mod.rs:68-98 | a whole, valid header decodes to the fields at their offsets and consumes exactly the header |
| ReplayHeader.DecodeFails | spyparty-rs/src/replay/header/mod.rs:68-98 | any other input fails |
| ReplayHeader.DecodeLayout | spyparty-rs/src/replay/header/mod.rs:68-98 | decoding succeeds iff the input holds a whole header every check of which passes; it then yields the fields at their offsets and consumes exactly the header |
| ReplayHeader.IdentifierErrors | spyparty-rs/src/replay/header/mod.rs:101-108 | fewer than 4 bytes is an I/O error; 4 bytes other than `RPLY` is `InvalidIdentifier` |
| ReplayHeader.ReplayVersionError | spyparty-rs/src/replay/header/mod.rs:113-124 | a version other than 3, 4 and 5 fails with `UnsupportedReplayVersion` of it |
| ReplayHeader.UserLengthErrors | spyparty-rs/src/replay/header/mod.rs:190-213 | a zero spy length fails with `MissingSpyUsername`; a zero sniper length after a good spy length fails with `MissingSniperUsername` |
| ReplayHeader.ResultBlockError | spyparty-rs/src/replay/header/mod.rs:242-246 | a result-block error after a good prefix is the header's error, unchanged |
| ReplayHeader.NameErrors | spyparty-rs/src/replay/header/mod.rs:271-278 | a short name is an I/O error; a name that is not UTF-8 is `InvalidString` carrying the bytes, the valid prefix and the bad length |
| ReplayHeader.IdentifierExamples | spyparty-rs/src/replay/header/mod.rs:329-360 | `b"RPLY"` passes; `b"NOPE"` is `InvalidIdentifier`; `b"RPL"` is an I/O error |
| ReplayHeader.UnsupportedVersionExample | spyparty-rs/src/replay/header/mod.rs:362-372 | replay version 2 fails with `UnsupportedReplayVersion(2)` |
| ReplayHeader.MissingUserNameExamples | spyparty-rs/src/replay/header/mod.rs:374-396 | a zero length byte is the missing spy or sniper user name |
| ReplayHeader.NameExamples | spyparty-rs/src/replay/header/mod.rs:398-485 | `b"adam"` read as a user name sets it and consumes the four bytes; read as a display name it gives `Some` of it |
| ReplayHeader.NoDisplayNameExamples | spyparty-rs/src/replay/header/mod.rs:454-495 | a display length of 0 reads nothing and gives `None` |
| ReplayHeader.InvalidNameExamples | spyparty-rs/src/replay/header/mod.rs:418-508 | the garbled bytes are `InvalidString` for each of the four names |
| Replays.HasPlayer | spyparty-rs/src/replay/mod.rs:26-28 | holds iff the name is among the names of both sides (`Replays.HasPlayerNames` lists the four) |
| Replays.IsSpyWin | spyparty-rs/src/replay/mod.rs:57-60 | a spy win is a finished game and not a sniper win (`Replays.WinsPartitionResults` gives the converse) |
| Replays.IsSniperWin | spyparty-rs/src/replay/mod.rs:63-66 | a sniper win is a finished game |
| Replays.IsWinFor | spyparty-rs/src/replay/mod.rs:69-71 | a win is only for someone who played, in a finished game |
| Replays.IsLossFor | spyparty-rs/src/replay/mod.rs:74-79 | a loss is only for someone who played, in a finished game; it is not the negation of a win (`Replays.InProgressDecidesNothing`, `Replays.BothSidesDecided`) |
| Replays.HasSpy | spyparty-rs/src/replay/mod.rs:31-41 | holds iff the name is the spy's user name or display name |
| Replays.HasSniper | spyparty-rs/src/replay/mod.rs:44-54 | holds iff the name is the sniper's user name or display name |
| Replays.HasPlayerNames | spyparty-rs/src/replay/mod.rs:26-54 | `has_player` holds iff the name is one of the up to four names in the header |
| Replays.WinsPartitionResults | spyparty-rs/src/replay/mod.rs:57-66 | never both a spy win and a sniper win, and one of them exactly when the game is not in progress |
| Replays.InProgressDecidesNothing | spyparty-rs/src/replay/mod.rs:69-79 | a game in progress is neither a win nor a loss for anyone |
| Replays.WinOrLossNeedsPlayer | spyparty-rs/src/replay/mod.rs:69-79 | a win or a loss for a name implies it played |
| Replays.OneSideDecided | spyparty-rs/src/replay/mod.rs:69-79 | in a finished game, someone on one side only has won iff they have not lost |
| Replays.BothSidesDecided | spyparty-rs/src/replay/mod.rs:69-79 | someone named on both sides of a finished game both wins and loses |
| Replays.PlayerExamples | spyparty-rs/src/replay/mod.rs:86-165 | the source's `has_*` tests on default replays |
| Replays.WinExamples | spyparty-rs/src/replay/mod.rs:166-198 | the source's win tests |
| Replays.FromReader | spyparty-rs/src/replay/mod.rs:19-23 | the replay of the header `Header::from_reader` decodes, or its error unchanged |
| LegacyErrors.Cause | src/replay/header/error.rs:28-35 | a cause exists exactly for `Io` |
| LegacyErrors.ChainErr | src/replay/header/error.rs:42-47 | `chain_err` keeps a value and wraps an I/O error as `Io`, whose cause it is |
| LegacyErrors.Ensure | src/replay/header/error.rs:49-57 | `ensure!(c, e)` fails with e exactly when c is false |
| LegacyErrors.MessageCases | src/replay/header/error.rs:12-26 | only `InvalidIdentifier` reads "invalid identifier"; every variant other than `Io` and it reads "unknown error" |
| LegacyHeader.Identifier | src/replay/header/mod.rs:24-31 | succeeds iff the first four bytes are `RPLY`, consuming exactly them; fewer is `Io`; others are `InvalidIdentifier` |
| LegacyHeader.MagicRoundTrip | src/replay/header/mod.rs:24-31 | `RPLY` followed by anything decodes and leaves the rest |
| LegacyHeader.IdentifierExamples | src/replay/header/mod.rs:39-67 | `b"RPLY"` passes, `b"NOPE"` is `InvalidIdentifier`, `b"NOP"` is `Io` |
| LegacyHeader.Header.ValidateIdentifier | src/replay/header/mod.rs:24-31 | reads four bytes and checks the magic, exactly as `Identifier` says |
| LegacyHeader.Header.FromReader | src/replay/header/mod.rs:15-21 | a fresh header after a good identifier, reading nothing else; otherwise the identifier's error |
| LegacyGameModes.TotalOf | src/replay/header/result_data/game_mode.rs:27-33 | the middle field has a total iff it is 0x00C000 to 0x020000 in steps of 0x4000, and the total is 3 to 8 |
| LegacyGameModes.FromU32 | src/replay/header/result_data/game_mode.rs:24-50 | succeeds iff the top byte is 0, or is 0x10 or 0x20 with a tabled middle field; the required count is the low byte; top byte 0 is always `Known`; failures carry the word |
| LegacyGameModes.PackRoundTrip | src/replay/header/result_data/game_mode.rs:24-50 | every mode with a tabled total decodes from its packed word |
| LegacyGameModes.DecodedPacks | src/replay/header/result_data/game_mode.rs:27-47 | a decoded Pick or Any has a total of 3 to 8 and packs back to the very word |
| LegacyGameModes.Examples | src/replay/header/result_data/game_mode.rs:58-84 | 0x4 is Known(4), 0x2001c004 is Any(4,7), 0x10020004 is Pick(4,8), and 0x30000000 is invalid |
| LegacyResultData.ModeFromByte | src/replay/header/result_data.rs:245-256 | the mode byte must be 0x00, 0x10 or 0x20, giving Known, Pick or Any; any other byte fails with `InvalidGameMode` of it |
| LegacyResultData.ModeByteRoundTrip | src/replay/header/result_data.rs:245-256 | every mode decodes from its byte |
| LegacyResultData.WidenedMode | src/replay/header/result_data/mod.rs:143-149 | the byte read, widened to a word and given to the table decoder, is always `Known` of itself |
| LegacyResultData.GameResultOf | src/replay/header/result_data.rs:195-208 | succeeds iff the word is at most 4, giving the result of that code; any other word fails with `InvalidGameResult` |
| LegacyResultData.GameResultsAgree | src/replay/header/result_data.rs:195-208 | the older result table agrees with `GameResults.FromU32` |
| LegacyResultData.TotalOf | src/replay/header/result_data.rs:220-229 | a raw total is in the table iff it is 0x40 times 3 to 8, and the total is raw / 0x40; likewise at src/replay/header/result_data/mod.rs:121-127 |
| LegacyResultData.ResultData.constructor | src/replay/header/result_data.rs:152-153 | a default block with the given default mode |
| LegacyResultData.ResultData.SetFlags | src/replay/header/result_data.rs:177-192 | reads the always-present flags word: version is its low nibble and must be 1 or 2; simple rules is whether the next nibble is 1; likewise at src/replay/header/result_data/mod.rs:82-97 |
| LegacyResultData.ResultData.SetGameResult | src/replay/header/result_data.rs:195-208 | reads one word and sets its result, or fails with `InvalidGameResult` |
| LegacyResultData.ResultData.SetMissionsRequired | src/replay/header/result_data.rs:211-217 | reads one byte into the required count, unchanged; likewise at src/replay/header/result_data/mod.rs:109-115 |
| LegacyResultData.ResultData.SetTotalMissions | src/replay/header/result_data.rs:220-242 | reads two bytes: a tabled total, or under simple rules the required count, else `InvalidTotalMissions` of the raw value; likewise at src/replay/header/result_data/mod.rs:118-140 |
| LegacyResultData.ResultData.SetGameMode | src/replay/header/result_data.rs:245-256 | reads one byte and sets the mode the given decoder makes of it, or fails with its error; likewise at src/replay/header/result_data/mod.rs:143-149 |
| LegacyResultData.ResultData.SetMap | src/replay/header/result_data.rs:264-282 | reads one word and sets its map; never fails on the hash |
| LegacyResultData.ResultData.SetSelectedMissions | src/replay/header/result_data.rs:285-291 | reads one word and sets its unpacked missions |
| LegacyResultData.ResultData.SetPickedMissions | src/replay/header/result_data.rs:294-300 | reads one word and sets its unpacked missions |
| LegacyResultData.ResultData.SetCompletedMissions | src/replay/header/result_data.rs:303-309 | reads one word and sets its unpacked missions |
| LegacyResultData.ResultData.SetGuests | src/replay/header/result_data.rs:312-318 | reads one word into `Some` |
| LegacyResultData.ResultData.SetClockStart | src/replay/header/result_data.rs:321-327 | reads one word into `Some` |
| LegacyResultData.ResultData.FromReader | src/replay/header/result_data.rs:152-172 | the fresh block holds what `Decode` computes and the reader is left where it stops, or the call fails with `Decode`'s error; likewise at src/replay/header/result_data/mod.rs:57-77 |
| LegacyResultData.HeadLayout | src/replay/header/result_data.rs:155-156 | flags and result take 8 bytes and succeed iff the version is 1 or 2 and the result at most 4 |
| LegacyResultData.CountsLayout | src/replay/header/result_data.rs:157-159 | required byte, total half-word and mode byte take 4 bytes; the total is the tabled one or, under simple rules, the required count |
| LegacyResultData.CountsErrors | src/replay/header/result_data.rs:211-256 | a failure there is end of input, `InvalidTotalMissions` of the raw total without simple rules, or the mode decoder's error |
| LegacyResultData.UncheckedLayout | src/replay/header/result_data.rs:160-163 | map and missions take 16 bytes and fail only at end of input |
| LegacyResultData.CheckedLayout | src/replay/header/result_data.rs:155-159 | the first 12 bytes succeed iff version, result, total and mode are accepted |
| LegacyResultData.FixedLayout | src/replay/header/result_data.rs:155-163 | the fixed part takes 28 bytes and keeps the flags' version |
| LegacyResultData.DecodeLayout | src/replay/header/result_data.rs:152-172 | decoding succeeds iff the block is whole and valid; it then reads every field at its offset and consumes 28 bytes, plus 8 in version 2; likewise at src/replay/header/result_data/mod.rs:57-77 |
| LegacyResultData.CheckedErrors | src/replay/header/result_data.rs:177-256 | a failure in the first 12 bytes is one of the five errors, each with its value |
| LegacyResultData.DecodeErrors | src/replay/header/result_data.rs:152-172 | every failure of the block is end of input, the unsupported version, the invalid result, the invalid total or the mode's error |
| LegacyResultData.DecodeInvariants | src/replay/header/result_data.rs:152-172 | a decoded block has version 1 or 2, guests and clock start iff version 2, a total of 3 to 8 or the simple-rules fallback, and consumes exactly its size |
| LegacyResultData.RejectsVersion | src/replay/header/result_data.rs:183-186 | a version outside {1, 2} fails with `UnsupportedResultVersion` of it |
| LegacyResultData.RejectsResult | src/replay/header/result_data.rs:195-208 | a result above 4 fails with `InvalidGameResult` of it |
| LegacyResultData.RejectsTotal | src/replay/header/result_data.rs:230-238 | an untabled total without simple rules fails with `InvalidTotalMissions(raw)` |
| LegacyResultData.RejectsMode | src/replay/header/result_data.rs:245-256 | a mode byte the decoder refuses fails the block with that error |
| LegacyResultData.TaggedRejectsMode | src/replay/header/result_data.rs:245-256 | with the tag decoder, a byte outside {0x00, 0x10, 0x20} fails with `InvalidGameMode` of it |
| LegacyResultData.WidenedModeIsKnown | src/replay/header/result_data/mod.rs:143-149 | with the widening decoder, the mode is always `Known` of the byte and never an invalid mode |
| LegacyResultData.FlagsExamples | src/replay/header/result_data.rs:373-403 | `[0x01,0,0,0]` is (1, false); `[0x11,0,0,0]` is (1, true); `[0x03,0,0,0]` is `UnsupportedResultVersion(3)` |
| LegacyResultData.GameResultExamples | src/replay/header/result_data.rs:405-424 | 0 is MissionsWin; 5 is `InvalidGameResult(5)` |
| LegacyResultData.TotalExamples | src/replay/header/result_data.rs:426-456 | `[0x40,0x01]` is 5; under simple rules `[0,0]` is the required 4; otherwise `[0,0]` is `InvalidTotalMissions(0)` |
| LegacyResultData.ModeExample | src/replay/header/result_data.rs:458-469 | mode byte 9 is `InvalidGameMode(9)` |
| MatchedReplays.Cmp | src/matched_replay.rs:12-19 | `Less` iff the start time is earlier, `Equal` iff the start times are equal (`MatchedReplays.CmpTotalPreorder` proves it a total preorder) |
| MatchedReplays.Eq | src/matched_replay.rs:27-31 | no contract of its own: it compares game ids only; `MatchedReplays.OrderAndEqualityDisagree` shows it disagrees with `Cmp`, and `MatchedReplays.DedupStrict` uses it |
| MatchedReplays.SortBy | src/matched_replay.rs:48-56 | keeps the length; `MatchedReplays.SortSorted`, `SortPermutes` and `SortFirstWith` prove it sorted by the key, a permutation, and stable |
| MatchedReplays.CmpTotalPreorder | src/matched_replay.rs:12-25 | `cmp` compares start times only: it is antisymmetric and transitive, and Equal means equal start times |
| MatchedReplays.OrderAndEqualityDisagree | src/matched_replay.rs:12-31 | two replays with the same start time and different game ids compare Equal but are not `==` |
| MatchedReplays.SortSorted | src/matched_replay.rs:48-54 | sorting by a key gives a sequence ordered by that key |
| MatchedReplays.SortPermutes | src/matched_replay.rs:48-54 | sorting is a permutation |
| MatchedReplays.SortFirstWith | src/matched_replay.rs:48-54 | sorting is stable: the first element with a key is the same before and after |
| MatchedReplays.SortKeys | src/matched_replay.rs:48-56 | sorting keeps the set of game ids and keeps them distinct |
| MatchedReplays.Dedup | src/matched_replay.rs:55 | `dedup` never lengthens, keeps the first element, adds nothing, and leaves no two neighbours with the same game id |
| MatchedReplays.DedupKeepsChanges | src/matched_replay.rs:55 | `dedup` keeps the first element and then exactly each element whose game id differs from its predecessor's in the input, in order; every dropped element equals the one before it |
| MatchedReplays.DedupCons | src/matched_replay.rs:55 | the same, one element at a time: after a kept `x`, the rest keeps the elements that differ from their predecessor |
| MatchedReplays.ChangesAfterEq | src/matched_replay.rs:55 | which elements are kept after a given one depends only on its game id |
| MatchedReplays.DedupFirstWith | src/matched_replay.rs:55 | `dedup` keeps the first replay of each game id, and the set of game ids |
| MatchedReplays.DedupStrict | src/matched_replay.rs:48-55 | after sorting by game id, `dedup` leaves game ids strictly increasing |
| MatchedReplays.DedupedDistinct | src/matched_replay.rs:47-55 | sort by game id then `dedup` leaves no two replays with the same game id |
| MatchedReplays.DedupAndSortedSpec | src/matched_replay.rs:46-57 | the result has distinct game ids, in start-time order, with the same set of game ids, no longer than the input |
| MatchedReplays.KeptAreFirst | src/matched_replay.rs:47-57 | the replay kept for each game is the first of that game in the input |
| MatchedReplays.MatchedReplayCollection.constructor | src/matched_replay.rs:36-43 | the collection holds the given replays and counts |
| MatchedReplays.MatchedReplayCollection.DedupAndSort | src/matched_replay.rs:47-57 | replaces the replays by their dedup and sort, leaving `total` and `parsed` untouched; the result has distinct ids, is ordered by start time, keeps every game id and keeps each game's first replay |

## Left out

- Floating point: `duration` and `latency` are kept as the 4 bytes of the `f32`, not as a number.
- I/O: `std::io::Read` becomes the byte cursor `Utils.Reader`. The tick data after the header that `data_size` announces is never read.
- Utils.Reader.ReadExact: leaves the cursor unchanged when too few bytes remain. std leaves a reader's state unspecified after a failed `read_exact`, and no caller reads on after an error.
- The `regex` crate is not modelled. `GameModes.Split` and `GameModes.Interpret` match the one fixed pattern of spyparty-rs/src/replay/header/result_data/game_mode.rs:48 by hand. That pattern is `\w+`, a digit, `/` or `of`, and a digit.
- `\w` is taken as any character, matched on the normalised (lowercased, space-free) text. A mode word with characters outside `\w` is refused anyway by the match on the six mode words.
- `GameMode::Known` keeps only the required count, as the source does, so a tag-0 word loses its middle field (`GameModes.KnownIgnoresTotal`). The round trip therefore goes from mode to word to mode (`GameModes.PackRoundTrip`), not from word to mode to word.
- MatchedReplays.SortBy: `sort_unstable` may order replays with equal start times in any order. The model uses one stable order, so later replays with equal start times are not modelled in every order the library may give.
- `partial_cmp(...).unwrap()` on the `u128` game ids never panics, so the model compares them as numbers.
- MatchedReplays.MatchedReplayCollection.DedupAndSort: the `Vec` is sorted and deduplicated in place. The model assigns it the new sequence, so in-place movement and aliasing are not modelled.
- The older snapshot's error type, src/replay/header/error.rs, declares only `Io` and `InvalidIdentifier`. The older result-data files raise four more variants. `LegacyErrors.LegacyError` is the union of the two sets, and `Display` shows the four as "unknown error", as the file's catch-all arm does.
- src/replay/header/result_data/mod.rs:143-149 passes a `u8` to `GameMode::try_from`, which the older game_mode.rs defines only for `u32`. It does not compile as shown. `LegacyResultData.WidenedMode` models it as widening the byte to a word.
- The older game_result.rs and map.rs beside src/replay/header/result_data/mod.rs are not part of this model. Their results and maps are taken to be those of the modern files, which result_data.rs's own tables match.
- The older src/replay/mod.rs and src/utils.rs only wrap the decoder and `read_u32`. They add nothing beyond the modern modules.
- Out of scope:
  - the command-line tool (argument parsing, directory walking, logging);
  - the rayon parallel map and its atomic counters;
  - output rendering (tables, CSV, summaries);
  - filters and stat collections.
  The filters and collections only delegate to the modelled predicates and parsers.
- `Display` for `Map`, and `short_display` and `Display` for `Mission`, are modelled as the name tables, not as formatter writes.
