/**
 * The maps of spyparty-rs/src/replay/header/result_data/map.rs. A replay
 * names its map by a 32-bit hash; hashes the table does not know are kept
 * as data, never rejected.
 */
module Maps {
  import opened Results
  import opened Utils
  import opened Text
  import opened Errors

  datatype Map =
    | Balcony
    | Ballroom
    | Courtyard
    | Gallery
    | HighRise
    | Library
    | Moderne
    | Pub
    | Terrace
    | Veranda
    | Unknown(hash: u32)

  /** `Default for Map`. */
  const DefaultMap: Map := Unknown(0)

  /** The hash a replay stores for a map; an unknown map keeps the hash it was read from. */
  function Hash(m: Map): u32 {
    match m
    case Balcony => 0x1dbd8e41
    case Ballroom => 0x5b121925
    case Courtyard => 0x9dc5bb5e
    case Gallery => 0x7173b8bf
    case HighRise => 0x1a56c5a1
    case Library => 0x168f4f62
    case Moderne => 0x2e37f15b
    case Pub => 0x3b85fff3
    case Terrace => 0x9032ce22
    case Veranda => 0x6f81a558
    case Unknown(h) => h
  }

  /** The hash of one of the ten named maps. */
  predicate IsNamedHash(h: u32) {
    h in {0x1dbd8e41, 0x5b121925, 0x9dc5bb5e, 0x7173b8bf, 0x1a56c5a1,
          0x168f4f62, 0x2e37f15b, 0x3b85fff3, 0x9032ce22, 0x6f81a558}
  }

  /** `From<u32> for Map`: total; a hash outside the table becomes `Unknown` of itself. */
  function FromHash(h: u32): (m: Map)
    ensures Hash(m) == h
    ensures m.Unknown? <==> !IsNamedHash(h)
  {
    match h
    case 0x1dbd8e41 => Balcony
    case 0x5b121925 => Ballroom
    case 0x9dc5bb5e => Courtyard
    case 0x7173b8bf => Gallery
    case 0x1a56c5a1 => HighRise
    case 0x168f4f62 => Library
    case 0x2e37f15b => Moderne
    case 0x3b85fff3 => Pub
    case 0x9032ce22 => Terrace
    case 0x6f81a558 => Veranda
    case _ => Unknown(h)
  }

  /** The ten named maps have ten different hashes, so the hash names the map. */
  lemma NamedHashesDistinct(a: Map, b: Map)
    requires !a.Unknown? && !b.Unknown?
    ensures Hash(a) == Hash(b) ==> a == b
    ensures IsNamedHash(Hash(a))
  {
  }

  /** Decoding a named map's hash gives the map back; an unlisted hash decodes to itself. */
  lemma HashRoundTrip(m: Map)
    requires !m.Unknown? || !IsNamedHash(m.hash)
    ensures FromHash(Hash(m)) == m
  {
  }

  /** The hash 0x1dbd8e41 is the balcony; the hash 1 is no map the table knows. */
  lemma FromHashExamples()
    ensures FromHash(0x1dbd8e41) == Balcony
    ensures FromHash(1) == Unknown(1)
  {
  }

  /** `Display for Map`. */
  function Name(m: Map): (r: string)
    ensures r == "Unknown" <==> m.Unknown?
  {
    match m
    case Balcony => "Balcony"
    case Ballroom => "Ballroom"
    case Courtyard => "Courtyard"
    case Gallery => "Gallery"
    case HighRise => "High-Rise"
    case Library => "Library"
    case Moderne => "Moderne"
    case Pub => "Pub"
    case Terrace => "Terrace"
    case Veranda => "Veranda"
    case Unknown(_) => "Unknown"
  }

  /** The map a normalised string names, if any. */
  function Lookup(key: string): (r: Option<Map>)
    ensures r.Some? ==> !r.value.Unknown?
  {
    match key
    case "balcony" => Some(Balcony)
    case "ballroom" => Some(Ballroom)
    case "courtyard" => Some(Courtyard)
    case "gallery" => Some(Gallery)
    case "highrise" => Some(HighRise)
    case "high-rise" => Some(HighRise)
    case "library" => Some(Library)
    case "moderne" => Some(Moderne)
    case "pub" => Some(Pub)
    case "terrace" => Some(Terrace)
    case "veranda" => Some(Veranda)
    case _ => None
  }

  /** `TryFrom<&str> for Map`: match the normal form, report the original text. */
  function Parse(s: string): (r: Result<Map, Error>)
    ensures r.Failure? ==> r.error == UnknownMap(s)
    ensures r.Success? <==> Lookup(Normalize(s)).Some?
    ensures r.Success? ==> !r.value.Unknown?
  {
    match Lookup(Normalize(s))
    case Some(m) => Success(m)
    case None => Failure(UnknownMap(s))
  }

  /** Case and spaces do not matter: strings with the same normal form parse alike, up to the text an error reports. */
  lemma ParseIgnoresCaseAndSpaces(a: string, b: string)
    requires Normalize(a) == Normalize(b)
    ensures Parse(a).Success? <==> Parse(b).Success?
    ensures Parse(a).Success? ==> Parse(a) == Parse(b)
  {
  }

  /*
   * The normal forms of the map names, one literal per lemma (see the
   * mission names for why).
   */
  lemma BalconyWord() ensures Normalize("Balcony") == "balcony" { NormalizeWord("Balcony", "balcony"); }
  lemma BallroomWord() ensures Normalize("Ballroom") == "ballroom" { NormalizeWord("Ballroom", "ballroom"); }
  lemma CourtyardWord() ensures Normalize("Courtyard") == "courtyard" { NormalizeWord("Courtyard", "courtyard"); }
  lemma GalleryWord() ensures Normalize("Gallery") == "gallery" { NormalizeWord("Gallery", "gallery"); }
  lemma HighRiseWord() ensures Normalize("High-Rise") == "high-rise" { NormalizeWord("High-Rise", "high-rise"); }
  lemma LibraryWord() ensures Normalize("Library") == "library" { NormalizeWord("Library", "library"); }
  lemma ModerneWord() ensures Normalize("Moderne") == "moderne" { NormalizeWord("Moderne", "moderne"); }
  lemma PubWord() ensures Normalize("Pub") == "pub" { NormalizeWord("Pub", "pub"); }
  lemma TerraceWord() ensures Normalize("Terrace") == "terrace" { NormalizeWord("Terrace", "terrace"); }
  lemma VerandaWord() ensures Normalize("Veranda") == "veranda" { NormalizeWord("Veranda", "veranda"); }
  lemma UnknownWord() ensures Normalize("Unknown") == "unknown" { NormalizeWord("Unknown", "unknown"); }

  /** The normal form of a map's display name. */
  function Key(m: Map): string {
    match m
    case Balcony => "balcony"
    case Ballroom => "ballroom"
    case Courtyard => "courtyard"
    case Gallery => "gallery"
    case HighRise => "high-rise"
    case Library => "library"
    case Moderne => "moderne"
    case Pub => "pub"
    case Terrace => "terrace"
    case Veranda => "veranda"
    case Unknown(_) => "unknown"
  }

  lemma NameKey(m: Map)
    ensures Normalize(Name(m)) == Key(m)
  {
    match m
    case Balcony => BalconyWord();
    case Ballroom => BallroomWord();
    case Courtyard => CourtyardWord();
    case Gallery => GalleryWord();
    case HighRise => HighRiseWord();
    case Library => LibraryWord();
    case Moderne => ModerneWord();
    case Pub => PubWord();
    case Terrace => TerraceWord();
    case Veranda => VerandaWord();
    case Unknown(_) => UnknownWord();
  }

  lemma KeysLookUp(m: Map)
    ensures !m.Unknown? ==> Lookup(Key(m)) == Some(m)
    ensures m.Unknown? ==> Lookup(Key(m)) == None
  {
  }

  /** Every named map parses back from its display name; the name "Unknown" parses to nothing, as typed. */
  lemma NamesRoundTrip(m: Map)
    ensures !m.Unknown? ==> Parse(Name(m)) == Success(m)
    ensures m.Unknown? ==> Parse(Name(m)) == Failure(UnknownMap("Unknown"))
  {
    NameKey(m);
    KeysLookUp(m);
  }

  lemma LowerPubWord() ensures Normalize("pub") == "pub" { NormalizeWord("pub", "pub"); }
  lemma BallRoomWord() ensures Normalize("BallRoom") == "ballroom" { NormalizeWord("BallRoom", "ballroom"); }
  lemma LowerUnknownWord() ensures Normalize("unknown") == "unknown" { NormalizeWord("unknown", "unknown"); }

  /** "pub" names the pub. */
  lemma ParsePub()
    ensures Parse("pub") == Success(Pub)
  {
    LowerPubWord();
  }

  /** Case does not matter: "BallRoom" names the ballroom. */
  lemma ParseBallRoom()
    ensures Parse("BallRoom") == Success(Ballroom)
  {
    BallRoomWord();
  }

  /** "unknown" names no map and is reported as typed. */
  lemma ParseUnknown()
    ensures Parse("unknown") == Failure(UnknownMap("unknown"))
  {
    LowerUnknownWord();
    KeysLookUp(DefaultMap);
  }
}
