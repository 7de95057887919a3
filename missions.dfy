/**
 * The eight spy missions of spyparty-rs/src/replay/header/result_data/mission.rs:
 * the bitfield a replay stores them in, their long and short names, and the
 * forgiving parser the command-line filters use.
 */
module Missions {
  import opened Results
  import opened Utils
  import opened Text
  import opened Errors
  import opened Bits

  datatype Mission =
    | BugAmbassador
    | ContactDoubleAgent
    | FingerprintAmbassador
    | InspectStatues
    | PurloinGuestList
    | SeduceTarget
    | SwapStatue
    | TransferMicrofilm

  /** The missions in the order of their bits: `BitOrder[k]` is the mission bit k stands for. */
  const BitOrder: seq<Mission> := [
    BugAmbassador, ContactDoubleAgent, TransferMicrofilm, SwapStatue,
    InspectStatues, SeduceTarget, PurloinGuestList, FingerprintAmbassador
  ]

  /** The bit of the mission bitfield that stands for a mission. */
  function Bit(m: Mission): (k: nat)
    ensures k < 8 && BitOrder[k] == m
  {
    match m
    case BugAmbassador => 0
    case ContactDoubleAgent => 1
    case TransferMicrofilm => 2
    case SwapStatue => 3
    case InspectStatues => 4
    case SeduceTarget => 5
    case PurloinGuestList => 6
    case FingerprintAmbassador => 7
  }

  /** Every one of the eight bits stands for a different mission. */
  lemma BitTable()
    ensures |BitOrder| == 8
    ensures forall k :: 0 <= k < 8 ==> Bit(BitOrder[k]) == k
    ensures forall m1, m2 :: Bit(m1) == Bit(m2) ==> m1 == m2
  {
  }

  /** The missions whose bits below k are set, lowest bit first. */
  function UnpackedBelow(data: nat, k: nat): seq<Mission>
    requires k <= 8
  {
    if k == 0 then []
    else UnpackedBelow(data, k - 1) + (if BitSet(data, k - 1) then [BitOrder[k - 1]] else [])
  }

  /** The missions a bitfield holds. */
  function Unpacked(data: nat): seq<Mission> {
    UnpackedBelow(data, 8)
  }

  /** How many of the bits below k are set. */
  function SetBitsBelow(data: nat, k: nat): nat {
    if k == 0 then 0 else SetBitsBelow(data, k - 1) + (if BitSet(data, k - 1) then 1 else 0)
  }

  /** `Mission::unpack_missions`: eight tests of one bit each, pushing in bit order. */
  method UnpackMissions(data: u32) returns (missions: seq<Mission>)
    ensures missions == Unpacked(data)
    ensures forall m :: m in missions <==> BitSet(data, Bit(m))
    ensures |missions| == SetBitsBelow(data, 8) <= 8
  {
    missions := [];
    if BitSet(data, 0) {
      missions := missions + [BugAmbassador];
    }
    assert missions == UnpackedBelow(data, 1);
    if BitSet(data, 1) {
      missions := missions + [ContactDoubleAgent];
    }
    assert missions == UnpackedBelow(data, 2);
    if BitSet(data, 2) {
      missions := missions + [TransferMicrofilm];
    }
    assert missions == UnpackedBelow(data, 3);
    if BitSet(data, 3) {
      missions := missions + [SwapStatue];
    }
    assert missions == UnpackedBelow(data, 4);
    if BitSet(data, 4) {
      missions := missions + [InspectStatues];
    }
    assert missions == UnpackedBelow(data, 5);
    if BitSet(data, 5) {
      missions := missions + [SeduceTarget];
    }
    assert missions == UnpackedBelow(data, 6);
    if BitSet(data, 6) {
      missions := missions + [PurloinGuestList];
    }
    assert missions == UnpackedBelow(data, 7);
    if BitSet(data, 7) {
      missions := missions + [FingerprintAmbassador];
    }
    assert missions == UnpackedBelow(data, 8);
    UnpackedMembership(data);
    UnpackedLength(data);
  }

  lemma {:induction false} UnpackedBelowMembership(data: nat, k: nat)
    requires k <= 8
    ensures forall m :: m in UnpackedBelow(data, k) <==> Bit(m) < k && BitSet(data, Bit(m))
  {
    if k > 0 {
      UnpackedBelowMembership(data, k - 1);
    }
  }

  /** A mission is unpacked exactly when its bit is set. */
  lemma UnpackedMembership(data: nat)
    ensures forall m :: m in Unpacked(data) <==> BitSet(data, Bit(m))
  {
    UnpackedBelowMembership(data, 8);
  }

  /** Strictly increasing bit numbers. */
  predicate InBitOrder(r: seq<Mission>) {
    forall i, j :: 0 <= i < j < |r| ==> Bit(r[i]) < Bit(r[j])
  }

  lemma AppendInBitOrder(p: seq<Mission>, m: Mission)
    requires InBitOrder(p)
    requires forall x :: x in p ==> Bit(x) < Bit(m)
    ensures InBitOrder(p + [m])
  {
    var r := p + [m];
    forall i, j | 0 <= i < j < |r| ensures Bit(r[i]) < Bit(r[j]) {
      assert r[i] == p[i] && p[i] in p;
      if j < |p| {
        assert r[j] == p[j];
      }
    }
  }

  lemma {:induction false} UnpackedBelowOrder(data: nat, k: nat)
    requires k <= 8
    ensures InBitOrder(UnpackedBelow(data, k))
  {
    if k > 0 {
      UnpackedBelowOrder(data, k - 1);
      if BitSet(data, k - 1) {
        UnpackedBelowMembership(data, k - 1);
        AppendInBitOrder(UnpackedBelow(data, k - 1), BitOrder[k - 1]);
      }
    }
  }

  /** The unpacked missions follow bit order, so none appears twice. */
  lemma UnpackedOrder(data: nat)
    ensures InBitOrder(Unpacked(data))
    ensures var r := Unpacked(data); forall i, j :: 0 <= i < j < |r| ==> r[i] != r[j]
  {
    UnpackedBelowOrder(data, 8);
  }

  lemma {:induction false} UnpackedBelowLength(data: nat, k: nat)
    requires k <= 8
    ensures |UnpackedBelow(data, k)| == SetBitsBelow(data, k) <= k
  {
    if k > 0 {
      UnpackedBelowLength(data, k - 1);
    }
  }

  /** One mission per set bit among bits 0 to 7, so at most eight. */
  lemma UnpackedLength(data: nat)
    ensures |Unpacked(data)| == SetBitsBelow(data, 8) <= 8
  {
    UnpackedBelowLength(data, 8);
  }

  lemma {:induction false} UnpackedBelowLowByte(data: nat, k: nat)
    requires k <= 8
    ensures UnpackedBelow(data, k) == UnpackedBelow(data % 256, k)
  {
    if k > 0 {
      UnpackedBelowLowByte(data, k - 1);
      LowByteBit(data, k - 1);
    }
  }

  /** Bits 8 to 31 are ignored. */
  lemma UnpackedLowByte(data: nat)
    ensures Unpacked(data) == Unpacked(data % 256)
  {
    UnpackedBelowLowByte(data, 8);
  }
  /** The bitfield holding exactly the missions of `ms`: one bit per mission. */
  function Packed(ms: seq<Mission>): nat {
    if ms == [] then 0 else Packed(ms[..|ms| - 1]) + Pow2(Bit(ms[|ms| - 1]))
  }

  lemma {:induction false} PackedBelow(data: nat, k: nat)
    requires k <= 8
    ensures Packed(UnpackedBelow(data, k)) == data % Pow2(k)
  {
    if k > 0 {
      PackedBelow(data, k - 1);
      ModStep(data, k - 1 + 1);
      var ms := UnpackedBelow(data, k);
      if BitSet(data, k - 1) {
        var m := BitOrder[k - 1];
        assert Bit(m) == k - 1;
        assert ms == UnpackedBelow(data, k - 1) + [m];
        assert ms[..|ms| - 1] == UnpackedBelow(data, k - 1) && ms[|ms| - 1] == m;
        assert Packed(ms) == Packed(UnpackedBelow(data, k - 1)) + Pow2(k - 1);
      } else {
        assert ms == UnpackedBelow(data, k - 1);
      }
    }
  }

  /**
   * Packing is the inverse of unpacking: it gives back the low byte of the
   * word, from which unpacking recovers the same missions.
   */
  lemma PackedRoundTrip(data: nat)
    ensures Packed(Unpacked(data)) == data % 256
    ensures Unpacked(Packed(Unpacked(data))) == Unpacked(data)
  {
    assert Pow2(8) == 256;
    PackedBelow(data, 8);
    UnpackedLowByte(data);
    UnpackedLowByte(data % 256);
  }

  /** A mission list that a bitfield unpacks to: packing and unpacking it gives it back. */
  predicate IsBitfield(ms: seq<Mission>) {
    Unpacked(Packed(ms)) == ms
  }

  /** Every unpacked list is one, and it packs into a single byte. */
  lemma PackedOfBitfield(ms: seq<Mission>)
    ensures IsBitfield(ms) <==> exists data: nat :: ms == Unpacked(data)
    ensures IsBitfield(ms) ==> Packed(ms) < 256
  {
    if exists data: nat :: ms == Unpacked(data) {
      var data: nat :| ms == Unpacked(data);
      PackedRoundTrip(data);
    }
    if IsBitfield(ms) {
      PackedRoundTrip(Packed(ms));
    }
  }


  /** `Mission::short_display`. */
  function ShortName(m: Mission): (r: string)
    ensures 0 < |r| < |Name(m)|
  {
    match m
    case BugAmbassador => "Bug"
    case ContactDoubleAgent => "BB"
    case FingerprintAmbassador => "Fingerprint"
    case InspectStatues => "Inspect"
    case PurloinGuestList => "Purloin"
    case SeduceTarget => "Seduce"
    case SwapStatue => "Swap"
    case TransferMicrofilm => "Transfer MF"
  }

  /** `Display for Mission`. */
  function Name(m: Mission): string {
    match m
    case BugAmbassador => "Bug Ambassador"
    case ContactDoubleAgent => "Contact Double Agent"
    case FingerprintAmbassador => "Fingerprint Ambassador"
    case InspectStatues => "Inspect Statues"
    case PurloinGuestList => "Purloin Guest List"
    case SeduceTarget => "Seduce Target"
    case SwapStatue => "Swap Statue"
    case TransferMicrofilm => "Transfer Microfilm"
  }

  /** The mission a normalised string names, if any. */
  function Lookup(key: string): Option<Mission> {
    match key
    case "bugambassador" => Some(BugAmbassador)
    case "bug" => Some(BugAmbassador)
    case "contactdoubleagent" => Some(ContactDoubleAgent)
    case "contactda" => Some(ContactDoubleAgent)
    case "contact" => Some(ContactDoubleAgent)
    case "bb" => Some(ContactDoubleAgent)
    case "fingerprintambassador" => Some(FingerprintAmbassador)
    case "fingerprint" => Some(FingerprintAmbassador)
    case "fp" => Some(FingerprintAmbassador)
    case "inspectstatues" => Some(InspectStatues)
    case "inspect" => Some(InspectStatues)
    case "purloinguestlist" => Some(PurloinGuestList)
    case "purloin" => Some(PurloinGuestList)
    case "seducetarget" => Some(SeduceTarget)
    case "seduce" => Some(SeduceTarget)
    case "swapstatue" => Some(SwapStatue)
    case "swap" => Some(SwapStatue)
    case "paws" => Some(SwapStatue)
    case "transfermicrofilm" => Some(TransferMicrofilm)
    case "transfermf" => Some(TransferMicrofilm)
    case "mf" => Some(TransferMicrofilm)
    case _ => None
  }

  /** `TryFrom<&str> for Mission`: match the normal form, report the original text. */
  function Parse(s: string): (r: Result<Mission, Error>)
    ensures r.Failure? ==> r.error == UnknownMission(s)
    ensures r.Success? <==> Lookup(Normalize(s)).Some?
  {
    match Lookup(Normalize(s))
    case Some(m) => Success(m)
    case None => Failure(UnknownMission(s))
  }

  /** Case and spaces do not matter: strings with the same normal form parse alike, up to the text an error reports. */
  lemma ParseIgnoresCaseAndSpaces(a: string, b: string)
    requires Normalize(a) == Normalize(b)
    ensures Parse(a).Success? <==> Parse(b).Success?
    ensures Parse(a).Success? ==> Parse(a) == Parse(b)
  {
  }

  /*
   * The normal forms of the words the names are made of. Each sits in a lemma
   * of its own: the solver handles one string literal at a time cheaply and
   * several together badly.
   */
  lemma BugWord() ensures Normalize("Bug") == "bug" { NormalizeWord("Bug", "bug"); }
  lemma AmbassadorWord() ensures Normalize("Ambassador") == "ambassador" { NormalizeWord("Ambassador", "ambassador"); }
  lemma ContactWord() ensures Normalize("Contact") == "contact" { NormalizeWord("Contact", "contact"); }
  lemma DoubleWord() ensures Normalize("Double") == "double" { NormalizeWord("Double", "double"); }
  lemma AgentWord() ensures Normalize("Agent") == "agent" { NormalizeWord("Agent", "agent"); }
  lemma FingerprintWord() ensures Normalize("Fingerprint") == "fingerprint" { NormalizeWord("Fingerprint", "fingerprint"); }
  lemma InspectWord() ensures Normalize("Inspect") == "inspect" { NormalizeWord("Inspect", "inspect"); }
  lemma StatuesWord() ensures Normalize("Statues") == "statues" { NormalizeWord("Statues", "statues"); }
  lemma PurloinWord() ensures Normalize("Purloin") == "purloin" { NormalizeWord("Purloin", "purloin"); }
  lemma GuestWord() ensures Normalize("Guest") == "guest" { NormalizeWord("Guest", "guest"); }
  lemma ListWord() ensures Normalize("List") == "list" { NormalizeWord("List", "list"); }
  lemma SeduceWord() ensures Normalize("Seduce") == "seduce" { NormalizeWord("Seduce", "seduce"); }
  lemma TargetWord() ensures Normalize("Target") == "target" { NormalizeWord("Target", "target"); }
  lemma SwapWord() ensures Normalize("Swap") == "swap" { NormalizeWord("Swap", "swap"); }
  lemma StatueWord() ensures Normalize("Statue") == "statue" { NormalizeWord("Statue", "statue"); }
  lemma TransferWord() ensures Normalize("Transfer") == "transfer" { NormalizeWord("Transfer", "transfer"); }
  lemma MicrofilmWord() ensures Normalize("Microfilm") == "microfilm" { NormalizeWord("Microfilm", "microfilm"); }
  lemma MFWord() ensures Normalize("MF") == "mf" { NormalizeWord("MF", "mf"); }
  lemma BBWord() ensures Normalize("BB") == "bb" { NormalizeWord("BB", "bb"); }

  /** How the multi-word names are spelt: words joined by single spaces. */
  lemma NameSpellings()
    ensures "Bug Ambassador" == "Bug" + " " + "Ambassador"
    ensures "Contact Double Agent" == "Contact" + " " + "Double" + " " + "Agent"
    ensures "Fingerprint Ambassador" == "Fingerprint" + " " + "Ambassador"
    ensures "Inspect Statues" == "Inspect" + " " + "Statues"
    ensures "Purloin Guest List" == "Purloin" + " " + "Guest" + " " + "List"
    ensures "Seduce Target" == "Seduce" + " " + "Target"
    ensures "Swap Statue" == "Swap" + " " + "Statue"
    ensures "Transfer Microfilm" == "Transfer" + " " + "Microfilm"
    ensures "Transfer MF" == "Transfer" + " " + "MF"
  {
  }

  /** The keys those names normalise to: the lower-case words run together. */
  lemma KeySpellings()
    ensures "bugambassador" == "bug" + "ambassador"
    ensures "contactdoubleagent" == "contact" + "double" + "agent"
    ensures "fingerprintambassador" == "fingerprint" + "ambassador"
    ensures "inspectstatues" == "inspect" + "statues"
    ensures "purloinguestlist" == "purloin" + "guest" + "list"
    ensures "seducetarget" == "seduce" + "target"
    ensures "swapstatue" == "swap" + "statue"
    ensures "transfermicrofilm" == "transfer" + "microfilm"
    ensures "transfermf" == "transfer" + "mf"
  {
  }

  /** The normal form of a mission's long name, which is its first alias. */
  function Key(m: Mission): string {
    match m
    case BugAmbassador => "bugambassador"
    case ContactDoubleAgent => "contactdoubleagent"
    case FingerprintAmbassador => "fingerprintambassador"
    case InspectStatues => "inspectstatues"
    case PurloinGuestList => "purloinguestlist"
    case SeduceTarget => "seducetarget"
    case SwapStatue => "swapstatue"
    case TransferMicrofilm => "transfermicrofilm"
  }

  lemma KeysLookUp(m: Mission)
    ensures Lookup(Key(m)) == Some(m)
  {
  }

  lemma LongNameKey(m: Mission)
    ensures Normalize(Name(m)) == Key(m)
  {
    NameSpellings();
    KeySpellings();
    match m
    case BugAmbassador =>
      NormalizeJoin("Bug", "Ambassador"); BugWord(); AmbassadorWord();
    case ContactDoubleAgent =>
      NormalizeJoin("Contact" + " " + "Double", "Agent"); NormalizeJoin("Contact", "Double");
      ContactWord(); DoubleWord(); AgentWord();
    case FingerprintAmbassador =>
      NormalizeJoin("Fingerprint", "Ambassador"); FingerprintWord(); AmbassadorWord();
    case InspectStatues =>
      NormalizeJoin("Inspect", "Statues"); InspectWord(); StatuesWord();
    case PurloinGuestList =>
      NormalizeJoin("Purloin" + " " + "Guest", "List"); NormalizeJoin("Purloin", "Guest");
      PurloinWord(); GuestWord(); ListWord();
    case SeduceTarget =>
      NormalizeJoin("Seduce", "Target"); SeduceWord(); TargetWord();
    case SwapStatue =>
      NormalizeJoin("Swap", "Statue"); SwapWord(); StatueWord();
    case TransferMicrofilm =>
      NormalizeJoin("Transfer", "Microfilm"); TransferWord(); MicrofilmWord();
  }

  /** The normal form of a mission's short name, which is another of its aliases. */
  function ShortKey(m: Mission): string {
    match m
    case BugAmbassador => "bug"
    case ContactDoubleAgent => "bb"
    case FingerprintAmbassador => "fingerprint"
    case InspectStatues => "inspect"
    case PurloinGuestList => "purloin"
    case SeduceTarget => "seduce"
    case SwapStatue => "swap"
    case TransferMicrofilm => "transfermf"
  }

  lemma ShortKeysLookUp(m: Mission)
    ensures Lookup(ShortKey(m)) == Some(m)
  {
  }

  lemma ShortNameKey(m: Mission)
    ensures Normalize(ShortName(m)) == ShortKey(m)
  {
    match m
    case BugAmbassador => BugWord();
    case ContactDoubleAgent => BBWord();
    case FingerprintAmbassador => FingerprintWord();
    case InspectStatues => InspectWord();
    case PurloinGuestList => PurloinWord();
    case SeduceTarget => SeduceWord();
    case SwapStatue => SwapWord();
    case TransferMicrofilm =>
      NameSpellings(); KeySpellings();
      NormalizeJoin("Transfer", "MF"); TransferWord(); MFWord();
  }

  /** Both names of every mission parse back to it. */
  lemma NamesRoundTrip(m: Mission)
    ensures Parse(Name(m)) == Success(m)
    ensures Parse(ShortName(m)) == Success(m)
  {
    LongNameKey(m);
    KeysLookUp(m);
    ShortNameKey(m);
    ShortKeysLookUp(m);
  }

  /** The long names are pairwise distinct, and so are the short ones. */
  lemma NamesDistinct(m1: Mission, m2: Mission)
    ensures Name(m1) == Name(m2) ==> m1 == m2
    ensures ShortName(m1) == ShortName(m2) ==> m1 == m2
  {
    NamesRoundTrip(m1);
    NamesRoundTrip(m2);
  }

  /** "seduce" names the seduction. */
  lemma ParseSeduce()
    ensures Parse("seduce") == Success(SeduceTarget)
  {
    ShortNameKey(SeduceTarget);
    ShortKeysLookUp(SeduceTarget);
  }

  lemma NopeWord() ensures Normalize("nope") == "nope" { NormalizeWord("nope", "nope"); }

  /** "nope" names nothing and is reported as typed. */
  lemma ParseNope()
    ensures Parse("nope") == Failure(UnknownMission("nope"))
  {
    NopeWord();
  }
}
