/**
 * The older replay header of src/replay/header/mod.rs: a header with no
 * fields, read by checking that the input starts with the `RPLY` magic.
 */
module LegacyHeader {
  import opened Results
  import opened Utils
  import opened LegacyErrors

  /** `b"RPLY"`. */
  const Magic: seq<u8> := [0x52, 0x50, 0x4C, 0x59]

  /**
   * `validate_identifier` on the bytes `s`: four bytes are read, which must
   * be the magic, and what follows them is left. Too short an input is an
   * I/O error, never `InvalidIdentifier`.
   */
  function Identifier(s: seq<u8>): (r: Result<seq<u8>, LegacyError>)
    ensures r.Success? <==> 4 <= |s| && s[..4] == Magic
    ensures r.Success? ==> s == Magic + r.value
    ensures |s| < 4 ==> r == Failure(Io(UnexpectedEof))
    ensures 4 <= |s| && s[..4] != Magic ==> r == Failure(InvalidIdentifier)
  {
    var id :- ChainErr(ParseBytes(s, 4));
    :- Ensure(id.0 == Magic, InvalidIdentifier);
    assert s == s[..4] + s[4..];
    Success(id.1)
  }

  /** The magic in front of any bytes is accepted, and exactly those bytes are left. */
  lemma MagicRoundTrip(t: seq<u8>)
    ensures Identifier(Magic + t) == Success(t)
  {
    var s := Magic + t;
    assert s[..4] == Magic && s[4..] == t;
  }

  /** The source's tests: "RPLY", "NOPE" and "NOP". */
  lemma IdentifierExamples()
    ensures Identifier([0x52, 0x50, 0x4C, 0x59]) == Success([])
    ensures Identifier([0x4E, 0x4F, 0x50, 0x45]) == Failure(InvalidIdentifier)
    ensures Identifier([0x4E, 0x4F, 0x50]) == Failure(Io(UnexpectedEof))
  {
    var nope: seq<u8> := [0x4E, 0x4F, 0x50, 0x45];
    assert nope[..4] == nope && nope[0] != Magic[0];
    MagicRoundTrip([]);
    assert Magic + [] == Magic;
  }

  class Header {

    /** `Header {}`. */
    constructor ()
    {
    }

    /**
     * `validate_identifier`: `read_exact` into a 4-byte buffer, then the
     * comparison with the magic. A short input leaves the reader where it was.
     */
    method ValidateIdentifier(reader: Reader) returns (o: Outcome<LegacyError>)
      modifies reader
      ensures var d := Identifier(old(reader.rest));
        && (o.Fail? <==> d.Failure?)
        && (o.Fail? ==> o.error == d.error)
        && (o.Pass? ==> reader.rest == d.value)
      ensures o == Fail(InvalidIdentifier) ==> reader.rest == old(reader.rest)[4..]
      ensures o == Fail(Io(UnexpectedEof)) ==> reader.rest == old(reader.rest)
    {
      var id := new u8[4](_ => 0);
      var read := reader.ReadExact(id);
      if read.Fail? {
        return Fail(Io(read.error));
      }
      if id[..] != Magic {
        return Fail(InvalidIdentifier);
      }
      return Pass;
    }

    /** `Header::from_reader`: a fresh header once the identifier checks out, or its error. */
    static method FromReader(reader: Reader) returns (r: Result<Header, LegacyError>)
      modifies reader
      ensures var d := Identifier(old(reader.rest));
        && (r.Failure? <==> d.Failure?)
        && (r.Failure? ==> r.error == d.error)
        && (r.Success? ==> fresh(r.value) && reader.rest == d.value)
    {
      var header := new Header();
      var o := header.ValidateIdentifier(reader);
      if o.Fail? {
        return Failure(o.error);
      }
      return Success(header);
    }
  }
}
