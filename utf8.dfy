/**
 * `String::from_utf8`, used by the header decoder for every name it reads.
 *
 * Well-formedness follows the UTF-8 syntax of section 4 of RFC 3629; no
 * transcoding happens, so a decoded name stays the byte sequence it was read
 * as (a Rust `String` is exactly such a byte sequence). A rejected buffer is
 * reported as std reports it: the buffer, the length of its longest
 * well-formed prefix (`valid_up_to`) and the length of the bad sequence, or
 * no length when the input ends inside a character.
 */
module Utf8 {
  import opened Results
  import opened Utils

  /** The number of octets a character starting with `b` has, or 0 if `b` cannot start one. */
  function Width(b: u8): (w: nat)
    ensures w <= 4
  {
    if b <= 0x7F then 1
    else if 0xC2 <= b <= 0xDF then 2
    else if 0xE0 <= b <= 0xEF then 3
    else if 0xF0 <= b <= 0xF4 then 4
    else 0
  }

  /** UTF8-tail = %x80-BF */
  predicate IsTail(b: u8) {
    0x80 <= b <= 0xBF
  }

  /** The range RFC 3629 allows for the second octet after the lead octet `b0`. */
  predicate SecondOk(b0: u8, b1: u8) {
    if b0 == 0xE0 then 0xA0 <= b1 <= 0xBF
    else if b0 == 0xED then 0x80 <= b1 <= 0x9F
    else if b0 == 0xF0 then 0x90 <= b1 <= 0xBF
    else if b0 == 0xF4 then 0x80 <= b1 <= 0x8F
    else IsTail(b1)
  }

  /** `p` is a non-empty prefix of some UTF8-char (possibly all of it). */
  predicate PrefixOk(p: seq<u8>) {
    && 1 <= |p| <= Width(p[0])
    && (|p| >= 2 ==> SecondOk(p[0], p[1]))
    && forall i :: 2 <= i < |p| ==> IsTail(p[i])
  }

  /** UTF8-char of RFC 3629: a complete character. */
  predicate IsChar(c: seq<u8>) {
    PrefixOk(c) && |c| == Width(c[0])
  }

  /** UTF8-octets = *( UTF8-char ) */
  predicate WellFormed(s: seq<u8>)
    decreases |s|
  {
    s == [] || (var k := Width(s[0]); 0 < k <= |s| && IsChar(s[..k]) && WellFormed(s[k..]))
  }

  /** The length of the longest prefix of `s` made of whole characters. */
  function ValidUpTo(s: seq<u8>): (n: nat)
    ensures n <= |s|
    decreases |s|
  {
    if s == [] then 0
    else
      var k := Width(s[0]);
      if 0 < k <= |s| && IsChar(s[..k]) then k + ValidUpTo(s[k..]) else 0
  }

  /** The length of the longest prefix of `t` that could still begin a character (at most 3 when `t` does not start with one). */
  function PrefixLength(t: seq<u8>): (m: nat)
    ensures m <= |t| && m <= 4
    ensures m > 0 ==> PrefixOk(t[..m])
  {
    if |t| >= 4 && PrefixOk(t[..4]) then 4
    else if |t| >= 3 && PrefixOk(t[..3]) then 3
    else if |t| >= 2 && PrefixOk(t[..2]) then 2
    else if |t| >= 1 && PrefixOk(t[..1]) then 1
    else 0
  }

  /** std's `Utf8Error`: where the valid part ends and how long the bad sequence is. */
  datatype Utf8Error = Utf8Error(validUpTo: nat, errorLen: Option<nat>)

  /** std's `FromUtf8Error`: the rejected bytes and why they were rejected. */
  datatype FromUtf8Error = FromUtf8Error(bytes: seq<u8>, error: Utf8Error)

  // The validator, as std runs it: a scan along the buffer, one character at a time.

  /** The `k` octets from `i` after the lead octet `s[i]` are the ones a character of width `k` needs. */
  predicate CharAt(s: seq<u8>, i: nat, k: nat)
    requires i + k <= |s| && k <= 4
  {
    && (k >= 2 ==> SecondOk(s[i], s[i + 1]))
    && (k >= 3 ==> IsTail(s[i + 2]))
    && (k >= 4 ==> IsTail(s[i + 3]))
  }

  /** `error_len` for a scan that stopped at `n`: none when the input ends inside a character, else the octets to skip. */
  function ErrorLen(s: seq<u8>, n: nat): (e: Option<nat>)
    requires n <= |s|
    ensures e.None? <==> n + PrefixLength(s[n..]) == |s|
    ensures e.Some? ==> e.value > 0
  {
    var m := PrefixLength(s[n..]);
    if n + m == |s| then None else Some(if m == 0 then 1 else m)
  }

  /** The scan from `i`: nothing when every character from there on is complete, else where and why it stops. */
  function Validate(s: seq<u8>, i: nat): (r: Option<Utf8Error>)
    requires i <= |s|
    ensures r.Some? ==> i <= r.value.validUpTo < |s|
    decreases |s| - i, 1
  {
    if i == |s| then None else ValidateChar(s, i, Width(s[i]))
  }

  /** One step of the scan: the character at `i`, whose lead octet announces `k` octets. */
  function ValidateChar(s: seq<u8>, i: nat, k: nat): (r: Option<Utf8Error>)
    requires i < |s| && k <= 4
    ensures r.Some? ==> i <= r.value.validUpTo < |s|
    decreases |s| - i, 0
  {
    if 0 < k <= |s| - i && CharAt(s, i, k) then Validate(s, i + k)
    else Some(Utf8Error(i, ErrorLen(s, i)))
  }

  /** The buffer passes the scan. */
  predicate Valid(bytes: seq<u8>) {
    Validate(bytes, 0).None?
  }

  /** `String::from_utf8`: the bytes themselves when they pass the scan, otherwise the error. */
  function FromUtf8(bytes: seq<u8>): (r: Result<seq<u8>, FromUtf8Error>)
    ensures r.Success? ==> r.value == bytes
    ensures r.Failure? ==> r.error.bytes == bytes && r.error.error.validUpTo < |bytes|
  {
    match Validate(bytes, 0)
    case None => Success(bytes)
    case Some(e) => Failure(FromUtf8Error(bytes, e))
  }

  /** The scan checks a character exactly as the grammar does. */
  lemma CharAtIsChar(s: seq<u8>, i: nat)
    requires i < |s| && 0 < Width(s[i]) <= |s| - i
    ensures CharAt(s, i, Width(s[i])) <==> IsChar(s[i..][..Width(s[i])])
  {
    var k := Width(s[i]);
    var c := s[i..][..k];
    assert c[0] == s[i];
    assert k >= 2 ==> c[1] == s[i + 1];
    assert k >= 3 ==> c[2] == s[i + 2];
    assert k >= 4 ==> c[3] == s[i + 3];
    if CharAt(s, i, k) {
      forall j | 2 <= j < |c| ensures IsTail(c[j]) {
        assert j == 2 || j == 3;
      }
    }
  }

  /** The scan from `i` passes exactly when the rest of the buffer is well-formed. */
  lemma {:induction false} ValidateAccepts(s: seq<u8>, i: nat)
    requires i <= |s|
    ensures Validate(s, i).None? <==> WellFormed(s[i..])
    decreases |s| - i
  {
    if i < |s| {
      var t := s[i..];
      var k := Width(s[i]);
      assert t[0] == s[i];
      if 0 < k <= |s| - i {
        CharAtIsChar(s, i);
        if CharAt(s, i, k) {
          ValidateAccepts(s, i + k);
          assert t[k..] == s[i + k..];
        }
      }
    }
  }

  /** A whole character at `i`: the scan and the well-formed prefix both step over it. */
  lemma CharStep(s: seq<u8>, i: nat)
    requires i < |s| && 0 < Width(s[i]) <= |s| - i && CharAt(s, i, Width(s[i]))
    ensures Validate(s, i) == Validate(s, i + Width(s[i]))
    ensures ValidUpTo(s[i..]) == Width(s[i]) + ValidUpTo(s[i + Width(s[i])..])
  {
    var t := s[i..];
    var k := Width(s[i]);
    assert t[0] == s[i];
    CharAtIsChar(s, i);
    assert t[k..] == s[i + k..];
  }

  /** No whole character at `i`: the scan stops there, and nothing of the rest is well-formed. */
  lemma CharStop(s: seq<u8>, i: nat)
    requires i < |s| && !(0 < Width(s[i]) <= |s| - i && CharAt(s, i, Width(s[i])))
    ensures Validate(s, i) == Some(Utf8Error(i, ErrorLen(s, i)))
    ensures ValidUpTo(s[i..]) == 0
  {
    var t := s[i..];
    assert t[0] == s[i];
    if 0 < Width(s[i]) <= |s| - i {
      CharAtIsChar(s, i);
    }
  }

  /** A scan from `i` that stops, stops after the longest well-formed prefix of the rest. */
  lemma {:induction false} ValidateStops(s: seq<u8>, i: nat)
    requires i <= |s| && Validate(s, i).Some?
    ensures Validate(s, i).value == Utf8Error(i + ValidUpTo(s[i..]), ErrorLen(s, i + ValidUpTo(s[i..])))
    decreases |s| - i
  {
    var k := Width(s[i]);
    if 0 < k <= |s| - i && CharAt(s, i, k) {
      CharStep(s, i);
      ValidateStops(s, i + k);
    } else {
      CharStop(s, i);
    }
  }

  /** What the scan promises, in the grammar's terms. */
  lemma FromUtf8Spec(bytes: seq<u8>)
    ensures FromUtf8(bytes).Success? <==> WellFormed(bytes)
    ensures Valid(bytes) <==> WellFormed(bytes)
    ensures FromUtf8(bytes).Failure? ==>
      FromUtf8(bytes).error.error == Utf8Error(ValidUpTo(bytes), ErrorLen(bytes, ValidUpTo(bytes)))
  {
    ValidateAccepts(bytes, 0);
    assert bytes[0..] == bytes;
    if Validate(bytes, 0).Some? {
      ValidateStops(bytes, 0);
    }
  }

  /** The scan agrees with the grammar: the well-formed prefix is all of `s` exactly when `s` is well-formed. */
  lemma {:induction false} ValidUpToIsWhole(s: seq<u8>)
    ensures WellFormed(s) <==> ValidUpTo(s) == |s|
    decreases |s|
  {
    if s != [] {
      var k := Width(s[0]);
      if 0 < k <= |s| && IsChar(s[..k]) {
        ValidUpToIsWhole(s[k..]);
      }
    }
  }

  /** What `valid_up_to` promises: the bytes before it are well-formed. */
  lemma {:induction false} ValidPrefixIsWellFormed(s: seq<u8>)
    ensures WellFormed(s[..ValidUpTo(s)])
    decreases |s|
  {
    if s != [] {
      var k := Width(s[0]);
      if 0 < k <= |s| && IsChar(s[..k]) {
        ValidPrefixIsWellFormed(s[k..]);
        var p := s[..ValidUpTo(s)];
        assert p[..k] == s[..k];
        assert p[k..] == s[k..][..ValidUpTo(s[k..])];
      }
    }
  }

  /** A 4-octet lead followed by two tails and then an ASCII octet: nothing of it is valid, and 3 octets could still begin the character. */
  lemma CutShort(t: seq<u8>)
    requires |t| >= 4 && t[..4] == [0xF0, 0x90, 0x80, 0x57]
    ensures ValidUpTo(t) == 0 && PrefixLength(t) == 3
  {
    assert t[..4][3] == 0x57 && !IsTail(t[..4][3]);
    assert !IsChar(t[..4]);
    assert t[..3] == [0xF0, 0x90, 0x80];
    assert PrefixOk(t[..3]);
  }

  /** The source's test input "Hello \xF0\x90\x80World": a 4-octet character cut short after 3 octets, at index 6. */
  lemma TruncatedCharacterIsRejected()
    ensures FromUtf8([0x48, 0x65, 0x6C, 0x6C, 0x6F, 0x20, 0xF0, 0x90, 0x80, 0x57, 0x6F, 0x72, 0x6C, 0x64]).Failure?
    ensures FromUtf8([0x48, 0x65, 0x6C, 0x6C, 0x6F, 0x20, 0xF0, 0x90, 0x80, 0x57, 0x6F, 0x72, 0x6C, 0x64]).error.error
            == Utf8Error(6, Some(3))
  {
    var s: seq<u8> := [0x48, 0x65, 0x6C, 0x6C, 0x6F, 0x20, 0xF0, 0x90, 0x80, 0x57, 0x6F, 0x72, 0x6C, 0x64];
    CutShort(s[6..]);
    assert ErrorLen(s, 6) == Some(3);
    assert Validate(s, 6) == Some(Utf8Error(6, Some(3)));
    assert Validate(s, 0) == Validate(s, 6);
  }
}
