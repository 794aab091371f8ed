/**
 * `decode_root_hash` of the content-signature verifier: a root certificate hash
 * written as hexadecimal byte pairs separated by ':' is split on ':', every piece
 * is hex-decoded, the decodings are concatenated in order, and the result must be
 * exactly 32 bytes long (a SHA-256 digest).
 */
module ContentSignature {
  import opened Wrappers

  datatype Error = RootHashFormatError(input: string)

  /** Length in bytes of a decoded root hash. */
  const HASH_LEN: nat := 32

  // ---------------------------------------------------------------------------
  // `str::split`

  /** The position of the first occurrence of `c` in `s`. */
  function IndexOf(s: string, c: char): (i: nat)
    requires c in s
    ensures i < |s| && s[i] == c
    ensures forall k :: 0 <= k < i ==> s[k] != c
  {
    if s[0] == c then 0
    else
      assert c in s[1..];
      1 + IndexOf(s[1..], c)
  }

  /** The pieces of `ps` with `sep` between consecutive pieces (the inverse of Split). */
  function Join(ps: seq<string>, sep: char): string
  {
    if ps == [] then ""
    else if |ps| == 1 then ps[0]
    else ps[0] + [sep] + Join(ps[1..], sep)
  }

  /**
   * Rust's `s.split(sep)`: the maximal runs of characters between occurrences of
   * `sep`, in order. There is always at least one piece (the empty string gives
   * one empty piece), no piece contains `sep`, and joining the pieces back with
   * `sep` gives `s` again.
   */
  function Split(s: string, sep: char): (ps: seq<string>)
    ensures |ps| >= 1
    ensures forall k :: 0 <= k < |ps| ==> sep !in ps[k]
    ensures Join(ps, sep) == s
    decreases |s|
  {
    if sep !in s then [s]
    else
      var i := IndexOf(s, sep);
      var rest := Split(s[i + 1..], sep);
      assert s == s[..i] + [sep] + s[i + 1..];
      assert sep !in s[..i];
      [s[..i]] + rest
  }

  /** The first occurrence of `c` is at `j` when `s[j] == c` and no earlier character is `c`. */
  lemma FirstIndexAt(s: string, c: char, j: nat)
    requires j < |s| && s[j] == c
    requires forall k :: 0 <= k < j ==> s[k] != c
    ensures c in s && IndexOf(s, c) == j
  {
  }

  /** Splitting a join gives the pieces back, provided no piece contains the separator. */
  lemma {:induction false} SplitJoin(ps: seq<string>, sep: char)
    requires |ps| >= 1
    requires forall k :: 0 <= k < |ps| ==> sep !in ps[k]
    ensures Split(Join(ps, sep), sep) == ps
  {
    if |ps| > 1 {
      var s := Join(ps, sep);
      var n := |ps[0]|;
      assert s == ps[0] + [sep] + Join(ps[1..], sep);
      assert s[..n] == ps[0];
      assert forall k :: 0 <= k < n ==> s[k] == ps[0][k];
      FirstIndexAt(s, sep, n);
      assert s[n + 1..] == Join(ps[1..], sep);
      SplitJoin(ps[1..], sep);
    } else {
      assert Join(ps, sep) == ps[0];
    }
  }

  // ---------------------------------------------------------------------------
  // `hex::decode`

  /** The value of a hexadecimal digit; both letter cases are accepted. */
  function HexDigit(c: char): Option<nat>
  {
    if '0' <= c <= '9' then Some(c as int - '0' as int)
    else if 'a' <= c <= 'f' then Some(c as int - 'a' as int + 10)
    else if 'A' <= c <= 'F' then Some(c as int - 'A' as int + 10)
    else None
  }

  predicate IsHexDigit(c: char)
  {
    HexDigit(c).Some?
  }

  /**
   * `hex::decode`: an even number of hex digits decodes to one byte per pair,
   * high nibble first; an odd length or any other character is an error.
   */
  function HexDecode(s: string): (r: Option<seq<u8>>)
    ensures r.Some? <==> |s| % 2 == 0 && forall i :: 0 <= i < |s| ==> IsHexDigit(s[i])
    ensures r.Some? ==> |r.value| == |s| / 2
  {
    if |s| == 0 then Some([])
    else if |s| == 1 || !IsHexDigit(s[0]) || !IsHexDigit(s[1]) then None
    else
      assert forall i :: 2 <= i < |s| ==> s[i] == s[2..][i - 2];
      match HexDecode(s[2..])
      case None => None
      case Some(tail) =>
        var hi, lo := HexDigit(s[0]).value, HexDigit(s[1]).value;
        Some([(16 * hi + lo) as u8] + tail)
  }

  /**
   * The decodings of the pieces, concatenated in order; None as soon as one piece
   * is not valid hex. Defined on the last piece so that it follows the loop of
   * DecodeRootHash piece by piece.
   */
  function DecodePieces(ps: seq<string>): (r: Option<seq<u8>>)
    ensures r.Some? <==> forall k :: 0 <= k < |ps| ==> HexDecode(ps[k]).Some?
  {
    if ps == [] then Some([])
    else
      var init := ps[..|ps| - 1];
      assert forall k :: 0 <= k < |init| ==> init[k] == ps[k];
      match DecodePieces(init)
      case None => None
      case Some(prefix) =>
        match HexDecode(ps[|ps| - 1])
        case None => None
        case Some(last) => Some(prefix + last)
  }

  /** The specification of `decode_root_hash`. */
  function RootHash(input: string): (r: Result<seq<u8>, Error>)
    ensures r.Ok? ==> |r.value| == HASH_LEN
    ensures r.Err? ==> r.error == RootHashFormatError(input)
  {
    match DecodePieces(Split(input, ':'))
    case None => Err(RootHashFormatError(input))
    case Some(bytes) => if |bytes| != HASH_LEN then Err(RootHashFormatError(input)) else Ok(bytes)
  }

  /**
   * `decode_root_hash`: the loop decodes the ':'-separated pieces one at a time,
   * extending `result`, and returns the format error at the first bad piece; the
   * final length check rejects anything but 32 bytes.
   */
  method DecodeRootHash(input: string) returns (r: Result<seq<u8>, Error>)
    ensures r == RootHash(input)
    ensures r.Ok? <==> DecodePieces(Split(input, ':')).Some? && |DecodePieces(Split(input, ':')).value| == HASH_LEN
    ensures r.Ok? ==> r.value == DecodePieces(Split(input, ':')).value && |r.value| == HASH_LEN
  {
    var pieces := Split(input, ':');
    var result: seq<u8> := [];
    var i := 0;
    while i < |pieces|
      invariant 0 <= i <= |pieces|
      invariant DecodePieces(pieces[..i]) == Some(result)
    {
      var bytes := HexDecode(pieces[i]);
      assert pieces[..i + 1][..i] == pieces[..i];
      if bytes.None? {
        DecodeNonePrefix(pieces, i + 1);
        return Err(RootHashFormatError(input));
      }
      result := result + bytes.value;
      i := i + 1;
    }
    assert pieces[..i] == pieces;
    if |result| != HASH_LEN {
      return Err(RootHashFormatError(input));
    }
    return Ok(result);
  }

  /** A bad piece in a prefix makes the whole list undecodable. */
  lemma DecodeNonePrefix(ps: seq<string>, n: nat)
    requires n <= |ps|
    requires DecodePieces(ps[..n]).None?
    ensures DecodePieces(ps).None?
  {
    var k :| 0 <= k < n && HexDecode(ps[..n][k]).None?;
    assert HexDecode(ps[k]).None?;
  }

  // ---------------------------------------------------------------------------
  // Properties

  /** Any piece that is not valid hex (odd length or a non-hex character) makes the input a format error. */
  lemma BadPieceRejected(input: string, k: nat)
    requires k < |Split(input, ':')|
    requires HexDecode(Split(input, ':')[k]).None?
    ensures RootHash(input) == Err(RootHashFormatError(input))
  {
  }

  /** A successful decode is the in-order concatenation of the decodings of the pieces. */
  lemma {:induction false} DecodePiecesConcat(ps: seq<string>, qs: seq<string>)
    requires DecodePieces(ps).Some? && DecodePieces(qs).Some?
    ensures DecodePieces(ps + qs) == Some(DecodePieces(ps).value + DecodePieces(qs).value)
    decreases |qs|
  {
    if qs == [] {
      assert ps + qs == ps;
      assert DecodePieces(ps).value + [] == DecodePieces(ps).value;
    } else {
      var qi := qs[..|qs| - 1];
      assert (ps + qs)[..|ps + qs| - 1] == ps + qi;
      var last := qs[|qs| - 1];
      assert (ps + qs)[|ps + qs| - 1] == last;
      assert HexDecode(last).Some?;
      assert DecodePieces(qs) == Some(DecodePieces(qi).value + HexDecode(last).value);
      assert DecodePieces(ps + qs) == Some(DecodePieces(ps + qi).value + HexDecode(last).value);
      var a, b, c := DecodePieces(ps).value, DecodePieces(qi).value, HexDecode(last).value;
      assert (a + b) + c == a + (b + c);
      assert DecodePieces(qi).Some?;
      DecodePiecesConcat(ps, qi);
    }
  }

  /** The upper-case hex digit for a nibble. */
  function HexUpper(n: nat): (c: char)
    requires n < 16
  {
    if n < 10 then ('0' as int + n) as char else ('A' as int + n - 10) as char
  }

  lemma HexUpperDigit(n: nat)
    requires n < 16
    ensures HexDigit(HexUpper(n)) == Some(n)
  {
  }

  /** One byte as two upper-case hex digits, as in the `ROOT_HASH` test constant. */
  function EncodeByte(b: u8): (s: string)
  {
    [HexUpper(b as nat / 16), HexUpper(b as nat % 16)]
  }

  lemma DecodeEncodeByte(b: u8)
    ensures ':' !in EncodeByte(b)
    ensures HexDecode(EncodeByte(b)) == Some([b])
  {
    var s := EncodeByte(b);
    HexUpperDigit(b as nat / 16);
    HexUpperDigit(b as nat % 16);
    assert s[2..] == [];
    assert HexDecode(s[2..]) == Some([]);
    assert 16 * (b as nat / 16) + b as nat % 16 == b as nat;
    assert HexDecode(s) == Some([b] + []);
    assert [b] + [] == [b];
  }

  /** Bytes written as two-digit hex pairs separated by ':'. */
  function EncodePieces(bytes: seq<u8>): (ps: seq<string>)
    ensures |ps| == |bytes|
    ensures forall k :: 0 <= k < |ps| ==> ps[k] == EncodeByte(bytes[k])
  {
    if bytes == [] then [] else EncodePieces(bytes[..|bytes| - 1]) + [EncodeByte(bytes[|bytes| - 1])]
  }

  lemma {:induction false} DecodeEncodePieces(bytes: seq<u8>)
    ensures DecodePieces(EncodePieces(bytes)) == Some(bytes)
  {
    if bytes != [] {
      var init, last := bytes[..|bytes| - 1], bytes[|bytes| - 1];
      var ps := EncodePieces(bytes);
      assert ps == EncodePieces(init) + [EncodeByte(last)];
      assert ps[..|ps| - 1] == EncodePieces(init);
      assert ps[|ps| - 1] == EncodeByte(last);
      DecodeEncodePieces(init);
      DecodeEncodeByte(last);
      assert DecodePieces(ps) == Some(init + [last]);
      assert init + [last] == bytes;
    }
  }

  /** Thirty-two bytes written as ':'-separated hex pairs decode back to those bytes. */
  lemma RootHashRoundTrip(bytes: seq<u8>)
    requires |bytes| == HASH_LEN
    ensures RootHash(Join(EncodePieces(bytes), ':')) == Ok(bytes)
  {
    var ps := EncodePieces(bytes);
    forall k | 0 <= k < |ps| ensures ':' !in ps[k] {
      DecodeEncodeByte(bytes[k]);
    }
    SplitJoin(ps, ':');
    DecodeEncodePieces(bytes);
  }

  /** The test vector of contentsignature.rs: the 32 pairs of `ROOT_HASH`, joined by ':'. */
  const ROOT_HASH_PAIRS: seq<string> := [
    "3C", "01", "44", "6A", "BE", "90", "36", "CE", "A9", "A0", "9A", "CA", "A3", "A5", "20", "AC",
    "62", "8F", "20", "A7", "AE", "32", "CE", "86", "1C", "B2", "EF", "B7", "0F", "A0", "C7", "45"]

  const ROOT_HASH: string := Join(ROOT_HASH_PAIRS, ':')

  const ROOT_HASH_BYTES: seq<u8> := [
    60, 1, 68, 106, 190, 144, 54, 206, 169, 160, 154, 202, 163, 165, 32, 172,
    98, 143, 32, 167, 174, 50, 206, 134, 28, 178, 239, 183, 15, 160, 199, 69]

  lemma RootHashPairsEncodeBytes()
    ensures ROOT_HASH_PAIRS == EncodePieces(ROOT_HASH_BYTES)
  {
    RootHashPairs0();
    RootHashPairs1();
    RootHashPairs2();
    RootHashPairs3();
  }

  /** Pairs 0 to 7 of the test vector. */
  lemma RootHashPairs0()
    ensures forall k :: 0 <= k < 8 ==> ROOT_HASH_PAIRS[k] == EncodeByte(ROOT_HASH_BYTES[k])
  {
  }

  /** Pairs 8 to 15 of the test vector. */
  lemma RootHashPairs1()
    ensures forall k :: 8 <= k < 16 ==> ROOT_HASH_PAIRS[k] == EncodeByte(ROOT_HASH_BYTES[k])
  {
  }

  /** Pairs 16 to 23 of the test vector. */
  lemma RootHashPairs2()
    ensures forall k :: 16 <= k < 24 ==> ROOT_HASH_PAIRS[k] == EncodeByte(ROOT_HASH_BYTES[k])
  {
  }

  /** Pairs 24 to 31 of the test vector. */
  lemma RootHashPairs3()
    ensures forall k :: 24 <= k < 32 ==> ROOT_HASH_PAIRS[k] == EncodeByte(ROOT_HASH_BYTES[k])
  {
  }
  /** `ROOT_HASH` decodes to the byte vector listed in the test. */
  lemma RootHashTestVector()
    ensures RootHash(ROOT_HASH) == Ok(ROOT_HASH_BYTES)
  {
    RootHashPairsEncodeBytes();
    RootHashRoundTrip(ROOT_HASH_BYTES);
  }

  /** "meh!" is not hex: rejected. */
  lemma RootHashRejectsNonHex()
    ensures RootHash("meh!") == Err(RootHashFormatError("meh!"))
  {
    assert Split("meh!", ':') == ["meh!"];
    assert !IsHexDigit("meh!"[0]);
  }

  /** "3C:01:44" is valid hex but only three bytes long: rejected. */
  lemma RootHashRejectsShort()
    ensures RootHash("3C:01:44") == Err(RootHashFormatError("3C:01:44"))
  {
    var ps := ["3C", "01", "44"];
    assert ps == EncodePieces([60, 1, 68]);
    assert Join(ps, ':') == "3C:01:44";
    forall k | 0 <= k < |ps| ensures ':' !in ps[k] {
      DecodeEncodeByte([60 as u8, 1, 68][k]);
    }
    SplitJoin(ps, ':');
    DecodeEncodePieces([60, 1, 68]);
  }
}
