/**
 * Reading an MD5 checksum file: the content is either the bare 32-character sum or,
 * in the layout `md5sum` writes, the sum, a run of spaces and a file name.
 */
module Checksums {
  import opened Wrappers

  /** The sum as text, its bytes (decoded from the hex text) and an optional file name. */
  datatype MD5 = MD5(sum: Option<string>, bytes: Option<seq<bv8>>, fileName: Option<string>)

  /** What `parseMD5` throws. */
  datatype MD5Error =
    | InvalidChecksum(content: string)   // MD5Exception
    | IndexOutOfBounds(index: nat)       // StringIndexOutOfBoundsException from String.charAt

  /** The hex decoder of the sum; it is not part of this model and comes in as a function. */
  type HexDecoder = Option<string> -> Option<seq<bv8>>

  /** Length of a checksum in hex characters. */
  const SumLength: nat := 32

  function Spaces(n: nat): (s: string)
    ensures |s| == n && forall i :: 0 <= i < n ==> s[i] == ' '
  {
    seq(n, _ => ' ')
  }

  /** `str.indexOf(" ") == 32`: the first space of `str` is the one right after the sum. */
  predicate FirstSpaceAfterSum(str: string) {
    |str| > SumLength && str[SumLength] == ' ' && ' ' !in str[..SumLength]
  }

  /** The end of the run of spaces that starts at `i`: the first non-space at or after `i`, or the end. */
  function SpaceRunEnd(s: string, i: nat): (j: nat)
    requires i <= |s|
    ensures i <= j <= |s|
    ensures forall k :: i <= k < j ==> s[k] == ' '
    ensures j == |s| || s[j] != ' '
    decreases |s| - i
  {
    if i == |s| || s[i] != ' ' then i else SpaceRunEnd(s, i + 1)
  }

  /**
   * The result `parseMD5` is meant to give for the content `str`: nothing for empty
   * content, the whole content for exactly 32 characters, and for longer content whose
   * first space follows the sum, the sum and the name after the spaces; everything
   * else, a sum followed by spaces only included, is rejected.
   */
  function Parsed(str: string, fromHex: HexDecoder): (r: Result<MD5, MD5Error>)
    ensures r.Failure? ==> r.error == InvalidChecksum(str)
    ensures r.Success? && r.value.fileName.None? ==> |str| == 0 || |str| == SumLength
    ensures r.Success? ==> r.value.bytes == fromHex(r.value.sum)
    ensures r.Success? && r.value.sum.Some? ==> |str| >= SumLength && r.value.sum.value == str[..SumLength]
    ensures r.Success? && r.value.fileName.Some? ==>
      var name := r.value.fileName.value;
      && name != [] && name[0] != ' '
      && |str| > SumLength + |name|
      && str == str[..SumLength] + Spaces(|str| - SumLength - |name|) + name
  {
    if |str| == 0 then Success(MD5(None, fromHex(None), None))
    else if |str| < SumLength then Failure(InvalidChecksum(str))
    else if |str| == SumLength then Success(MD5(Some(str), fromHex(Some(str)), None))
    else if |str| == SumLength + 1 || !FirstSpaceAfterSum(str) then Failure(InvalidChecksum(str))
    else
      var j := SpaceRunEnd(str, SumLength);
      if j == |str| then Failure(InvalidChecksum(str))
      else
        assert str == str[..SumLength] + str[SumLength..j] + str[j..];
        assert str[SumLength..j] == Spaces(j - SumLength);
        Success(MD5(Some(str[..SumLength]), fromHex(Some(str[..SumLength])), Some(str[j..])))
  }

  /**
   * `parseMD5` on the content of the file, with the scan over the spaces stopping at the
   * end of the content, which the rejection of a sum followed by spaces only needs.
   */
  method ParseMD5(str: string, fromHex: HexDecoder) returns (r: Result<MD5, MD5Error>)
    ensures r == Parsed(str, fromHex)
  {
    var name: Option<string> := None;
    var sum: Option<string> := None;
    if |str| > 0 {
      if |str| < SumLength {
        return Failure(InvalidChecksum(str));
      }
      if |str| == SumLength {
        sum := Some(str);
      } else if |str| > SumLength + 1 {
        if FirstSpaceAfterSum(str) {
          sum := Some(str[..SumLength]);
          var index := SumLength;
          while index < |str| && str[index] == ' '
            invariant SumLength <= index <= |str|
            invariant SpaceRunEnd(str, SumLength) == SpaceRunEnd(str, index)
            decreases |str| - index
          {
            index := index + 1;
          }
          if index == |str| {
            return Failure(InvalidChecksum(str));
          }
          name := Some(str[index..]);
        } else {
          return Failure(InvalidChecksum(str));
        }
      } else {
        return Failure(InvalidChecksum(str));
      }
    }
    return Success(MD5(sum, fromHex(sum), name));
  }

  /** The content the scan of `parseMD5` runs off: a sum, then spaces up to the end. */
  predicate SumThenOnlySpaces(str: string) {
    |str| > SumLength + 1 && FirstSpaceAfterSum(str) && SpaceRunEnd(str, SumLength) == |str|
  }

  /**
   * `parseMD5` as written: the scan `while (str.charAt(index) == ' ')` has no bound, so
   * content that ends in the run of spaces makes `charAt` read at the length and throw
   * before the check that would reject it with an MD5Exception is reached. On all other
   * content it gives the intended result.
   */
  method ParseMD5AsWritten(str: string, fromHex: HexDecoder) returns (r: Result<MD5, MD5Error>)
    ensures SumThenOnlySpaces(str) ==> r == Failure(IndexOutOfBounds(|str|))
    ensures !SumThenOnlySpaces(str) ==> r == Parsed(str, fromHex)
  {
    var name: Option<string> := None;
    var sum: Option<string> := None;
    if |str| > 0 {
      if |str| < SumLength {
        return Failure(InvalidChecksum(str));
      }
      if |str| == SumLength {
        sum := Some(str);
      } else if |str| > SumLength + 1 {
        if FirstSpaceAfterSum(str) {
          sum := Some(str[..SumLength]);
          var index := SumLength;
          while true
            invariant SumLength <= index <= |str|
            invariant SpaceRunEnd(str, SumLength) == SpaceRunEnd(str, index)
            decreases |str| - index
          {
            if index == |str| {
              // charAt(length)
              return Failure(IndexOutOfBounds(index));
            }
            if str[index] != ' ' {
              break;
            }
            index := index + 1;
          }
          name := Some(str[index..]);
        } else {
          return Failure(InvalidChecksum(str));
        }
      } else {
        return Failure(InvalidChecksum(str));
      }
    }
    return Success(MD5(sum, fromHex(sum), name));
  }

  /** The intended parser rejects every sum followed by spaces only as an invalid checksum. */
  lemma SumThenSpacesIsRejected(str: string, fromHex: HexDecoder)
    requires SumThenOnlySpaces(str)
    ensures Parsed(str, fromHex) == Failure(InvalidChecksum(str))
  {
  }

  /** A sum followed by two spaces is such content. */
  lemma SumThenTwoSpaces()
    ensures SumThenOnlySpaces(seq(SumLength, _ => 'a') + "  ")
  {
    var str := seq(SumLength, _ => 'a') + "  ";
    assert str[..SumLength] == seq(SumLength, _ => 'a');
    assert SpaceRunEnd(str, SumLength + 2) == |str|;
  }

  /** The outcomes by length: empty content, too short, exactly one sum, length 33, and a first space elsewhere. */
  lemma ParsedByLength(str: string, fromHex: HexDecoder)
    ensures |str| == 0 ==> Parsed(str, fromHex) == Success(MD5(None, fromHex(None), None))
    ensures 0 < |str| < SumLength || |str| == SumLength + 1 ==> Parsed(str, fromHex) == Failure(InvalidChecksum(str))
    ensures |str| == SumLength ==> Parsed(str, fromHex) == Success(MD5(Some(str), fromHex(Some(str)), None))
    ensures |str| > SumLength + 1 && !FirstSpaceAfterSum(str) ==> Parsed(str, fromHex) == Failure(InvalidChecksum(str))
  {
  }

  /**
   * The `md5sum` layout reads back: a 32-character sum without spaces, one or more
   * spaces and a name that does not start with a space give that sum and that name.
   * The content `writeMD5` writes, the sum alone, reads back to the sum without a name.
   */
  lemma {:induction false} ParseOfWritten(sum: string, gap: nat, name: string, fromHex: HexDecoder)
    requires |sum| == SumLength && ' ' !in sum
    requires gap > 0 && name != [] && name[0] != ' '
    ensures Parsed(sum + Spaces(gap) + name, fromHex) == Success(MD5(Some(sum), fromHex(Some(sum)), Some(name)))
    ensures Parsed(sum, fromHex) == Success(MD5(Some(sum), fromHex(Some(sum)), None))
  {
    var str := sum + Spaces(gap) + name;
    assert str[..SumLength] == sum;
    assert str[SumLength] == ' ';
    SpaceRunFrom(str, SumLength, SumLength + gap);
    assert str[SumLength + gap..] == name;
  }

  /** A run of spaces from `i` to a non-space at `j` ends at `j`. */
  lemma {:induction false} SpaceRunFrom(s: string, i: nat, j: nat)
    requires i <= j < |s| && s[j] != ' '
    requires forall k :: i <= k < j ==> s[k] == ' '
    ensures SpaceRunEnd(s, i) == j
    decreases j - i
  {
    if i < j {
      SpaceRunFrom(s, i + 1, j);
    }
  }
}
