/** The MD5 tool (`ToolMd5View.ts`): `generateMd5` and the formatting of
    the digest it displays. The digest function is the `md5` export of
    js-md5, which is not part of this model: it is a parameter. */
module ToolMd5View {
  import opened JsRuntime

  /** The case the options ask for: "upper" upper-cases, any other value
      (the default is "lower") lower-cases. */
  function InCase(hashCase: string, c: char): (d: char)
    ensures SameUpToCase(d, c)
    ensures hashCase == "upper" ==> !IsAsciiLower(d)
    ensures hashCase != "upper" ==> !IsAsciiUpper(d)
  {
    if hashCase == "upper" then UpperChar(c) else LowerChar(c)
  }

  /** The digest as displayed: with type "16", characters 8 to 23 of it
      (`substring(8, 24)`), otherwise all of it; then mapped to the case
      asked for. */
  function FormatDigest(digest: string, hashType: string, hashCase: string): (r: string)
    ensures hashType == "16" && 24 <= |digest| ==>
      |r| == 16 && forall i :: 0 <= i < 16 ==> r[i] == InCase(hashCase, digest[8 + i])
    ensures hashType != "16" ==>
      |r| == |digest| && forall i :: 0 <= i < |r| ==> r[i] == InCase(hashCase, digest[i])
    ensures hashCase == "upper" ==> forall i :: 0 <= i < |r| ==> !IsAsciiLower(r[i])
    ensures hashCase != "upper" ==> forall i :: 0 <= i < |r| ==> !IsAsciiUpper(r[i])
  {
    var kept := if hashType == "16" then Substring(digest, 8, 24) else digest;
    if hashCase == "upper" then ToUpperAscii(kept) else ToLowerAscii(kept)
  }

  predicate IsLowerHexDigit(c: char) {
    '0' <= c <= '9' || 'a' <= c <= 'f'
  }

  /** What js-md5 is assumed to return: 32 lower-case hexadecimal digits
      (the 128-bit digest of RFC 1321). */
  predicate IsMd5Hex(d: string) {
    |d| == 32 && forall i :: 0 <= i < |d| ==> IsLowerHexDigit(d[i])
  }

  /** For a digest of the assumed shape, the 16-character form is the
      contiguous middle slice `digest[8..24]`, exactly so in lower case and
      up to case in upper case; the 32-character form in lower case is the
      digest itself. */
  lemma FormatMd5Hex(digest: string, hashCase: string)
    requires IsMd5Hex(digest)
    ensures |FormatDigest(digest, "16", hashCase)| == 16
    ensures hashCase != "upper" ==> FormatDigest(digest, "16", hashCase) == digest[8..24]
    ensures hashCase == "upper" ==> ToLowerAscii(FormatDigest(digest, "16", hashCase)) == digest[8..24]
    ensures hashCase != "upper" ==> FormatDigest(digest, "32", hashCase) == digest
    ensures hashCase == "upper" ==> ToLowerAscii(FormatDigest(digest, "32", hashCase)) == digest
  {
    var middle := digest[8..24];
    LowerAfterUpper(middle);
    LowerAfterUpper(digest);
  }

  class Md5Tool {
    var inputText: string
    var outputHash: string
    var isProcessing: bool
    var hashType: string
    var hashCase: string

    /** The refs and the reactive options as `setup` declares them. */
    constructor ()
      ensures inputText == "" && outputHash == "" && !isProcessing
      ensures hashType == "32" && hashCase == "lower"
    {
      inputText := "";
      outputHash := "";
      isProcessing := false;
      hashType := "32";
      hashCase := "lower";
    }

    /** `generateMd5`. Returns the text it hashed, `None` when the guard
        stopped it. A blank input changes nothing and hashes nothing.
        Otherwise the untrimmed input is hashed; on success the formatted
        digest becomes the output, on a thrown error the output is kept,
        and `isProcessing` ends false either way. */
    method GenerateMd5(md5: string -> Result<string>) returns (hashed: Option<string>)
      modifies this
      ensures inputText == old(inputText)
      ensures hashType == old(hashType) && hashCase == old(hashCase)
      ensures Blank(old(inputText)) ==>
        hashed == None && outputHash == old(outputHash) && isProcessing == old(isProcessing)
      ensures !Blank(old(inputText)) ==>
        && hashed == Some(old(inputText))
        && !isProcessing
        && outputHash == match md5(old(inputText))
                         case Ok(digest) => FormatDigest(digest, hashType, hashCase)
                         case Threw(_) => old(outputHash)
    {
      if Blank(inputText) {
        return None;
      }
      isProcessing := true;
      hashed := Some(inputText);
      var digest := md5(inputText);
      match digest {
        case Ok(d) =>
          var result := d;
          if hashType == "16" {
            result := Substring(result, 8, 24);
          }
          result := if hashCase == "upper" then ToUpperAscii(result) else ToLowerAscii(result);
          outputHash := result;
          isProcessing := false;
        case Threw(_) =>
          isProcessing := false;
      }
    }
  }
}
