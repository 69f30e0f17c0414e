/**
 * The accept rule for an uploaded file: its MIME type must match
 * `^image/(jpeg|png|gif|webp)$`, then its size must not exceed 10 MiB. The
 * type is checked first, so a file failing both is reported as a format
 * problem.
 */
module Intake {

  const MaxFileSize: nat := 10 * 1024 * 1024

  datatype Verdict = Accepted | UnsupportedFormat | TooLarge

  const Prefix: string := "image/"

  /** The subtypes the pattern's alternation lists. */
  predicate IsListedSubtype(s: string) {
    s == "jpeg" || s == "png" || s == "gif" || s == "webp"
  }

  /**
   * The anchored pattern, read left to right: the literal `image/`, then one
   * alternative, then the end of the string.
   */
  predicate MatchesTypePattern(mime: string) {
    |mime| >= |Prefix| && mime[..|Prefix|] == Prefix && IsListedSubtype(mime[|Prefix|..])
  }

  /** The four MIME types the upload accepts. */
  const SupportedTypes: set<string> := {"image/jpeg", "image/png", "image/gif", "image/webp"}

  /** `validateFile`: type first, then size; the alerts are not modelled. */
  function ValidateFile(mime: string, size: nat): (v: Verdict)
    ensures v == Accepted <==> mime in SupportedTypes && size <= MaxFileSize
    ensures v == TooLarge <==> mime in SupportedTypes && size > MaxFileSize
    ensures v == UnsupportedFormat <==> mime !in SupportedTypes
  {
    PatternIsAllowList(mime);
    if !MatchesTypePattern(mime) then UnsupportedFormat
    else if size > MaxFileSize then TooLarge
    else Accepted
  }

  /** The pattern matches exactly the four listed MIME types. */
  lemma PatternIsAllowList(mime: string)
    ensures MatchesTypePattern(mime) <==> mime in SupportedTypes
  {
    if mime in SupportedTypes {
      assert mime[..|Prefix|] == Prefix;
    }
    if MatchesTypePattern(mime) {
      var sub := mime[|Prefix|..];
      assert mime == Prefix + sub;
      if sub == "jpeg" {
        assert mime == "image/jpeg";
      } else if sub == "png" {
        assert mime == "image/png";
      } else if sub == "gif" {
        assert mime == "image/gif";
      } else {
        assert mime == "image/webp";
      }
    }
  }

  /** Exactly 10 MiB is still accepted; one byte more is not. */
  lemma SizeBoundary(mime: string)
    requires mime in SupportedTypes
    ensures ValidateFile(mime, 10485760) == Accepted
    ensures ValidateFile(mime, 10485761) == TooLarge
  {
  }

  /** A file with an unsupported type is reported as such whatever its size. */
  lemma FormatCheckedFirst(mime: string, size: nat)
    requires mime !in SupportedTypes
    ensures ValidateFile(mime, size) == UnsupportedFormat
  {
  }
}
