/** `truncateString`: keeps the tail of a text that is too long for the status. A Go string is a
    sequence of bytes; here each character stands for one byte. */
module Truncation {
  import opened Wrappers

  const MAX_LOG_SIZE := 4096
  const MAX_MESSAGE_SIZE := 1024
  const MARKER := "...[truncated]...\n"

  /** The slice expression in the Go code panics when its lower bound lies beyond the string, so
      the result is optional: None is the panic. */
  function TruncateString(s: string, maxLen: int): Option<string> {
    if |s| <= maxLen then Some(s)
    else
      var from := |s| - maxLen + |MARKER|;
      if 0 <= from <= |s| then Some(MARKER + s[from..]) else None
  }

  /** `truncateString` panics exactly for an over-long text and a limit below the marker's 18 bytes. */
  lemma TruncatePanicsIff(s: string, maxLen: int)
    ensures TruncateString(s, maxLen).None? <==> |s| > maxLen && maxLen < 18
  {
    assert |MARKER| == 18;
  }

  ghost predicate IsSuffix(t: string, s: string) {
    |t| <= |s| && s[|s| - |t|..] == t
  }

  /** The result has exactly min(len, maxLen) bytes. A text that fits is returned as it is; otherwise
      the result is the marker and then a tail of the text, and no longer tail would have fitted. */
  lemma TruncateKeepsLongestTail(s: string, maxLen: int)
    requires maxLen >= 18
    ensures TruncateString(s, maxLen).Some?
    ensures var t := TruncateString(s, maxLen).value;
            && |t| == (if |s| <= maxLen then |s| else maxLen)
            && (|s| <= maxLen ==> t == s)
            && (|s| > maxLen ==>
                  && t[..18] == "...[truncated]...\n"
                  && IsSuffix(t[|MARKER|..], s)
                  && forall tail: string :: IsSuffix(tail, s) && |MARKER| + |tail| <= maxLen
                                            ==> |tail| <= |t| - |MARKER|)
  {
    assert |MARKER| == 18;
    if |s| > maxLen {
      var t := TruncateString(s, maxLen).value;
      assert t[|MARKER|..] == s[|s| - maxLen + |MARKER|..];
    }
  }

  lemma FittingTextIsKept(s: string, maxLen: int)
    requires maxLen >= 18 && |s| <= maxLen
    ensures Fit(s, maxLen) == s
  {}

  /** Truncation to a limit that leaves room for the marker, as every caller's does. */
  function Fit(s: string, maxLen: int): (t: string)
    requires maxLen >= 18
    ensures |t| <= maxLen
    ensures |t| == 0 ==> |s| == 0
  {
    TruncateKeepsLongestTail(s, maxLen);
    TruncateString(s, maxLen).value
  }
}
