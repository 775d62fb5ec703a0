/**
 The C string conventions the WiFi bridge relies on: a `char*` argument is the
 characters before its terminating NUL, `strstr` searches a NUL-terminated
 buffer for a token, and `snprintf` into a fixed-size array keeps at most
 `size - 1` characters and then terminates.
 */
module CStrings {

  const NUL: char := '\0'

  /** A C string argument: the characters before its terminating NUL. */
  type CString = s: seq<char> | NUL !in s

  /** The C string a NUL-terminated buffer holds: its characters up to the first NUL. */
  function CView(buffer: seq<char>): (r: CString)
    ensures |r| <= |buffer| && r == buffer[..|r|]
    ensures |r| < |buffer| ==> buffer[|r|] == NUL
    ensures NUL !in buffer ==> r == buffer
  {
    if |buffer| == 0 then []
    else if buffer[0] == NUL then []
    else [buffer[0]] + CView(buffer[1..])
  }

  /** `token` appears in `s` starting at index `i`. */
  predicate MatchesAt(s: seq<char>, token: seq<char>, i: nat)
  {
    i + |token| <= |s| && s[i..i + |token|] == token
  }

  /** `strstr(s, token) != nullptr`: the token is a contiguous part of `s`. */
  predicate Occurs(token: seq<char>, s: seq<char>)
  {
    exists i: nat | i <= |s| :: MatchesAt(s, token, i)
  }

  /**
   The characters `snprintf(dst, size, "%s", text)` leaves in `dst` before the
   terminating NUL: all of `text` when it fits, otherwise its first `size - 1`.
   */
  function Truncate(text: CString, size: nat): (r: CString)
    requires size >= 1
    ensures |r| <= size - 1
    ensures |r| <= |text| && r == text[..|r|]
    ensures r == text <==> |text| < size
    ensures |text| >= size ==> |r| == size - 1
  {
    if |text| < size then text else text[..size - 1]
  }
}
