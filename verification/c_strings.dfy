/** Zero-terminated character buffers. */
module CStrings {
  const NUL := 0 as char

  /** The characters of a zero-terminated buffer. */
  function CString(buffer: seq<char>): (s: string)
    ensures |s| <= |buffer| && s == buffer[..|s|] && NUL !in s
    ensures NUL in buffer ==> |s| < |buffer| && buffer[|s|] == NUL
  {
    if buffer == [] || buffer[0] == NUL then [] else
    var rest := CString(buffer[1..]);
    [buffer[0]] + rest
  }

  lemma CStringUnique(buffer: seq<char>, s: string)
    requires |s| < |buffer| && buffer[..|s|] == s && buffer[|s|] == NUL && NUL !in s
    ensures CString(buffer) == s && NUL in buffer
  {
    var r := CString(buffer);
    assert forall i | 0 <= i < |s| :: buffer[i] == s[i] != NUL;
    assert forall i | 0 <= i < |r| :: buffer[i] == r[i] != NUL;
  }

  lemma {:induction false} CStringOfText(s: string)
    requires NUL !in s
    ensures CString(s) == s
  {
    if s != "" {
      CStringOfText(s[1..]);
      assert s == [s[0]] + s[1..];
    }
  }
}
