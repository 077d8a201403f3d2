/** Datatypes shared by every module. */
module Common {

  /** A value that may be absent: a null pointer, AV_NOPTS_VALUE, a missing map entry. */
  datatype Option<+T> = None | Some(value: T)

  /** An error return or an exception. */
  datatype Result<+T, +E> = Ok(value: T) | Err(error: E)

  /** An unsigned char. */
  type Byte = b: int | 0 <= b < 256

  /** The size of the arrays that sessions share by the residue of their IDs. */
  const SESSION_MAP_SIZE := 1000

  /** SessionState.hpp: the life cycle of every session. */
  datatype SessionState = SessionCreated | SessionRunning | SessionFailed | SessionCompleted

  /** The predicate AbstractSession::waitFor waits for. */
  predicate Terminal(s: SessionState) {
    s.SessionFailed? || s.SessionCompleted?
  }

  function Pow2(n: nat): (p: nat)
    ensures p >= 1
  {
    if n == 0 then 1 else 2 * Pow2(n - 1)
  }

  /** The value that a conversion to a 32-bit int keeps. */
  function ToInt32(x: int): int {
    (x + 0x8000_0000) % 0x1_0000_0000 - 0x8000_0000
  }

  /** std::isspace in the C locale. */
  predicate IsSpace(c: char) {
    c == ' ' || '\t' <= c <= '\r'
  }

  predicate StartsWith(s: string, p: string) {
    |p| <= |s| && s[..|p|] == p
  }

  lemma ConcatAssociates<T>(a: seq<T>, b: seq<T>, c: seq<T>)
    ensures a + b + c == a + (b + c)
  {
  }

  /** The length of NUL-terminated text. */
  function StrLen(s: seq<Byte>): (n: nat)
    requires 0 in s
    ensures n < |s| && s[n] == 0 && forall i | 0 <= i < n :: s[i] != 0
  {
    if s[0] == 0 then 0
    else
      assert 0 in s[1..];
      var n := StrLen(s[1..]);
      assert forall i | 1 <= i <= n :: s[i] == s[1..][i - 1];
      1 + n
  }
}
