/** The runtime's error record (runtime/rt_error.c, runtime/rt_error.h): one global record holding
    the last error code, a fixed 256-byte message buffer, and the file and line that set it.

    The record is a class whose fields `Set` and `Clear` overwrite.  The message buffer is modelled
    by its contents up to the terminating NUL; a C string argument is modelled as the characters
    that reach the first NUL, as `strncpy` reads them. */
module RtError {
  import opened Wrappers

  /** RT_ERROR_BUFFER_SIZE: the message buffer, terminating NUL included. */
  const BufferSize: nat := 256

  // rt_error_code_t
  const Success: int := 0
  const NoMem: int := 1
  const DivZero: int := 2
  const Overflow: int := 3
  const Invalid: int := 4
  const IoError: int := 5
  const UnknownError: int := 99

  const KnownCodes: set<int> := {Success, NoMem, DivZero, Overflow, Invalid, IoError, UnknownError}

  /** rt_error_string: fixed text per code, "Unknown error" for RT_ERROR_UNKNOWN and any code the
      enumeration does not name. */
  function ErrorString(code: int): (s: string)
    ensures code !in KnownCodes ==> s == "Unknown error"
    ensures |s| < BufferSize && '\0' !in s
  {
    if code == Success then "Success"
    else if code == NoMem then "Out of memory"
    else if code == DivZero then "Division by zero"
    else if code == Overflow then "Arithmetic overflow"
    else if code == Invalid then "Invalid argument"
    else if code == IoError then "I/O error"
    else "Unknown error"
  }

  /** Each of the six codes other than RT_ERROR_UNKNOWN has its own text. */
  lemma ErrorStringsDistinct(a: int, b: int)
    requires a in KnownCodes - {UnknownError} && b in KnownCodes && a != b
    ensures ErrorString(a) != ErrorString(b)
  {
  }

  /** The characters of a C string: everything before the first NUL. */
  function CString(s: seq<char>): (r: seq<char>)
    ensures |r| <= |s| && r == s[..|r|] && '\0' !in r
    ensures |r| < |s| ==> s[|r|] == '\0'
    ensures '\0' !in s ==> r == s
  {
    if s == [] || s[0] == '\0' then [] else [s[0]] + CString(s[1..])
  }

  /** What `strncpy(buf, m, 255)` followed by `buf[255] = 0` leaves in the buffer. */
  function StoredMessage(m: seq<char>): (r: string)
    ensures |r| < BufferSize && '\0' !in r
    ensures |r| <= |CString(m)| && r == CString(m)[..|r|]
    ensures |CString(m)| < BufferSize ==> r == CString(m)
    ensures |CString(m)| >= BufferSize ==> |r| == BufferSize - 1
  {
    var c := CString(m);
    if |c| < BufferSize then c else c[..BufferSize - 1]
  }

  /** rt_last_error. */
  class ErrorState {
    var code: int
    var message: string
    var file: Option<string>
    var line: int

    ghost predicate Valid()
      reads this
    {
      |message| < BufferSize && '\0' !in message
    }

    /** The record's static initial value: no error. */
    constructor()
      ensures Valid() && code == Success && message == "" && file == None && line == 0
    {
      code := Success;
      message := "";
      file := None;
      line := 0;
    }

    /** RT_HAS_ERROR. */
    function HasError(): (r: bool)
      reads this
    {
      code != Success
    }

    /** rt_error_set: code, file and line stored; the message truncated to the buffer, or the
        code's own text when the message is NULL. */
    method Set(c: int, msg: Option<seq<char>>, f: Option<string>, l: int)
      modifies this
      ensures Valid() && code == c && file == f && line == l
      ensures message == StoredMessage(if msg.Some? then msg.value else ErrorString(c))
      ensures HasError() <==> c != Success
    {
      code := c;
      file := f;
      line := l;
      if msg.Some? {
        message := StoredMessage(msg.value);
      } else {
        message := StoredMessage(ErrorString(c));
      }
    }

    /** rt_error_clear: back to no error, with an empty message and no location. */
    method Clear()
      modifies this
      ensures Valid() && code == Success && message == "" && file == None && line == 0
      ensures !HasError()
    {
      code := Success;
      message := "";
      file := None;
      line := 0;
    }
  }

  /** A code's own text is stored whole when rt_error_set gets a NULL message. */
  lemma {:induction false} DefaultMessageWhole(c: int)
    ensures StoredMessage(ErrorString(c)) == ErrorString(c)
  {
    CStringNoNul(ErrorString(c));
  }

  lemma {:induction false} CStringNoNul(s: seq<char>)
    requires '\0' !in s
    ensures CString(s) == s
  {
    if s != [] {
      assert s[0] in s;
      assert '\0' !in s[1..] by {
        forall i | 0 <= i < |s[1..]| ensures s[1..][i] != '\0' { assert s[1..][i] == s[i + 1]; }
      }
      CStringNoNul(s[1..]);
    }
  }
}
