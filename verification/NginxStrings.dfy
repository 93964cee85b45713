/**
 nginx's counted strings as C strings in stack buffers (nginx/ngx_http_pinpoint_module.c:252-258).
 */
module NginxStrings {
  import opened Text

  /** Copies `src`, as far as it fits, into a NUL-terminated buffer. */
  method CopyToCString(src: string, dst: array<char>)
    requires dst.Length > 0
    modifies dst
    ensures var n := if |src| < dst.Length - 1 then |src| else dst.Length - 1;
            dst[..n + 1] == src[..n] + [NUL] && CStr(dst[..]) == CStr(src[..n])
  {
    var n := if |src| < dst.Length - 1 then |src| else dst.Length - 1;
    for i := 0 to n
      invariant dst[..i] == src[..i]
    {
      dst[i] := src[i];
    }
    dst[n] := NUL;
    CStrStopsAtNul(dst[..], n);
    assert dst[..][..n] == src[..n];
  }

  /** A NUL ends the C string, whatever is behind it. */
  lemma {:induction false} CStrStopsAtNul(s: string, n: nat)
    requires n < |s| && s[n] == NUL
    ensures CStr(s) == CStr(s[..n])
  {
    if n > 0 {
      CStrStopsAtNul(s[1..], n - 1);
      assert s[..n][1..] == s[1..][..n - 1];
    }
  }

  /** `src` as a reader finds it in a stack buffer of `size` characters. */
  function Truncated(src: string, size: nat): string
    requires size > 0
  {
    CStr(src[..if |src| < size - 1 then |src| else size - 1])
  }

  method StackString(src: string, size: nat) returns (s: string)
    requires size > 0
    ensures s == Truncated(src, size)
  {
    var buffer := new char[size];
    CopyToCString(src, buffer);
    s := CStr(buffer[..]);
  }

  /** Short strings are seen whole, longer ones as far as the buffer goes, if there is no NUL. */
  lemma TruncatedIs(src: string, size: nat)
    requires size > 0
    ensures Truncated(src, size) <= src && |Truncated(src, size)| < size && NUL !in Truncated(src, size)
    ensures NUL !in src && |src| < size ==> Truncated(src, size) == src
    ensures NUL !in src && |src| >= size ==> Truncated(src, size) == src[..size - 1]
  {
    var kept := src[..if |src| < size - 1 then |src| else size - 1];
    assert NUL !in src ==> NUL !in kept;
    assert |src| < size ==> kept == src;
  }
}
