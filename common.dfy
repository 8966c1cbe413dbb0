/** Small shared vocabulary: an Option type, byte-sized integers and the
    C-string helpers (`strlcpy`, ASCII case folding) several modules need. */
module Common {

  datatype Option<+T> = None | Some(value: T)

  type byte = x: int | 0 <= x < 256
  type uint16 = x: int | 0 <= x < 0x1_0000
  type uint32 = x: int | 0 <= x < 0x1_0000_0000
  type uint64 = x: int | 0 <= x < 0x1_0000_0000_0000_0000

  /** A C string: its characters up to, not including, the terminating NUL. */
  type CString = s: string | '\0' !in s

  /** What `strlcpy(dst, src, size)` leaves in `dst`: at most `size - 1`
      characters of `src` (nothing when `size` is 0). */
  function Strlcpy(src: string, size: nat): (r: string)
    ensures |r| <= |src| && r == src[..|r|]
    ensures size > 0 ==> |r| < size
    ensures |src| < size ==> r == src
  {
    if size == 0 then "" else if |src| < size then src else src[..size - 1]
  }

  /** isdigit in the C locale, and `\d` on ASCII text. */
  predicate IsDigit(c: char)
  {
    '0' <= c <= '9'
  }

  /** ASCII lower-casing: the model's stand-in for the case folding of
      smb_strcasecmp, which is not part of this model. */
  function ToLower(c: char): (r: char)
    ensures 'A' <= c <= 'Z' ==> 'a' <= r <= 'z'
    ensures !('A' <= c <= 'Z') ==> r == c
  {
    if 'A' <= c <= 'Z' then (c as int - 'A' as int + 'a' as int) as char else c
  }

  predicate EqualsIgnoreCase(a: string, b: string)
  {
    |a| == |b| && forall i :: 0 <= i < |a| ==> ToLower(a[i]) == ToLower(b[i])
  }

  lemma {:induction false} EqualsIgnoreCaseSymmetric(a: string, b: string)
    requires EqualsIgnoreCase(a, b)
    ensures EqualsIgnoreCase(b, a)
  {
    forall i | 0 <= i < |b| ensures ToLower(b[i]) == ToLower(a[i]) {
      assert ToLower(a[i]) == ToLower(b[i]);
    }
  }
}
