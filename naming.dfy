/**
 * The on-disk naming convention of the template store: a template saved under the display
 * name `nombre` at time `t` is the file `Long.toString(t) + "-" + nombre`; identification
 * recovers the display name as everything after the first `-` of the matched file name.
 */
module Naming {
  import opened Wrappers
  import opened Decimal

  const Separator: char := '-'

  /** `String.indexOf(c)`: the first position of `c` in `s`, or -1 when it does not occur. */
  function IndexOf(s: string, c: char): (r: int)
    ensures -1 <= r < |s|
    ensures r == -1 <==> c !in s
    ensures 0 <= r ==> s[r] == c && c !in s[..r]
  {
    if |s| == 0 then -1
    else if s[0] == c then 0
    else
      var k := IndexOf(s[1..], c);
      assert k >= 0 ==> s[1..][..k] == s[1..k + 1];
      if k == -1 then -1 else k + 1
  }

  /** The stored file name built by `guardarHuella`: the decimal timestamp, `-`, the name. */
  function FileName(time: int, nombre: string): string
  {
    LongToString(time) + [Separator] + nombre
  }

  /**
   * The display name recovered from a stored file name: the substring after the first `-`.
   * The start index is `indexOf('-') + 1`, which is 0 when there is no `-`; it never exceeds
   * the length, so the substring call cannot fail.
   */
  function DisplayName(fileName: string): (r: string)
    ensures |r| <= |fileName|
    ensures r == fileName[|fileName| - |r|..]
  {
    fileName[IndexOf(fileName, Separator) + 1..]
  }

  /** The first occurrence of `c` in `a + [c] + b` is at `|a|` when `a` has none. */
  lemma {:induction false} IndexOfAfterPrefix(a: string, c: char, b: string)
    requires c !in a
    ensures IndexOf(a + [c] + b, c) == |a|
  {
    if a != [] {
      assert (a + [c] + b)[1..] == a[1..] + [c] + b;
      IndexOfAfterPrefix(a[1..], c, b);
    }
  }

  /**
   * For a non-negative timestamp the first `-` is the separator, so recovery returns the
   * display name unchanged, including names that themselves contain `-`.
   */
  lemma RecoverDisplayName(time: int, nombre: string)
    requires time >= 0
    ensures DisplayName(FileName(time, nombre)) == nombre
  {
    DigitsHaveNoDash(time);
    IndexOfAfterPrefix(LongToString(time), Separator, nombre);
  }

  /**
   * A stored file name decodes back into its parts: the text before the first `-` is the
   * decimal numeral of the timestamp, and the text after it is the display name.
   */
  lemma FileNameDecodes(time: int, nombre: string)
    requires time >= 0
    ensures var f := FileName(time, nombre);
            var k := IndexOf(f, Separator);
            k == |Digits(time)| && ParseSigned(f[..k]) == Some(time) && f[k + 1..] == nombre
  {
    DigitsHaveNoDash(time);
    IndexOfAfterPrefix(LongToString(time), Separator, nombre);
    var f := FileName(time, nombre);
    assert f[..|Digits(time)|] == LongToString(time);
    ParseSignedOfLongToString(time);
  }

  /** A file name without `-` comes back whole, because the start index is -1 + 1 = 0. */
  lemma NoSeparatorKeepsWholeName(fileName: string)
    requires Separator !in fileName
    ensures DisplayName(fileName) == fileName
  {
  }

  /**
   * `System.nanoTime()` may be negative; then `Long.toString` starts with `-`, that minus
   * sign is the first `-`, and recovery returns the magnitude's digits, `-` and the name.
   */
  lemma NegativeTimestampKeepsDigits(time: int, nombre: string)
    requires time < 0
    ensures DisplayName(FileName(time, nombre)) == Digits(-time) + [Separator] + nombre
  {
    assert FileName(time, nombre) == [Separator] + (Digits(-time) + [Separator] + nombre);
    IndexOfAfterPrefix([], Separator, Digits(-time) + [Separator] + nombre);
  }

  /** Example: a display name with a dash, "a-b", saved at time 5, is recovered as "a-b". */
  lemma DashedNameExample()
    ensures FileName(5, "a-b") == "5-a-b"
    ensures DisplayName("5-a-b") == "a-b"
  {
    RecoverDisplayName(5, "a-b");
  }
}
