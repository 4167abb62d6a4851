/** `Utils.StringUtils`: rich-text tags around log and UI strings. */
module StringUtils {
  import opened Common
  import opened Text

  const SizeOpen: string := "<size="
  const SizeClose: string := " </size>"

  /** `AddSizeTagToString(input, size)`: `<size=N> input </size>`. */
  function AddSizeTagToString(input: string, size: int): (r: string)
    ensures |r| == |input| + |IntToString(size)| + 16
    ensures r[..6] == SizeOpen && r[|r| - 8..] == SizeClose
  {
    SizeOpen + IntToString(size) + "> " + input + SizeClose
  }

  /**
   * Reads a string of the shape `AddSizeTagToString` produces back into its
   * input and size; `None` for any string without that shape.
   */
  function ParseSizeTag(t: string): Option<(string, int)>
  {
    if |t| < 14 || t[..6] != SizeOpen || t[|t| - 8..] != SizeClose then None
    else match IndexOf(t, '>', 6)
      case None => None
      case Some(j) =>
        if j + 2 > |t| - 8 || t[j + 1] != ' ' then None
        else match ParseInt(t[6..j])
          case None => None
          case Some(n) => Some((t[j + 2..|t| - 8], n))
  }

  /** The tag is an encoding: input and size are recovered exactly. */
  lemma ParseAddSizeTag(input: string, size: int)
    ensures ParseSizeTag(AddSizeTagToString(input, size)) == Some((input, size))
  {
    var num := IntToString(size);
    var t := AddSizeTagToString(input, size);
    var j := 6 + |num|;
    assert t[6..j] == num;
    assert t[j] == '>' && t[j + 1] == ' ';
    assert forall k :: 6 <= k < j ==> t[k] == num[k - 6];
    assert IndexOf(t, '>', 6) == Some(j);
    assert t[j + 2..|t| - 8] == input;
    ParseIntToString(size);
  }

  /** Tagging is injective: different (input, size) pairs give different strings. */
  lemma AddSizeTagInjective(a: string, m: int, b: string, n: int)
    requires AddSizeTagToString(a, m) == AddSizeTagToString(b, n)
    ensures a == b && m == n
  {
    ParseAddSizeTag(a, m);
    ParseAddSizeTag(b, n);
  }
}
