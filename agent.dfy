/** SQL extraction from the agent's answer (app/agent.py, `_extract_sql`):
    the text of the first code fence, preferring one tagged `sql`, or the
    whole answer when it has no fence. */
module Agent {
  import opened Basics
  import opened Text

  const Fence := "```"
  const SqlFence := "```sql"

  /** `s.split(sep, 1)[1]`, defined where the separator occurs. */
  function After(s: string, sep: string): string
    requires sep != [] && Contains(s, sep)
  {
    SplitOnce(s, sep)[1]
  }

  /** `s.split(sep, 1)[0]`. */
  function Before(s: string, sep: string): string
    requires sep != []
  {
    SplitOnce(s, sep)[0]
  }

  /** `_extract_sql`. */
  function ExtractSql(output: string): string {
    var text := Strip(output);
    if Contains(text, SqlFence) then Strip(Before(After(text, SqlFence), Fence))
    else if Contains(text, Fence) then Strip(Before(After(text, Fence), Fence))
    else text
  }

  // ---------------------------------------------------------------------
  // Positions in the stripped answer

  /** Where the fence opened at `from` closes: the next fence, or the end. */
  function FenceEnd(text: string, from: nat): (r: nat)
    requires from <= |text|
    ensures from <= r <= |text|
  {
    match IndexFrom(text, Fence, from)
    case Some(j) => j
    case None => |text|
  }

  /** Searching a suffix is searching the whole text from the suffix's start. */
  lemma {:induction false} IndexFromShift(s: string, sub: string, k: nat, m: nat)
    requires k <= |s|
    ensures IndexFrom(s[k..], sub, m).Some? == IndexFrom(s, sub, k + m).Some?
    ensures IndexFrom(s[k..], sub, m).Some? ==> IndexFrom(s[k..], sub, m).value + k == IndexFrom(s, sub, k + m).value
    decreases |s| + 1 - k - m
  {
    if m + |sub| <= |s| - k {
      assert s[k..][m..m + |sub|] == s[k + m..k + m + |sub|];
      if s[k + m..k + m + |sub|] != sub {
        IndexFromShift(s, sub, k, m + 1);
      }
    }
  }

  /** The text before the first fence of the suffix starting at `a` runs
      from `a` to where that fence closes. */
  lemma BeforeFence(text: string, a: nat)
    requires a <= |text|
    ensures Before(text[a..], Fence) == text[a..FenceEnd(text, a)]
  {
    IndexFromShift(text, Fence, a, 0);
    match IndexOf(text[a..], Fence)
    case Some(j) =>
      assert text[a..][..j] == text[a..a + j];
    case None =>
  }

  lemma SqlFenceHasFence(s: string)
    requires Contains(s, SqlFence)
    ensures Contains(s, Fence)
  {
    var j := IndexOf(s, SqlFence).value;
    assert s[j..j + 3] == s[j..j + 6][..3];
    assert OccursAt(s, Fence, j);
  }

  // ---------------------------------------------------------------------
  // Properties

  /** An answer without a fence is returned merely stripped. */
  lemma ExtractSqlPlain(output: string)
    requires !Contains(output, Fence)
    ensures ExtractSql(output) == Strip(output)
  {
    var text := Strip(output);
    if Contains(text, Fence) {
      ContainsStrip(output, Fence);
    }
    if Contains(text, SqlFence) {
      SqlFenceHasFence(text);
      ContainsStrip(output, Fence);
    }
  }

  /** With a `sql`-tagged fence, the result is the stripped text between the
      first tag and the next fence after it, or the end of the answer. */
  lemma ExtractSqlTagged(output: string)
    requires Contains(Strip(output), SqlFence)
    ensures var text := Strip(output);
      var i := IndexOf(text, SqlFence).value;
      i + 6 <= |text| && ExtractSql(output) == Strip(text[i + 6..FenceEnd(text, i + 6)])
  {
    var text := Strip(output);
    var i := IndexOf(text, SqlFence).value;
    assert After(text, SqlFence) == text[i + 6..];
    BeforeFence(text, i + 6);
  }

  /** With only untagged fences, the result is the stripped text between the
      first and the second fence, or the end of the answer. */
  lemma ExtractSqlUntagged(output: string)
    requires !Contains(Strip(output), SqlFence) && Contains(Strip(output), Fence)
    ensures var text := Strip(output);
      var i := IndexOf(text, Fence).value;
      i + 3 <= |text| && ExtractSql(output) == Strip(text[i + 3..FenceEnd(text, i + 3)])
  {
    var text := Strip(output);
    var i := IndexOf(text, Fence).value;
    assert After(text, Fence) == text[i + 3..];
    BeforeFence(text, i + 3);
  }

  /** The result never contains a fence and has no surrounding whitespace. */
  lemma ExtractSqlSpec(output: string)
    ensures !Contains(ExtractSql(output), Fence)
    ensures IsStripped(ExtractSql(output))
  {
    var text := Strip(output);
    StripSpec(text);
    if Contains(text, SqlFence) {
      var inner := Before(After(text, SqlFence), Fence);
      StripSpec(inner);
      if Contains(Strip(inner), Fence) {
        ContainsStrip(inner, Fence);
      }
    } else if Contains(text, Fence) {
      var inner := Before(After(text, Fence), Fence);
      StripSpec(inner);
      if Contains(Strip(inner), Fence) {
        ContainsStrip(inner, Fence);
      }
    } else {
      StripSpec(output);
    }
  }
}
