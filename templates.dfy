/** Prompts built by placing text between a fixed prefix and a fixed suffix. */
module Templates {
  import opened Wrappers

  /** `needle` occurs in `hay` starting at position `i`. */
  predicate OccursAt(needle: string, hay: string, i: nat) {
    i + |needle| <= |hay| && hay[i..i + |needle|] == needle
  }

  /** `needle` is a substring of `hay` (JavaScript's `hay.includes(needle)`). */
  predicate Contains(hay: string, needle: string) {
    exists i: nat :: i <= |hay| && OccursAt(needle, hay, i)
  }

  /** The template literal `${prefix}${body}${suffix}`. */
  function Fill(prefix: string, body: string, suffix: string): (s: string)
    ensures |s| == |prefix| + |body| + |suffix|
    ensures s[..|prefix|] == prefix
    ensures s[|prefix|..|prefix| + |body|] == body
    ensures s[|prefix| + |body|..] == suffix
  {
    prefix + body + suffix
  }

  /** Recovers the body of a filled template, or `None` when `s` does not fit it. */
  function Unfill(prefix: string, suffix: string, s: string): (r: Option<string>)
    ensures r.Some? ==> Fill(prefix, r.value, suffix) == s
  {
    if |prefix| + |suffix| <= |s| && s[..|prefix|] == prefix && s[|s| - |suffix|..] == suffix
    then
      var body := s[|prefix|..|s| - |suffix|];
      assert s == s[..|prefix|] + body + s[|s| - |suffix|..];
      Some(body)
    else None
  }

  /** Filling then unfilling gives the body back. */
  lemma UnfillFill(prefix: string, body: string, suffix: string)
    ensures Unfill(prefix, suffix, Fill(prefix, body, suffix)) == Some(body)
  {
    var s := Fill(prefix, body, suffix);
    assert s[|s| - |suffix|..] == suffix;
  }

  /** A filled template holds its body verbatim. */
  lemma FillContainsBody(prefix: string, body: string, suffix: string)
    ensures Contains(Fill(prefix, body, suffix), body)
  {
    assert OccursAt(body, Fill(prefix, body, suffix), |prefix|);
  }

  /** A filled template starts with every starting piece of its prefix. */
  lemma FillContainsPrefixPart(prefix: string, body: string, suffix: string, n: nat)
    requires n <= |prefix|
    ensures Contains(Fill(prefix, body, suffix), prefix[..n])
  {
    var s := Fill(prefix, body, suffix);
    assert s[..n] == prefix[..n];
    assert OccursAt(prefix[..n], s, 0);
  }

  /** Two fillings of one template are equal only for equal bodies. */
  lemma FillInjective(prefix: string, a: string, b: string, suffix: string)
    ensures Fill(prefix, a, suffix) == Fill(prefix, b, suffix) ==> a == b
  {
    if Fill(prefix, a, suffix) == Fill(prefix, b, suffix) {
      UnfillFill(prefix, a, suffix);
      UnfillFill(prefix, b, suffix);
    }
  }
}
