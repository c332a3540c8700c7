/** The string operations of the Go standard library that the agent uses, on
    characters and with ASCII case. */
module Text {

  function LowerChar(c: char): char {
    if 'A' <= c <= 'Z' then (c as int + 32) as char else c
  }

  function Lower(s: string): string {
    seq(|s|, i requires 0 <= i < |s| => LowerChar(s[i]))
  }

  predicate HasPrefix(s: string, p: string) {
    p <= s
  }

  predicate OccursAt(s: string, sub: string, i: nat) {
    i + |sub| <= |s| && s[i..i + |sub|] == sub
  }

  predicate Contains(s: string, sub: string) {
    exists i | 0 <= i <= |s| :: OccursAt(s, sub, i)
  }

  lemma ContainsMeans(s: string, sub: string)
    ensures Contains(s, sub) <==> exists a, b :: s == a + sub + b
  {
    if Contains(s, sub) {
      var i :| 0 <= i <= |s| && OccursAt(s, sub, i);
      assert s == s[..i] + sub + s[i + |sub|..];
    }
    if a, b :| s == a + sub + b {
      assert OccursAt(s, sub, |a|);
    }
  }

  /** Letters of either case become small ones, everything else stays. */
  lemma LowerMeans(s: string, i: nat)
    requires i < |s|
    ensures |Lower(s)| == |s|
    ensures Lower(s)[i] == s[i] || (s[i] in "ABCDEFGHIJKLMNOPQRSTUVWXYZ" && Lower(s)[i] in "abcdefghijklmnopqrstuvwxyz")
    ensures s[i] in "ABCDEFGHIJKLMNOPQRSTUVWXYZ" ==> Lower(s)[i] as int == s[i] as int + 'a' as int - 'A' as int
  {
  }

  lemma ContainsTail(s: string, sub: string)
    requires s != "" && Contains(s[1..], sub)
    ensures Contains(s, sub)
  {
    var i :| 0 <= i <= |s[1..]| && OccursAt(s[1..], sub, i);
    assert s[1..][i..i + |sub|] == s[i + 1..i + 1 + |sub|];
    assert OccursAt(s, sub, i + 1);
  }

  lemma ContainsInTail(s: string, sub: string)
    requires s != "" && sub != "" && Contains(s, sub) && !(sub <= s)
    ensures Contains(s[1..], sub)
  {
    var i :| 0 <= i <= |s| && OccursAt(s, sub, i);
    assert s[..|sub|] == s[0..|sub|];
    assert s[1..][i - 1..i - 1 + |sub|] == s[i..i + |sub|];
    assert OccursAt(s[1..], sub, i - 1);
  }

  lemma PrefixIsContained(s: string, sub: string)
    requires sub <= s
    ensures Contains(s, sub)
  {
    assert OccursAt(s, sub, 0);
  }
}
