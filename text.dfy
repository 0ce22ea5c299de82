/** The string operations the importer applies to item names: Python's substring
    test `sub in s` and `s.split(c)[0]`. */
module Text {

  /** `p` is a prefix of `s`. */
  predicate IsPrefix(p: string, s: string) {
    |p| <= |s| && s[..|p|] == p
  }

  /** `sub` occurs in `s` starting at index `i`. */
  predicate OccursAt(s: string, sub: string, i: int) {
    0 <= i && i + |sub| <= |s| && s[i..i + |sub|] == sub
  }

  /** Python's `sub in s`: a left-to-right scan for an occurrence of `sub`. */
  predicate Contains(s: string, sub: string)
    decreases |s|
  {
    IsPrefix(sub, s) || (|s| > 0 && Contains(s[1..], sub))
  }

  /** The scan finds `sub` exactly when `sub` occurs somewhere in `s`. */
  lemma {:induction false} ContainsIff(s: string, sub: string)
    ensures Contains(s, sub) <==> exists i :: OccursAt(s, sub, i)
    decreases |s|
  {
    if IsPrefix(sub, s) {
      assert OccursAt(s, sub, 0);
    } else if |s| == 0 {
    } else {
      ContainsIff(s[1..], sub);
      if Contains(s[1..], sub) {
        var i :| OccursAt(s[1..], sub, i);
        assert s[1..][i..i + |sub|] == s[i + 1..i + 1 + |sub|];
        assert OccursAt(s, sub, i + 1);
      }
      if exists i :: OccursAt(s, sub, i) {
        var i :| OccursAt(s, sub, i);
        assert s[1..][i - 1..i - 1 + |sub|] == s[i..i + |sub|];
        assert OccursAt(s[1..], sub, i - 1);
      }
    }
  }

  /** A string followed by `sub` contains `sub`. */
  lemma ContainsAppended(s: string, sub: string, rest: string)
    ensures Contains(s + sub + rest, sub)
  {
    var t := s + sub + rest;
    assert t[|s|..|s| + |sub|] == sub;
    assert OccursAt(t, sub, |s|);
    ContainsIff(t, sub);
  }

  /** Python's `s.split(c)[0]`: the text before the first `c` in `s`, or all of
      `s` when it has none. */
  function BeforeFirst(s: string, c: char): (p: string)
    ensures IsPrefix(p, s)
    ensures c !in p
    ensures |p| == |s| || s[|p|] == c
  {
    if s == [] || s[0] == c then [] else [s[0]] + BeforeFirst(s[1..], c)
  }

  /** The three facts that `BeforeFirst` ensures determine its result. */
  lemma {:induction false} BeforeFirstUnique(s: string, c: char, p: string)
    requires IsPrefix(p, s) && c !in p && (|p| == |s| || s[|p|] == c)
    ensures p == BeforeFirst(s, c)
    decreases |s|
  {
    if s == [] {
    } else if s[0] == c {
    } else {
      assert p != [];
      assert p[0] == s[0];
      assert s[1..][..|p| - 1] == p[1..];
      BeforeFirstUnique(s[1..], c, p[1..]);
      assert p == [s[0]] + p[1..];
    }
  }
}
