/** What stripping leaves. */
module StringLaws {
  import opened Strings

  const BLANKS: seq<char> := [' ', '\t', '\n', '\U{0B}', '\U{0C}', '\r']

  /** The characters that `isspace` accepts in the C locale. */
  lemma {:induction false} SpacesAre(ch: char)
    ensures IsSpace(ch) <==> ch in BLANKS
  {
  }

  lemma {:induction false} EndStripped(s: string)
    ensures forall k :: |StripEnd(s)| <= k < |s| ==> IsSpace(s[k])
    decreases |s|
  {
    if |s| > 0 && IsSpace(s[|s| - 1]) {
      EndStripped(s[..|s| - 1]);
      forall k | |StripEnd(s)| <= k < |s| ensures IsSpace(s[k]) {
        if k < |s| - 1 {
          assert s[k] == s[..|s| - 1][k];
        }
      }
    }
  }

  /** Stripping cuts white space off both ends, and nothing else: what is left neither starts nor ends with it. */
  lemma {:induction false} StripMeans(s: string) returns (i: nat, j: nat)
    ensures i <= j <= |s| && Strip(s) == s[i..j]
    ensures forall k :: 0 <= k < i || j <= k < |s| ==> s[k] in BLANKS
    ensures i < j ==> s[i] !in BLANKS && s[j - 1] !in BLANKS
  {
    i := SpacesEnd(s, 0);
    var t := s[i..];
    j := i + |StripEnd(t)|;
    EndStripped(t);
    assert StripEnd(t) == t[..j - i] == s[i..j];
    forall k | 0 <= k < i || j <= k < |s| ensures s[k] in BLANKS {
      if k >= j {
        assert s[k] == t[k - i];
      }
      SpacesAre(s[k]);
    }
    if i < j {
      SpacesAre(s[i]);
      SpacesAre(s[j - 1]);
    }
  }
}
