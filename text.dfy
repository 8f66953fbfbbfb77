/** String helpers standing in for Python's `str.lower()` and the `in`
    substring test. Strings are sequences of Unicode scalar values, which is
    what Python's `len` and slicing count. */
module Text {

  /** Lower-cases one character. Only ASCII letters are mapped: every keyword
      the scraper searches for is ASCII. */
  function LowerChar(c: char): char
  {
    if 'A' <= c <= 'Z' then (c as int - 'A' as int + 'a' as int) as char else c
  }

  /** `s.lower()` restricted to ASCII: same length, each ASCII capital
      replaced by its small letter (32 code points further), every other
      character unchanged. */
  function Lower(s: string): (r: string)
    ensures |r| == |s|
    ensures forall i :: 0 <= i < |r| ==> !('A' <= r[i] <= 'Z')
    ensures forall i :: 0 <= i < |s| && 'A' <= s[i] <= 'Z' ==> r[i] == (s[i] as int + 32) as char
    ensures forall i :: 0 <= i < |s| && !('A' <= s[i] <= 'Z') ==> r[i] == s[i]
  {
    seq(|s|, i requires 0 <= i < |s| => LowerChar(s[i]))
  }

  /** Two strings agree up to ASCII case: same length, and each pair of
      characters at the same position lower-cases to the same character. */
  predicate SameIgnoringCase(a: string, b: string)
  {
    |a| == |b| && forall i :: 0 <= i < |a| ==> LowerChar(a[i]) == LowerChar(b[i])
  }

  /** Strings that agree up to ASCII case have the same lower-cased form. */
  lemma LowerIgnoresCase(a: string, b: string)
    requires SameIgnoringCase(a, b)
    ensures Lower(a) == Lower(b)
  {
    forall i | 0 <= i < |a| ensures Lower(a)[i] == Lower(b)[i] {
      assert Lower(a)[i] == LowerChar(a[i]);
      assert Lower(b)[i] == LowerChar(b[i]);
    }
  }

  /** Python's `sub in s`: sub occurs in s as a contiguous piece. */
  predicate Contains(s: string, sub: string)
    decreases |s|
  {
    sub <= s || (s != [] && Contains(s[1..], sub))
  }

  /** Contains means "sub starts at some position of s". */
  lemma {:induction false} ContainsAt(s: string, sub: string)
    ensures Contains(s, sub) <==> exists i :: 0 <= i <= |s| && sub <= s[i..]
    decreases |s|
  {
    if sub <= s {
      assert s[0..] == s;
    } else if s == [] {
      assert forall i :: 0 <= i <= |s| ==> s[i..] == s;
    } else {
      ContainsAt(s[1..], sub);
      assert forall i :: 1 <= i <= |s| ==> s[1..][i - 1..] == s[i..];
      if Contains(s[1..], sub) {
        var i :| 0 <= i <= |s[1..]| && sub <= s[1..][i..];
        assert sub <= s[i + 1..];
      } else {
        forall i | 0 <= i <= |s| ensures !(sub <= s[i..]) {
          if i > 0 {
            assert s[1..][i - 1..] == s[i..];
          }
        }
      }
    }
  }

  /** A string never contains anything longer than itself; in particular a
      string containing a non-empty word is itself non-empty. */
  lemma ContainsIsNoLonger(s: string, sub: string)
    requires Contains(s, sub)
    ensures |sub| <= |s|
  {
    ContainsAt(s, sub);
  }

  /** `"".join(pieces)`: the pieces one after the other, as an f-string
      template renders its literal parts and its fields. */
  function Join(pieces: seq<string>): string
    decreases |pieces|
  {
    if pieces == [] then "" else pieces[0] + Join(pieces[1..])
  }

  lemma {:induction false} JoinSplit(pieces: seq<string>, k: nat)
    requires k <= |pieces|
    ensures Join(pieces) == Join(pieces[..k]) + Join(pieces[k..])
    decreases k
  {
    if k > 0 {
      JoinSplit(pieces[1..], k - 1);
      assert pieces[1..][..k - 1] == pieces[..k][1..];
      assert pieces[1..][k - 1..] == pieces[k..];
    }
  }

  /** Every piece of a joined string occurs in it, starting right after the
      pieces before it. */
  lemma JoinContainsPiece(pieces: seq<string>, k: nat)
    requires k < |pieces|
    ensures Join(pieces) == Join(pieces[..k]) + (pieces[k] + Join(pieces[k + 1..]))
    ensures Contains(Join(pieces), pieces[k])
  {
    JoinSplit(pieces, k);
    var before, rest := Join(pieces[..k]), Join(pieces[k..]);
    assert pieces[k..][1..] == pieces[k + 1..];
    assert rest == pieces[k] + Join(pieces[k + 1..]);
    assert Join(pieces)[|before|..] == rest;
    ContainsAt(Join(pieces), pieces[k]);
  }

  /** Every piece shows up in the joined string. */
  lemma JoinContainsEveryPiece(pieces: seq<string>)
    ensures forall k :: 0 <= k < |pieces| ==> Contains(Join(pieces), pieces[k])
  {
    forall k | 0 <= k < |pieces| ensures Contains(Join(pieces), pieces[k]) {
      JoinContainsPiece(pieces, k);
    }
  }
}
