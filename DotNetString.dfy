/**
 * The parts of .NET's `System.String` that the video-update serialiser
 * relies on: `Trim()` and `ToLower()`.  The functions carry no contracts of
 * their own; what they compute is stated by the lemmas that follow each.
 */
module DotNetString {

  /**
   * `char.IsWhiteSpace`: the control characters U+0009 to U+000D, U+0085,
   * and the members of the Unicode space, line and paragraph separator
   * categories.
   */
  predicate IsWhiteSpace(c: char) {
    || ('\t' <= c <= '\r')
    || c == ' '
    || c == '\U{0085}'
    || c == '\U{00A0}'
    || c == '\U{1680}'
    || ('\U{2000}' <= c <= '\U{200A}')
    || c == '\U{2028}'
    || c == '\U{2029}'
    || c == '\U{202F}'
    || c == '\U{205F}'
    || c == '\U{3000}'
  }

  predicate AllWhiteSpace(s: string) {
    forall k :: 0 <= k < |s| ==> IsWhiteSpace(s[k])
  }

  /** Neither the first nor the last character of `s` is white space. */
  predicate NoEdgeWhiteSpace(s: string) {
    s == [] || (!IsWhiteSpace(s[0]) && !IsWhiteSpace(s[|s| - 1]))
  }

  /**
   * `s[i..j]` is what is left of `s` once its white-space prefix `s[..i]` and
   * its white-space suffix `s[j..]` are cut off, and nothing more can be cut.
   */
  ghost predicate TrimmedAt(s: string, i: int, j: int) {
    && 0 <= i <= j <= |s|
    && AllWhiteSpace(s[..i])
    && AllWhiteSpace(s[j..])
    && NoEdgeWhiteSpace(s[i..j])
  }

  /** `String.TrimStart()`: drops white space from the front. */
  function TrimStart(s: string): string {
    if |s| > 0 && IsWhiteSpace(s[0]) then TrimStart(s[1..]) else s
  }

  /** `String.TrimEnd()`: drops white space from the back. */
  function TrimEnd(s: string): string {
    if |s| > 0 && IsWhiteSpace(s[|s| - 1]) then TrimEnd(s[..|s| - 1]) else s
  }

  /** `String.Trim()`: removes all leading and trailing white space. */
  function Trim(s: string): string {
    TrimEnd(TrimStart(s))
  }

  /** `TrimStart` keeps a suffix of `s`, drops only white space, and stops at the first other character. */
  lemma {:induction false} TrimStartCut(s: string)
    ensures |TrimStart(s)| <= |s|
    ensures TrimStart(s) == s[|s| - |TrimStart(s)|..]
    ensures AllWhiteSpace(s[..|s| - |TrimStart(s)|])
    ensures TrimStart(s) != [] ==> !IsWhiteSpace(TrimStart(s)[0])
  {
    if |s| > 0 && IsWhiteSpace(s[0]) {
      var t := s[1..];
      TrimStartCut(t);
      var n := |s| - |TrimStart(t)|;
      assert s[n..] == t[|t| - |TrimStart(t)|..];
      assert s[..n] == [s[0]] + t[..|t| - |TrimStart(t)|];
    } else {
      assert s[|s| - |s|..] == s;
    }
  }

  /** `TrimEnd` keeps a prefix of `s`, drops only white space, and stops at the last other character. */
  lemma {:induction false} TrimEndCut(s: string)
    ensures |TrimEnd(s)| <= |s|
    ensures TrimEnd(s) == s[..|TrimEnd(s)|]
    ensures AllWhiteSpace(s[|TrimEnd(s)|..])
    ensures TrimEnd(s) != [] ==> !IsWhiteSpace(TrimEnd(s)[|TrimEnd(s)| - 1])
  {
    if |s| > 0 && IsWhiteSpace(s[|s| - 1]) {
      var t := s[..|s| - 1];
      TrimEndCut(t);
      var n := |TrimEnd(t)|;
      assert s[..n] == t[..n];
      assert s[n..] == t[n..] + [s[|s| - 1]];
    } else {
      assert s[..|s|] == s;
    }
  }

  /** The first `i` characters of `s` are white space and the next is not: `TrimStart` cuts exactly there. */
  lemma {:induction false} TrimStartAt(s: string, i: nat)
    requires i <= |s|
    requires AllWhiteSpace(s[..i])
    requires i < |s| ==> !IsWhiteSpace(s[i])
    ensures TrimStart(s) == s[i..]
  {
    if i > 0 {
      assert s[0] == s[..i][0];
      var u := s[1..][..i - 1];
      assert AllWhiteSpace(u) by {
        forall k | 0 <= k < i - 1 ensures IsWhiteSpace(u[k]) {
          assert u[k] == s[..i][k + 1];
        }
      }
      TrimStartAt(s[1..], i - 1);
      assert s[1..][i - 1..] == s[i..];
    }
  }

  /** The characters of `s` from `j` on are white space and the one before is not: `TrimEnd` cuts exactly there. */
  lemma {:induction false} TrimEndAt(s: string, j: nat)
    requires j <= |s|
    requires AllWhiteSpace(s[j..])
    requires j > 0 ==> !IsWhiteSpace(s[j - 1])
    ensures TrimEnd(s) == s[..j]
  {
    if j < |s| {
      var t := s[..|s| - 1];
      assert s[|s| - 1] == s[j..][|s| - 1 - j];
      assert AllWhiteSpace(t[j..]) by {
        forall k | 0 <= k < |t| - j ensures IsWhiteSpace(t[j..][k]) {
          assert t[j..][k] == s[j..][k];
        }
      }
      TrimEndAt(t, j);
      assert t[..j] == s[..j];
    } else {
      assert s[..|s|] == s;
    }
  }

  /** The result of `Trim` is a contiguous piece of its input cut off only at white space. */
  lemma TrimCut(s: string)
    ensures exists i, j :: TrimmedAt(s, i, j) && Trim(s) == s[i..j]
  {
    TrimStartCut(s);
    var t := TrimStart(s);
    var i := |s| - |t|;
    TrimEndCut(t);
    var j := i + |TrimEnd(t)|;
    assert t == s[i..];
    assert t[|TrimEnd(t)|..] == s[j..];
    assert Trim(s) == s[i..j];
    if i < j {
      assert s[i..j][0] == t[0];
    }
    assert TrimmedAt(s, i, j);
  }

  /** `Trim` leaves no white space at either end of its result. */
  lemma TrimNoEdgeWhiteSpace(s: string)
    ensures NoEdgeWhiteSpace(Trim(s))
    ensures |Trim(s)| <= |s|
  {
    TrimCut(s);
  }

  /** Any cut of `s` at white space that leaves no white space at its edges is the one `Trim` makes. */
  lemma TrimUnique(s: string, i: int, j: int)
    requires TrimmedAt(s, i, j)
    ensures Trim(s) == s[i..j]
  {
    if i < j {
      assert !IsWhiteSpace(s[i]) by { assert s[i..j][0] == s[i]; }
      TrimStartAt(s, i);
      var t := s[i..];
      assert !IsWhiteSpace(t[j - i - 1]) by { assert s[i..j][j - 1 - i] == s[j - 1]; }
      assert t[j - i..] == s[j..];
      TrimEndAt(t, j - i);
      assert t[..j - i] == s[i..j];
    } else {
      assert AllWhiteSpace(s) by {
        forall k | 0 <= k < |s| ensures IsWhiteSpace(s[k]) {
          if k < i {
            assert s[..i][k] == s[k];
          } else {
            assert s[j..][k - j] == s[k];
          }
        }
      }
      assert s[..|s|] == s;
      TrimStartAt(s, |s|);
      assert TrimStart(s) == [];
    }
  }

  /** Trimming twice changes nothing more than trimming once. */
  lemma TrimIdempotent(s: string)
    ensures Trim(Trim(s)) == Trim(s)
  {
    var r := Trim(s);
    TrimNoEdgeWhiteSpace(s);
    assert r[..0] == [] && r[|r|..] == [] && r[0..|r|] == r;
    TrimUnique(r, 0, |r|);
  }

  /** True of a string with no upper-case ASCII letter. */
  predicate IsAsciiLowerCase(s: string) {
    forall k :: 0 <= k < |s| ==> !('A' <= s[k] <= 'Z')
  }

  /** Maps an upper-case ASCII letter to its lower-case partner, any other character to itself. */
  function LowerChar(c: char): char {
    if 'A' <= c <= 'Z' then (c as int - 'A' as int + 'a' as int) as char else c
  }

  /** `String.ToLower()`, restricted to ASCII letters: lower-cases character by character. */
  function ToLower(s: string): string {
    seq(|s|, k requires 0 <= k < |s| => LowerChar(s[k]))
  }

  /**
   * Lower-casing keeps the length, leaves no upper-case ASCII letter, and
   * keeps every character that is not an upper-case ASCII letter in place.
   */
  lemma ToLowerIsLowerCase(s: string)
    ensures |ToLower(s)| == |s|
    ensures IsAsciiLowerCase(ToLower(s))
    ensures forall k :: 0 <= k < |s| && !('A' <= s[k] <= 'Z') ==> ToLower(s)[k] == s[k]
  {
  }

  /** A string that is already lower case is its own lower-case form. */
  lemma ToLowerFixesLowerCase(s: string)
    requires IsAsciiLowerCase(s)
    ensures ToLower(s) == s
  {
  }

  /** Lower-casing twice changes nothing more than lower-casing once. */
  lemma ToLowerIdempotent(s: string)
    ensures ToLower(ToLower(s)) == ToLower(s)
  {
  }
}
