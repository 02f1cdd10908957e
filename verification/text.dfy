/** The two string operations the balance screen uses: Kotlin's
    `contains(other, ignoreCase = true)` and `String.compareTo`. */
module Text {

  /** Folds an upper-case ASCII letter to lower case; other characters are
      left alone (see README: case folding beyond ASCII is not modelled). */
  function FoldCase(c: char): char {
    if 'A' <= c <= 'Z' then (c as int + 32) as char else c
  }

  predicate EqualsIgnoreCase(a: char, b: char) {
    FoldCase(a) == FoldCase(b)
  }

  /** `q` occurs in `s` at position `i`, ignoring case. */
  ghost predicate MatchesAt(s: string, q: string, i: int)
    requires 0 <= i && i + |q| <= |s|
  {
    forall j :: 0 <= j < |q| ==> EqualsIgnoreCase(s[i + j], q[j])
  }

  function StartsWithIgnoreCase(s: string, q: string): (r: bool)
    ensures r <==> |q| <= |s| && MatchesAt(s, q, 0)
  {
    if |q| == 0 then true
    else if |s| == 0 then false
    else
      var rest := StartsWithIgnoreCase(s[1..], q[1..]);
      assert rest <==> |q| - 1 <= |s| - 1 && MatchesAt(s[1..], q[1..], 0);
      assert |q| <= |s| ==> (MatchesAt(s, q, 0) <==> EqualsIgnoreCase(s[0], q[0]) && MatchesAt(s[1..], q[1..], 0)) by {
        if |q| <= |s| {
          if EqualsIgnoreCase(s[0], q[0]) && MatchesAt(s[1..], q[1..], 0) {
            forall j | 0 <= j < |q| ensures EqualsIgnoreCase(s[j], q[j]) {
              if j > 0 {
                assert s[1..][j - 1] == s[j] && q[1..][j - 1] == q[j];
              }
            }
          }
        }
      }
      EqualsIgnoreCase(s[0], q[0]) && rest
  }

  /** `s.contains(q, ignoreCase = true)`; the empty query occurs everywhere. */
  function ContainsIgnoreCase(s: string, q: string): (r: bool)
    ensures r <==> exists i :: 0 <= i <= |s| - |q| && MatchesAt(s, q, i)
    decreases |s|
  {
    if StartsWithIgnoreCase(s, q) then true
    else if |s| == 0 then false
    else
      var rest := ContainsIgnoreCase(s[1..], q);
      ShiftMatches(s, q);
      rest
  }

  /** A match in `s` away from position 0 is a match in `s[1..]`. */
  lemma ShiftMatches(s: string, q: string)
    requires |s| > 0
    requires !(|q| <= |s| && MatchesAt(s, q, 0))
    ensures (exists i :: 0 <= i <= |s| - |q| && MatchesAt(s, q, i))
        <==> (exists i :: 0 <= i <= |s[1..]| - |q| && MatchesAt(s[1..], q, i))
  {
    var t := s[1..];
    if exists i :: 0 <= i <= |s| - |q| && MatchesAt(s, q, i) {
      var i :| 0 <= i <= |s| - |q| && MatchesAt(s, q, i);
      assert i != 0;
      assert MatchesAt(t, q, i - 1) by {
        forall j | 0 <= j < |q| ensures EqualsIgnoreCase(t[i - 1 + j], q[j]) {
          assert t[i - 1 + j] == s[i + j];
        }
      }
    }
    if exists i :: 0 <= i <= |t| - |q| && MatchesAt(t, q, i) {
      var i :| 0 <= i <= |t| - |q| && MatchesAt(t, q, i);
      assert MatchesAt(s, q, i + 1) by {
        forall j | 0 <= j < |q| ensures EqualsIgnoreCase(s[i + 1 + j], q[j]) {
          assert t[i + j] == s[i + 1 + j];
        }
      }
    }
  }

  /** `a.compareTo(b) <= 0`: character codes first, then length. */
  predicate LexLe(a: string, b: string) {
    if |a| == 0 then true
    else if |b| == 0 then false
    else if a[0] != b[0] then a[0] < b[0]
    else LexLe(a[1..], b[1..])
  }

  lemma {:induction false} LexLeTotal(a: string, b: string)
    ensures LexLe(a, b) || LexLe(b, a)
  {
    if |a| > 0 && |b| > 0 && a[0] == b[0] {
      LexLeTotal(a[1..], b[1..]);
    }
  }

  lemma {:induction false} LexLeTransitive(a: string, b: string, c: string)
    requires LexLe(a, b) && LexLe(b, c)
    ensures LexLe(a, c)
  {
    if |a| > 0 && |b| > 0 && |c| > 0 && a[0] == b[0] && b[0] == c[0] {
      LexLeTransitive(a[1..], b[1..], c[1..]);
    }
  }

  lemma {:induction false} LexLeAntisymmetric(a: string, b: string)
    requires LexLe(a, b) && LexLe(b, a)
    ensures a == b
  {
    if |a| > 0 && |b| > 0 {
      LexLeAntisymmetric(a[1..], b[1..]);
      assert a == [a[0]] + a[1..] && b == [b[0]] + b[1..];
    }
  }
}
