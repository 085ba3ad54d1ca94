/** String helpers standing in for Python's `str.lower`, `str.strip`,
    `str.capitalize` and the substring operator `in`.
    Only ASCII letters are case-folded and only ASCII whitespace is stripped. */
module Text {

  predicate IsUpper(c: char) { 'A' <= c <= 'Z' }

  predicate IsLower(c: char) { 'a' <= c <= 'z' }

  function LowerChar(c: char): char
  {
    if IsUpper(c) then (c as int - 'A' as int + 'a' as int) as char else c
  }

  function UpperChar(c: char): char
  {
    if IsLower(c) then (c as int - 'a' as int + 'A' as int) as char else c
  }

  /** `s.lower()` */
  function Lower(s: string): string
  {
    seq(|s|, i requires 0 <= i < |s| => LowerChar(s[i]))
  }

  /** `s.capitalize()`: first character upper case, the rest lower case. */
  function Capitalize(s: string): string
  {
    if s == [] then [] else [UpperChar(s[0])] + Lower(s[1..])
  }

  /** Python's `pat in s` on strings; the empty pattern occurs in every string. */
  predicate Contains(s: string, pat: string)
    decreases |s|
  {
    pat <= s || (|s| > 0 && Contains(s[1..], pat))
  }

  /** Characters `str.isspace` accepts, restricted to ASCII: space, tab, line
      feed, vertical tab, form feed, carriage return and the separators 28-31. */
  predicate IsSpace(c: char)
  {
    c == ' ' || 9 <= c as int <= 13 || 28 <= c as int <= 31
  }

  function TrimStart(s: string): string
  {
    if s != [] && IsSpace(s[0]) then TrimStart(s[1..]) else s
  }

  function TrimEnd(s: string): string
  {
    if s != [] && IsSpace(s[|s| - 1]) then TrimEnd(s[..|s| - 1]) else s
  }

  /** `s.strip()` */
  function Strip(s: string): string
  {
    TrimEnd(TrimStart(s))
  }

  predicate AllSpace(s: string)
  {
    forall i :: 0 <= i < |s| ==> IsSpace(s[i])
  }

  lemma {:induction false} TrimStartSpec(s: string)
    ensures TrimStart(s) == [] <==> AllSpace(s)
    ensures TrimStart(s) != [] ==> !IsSpace(TrimStart(s)[0])
    decreases |s|
  {
    if s != [] && IsSpace(s[0]) {
      TrimStartSpec(s[1..]);
      if AllSpace(s[1..]) {
        assert AllSpace(s) by {
          forall i | 0 <= i < |s| ensures IsSpace(s[i]) {
            if i > 0 { assert s[i] == s[1..][i - 1]; }
          }
        }
      } else {
        var j :| 0 <= j < |s[1..]| && !IsSpace(s[1..][j]);
        assert !IsSpace(s[j + 1]);
      }
    } else if s != [] {
      assert !IsSpace(s[0]);
    }
  }

  lemma {:induction false} TrimEndSpec(s: string)
    ensures TrimEnd(s) == [] <==> AllSpace(s)
    ensures TrimEnd(s) != [] ==> !IsSpace(TrimEnd(s)[|TrimEnd(s)| - 1])
    decreases |s|
  {
    if s != [] && IsSpace(s[|s| - 1]) {
      var t := s[..|s| - 1];
      TrimEndSpec(t);
      if AllSpace(t) {
        assert AllSpace(s) by {
          forall i | 0 <= i < |s| ensures IsSpace(s[i]) {
            if i < |s| - 1 { assert s[i] == t[i]; }
          }
        }
      } else {
        var j :| 0 <= j < |t| && !IsSpace(t[j]);
        assert !IsSpace(s[j]);
      }
    } else if s != [] {
      assert !IsSpace(s[|s| - 1]);
    }
  }

  /** `s.strip()` is `s` with a whitespace prefix and a whitespace suffix cut
      off; it is empty exactly when every character of `s` is whitespace, and
      otherwise it neither starts nor ends with whitespace. */
  lemma StripSpec(s: string)
    ensures exists i, j :: 0 <= i <= j <= |s| && Strip(s) == s[i..j] && AllSpace(s[..i]) && AllSpace(s[j..])
    ensures Strip(s) == [] <==> AllSpace(s)
    ensures Strip(s) != [] ==> !IsSpace(Strip(s)[0]) && !IsSpace(Strip(s)[|Strip(s)| - 1])
  {
    StripCuts(s);
    TrimStartSpec(s);
    var t := TrimStart(s);
    TrimEndSpec(t);
    if t != [] {
      assert !IsSpace(t[0]);
      assert !AllSpace(t);
      StripHead(t);
    }
    if AllSpace(s) {
      assert t == [];
    }
  }

  /** `TrimStart` drops a whitespace prefix. */
  lemma {:induction false} TrimStartCuts(s: string) returns (i: nat)
    ensures i <= |s| && TrimStart(s) == s[i..] && AllSpace(s[..i])
    decreases |s|
  {
    if s != [] && IsSpace(s[0]) {
      var i' := TrimStartCuts(s[1..]);
      i := i' + 1;
      assert s[1..][i'..] == s[i..];
      forall k | 0 <= k < i ensures IsSpace(s[..i][k]) {
        if k > 0 { assert s[..i][k] == s[1..][..i'][k - 1]; }
      }
    } else {
      i := 0;
    }
  }

  /** `TrimEnd` drops a whitespace suffix. */
  lemma {:induction false} TrimEndCuts(s: string) returns (j: nat)
    ensures j <= |s| && TrimEnd(s) == s[..j] && AllSpace(s[j..])
    decreases |s|
  {
    if s != [] && IsSpace(s[|s| - 1]) {
      var t := s[..|s| - 1];
      j := TrimEndCuts(t);
      assert t[..j] == s[..j];
      forall k | 0 <= k < |s| - j ensures IsSpace(s[j..][k]) {
        if j + k < |s| - 1 { assert s[j..][k] == t[j..][k]; }
      }
    } else {
      j := |s|;
    }
  }

  lemma StripCuts(s: string)
    ensures exists i, j :: 0 <= i <= j <= |s| && Strip(s) == s[i..j] && AllSpace(s[..i]) && AllSpace(s[j..])
  {
    var i := TrimStartCuts(s);
    var t := s[i..];
    var j := TrimEndCuts(t);
    assert t[..j] == s[i..i + j];
    assert t[j..] == s[i + j..];
  }

  lemma {:induction false} StripHead(t: string)
    requires t != [] && !IsSpace(t[0])
    ensures TrimEnd(t) != [] && TrimEnd(t)[0] == t[0]
    decreases |t|
  {
    if IsSpace(t[|t| - 1]) {
      assert |t| > 1;
      StripHead(t[..|t| - 1]);
    }
  }

  /** A string containing a pattern that holds a non-whitespace character
      holds a non-whitespace character itself. */
  lemma {:induction false} ContainsNonSpace(s: string, pat: string, j: nat)
    requires Contains(s, pat)
    requires j < |pat| && !IsSpace(pat[j])
    ensures !AllSpace(s)
    decreases |s|
  {
    if pat <= s {
      assert s[j] == pat[j];
    } else {
      ContainsNonSpace(s[1..], pat, j);
      var i :| 0 <= i < |s[1..]| && !IsSpace(s[1..][i]);
      assert s[i + 1] == s[1..][i];
    }
  }

  /** Lower-casing changes no whitespace character and creates none. */
  lemma LowerKeepsSpace(s: string)
    ensures AllSpace(Lower(s)) <==> AllSpace(s)
  {
    if !AllSpace(s) {
      var i :| 0 <= i < |s| && !IsSpace(s[i]);
      assert !IsSpace(Lower(s)[i]);
    }
    if !AllSpace(Lower(s)) {
      var i :| 0 <= i < |Lower(s)| && !IsSpace(Lower(s)[i]);
      assert !IsSpace(s[i]);
    }
  }
}
