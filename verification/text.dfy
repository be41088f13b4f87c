/** String primitives with JavaScript semantics: `trim`, `toLowerCase`, `includes`,
    and the whitespace class shared by `trim`, `parseFloat` and the regular expression `\s`. */
module Text {

  /** JavaScript WhiteSpace and LineTerminator code points (tab, line feed, vertical tab,
      form feed and carriage return are the range `\t`..`\r`). */
  predicate IsSpace(c: char) {
    if c < '\U{00A0}' then c == ' ' || '\t' <= c <= '\r'
    else
      || c == '\U{00A0}' || c == '\U{1680}' || ('\U{2000}' <= c <= '\U{200A}')
      || c == '\U{2028}' || c == '\U{2029}' || c == '\U{202F}' || c == '\U{205F}'
      || c == '\U{3000}' || c == '\U{FEFF}'
  }

  /** `s.trimStart()`: drops the leading whitespace. */
  function TrimStart(s: string): (r: string)
    ensures |r| <= |s|
    ensures r == s[|s| - |r|..]
    ensures |r| > 0 ==> !IsSpace(r[0])
    ensures Blank(s[..|s| - |r|])
  {
    if |s| > 0 && IsSpace(s[0]) then TrimStart(s[1..]) else s
  }

  /** `s.trimEnd()`: drops the trailing whitespace. */
  function TrimEnd(s: string): (r: string)
    ensures |r| <= |s|
    ensures r == s[..|r|]
    ensures |r| > 0 ==> !IsSpace(r[|r| - 1])
    ensures Blank(s[|r|..])
  {
    if |s| > 0 && IsSpace(s[|s| - 1]) then TrimEnd(s[..|s| - 1]) else s
  }

  /** `s.trim()`. */
  function Trim(s: string): (r: string)
    ensures |r| <= |s|
    ensures |r| > 0 ==> !IsSpace(r[0]) && !IsSpace(r[|r| - 1])
  {
    TrimEnd(TrimStart(s))
  }

  /** A string is blank when every character is whitespace (the empty string included). */
  predicate Blank(s: string) {
    forall i :: 0 <= i < |s| ==> IsSpace(s[i])
  }

  /** `s.trim()` is empty exactly for the blank strings: the test behind every
      "required" rule of the forms. */
  lemma TrimEmptyIffBlank(s: string)
    ensures Trim(s) == "" <==> Blank(s)
  {
    var t := TrimStart(s);
    if Trim(s) == "" {
      assert s[..|s| - |t|] == s;
    } else {
      assert |t| > 0;
      assert !IsSpace(t[0]);
      assert t[0] == s[|s| - |t|];
    }
  }

  /** Trimming a string twice changes nothing more. */
  lemma {:induction false} TrimIdempotent(s: string)
    ensures Trim(Trim(s)) == Trim(s)
  {
    var r := Trim(s);
    if |r| > 0 {
      assert TrimStart(r) == r;
      assert TrimEnd(r) == r;
    }
  }

  /** The single-character part of `toLowerCase` this model covers: ASCII capitals,
      the Latin-1 capitals `À`..`Þ` (except `×`) and `Ÿ`. */
  function LowerChar(c: char): char {
    if 'A' <= c <= 'Z' || ('À' <= c <= 'Þ' && c != '×') then (c as int + 32) as char
    else if c == 'Ÿ' then 'ÿ'
    else c
  }

  /** `s.toLowerCase()`, character by character. */
  function Lower(s: string): (r: string)
    ensures |r| == |s|
    ensures forall i :: 0 <= i < |s| ==> r[i] == LowerChar(s[i])
  {
    seq(|s|, i requires 0 <= i < |s| => LowerChar(s[i]))
  }

  /** Lowercasing twice is lowercasing once. */
  lemma LowerIdempotent(s: string)
    ensures Lower(Lower(s)) == Lower(s)
  {
  }

  lemma LowerAppend(a: string, b: string)
    ensures Lower(a + b) == Lower(a) + Lower(b)
  {
    assert forall i :: 0 <= i < |a + b| ==> Lower(a + b)[i] == (Lower(a) + Lower(b))[i];
  }

  /** `s.startsWith(p)`. */
  predicate StartsWith(s: string, p: string) {
    |p| <= |s| && s[..|p|] == p
  }

  /** `s.includes(t)`: `t` occurs in `s` as a contiguous substring. */
  predicate Contains(s: string, t: string)
    decreases |s|
  {
    StartsWith(s, t) || (|s| > 0 && Contains(s[1..], t))
  }

  /** `t` occurs in `s` starting at index `i`. */
  predicate OccursAt(s: string, t: string, i: int) {
    0 <= i && i + |t| <= |s| && s[i..i + |t|] == t
  }

  /** The recursive test agrees with the positional definition of a substring occurrence. */
  lemma {:induction false} ContainsIff(s: string, t: string)
    ensures Contains(s, t) <==> exists i :: OccursAt(s, t, i)
  {
    if StartsWith(s, t) {
      assert OccursAt(s, t, 0);
    } else if |s| > 0 {
      ContainsIff(s[1..], t);
      if Contains(s[1..], t) {
        var i :| OccursAt(s[1..], t, i);
        SliceOfTail(s, i + 1, |t|);
        assert OccursAt(s, t, i + 1);
      }
      if exists i :: OccursAt(s, t, i) {
        var i :| OccursAt(s, t, i);
        if i == 0 {
          assert false;
        } else {
          SliceOfTail(s, i, |t|);
          assert OccursAt(s[1..], t, i - 1);
        }
      }
    }
  }

  /** A slice of `s` away from its first character is the same slice of `s[1..]`, shifted. */
  lemma SliceOfTail(s: string, i: int, n: nat)
    requires 1 <= i && i + n <= |s|
    ensures s[i..i + n] == s[1..][i - 1..i - 1 + n]
  {
    forall k | i <= k < i + n ensures s[k] == s[1..][k - 1] {
    }
  }

  /** Every string contains the empty string, so an empty search term matches everything. */
  lemma ContainsEmpty(s: string)
    ensures Contains(s, "")
  {
  }

  /** A text that contains a search term contains each prefix of it too. */
  lemma {:induction false} ContainsPrefix(s: string, t: string, u: string)
    requires Contains(s, t) && StartsWith(t, u)
    ensures Contains(s, u)
  {
    if StartsWith(s, t) {
      assert s[..|u|] == s[..|t|][..|u|];
    } else {
      ContainsPrefix(s[1..], t, u);
    }
  }

  /** A search term with a character the text lacks does not occur in it. */
  lemma {:induction false} MissingChar(s: string, t: string, c: char)
    requires c in t && c !in s
    ensures !Contains(s, t)
  {
    assert !StartsWith(s, t) by {
      var k :| 0 <= k < |t| && t[k] == c;
      assert |t| <= |s| ==> s[k] in s && s[..|t|][k] == s[k];
    }
    if |s| > 0 {
      assert forall k :: 0 <= k < |s| - 1 ==> s[1..][k] == s[k + 1];
      MissingChar(s[1..], t, c);
    }
  }

  /** A text shorter than the search term does not contain it. */
  lemma ShortText(s: string, t: string)
    requires |s| < |t|
    ensures !Contains(s, t)
    decreases |s|
  {
    if |s| > 0 {
      ShortText(s[1..], t);
    }
  }

  /** When the first character of `t` is missing from `a`, an occurrence of `t` in `a + b` lies
      wholly in `b`. */
  lemma {:induction false} ContainsAfter(a: string, b: string, t: string)
    requires |t| > 0 && t[0] !in a
    ensures Contains(a + b, t) ==> Contains(b, t)
  {
    if |a| > 0 {
      assert (a + b)[0] == a[0];
      assert !StartsWith(a + b, t) by {
        assert t[0] != a[0];
      }
      assert (a + b)[1..] == a[1..] + b;
      ContainsAfter(a[1..], b, t);
    } else {
      assert a + b == b;
    }
  }

  /** When the last character of `t` is missing from `b`, an occurrence of `t` in `a + b` lies
      wholly in `a`. */
  lemma {:induction false} ContainsBefore(a: string, b: string, t: string)
    requires |t| > 0 && t[|t| - 1] !in b
    ensures Contains(a + b, t) ==> Contains(a, t)
  {
    if |a| == 0 {
      assert a + b == b;
      MissingChar(b, t, t[|t| - 1]);
    } else if StartsWith(a + b, t) {
      assert |t| <= |a| by {
        assert (a + b)[..|t|][|t| - 1] == t[|t| - 1];
        assert forall k :: |a| <= k < |a + b| ==> (a + b)[k] == b[k - |a|] && b[k - |a|] in b;
      }
      assert (a + b)[..|t|] == a[..|t|];
    } else {
      assert (a + b)[1..] == a[1..] + b;
      ContainsBefore(a[1..], b, t);
    }
  }

  /** A text in which two adjacent characters of `t` never appear side by side does not
      contain `t`. */
  lemma LacksPair(s: string, t: string, k: nat)
    requires k + 1 < |t|
    requires forall i :: 0 <= i < |s| - 1 ==> !(s[i] == t[k] && s[i + 1] == t[k + 1])
    ensures !Contains(s, t)
  {
    forall i | OccursAt(s, t, i)
      ensures s[i + k] == t[k] && s[i + k + 1] == t[k + 1]
    {
      assert s[i..i + |t|][k] == t[k] && s[i..i + |t|][k + 1] == t[k + 1];
    }
    ContainsIff(s, t);
  }

  /** `a + b` contains both `a` and `b`. */
  lemma ContainsParts(a: string, b: string)
    ensures Contains(a + b, a) && Contains(a + b, b)
    decreases |a|
  {
    assert (a + b)[..|a|] == a;
    if |a| > 0 {
      assert (a + b)[1..] == a[1..] + b;
      ContainsParts(a[1..], b);
    } else {
      assert a + b == b;
      assert b[..|b|] == b;
    }
  }

  /** Containment is transitive: a text contains whatever its search terms contain. */
  lemma ContainsTransitive(s: string, t: string, u: string)
    requires Contains(s, t) && Contains(t, u)
    ensures Contains(s, u)
  {
    ContainsIff(s, t);
    ContainsIff(t, u);
    var i :| OccursAt(s, t, i);
    var j :| OccursAt(t, u, j);
    forall k | 0 <= k < |u|
      ensures s[i + j..i + j + |u|][k] == u[k]
    {
      assert s[i..i + |t|][j + k] == t[j..j + |u|][k];
    }
    assert s[i + j..i + j + |u|] == u;
    assert OccursAt(s, u, i + j);
    ContainsIff(s, u);
  }
}
