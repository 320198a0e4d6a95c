/**
 * String operations the flattener uses: Python's `str.replace(pat, '')`,
 * the three-step line-break removal applied to string leaves, `name[:-1]`
 * and `str(i)` for a non-negative integer.
 */
module Text {

  predicate IsLineBreak(c: char) {
    c == '\n' || c == '\r'
  }

  /** The reference definition of line-break removal: keep every other character, in order. */
  function WithoutLineBreaks(s: string): string {
    if s == [] then []
    else (if IsLineBreak(s[0]) then [] else [s[0]]) + WithoutLineBreaks(s[1..])
  }

  /** `s` with every occurrence of the single character `c` deleted. */
  function WithoutChar(s: string, c: char): string {
    if s == [] then []
    else (if s[0] == c then [] else [s[0]]) + WithoutChar(s[1..], c)
  }

  /**
   * Python's `s.replace(pat, '')` for a non-empty pattern: scanning from the
   * left, every non-overlapping occurrence of `pat` is deleted.
   */
  function RemoveAll(s: string, pat: string): string
    requires |pat| > 0
    decreases |s|
  {
    if |s| < |pat| then s
    else if s[..|pat|] == pat then RemoveAll(s[|pat|..], pat)
    else [s[0]] + RemoveAll(s[1..], pat)
  }

  /** What a string leaf becomes: `x.replace('\n', '').replace('\r\n', '').replace('\r', '')`. */
  function StripNewlines(s: string): string {
    RemoveAll(RemoveAll(RemoveAll(s, "\n"), "\r\n"), "\r")
  }

  /** Python's `s[:-1]`: everything but the last character, and '' for ''. */
  function DropLast(s: string): string {
    if s == [] then s else s[..|s| - 1]
  }

  /** Python's `str(n)` for a non-negative integer: its decimal digits, most significant first. */
  function Decimal(n: nat): (r: string)
    ensures |r| > 0
    ensures forall k :: 0 <= k < |r| ==> '0' <= r[k] <= '9'
    ensures n < 10 <==> |r| == 1
    ensures r[0] == '0' ==> n == 0
    decreases n
  {
    if n < 10 then [Digit(n)] else Decimal(n / 10) + [Digit(n % 10)]
  }

  function Digit(d: nat): (c: char)
    requires d < 10
    ensures '0' <= c <= '9' && (c == '0' <==> d == 0)
  {
    ['0', '1', '2', '3', '4', '5', '6', '7', '8', '9'][d]
  }

  /** The number a string of decimal digits denotes (Python's `int(s)` on such a string). */
  function DecimalValue(s: string): nat
    requires forall k :: 0 <= k < |s| ==> '0' <= s[k] <= '9'
    decreases |s|
  {
    if s == [] then 0
    else 10 * DecimalValue(s[..|s| - 1]) + ((s[|s| - 1] as int) - ('0' as int))
  }

  /** `int(str(n)) == n`: the label of a list position names that position. */
  lemma {:induction false} DecimalRoundTrip(n: nat)
    ensures DecimalValue(Decimal(n)) == n
    decreases n
  {
    var r := Decimal(n);
    if n >= 10 {
      DecimalRoundTrip(n / 10);
      assert r[..|r| - 1] == Decimal(n / 10);
      assert r[|r| - 1] == Digit(n % 10);
      DigitValue(n % 10);
    } else {
      DigitValue(n);
    }
  }

  lemma DigitValue(d: nat)
    requires d < 10
    ensures (Digit(d) as int) - ('0' as int) == d
  {
  }

  /** Different list positions get different labels. */
  lemma DecimalInjective(m: nat, n: nat)
    requires m != n
    ensures Decimal(m) != Decimal(n)
  {
    DecimalRoundTrip(m);
    DecimalRoundTrip(n);
  }

  /** Deleting one pattern character by `replace` is filtering that character out. */
  lemma {:induction false} RemoveCharIsFilter(s: string, c: char)
    ensures RemoveAll(s, [c]) == WithoutChar(s, c)
    decreases |s|
  {
    if |s| >= 1 {
      RemoveCharIsFilter(s[1..], c);
      if s[..1] == [c] {
        assert s[0] == c;
      } else {
        assert s[0] != c;
      }
    }
  }

  /** `replace` leaves a string alone when one of the pattern's characters never occurs in it. */
  lemma {:induction false} RemoveAllAbsent(s: string, pat: string, k: nat)
    requires |pat| > 0 && k < |pat|
    requires pat[k] !in s
    ensures RemoveAll(s, pat) == s
    decreases |s|
  {
    if |s| >= |pat| {
      RemoveAllAbsent(s[1..], pat, k);
      assert [s[0]] + s[1..] == s;
    }
  }

  lemma {:induction false} WithoutCharNotIn(s: string, c: char)
    ensures c !in WithoutChar(s, c)
    ensures |WithoutChar(s, c)| <= |s|
  {
    if s != [] {
      WithoutCharNotIn(s[1..], c);
    }
  }

  lemma {:induction false} FilterTwice(s: string)
    ensures WithoutChar(WithoutChar(s, '\n'), '\r') == WithoutLineBreaks(s)
  {
    if s != [] {
      FilterTwice(s[1..]);
      var head := if s[0] == '\n' then [] else [s[0]];
      assert WithoutChar(s, '\n') == head + WithoutChar(s[1..], '\n');
      WithoutCharConcat(head, WithoutChar(s[1..], '\n'), '\r');
    }
  }

  lemma {:induction false} WithoutCharConcat(a: string, b: string, c: char)
    ensures WithoutChar(a + b, c) == WithoutChar(a, c) + WithoutChar(b, c)
  {
    if a != [] {
      assert (a + b)[1..] == a[1..] + b;
      WithoutCharConcat(a[1..], b, c);
    } else {
      assert a + b == b;
    }
  }

  /**
   * The three `replace` calls together delete exactly the '\n' and '\r'
   * characters: the '\r\n' step never finds anything, because the first
   * step already removed every '\n'.
   */
  lemma StripNewlinesIsFilter(s: string)
    ensures StripNewlines(s) == WithoutLineBreaks(s)
  {
    RemoveCharIsFilter(s, '\n');
    var s1 := WithoutChar(s, '\n');
    WithoutCharNotIn(s, '\n');
    RemoveAllAbsent(s1, "\r\n", 1);
    RemoveCharIsFilter(s1, '\r');
    FilterTwice(s);
  }

  /** The stored string has no line break, and every other character keeps its count. */
  lemma {:induction false} WithoutLineBreaksSpec(s: string)
    ensures '\n' !in WithoutLineBreaks(s) && '\r' !in WithoutLineBreaks(s)
    ensures forall c :: !IsLineBreak(c) ==> multiset(WithoutLineBreaks(s))[c] == multiset(s)[c]
    ensures |WithoutLineBreaks(s)| <= |s|
  {
    if s != [] {
      WithoutLineBreaksSpec(s[1..]);
      assert s == [s[0]] + s[1..];
      assert multiset(s) == multiset([s[0]]) + multiset(s[1..]);
    }
  }

  /** A string without line breaks is stored unchanged. */
  lemma {:induction false} WithoutLineBreaksClean(s: string)
    requires '\n' !in s && '\r' !in s
    ensures WithoutLineBreaks(s) == s
  {
    if s != [] {
      WithoutLineBreaksClean(s[1..]);
      assert [s[0]] + s[1..] == s;
    }
  }

  /** Lines joined by any run of line breaks are stored glued together, with no separator. */
  lemma JoinedLines(a: string, breaks: string, b: string)
    requires '\n' !in a && '\r' !in a && '\n' !in b && '\r' !in b
    requires forall k :: 0 <= k < |breaks| ==> IsLineBreak(breaks[k])
    ensures StripNewlines(a + breaks + b) == a + b
  {
    var ab := a + breaks;
    calc {
      StripNewlines(ab + b);
    == { StripNewlinesIsFilter(ab + b); }
      WithoutLineBreaks(ab + b);
    == { WithoutLineBreaksConcat(ab, b); }
      WithoutLineBreaks(ab) + WithoutLineBreaks(b);
    == { WithoutLineBreaksConcat(a, breaks); WithoutLineBreaksOnlyBreaks(breaks); }
      WithoutLineBreaks(a) + [] + WithoutLineBreaks(b);
    == { WithoutLineBreaksClean(a); WithoutLineBreaksClean(b); }
      a + [] + b;
    }
    assert a + [] + b == a + b;
  }

  lemma {:induction false} WithoutLineBreaksOnlyBreaks(s: string)
    requires forall k :: 0 <= k < |s| ==> IsLineBreak(s[k])
    ensures WithoutLineBreaks(s) == []
  {
    if s != [] {
      WithoutLineBreaksOnlyBreaks(s[1..]);
    }
  }

  lemma StripNewlinesExample()
    ensures StripNewlines("line1\r\nline2") == "line1line2"
  {
    var a, crlf, b := "line1", "\r\n", "line2";
    assert "line1\r\nline2" == a + crlf + b;
    assert "line1line2" == a + b;
    assert forall k :: 0 <= k < |crlf| ==> IsLineBreak(crlf[k]);
    JoinedLines(a, crlf, b);
  }

  lemma {:induction false} WithoutLineBreaksConcat(a: string, b: string)
    ensures WithoutLineBreaks(a + b) == WithoutLineBreaks(a) + WithoutLineBreaks(b)
  {
    if a != [] {
      assert (a + b)[1..] == a[1..] + b;
      WithoutLineBreaksConcat(a[1..], b);
    } else {
      assert a + b == b;
    }
  }
}
