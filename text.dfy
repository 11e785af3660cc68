/**
  The Python string primitives the rest of the model is written in: the
  whitespace class shared by `str.strip()`, `str.split()` and the `\s` of
  the `re` module, literal `str.replace`, `str.split(sep)`, `sep.join`,
  substring tests and `str(int)`. Strings are sequences of code points,
  exactly as Python's `str` is, so `|s|` is Python's `len(s)`.
*/
module Text {

  /** `c.isspace()`: the code points Python treats as whitespace. */
  predicate IsSpace(c: char)
  {
    || ('\t' <= c <= '\r')
    || ('\U{001C}' <= c <= '\U{001F}')
    || c == ' ' || c == '\U{0085}' || c == '\U{00A0}' || c == '\U{1680}'
    || ('\U{2000}' <= c <= '\U{200A}')
    || c == '\U{2028}' || c == '\U{2029}' || c == '\U{202F}' || c == '\U{205F}' || c == '\U{3000}'
  }

  /** `not s.strip()`: empty or whitespace only. */
  predicate IsBlank(s: string)
  {
    forall i :: 0 <= i < |s| ==> IsSpace(s[i])
  }

  /** `s.lstrip()` */
  function LStrip(s: string): (r: string)
    ensures |r| <= |s| && r == s[|s| - |r|..]
    ensures IsBlank(s[..|s| - |r|])
    ensures r == [] || !IsSpace(r[0])
  {
    if s != [] && IsSpace(s[0]) then LStrip(s[1..]) else s
  }

  /** `s.rstrip()` */
  function RStrip(s: string): (r: string)
    ensures |r| <= |s| && r == s[..|r|]
    ensures IsBlank(s[|r|..])
    ensures r == [] || !IsSpace(r[|r| - 1])
  {
    if s != [] && IsSpace(s[|s| - 1]) then RStrip(s[..|s| - 1]) else s
  }

  /** `s.strip()`: what is left between the leading and the trailing whitespace. */
  function Strip(s: string): (r: string)
    ensures |r| <= |s|
    ensures r == [] || (!IsSpace(r[0]) && !IsSpace(r[|r| - 1]))
  {
    RStrip(LStrip(s))
  }

  /** A string is blank exactly when stripping it leaves nothing. */
  lemma BlankIffStripEmpty(s: string)
    ensures IsBlank(s) <==> Strip(s) == []
  {
    var l := LStrip(s);
    if Strip(s) == [] {
      assert l == [];
      assert s == s[..|s| - |l|];
    } else {
      assert l != [] && !IsSpace(l[0]);
      assert l[0] == s[|s| - |l|];
    }
  }

  /** A string that neither starts nor ends with whitespace is its own strip. */
  lemma StripOfTrimmed(s: string)
    requires s == [] || (!IsSpace(s[0]) && !IsSpace(s[|s| - 1]))
    ensures Strip(s) == s
  {
  }

  lemma {:induction false} LStripPadded(pre: string, t: string)
    requires IsBlank(pre)
    requires t == [] || !IsSpace(t[0])
    ensures LStrip(pre + t) == t
    decreases |pre|
  {
    if pre == [] {
      assert pre + t == t;
    } else {
      assert (pre + t)[1..] == pre[1..] + t;
      LStripPadded(pre[1..], t);
    }
  }

  lemma {:induction false} RStripPadded(t: string, post: string)
    requires IsBlank(post)
    requires t == [] || !IsSpace(t[|t| - 1])
    ensures RStrip(t + post) == t
    decreases |post|
  {
    if post == [] {
      assert t + post == t;
    } else {
      assert (t + post)[..|t + post| - 1] == t + post[..|post| - 1];
      RStripPadded(t, post[..|post| - 1]);
    }
  }

  /** Whitespace around a trimmed string is exactly what stripping removes. */
  lemma StripPadded(pre: string, t: string, post: string)
    requires IsBlank(pre) && IsBlank(post)
    requires t == [] || (!IsSpace(t[0]) && !IsSpace(t[|t| - 1]))
    ensures Strip(pre + t + post) == t
  {
    assert pre + t + post == pre + (t + post);
    if t == [] {
      assert IsBlank(t + post);
      LStripPadded(pre, []);
      assert IsBlank(pre + post);
      assert LStrip(pre + (t + post)) == [] by {
        assert pre + (t + post) == (pre + post) + [];
        LStripPadded(pre + post, []);
      }
    } else {
      LStripPadded(pre, t + post);
      RStripPadded(t, post);
    }
  }

  lemma ConcatAssoc<T>(a: seq<T>, b: seq<T>, c: seq<T>)
    ensures a + (b + c) == (a + b) + c
  {
  }

  /** Where the stripped text starts in the original. */
  function StripStart(s: string): nat
  {
    |s| - |LStrip(s)|
  }

  /** Stripping only removes characters from the ends: what is left is a
      slice of the original. */
  lemma StripSlice(s: string)
    ensures StripStart(s) + |Strip(s)| <= |s|
    ensures Strip(s) == s[StripStart(s)..StripStart(s) + |Strip(s)|]
  {
    var l := LStrip(s);
    var r := RStrip(l);
    assert r == l[..|r|];
  }

  /** `sep.join(parts)` */
  function Join(parts: seq<string>, sep: string): string
  {
    if |parts| == 0 then []
    else if |parts| == 1 then parts[0]
    else parts[0] + sep + Join(parts[1..], sep)
  }

  lemma JoinAppend(parts: seq<string>, x: string, sep: string)
    requires parts != []
    ensures Join(parts + [x], sep) == Join(parts, sep) + sep + x
  {
    if |parts| > 1 {
      assert (parts + [x])[1..] == parts[1..] + [x];
      JoinAppend(parts[1..], x, sep);
    }
  }

  /** Joining two non-empty lists is joining their joins. */
  lemma {:induction false} JoinConcat(a: seq<string>, b: seq<string>, sep: string)
    requires a != [] && b != []
    ensures Join(a + b, sep) == Join(a, sep) + sep + Join(b, sep)
    decreases |a|
  {
    if |a| == 1 {
      assert (a + b)[1..] == b;
    } else {
      assert (a + b)[1..] == a[1..] + b;
      JoinConcat(a[1..], b, sep);
    }
  }

  /** A character in neither the parts nor the separator is not in the join. */
  lemma {:induction false} JoinLacks(parts: seq<string>, sep: string, c: char)
    requires c !in sep
    requires forall i :: 0 <= i < |parts| ==> c !in parts[i]
    ensures c !in Join(parts, sep)
    decreases |parts|
  {
    if |parts| > 1 {
      JoinLacks(parts[1..], sep, c);
    }
  }

  /** The join starts where its first part starts and ends where its last part ends. */
  lemma {:induction false} JoinEnds(parts: seq<string>, sep: string)
    requires parts != []
    requires forall i :: 0 <= i < |parts| ==> parts[i] != []
    ensures var j := Join(parts, sep);
            j != [] && j[0] == parts[0][0] && j[|j| - 1] == parts[|parts| - 1][|parts[|parts| - 1]| - 1]
    decreases |parts|
  {
    if |parts| > 1 {
      JoinEnds(parts[1..], sep);
    }
  }

  /** The concatenation of a list of lists. */
  function Flatten<T>(xss: seq<seq<T>>): (r: seq<T>)
  {
    if xss == [] then [] else xss[0] + Flatten(xss[1..])
  }

  lemma {:induction false} FlattenAppend<T>(xss: seq<seq<T>>, ys: seq<seq<T>>)
    ensures Flatten(xss + ys) == Flatten(xss) + Flatten(ys)
    decreases |xss|
  {
    if xss == [] {
      assert xss + ys == ys;
    } else {
      assert (xss + ys)[1..] == xss[1..] + ys;
      FlattenAppend(xss[1..], ys);
    }
  }

  /** `s.split(sep)` for a non-empty separator: leftmost, non-overlapping cuts. */
  function SplitOn(s: string, sep: string): (r: seq<string>)
    requires |sep| > 0
    ensures |r| >= 1
    decreases |s|
  {
    if |s| < |sep| then [s]
    else if s[..|sep|] == sep then [[]] + SplitOn(s[|sep|..], sep)
    else
      var rest := SplitOn(s[1..], sep);
      [[s[0]] + rest[0]] + rest[1..]
  }

  /** Joining the pieces of a split with the same separator gives the text back. */
  lemma {:induction false} SplitJoin(s: string, sep: string)
    requires |sep| > 0
    ensures Join(SplitOn(s, sep), sep) == s
    decreases |s|
  {
    if |s| < |sep| {
    } else if s[..|sep|] == sep {
      var t := s[|sep|..];
      var r := SplitOn(t, sep);
      SplitJoin(t, sep);
      assert SplitOn(s, sep) == [[]] + r;
      assert ([[]] + r)[1..] == r;
      assert Join([[]] + r, sep) == [] + sep + Join(r, sep);
      assert s == sep + t;
    } else {
      var rest := SplitOn(s[1..], sep);
      SplitJoin(s[1..], sep);
      var head := [s[0]] + rest[0];
      assert SplitOn(s, sep) == [head] + rest[1..];
      if |rest| == 1 {
        assert Join([head], sep) == head;
        assert s == [s[0]] + s[1..];
      } else {
        var tail := Join(rest[1..], sep);
        assert ([head] + rest[1..])[1..] == rest[1..];
        assert Join([head] + rest[1..], sep) == head + sep + tail;
        assert Join(rest, sep) == rest[0] + sep + tail;
        assert head + sep + tail == [s[0]] + (rest[0] + sep + tail);
        assert s == [s[0]] + s[1..];
      }
    }
  }

  /** `sub in s` */
  predicate Contains(s: string, sub: string)
    decreases |s|
  {
    if |s| < |sub| then false
    else s[..|sub|] == sub || (s != [] && Contains(s[1..], sub))
  }

  /** `s.replace(pat, rep)` for a non-empty `pat`: every leftmost,
      non-overlapping occurrence is replaced, scanning left to right. */
  function ReplaceAll(s: string, pat: string, rep: string): string
    requires |pat| > 0
    decreases |s|
  {
    if |s| < |pat| then s
    else if s[..|pat|] == pat then rep + ReplaceAll(s[|pat|..], pat, rep)
    else [s[0]] + ReplaceAll(s[1..], pat, rep)
  }

  /** Every character of the result comes from the text or from the replacement. */
  lemma {:induction false} ReplaceAddsOnlyReplacement(s: string, pat: string, rep: string)
    requires |pat| > 0
    ensures forall c :: c in ReplaceAll(s, pat, rep) ==> c in s || c in rep
    decreases |s|
  {
    if |s| >= |pat| {
      if s[..|pat|] == pat {
        ReplaceAddsOnlyReplacement(s[|pat|..], pat, rep);
        assert forall c :: c in s[|pat|..] ==> c in s;
      } else {
        ReplaceAddsOnlyReplacement(s[1..], pat, rep);
        assert forall c :: c in s[1..] ==> c in s;
      }
    }
  }

  /** Replacing a single character by a text that does not contain it
      leaves no occurrence of that character. */
  lemma {:induction false} ReplaceRemovesChar(s: string, c: char, rep: string)
    requires c !in rep
    ensures c !in ReplaceAll(s, [c], rep)
    decreases |s|
  {
    if |s| >= 1 {
      if s[..1] == [c] {
        ReplaceRemovesChar(s[1..], c, rep);
      } else {
        ReplaceRemovesChar(s[1..], c, rep);
      }
    }
  }

  /** A pattern that holds a character absent from the text never fires. */
  lemma {:induction false} ReplaceNeverFires(s: string, pat: string, rep: string, c: char)
    requires |pat| > 0 && c in pat && c !in s
    ensures ReplaceAll(s, pat, rep) == s
    decreases |s|
  {
    if |s| >= |pat| {
      assert s[..|pat|] != pat by {
        var k :| 0 <= k < |pat| && pat[k] == c;
        assert s[..|pat|][k] == s[k];
      }
      ReplaceNeverFires(s[1..], pat, rep, c);
      assert s == [s[0]] + s[1..];
    }
  }

  /** The character of a decimal digit value. */
  function DigitChar(d: nat): (c: char)
    requires d < 10
    ensures '0' <= c <= '9'
  {
    (48 + d) as char
  }

  predicate IsAsciiDigits(s: string)
  {
    forall i :: 0 <= i < |s| ==> '0' <= s[i] <= '9'
  }

  /** `str(n)` for a non-negative integer. */
  function NatToDecimal(n: nat): (r: string)
    ensures |r| >= 1 && IsAsciiDigits(r)
    decreases n
  {
    if n < 10 then [DigitChar(n)] else NatToDecimal(n / 10) + [DigitChar(n % 10)]
  }

  /** `int(s)` for a string of ASCII digits: the inverse of NatToDecimal. */
  function ParseDecimal(s: string): nat
    requires IsAsciiDigits(s)
  {
    if s == [] then 0 else 10 * ParseDecimal(s[..|s| - 1]) + (s[|s| - 1] as int - 48)
  }

  lemma {:induction false} DecimalRoundTrip(n: nat)
    ensures ParseDecimal(NatToDecimal(n)) == n
    decreases n
  {
    if n >= 10 {
      DecimalRoundTrip(n / 10);
      var s := NatToDecimal(n);
      assert s[..|s| - 1] == NatToDecimal(n / 10);
    }
  }

  /** `str(n)` for any integer: a minus sign before the digits of a negative one. */
  function IntToString(n: int): (r: string)
    ensures |r| >= 1
  {
    if n < 0 then "-" + NatToDecimal(-n) else NatToDecimal(n)
  }

  /** Distinct integers print differently. */
  lemma IntToStringInjective(a: int, b: int)
    requires IntToString(a) == IntToString(b)
    ensures a == b
  {
    SignOfString(a);
    SignOfString(b);
    if a < 0 && b < 0 {
      NatToDecimalInjective(-a, -b);
    } else if a >= 0 && b >= 0 {
      NatToDecimalInjective(a, b);
    }
  }

  lemma NatToDecimalInjective(m: nat, n: nat)
    requires NatToDecimal(m) == NatToDecimal(n)
    ensures m == n
  {
    DecimalRoundTrip(m);
    DecimalRoundTrip(n);
  }

  /** `str(n)` starts with a minus sign exactly when `n` is negative, and the
      digits follow it. */
  lemma SignOfString(n: int)
    ensures var s := IntToString(n);
            (s[0] == '-') == (n < 0)
            && (n < 0 ==> s[1..] == NatToDecimal(-n))
            && (n >= 0 ==> s == NatToDecimal(n))
  {
    if n >= 0 {
      assert '0' <= NatToDecimal(n)[0] <= '9';
    } else {
      assert ("-" + NatToDecimal(-n))[1..] == NatToDecimal(-n);
    }
  }

  /** No character of `str(n)` is an underscore. */
  lemma IntToStringHasNoUnderscore(n: int)
    ensures '_' !in IntToString(n)
  {
    var s := NatToDecimal(if n < 0 then -n else n);
    assert forall i :: 0 <= i < |s| ==> s[i] != '_';
  }

  /** Lower-casing of the ASCII letters. */
  function AsciiLower(c: char): char
  {
    if 'A' <= c <= 'Z' then (c as int + 32) as char else c
  }

  /** `s.lower()` on ASCII letters: each capital becomes its own small
      letter, no capital letter is left, and every character that is not
      one is kept in its place. */
  function LowerAscii(s: string): (r: string)
    ensures |r| == |s|
    ensures forall i :: 0 <= i < |s| && 'A' <= s[i] <= 'Z' ==> r[i] == (s[i] as int + 32) as char
    ensures forall i :: 0 <= i < |r| ==> !('A' <= r[i] <= 'Z')
    ensures forall i :: 0 <= i < |s| && !('A' <= s[i] <= 'Z') ==> r[i] == s[i]
  {
    seq(|s|, i requires 0 <= i < |s| => AsciiLower(s[i]))
  }
}
