/**
  The four anchored boundary patterns of `NepaliLegalChunker` (chapter,
  numbered section, dafa and upa-dafa), each written as an extractor that
  returns the captured Devanagari numeral when the pattern matches at the
  start of a line, and the classification of a line that tries them in the
  order the chunker does.
*/
module LegalPatterns {
  import opened Text
  import opened Outcomes
  import opened LegalClean

  const ChapterWord: string := "परिच्छेद"
  const DafaWord: string := "दफा"
  const UpaDafaWord: string := "उपदफा"

  /** A non-empty run of Devanagari digits: what every pattern captures. */
  predicate IsNumeral(s: string)
  {
    s != [] && forall i :: 0 <= i < |s| ==> IsDevanagariDigit(s[i])
  }

  predicate StartsWith(s: string, prefix: string)
  {
    |prefix| <= |s| && s[..|prefix|] == prefix
  }

  /** The class `[–-—\s]` between the chapter word and its number: the
      en dash, the em dash, and whitespace. */
  predicate IsChapterSeparator(c: char)
  {
    ('\U{2013}' <= c <= '\U{2014}') || IsSpace(c)
  }

  /** Length of the longest prefix of `s` whose characters are all in the class. */
  function PrefixRun(s: string, inClass: char -> bool): (n: nat)
    ensures n <= |s|
    ensures forall i :: 0 <= i < n ==> inClass(s[i])
    ensures n < |s| ==> !inClass(s[n])
  {
    if s != [] && inClass(s[0]) then 1 + PrefixRun(s[1..], inClass) else 0
  }

  /** The numeral at the start of `s`, if there is one, with what follows it. */
  function LeadingNumeral(s: string): (r: Option<(string, string)>)
    ensures r.Some? ==> IsNumeral(r.value.0) && s == r.value.0 + r.value.1
    ensures r.Some? ==> r.value.1 == [] || !IsDevanagariDigit(r.value.1[0])
  {
    var d := PrefixRun(s, IsDevanagariDigit);
    if d == 0 then None
    else
      assert s == s[..d] + s[d..];
      Some((s[..d], s[d..]))
  }

  /** `^\s*परिच्छेद[–-—\s]+([०-९]+)` */
  function ChapterNumber(line: string): (r: Option<string>)
    ensures r.Some? ==> IsNumeral(r.value)
  {
    var a := LStrip(line);
    if !StartsWith(a, ChapterWord) then None
    else
      var b := a[|ChapterWord|..];
      var n := PrefixRun(b, IsChapterSeparator);
      if n == 0 then None
      else match LeadingNumeral(b[n..])
        case None => None
        case Some((num, _)) => Some(num)
  }

  /** `^\s*दफा\s+([०-९]+)` */
  function DafaNumber(line: string): (r: Option<string>)
    ensures r.Some? ==> IsNumeral(r.value)
  {
    var a := LStrip(line);
    if !StartsWith(a, DafaWord) then None
    else
      var b := a[|DafaWord|..];
      var n := PrefixRun(b, IsSpace);
      if n == 0 then None
      else match LeadingNumeral(b[n..])
        case None => None
        case Some((num, _)) => Some(num)
  }

  /** `^\s*([०-९]+)\.` */
  function SectionNumber(line: string): (r: Option<string>)
    ensures r.Some? ==> IsNumeral(r.value)
  {
    match LeadingNumeral(LStrip(line))
    case None => None
    case Some((num, rest)) => if rest != [] && rest[0] == '.' then Some(num) else None
  }

  /** `\(([०-९]+)\)` at the start of `s`. */
  function ParenNumber(s: string): (r: Option<string>)
    ensures r.Some? ==> IsNumeral(r.value)
  {
    if s == [] || s[0] != '(' then None
    else match LeadingNumeral(s[1..])
      case None => None
      case Some((num, rest)) => if rest != [] && rest[0] == ')' then Some(num) else None
  }

  /** `^\s*(?:उपदफा\s+)?\(([०-९]+)\)`. When the optional group is present
      the parenthesis must follow its whitespace; backtracking cannot help,
      since the line would then have to start with `(` instead of `उ`. */
  function UpaDafaNumber(line: string): (r: Option<string>)
    ensures r.Some? ==> IsNumeral(r.value)
  {
    var a := LStrip(line);
    if StartsWith(a, UpaDafaWord) then
      var b := a[|UpaDafaWord|..];
      var n := PrefixRun(b, IsSpace);
      if n == 0 then None else ParenNumber(b[n..])
    else ParenNumber(a)
  }

  /** The role of a line in the chunker's state machine. */
  datatype Marker =
    | Chapter(number: string)
    | Dafa(number: string)
    | Section(number: string)
    | UpaDafa(number: string)
    | Body

  /** The patterns tried in the chunker's order, the first match deciding. */
  function Classify(line: string): (m: Marker)
    ensures m.Chapter? <==> ChapterNumber(line).Some?
    ensures m.Dafa? <==> DafaNumber(line).Some?
    ensures m.Section? <==> SectionNumber(line).Some?
    ensures m.UpaDafa? <==> UpaDafaNumber(line).Some?
    ensures !m.Body? ==> IsNumeral(m.number)
  {
    BoundaryPatternsExclusive(line);
    if ChapterNumber(line).Some? then Chapter(ChapterNumber(line).value)
    else if DafaNumber(line).Some? then Dafa(DafaNumber(line).value)
    else if SectionNumber(line).Some? then Section(SectionNumber(line).value)
    else if UpaDafaNumber(line).Some? then UpaDafa(UpaDafaNumber(line).value)
    else Body
  }

  /** No line matches two of the patterns: each one fixes a different first
      non-space character, so the order in which they are tried never
      changes the outcome. */
  lemma BoundaryPatternsExclusive(line: string)
    ensures !(ChapterNumber(line).Some? && DafaNumber(line).Some?)
    ensures !(ChapterNumber(line).Some? && SectionNumber(line).Some?)
    ensures !(ChapterNumber(line).Some? && UpaDafaNumber(line).Some?)
    ensures !(DafaNumber(line).Some? && SectionNumber(line).Some?)
    ensures !(DafaNumber(line).Some? && UpaDafaNumber(line).Some?)
    ensures !(SectionNumber(line).Some? && UpaDafaNumber(line).Some?)
  {
    var a := LStrip(line);
    ChapterStart(line);
    DafaStart(line);
    SectionStart(line);
    UpaDafaStart(line);
  }

  lemma ChapterStart(line: string)
    ensures ChapterNumber(line).Some? ==> LStrip(line) != [] && LStrip(line)[0] == '\U{092A}'
  {
    var a := LStrip(line);
    if ChapterNumber(line).Some? {
      assert a[0] == ChapterWord[0];
    }
  }

  lemma DafaStart(line: string)
    ensures DafaNumber(line).Some? ==> LStrip(line) != [] && LStrip(line)[0] == '\U{0926}'
  {
    var a := LStrip(line);
    if DafaNumber(line).Some? {
      assert a[0] == DafaWord[0];
    }
  }

  lemma SectionStart(line: string)
    ensures SectionNumber(line).Some? ==> LStrip(line) != [] && IsDevanagariDigit(LStrip(line)[0])
  {
  }

  lemma UpaDafaStart(line: string)
    ensures UpaDafaNumber(line).Some? ==> LStrip(line) != [] && LStrip(line)[0] in {'\U{0909}', '('}
  {
    var a := LStrip(line);
    if UpaDafaNumber(line).Some? && StartsWith(a, UpaDafaWord) {
      assert a[0] == UpaDafaWord[0];
    }
  }

  /** The chapter name the chunker gives a chapter numbered `num`. */
  function ChapterLabel(num: string): (r: string)
    requires IsNumeral(num)
    ensures StartsWith(r, ChapterWord)
  {
    ChapterWord + "\U{2013}" + num
  }

  /** A numeral read off `num + rest` when `rest` does not continue it. */
  lemma LeadingNumeralOf(num: string, rest: string)
    requires IsNumeral(num)
    requires rest == [] || !IsDevanagariDigit(rest[0])
    ensures LeadingNumeral(num + rest) == Some((num, rest))
  {
    var s := num + rest;
    DigitRunOf(num, rest);
    assert s[..|num|] == num;
    assert s[|num|..] == rest;
  }

  lemma {:induction false} DigitRunOf(num: string, rest: string)
    requires forall i :: 0 <= i < |num| ==> IsDevanagariDigit(num[i])
    requires rest == [] || !IsDevanagariDigit(rest[0])
    ensures PrefixRun(num + rest, IsDevanagariDigit) == |num|
    decreases |num|
  {
    if num == [] {
      assert num + rest == rest;
    } else {
      assert (num + rest)[1..] == num[1..] + rest;
      DigitRunOf(num[1..], rest);
    }
  }

  /** A chapter heading as the chunker labels it is read back as its number. */
  lemma ChapterLabelRoundTrip(num: string, rest: string)
    requires IsNumeral(num)
    requires rest == [] || !IsDevanagariDigit(rest[0])
    ensures ChapterNumber(ChapterLabel(num) + rest) == Some(num)
  {
    var line := ChapterLabel(num) + rest;
    assert line[0] == 'प';
    assert LStrip(line) == line;
    var b := line[|ChapterWord|..];
    assert b == "\U{2013}" + (num + rest);
    var n := PrefixRun(b, IsChapterSeparator);
    assert n == 1 by {
      assert IsChapterSeparator(b[0]);
      assert b[1..] == num + rest && (num + rest)[0] == num[0];
      assert !IsChapterSeparator(num[0]);
    }
    LeadingNumeralOf(num, rest);
  }

  /** `दफा N` is read as dafa N. */
  lemma DafaHeadingRead(num: string, rest: string)
    requires IsNumeral(num)
    requires rest == [] || !IsDevanagariDigit(rest[0])
    ensures DafaNumber(DafaWord + " " + num + rest) == Some(num)
  {
    var line := DafaWord + " " + num + rest;
    assert line[0] == 'द';
    assert LStrip(line) == line;
    var b := line[|DafaWord|..];
    assert b == " " + (num + rest);
    assert PrefixRun(b, IsSpace) == 1 by {
      assert IsSpace(b[0]);
      assert b[1..] == num + rest && (num + rest)[0] == num[0];
      assert !IsSpace(num[0]);
    }
    LeadingNumeralOf(num, rest);
  }

  /** `N.` is read as section N. */
  lemma SectionHeadingRead(num: string, rest: string)
    requires IsNumeral(num)
    ensures SectionNumber(num + "." + rest) == Some(num)
  {
    var line := num + ("." + rest);
    assert num + "." + rest == line;
    assert !IsSpace(line[0]) && LStrip(line) == line;
    LeadingNumeralOf(num, "." + rest);
  }

  /** `(N)` is read as upa-dafa N. */
  lemma UpaDafaHeadingRead(num: string, rest: string)
    requires IsNumeral(num)
    ensures UpaDafaNumber("(" + num + ")" + rest) == Some(num)
  {
    var line := "(" + num + ")" + rest;
    assert LStrip(line) == line;
    assert !StartsWith(line, UpaDafaWord) by {
      assert line[0] == '(';
    }
    assert line[1..] == num + (")" + rest);
    LeadingNumeralOf(num, ")" + rest);
  }
}
