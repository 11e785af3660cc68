/**
  Text repair for Nepali legal text after legacy-font conversion
  (`clean_text` and `is_garbage_line` of `NepaliLegalChunker`): an ordered
  table of literal replacements, the trailing-halanta regex substitution,
  a few word fixups, removal of the zero-width joiners, and the noise-line
  predicate.
*/
module LegalClean {
  import opened Text
  import opened Outcomes

  const Halanta: char := '\U{094D}'
  const Danda: char := '\U{0964}'
  const DoubleDanda: char := '\U{0965}'
  const Zwnj: char := '\U{200C}'
  const Zwj: char := '\U{200D}'

  /** `[ऀ-ॿ]`: the Devanagari block. */
  predicate IsDevanagari(c: char)
  {
    '\U{0900}' <= c <= '\U{097F}'
  }

  /** `[०-९]`: the Devanagari digits. */
  predicate IsDevanagariDigit(c: char)
  {
    '\U{0966}' <= c <= '\U{096F}'
  }

  /** One row of the replacement table: (incorrect, correct). */
  type Row = (string, string)

  predicate WellFormedTable(table: seq<Row>)
  {
    forall i :: 0 <= i < |table| ==> |table[i].0| > 0
  }

  /** The replacement table of `clean_text`, in order. The two quote-artifact
      rows have a replacement text that the source does not show intact, so
      it is a parameter here. */
  function StandardTable(openQuote: string, closeQuote: string): (t: seq<Row>)
    ensures |t| == 21 && WellFormedTable(t)
  {
    [
      ("नर्ु", "र्नु"),
      ("नर्े", "र्ने"),
      ("कुराह्र", "कुराहरू"),
      ("ह्र", "हरू"),
      ("पु\U{00A5}याएमा", "पुर्याएमा"),
      ("\U{00A5}", "र्"),
      (" ः", " :"),
      ("ः", ":"),
      ("व्यत्तिफ", "व्यक्ति"),
      ("आप्फनो", "आफ्नो"),
      ("ाै", "ौ"),
      ("एे", "ऐ"),
      ("अ्र", "अरु"),
      ("लार्इ", "लाई"),
      ("\U{00AA}", "ङ"),
      ("\U{00CB}", "ङ्ग"),
      ("\U{00A7}", "ट्ट"),
      ("\U{00E6}", openQuote),
      ("\U{00C6}", closeQuote),
      ("दावी", "दाबी"),
      ("  ", " ")
    ]
  }

  /** The text after the first |rows| rows of the table have been applied, in order. */
  function ApplyRows(rows: seq<Row>, text: string): string
    requires WellFormedTable(rows)
    decreases |rows|
  {
    if rows == [] then text
    else ReplaceAll(ApplyRows(rows[..|rows| - 1], text), rows[|rows| - 1].0, rows[|rows| - 1].1)
  }

  /** Once a row replaces a single character by text without it, and no later
      row's replacement brings it back, the character is gone. */
  lemma {:induction false} RowRemovesChar(rows: seq<Row>, text: string, k: nat, c: char)
    requires WellFormedTable(rows)
    requires k < |rows| && rows[k].0 == [c] && c !in rows[k].1
    requires forall j :: k < j < |rows| ==> c !in rows[j].1
    ensures c !in ApplyRows(rows, text)
    decreases |rows|
  {
    var n := |rows| - 1;
    if k == n {
      ReplaceRemovesChar(ApplyRows(rows[..n], text), c, rows[n].1);
    } else {
      RowRemovesChar(rows[..n], text, k, c);
      ReplaceAddsOnlyReplacement(ApplyRows(rows[..n], text), rows[n].0, rows[n].1);
    }
  }

  // ---------------------------------------------------------------------
  // `re.sub(r'([ऀ-ॿ]+्)(?=[\s,।])', remove_trailing_halanta, text)`

  /** The words that keep their final halanta. */
  const KeepHalanta: set<string> :=
    {"अर्थात्", "सम्भवत्", "किञ्चित्", "कदाचित्", "परिषद्", "विद्वान्", "पश्चात्", "सम्राट्", "हठात्"}

  /** The lookahead class `[\s,।]`. */
  predicate IsLookahead(c: char)
  {
    IsSpace(c) || c == ',' || c == Danda
  }

  /** Length of the longest run of Devanagari at the start of `s`. */
  function RunLength(s: string): (n: nat)
    ensures n <= |s|
    ensures forall i :: 0 <= i < n ==> IsDevanagari(s[i])
    ensures n < |s| ==> !IsDevanagari(s[n])
  {
    if s != [] && IsDevanagari(s[0]) then 1 + RunLength(s[1..]) else 0
  }

  /** The largest match end `m <= j`, `m >= 2`, with a halanta just before it
      and a lookahead character just after it. */
  function LastHalantaEnd(s: string, j: nat): (m: Option<nat>)
    requires j <= |s|
    ensures m.Some? ==> 2 <= m.value <= j && m.value < |s|
    ensures m.Some? ==> s[m.value - 1] == Halanta && IsLookahead(s[m.value])
    decreases j
  {
    if j < 2 then None
    else if s[j - 1] == Halanta && j < |s| && IsLookahead(s[j]) then Some(j)
    else LastHalantaEnd(s, j - 1)
  }

  /** The length of the regex's match at the start of `s`, if it matches
      there: the greedy `+` makes it the last halanta of the Devanagari run
      that is followed by a lookahead character. */
  function HalantaMatch(s: string): Option<nat>
  {
    LastHalantaEnd(s, RunLength(s))
  }

  /** `remove_trailing_halanta` applied to a matched word. */
  function KeepOrDrop(word: string): (r: string)
    requires |word| > 0
    ensures r == word || r == word[..|word| - 1]
    ensures r == word[..|word| - 1] <==> word !in KeepHalanta && |word| >= 3
  {
    if word in KeepHalanta then word
    else if |word| < 3 then word
    else word[..|word| - 1]
  }

  /** The substitution, scanning left to right and resuming after each match. */
  function StripTrailingHalanta(s: string): string
    decreases |s|
  {
    if s == [] then []
    else match HalantaMatch(s)
      case Some(m) => KeepOrDrop(s[..m]) + StripTrailingHalanta(s[m..])
      case None => [s[0]] + StripTrailingHalanta(s[1..])
  }

  /** The substitution only deletes characters: it never introduces one. */
  lemma {:induction false} StripAddsNothing(s: string)
    ensures forall c :: c in StripTrailingHalanta(s) ==> c in s
    decreases |s|
  {
    if s != [] {
      match HalantaMatch(s)
      case Some(m) =>
        StripAddsNothing(s[m..]);
        assert forall c :: c in s[m..] ==> c in s;
        assert forall c :: c in s[..m] ==> c in s;
      case None =>
        StripAddsNothing(s[1..]);
        assert forall c :: c in s[1..] ==> c in s;
    }
  }

  /** A match never reaches past a non-Devanagari character, so text that
      ends in one is rewritten independently of what follows it. */
  lemma MatchStaysInside(p: string, t: string)
    requires p != [] && !IsDevanagari(p[|p| - 1])
    ensures RunLength(p + t) == RunLength(p) < |p|
    ensures HalantaMatch(p + t) == HalantaMatch(p)
  {
    RunPrefix(p, t);
    var n := RunLength(p);
    LastHalantaEndPrefix(p, t, n);
  }

  lemma {:induction false} RunPrefix(p: string, t: string)
    requires p != [] && !IsDevanagari(p[|p| - 1])
    ensures RunLength(p + t) == RunLength(p) < |p|
    decreases |p|
  {
    if IsDevanagari(p[0]) {
      assert (p + t)[1..] == p[1..] + t;
      RunPrefix(p[1..], t);
    }
  }

  lemma {:induction false} LastHalantaEndPrefix(p: string, t: string, j: nat)
    requires j < |p|
    ensures LastHalantaEnd(p + t, j) == LastHalantaEnd(p, j)
    decreases j
  {
    if j >= 2 {
      assert (p + t)[j - 1] == p[j - 1] && (p + t)[j] == p[j];
      LastHalantaEndPrefix(p, t, j - 1);
    }
  }

  lemma {:induction false} StripComposes(p: string, t: string)
    requires p == [] || !IsDevanagari(p[|p| - 1])
    ensures StripTrailingHalanta(p + t) == StripTrailingHalanta(p) + StripTrailingHalanta(t)
    decreases |p|, 1
  {
    if p == [] {
      assert p + t == t;
    } else {
      MatchStaysInside(p, t);
      match HalantaMatch(p)
      case Some(m) => ComposeAtMatch(p, t, m);
      case None => ComposeWithoutMatch(p, t);
    }
  }

  lemma {:induction false} ComposeAtMatch(p: string, t: string, m: nat)
    requires p != [] && !IsDevanagari(p[|p| - 1])
    requires HalantaMatch(p) == Some(m) && HalantaMatch(p + t) == Some(m)
    ensures StripTrailingHalanta(p + t) == StripTrailingHalanta(p) + StripTrailingHalanta(t)
    decreases |p|, 0
  {
    assert (p + t)[..m] == p[..m];
    assert (p + t)[m..] == p[m..] + t;
    StripComposes(p[m..], t);
    ConcatAssoc(KeepOrDrop(p[..m]), StripTrailingHalanta(p[m..]), StripTrailingHalanta(t));
  }

  lemma {:induction false} ComposeWithoutMatch(p: string, t: string)
    requires p != [] && !IsDevanagari(p[|p| - 1])
    requires HalantaMatch(p) == None && HalantaMatch(p + t) == None
    ensures StripTrailingHalanta(p + t) == StripTrailingHalanta(p) + StripTrailingHalanta(t)
    decreases |p|, 0
  {
    var q := p[1..];
    assert StripTrailingHalanta(p + t) == [p[0]] + StripTrailingHalanta(q + t) by {
      assert (p + t)[1..] == q + t;
      assert (p + t)[0] == p[0];
      StripWithoutMatch(p + t);
    }
    assert StripTrailingHalanta(q + t) == StripTrailingHalanta(q) + StripTrailingHalanta(t) by {
      assert q == [] || q[|q| - 1] == p[|p| - 1];
      StripComposes(q, t);
    }
    assert StripTrailingHalanta(p) == [p[0]] + StripTrailingHalanta(q) by {
      StripWithoutMatch(p);
    }
    ConcatAssoc([p[0]], StripTrailingHalanta(q), StripTrailingHalanta(t));
  }

  /** Where no match starts, the first character is copied. */
  lemma StripWithoutMatch(s: string)
    requires s != [] && HalantaMatch(s) == None
    ensures StripTrailingHalanta(s) == [s[0]] + StripTrailingHalanta(s[1..])
  {
  }

  /** `sep` followed by `t` ends a Devanagari word for the regex: whitespace,
      a comma, or a danda that is not followed by more Devanagari. */
  predicate EndsWord(sep: char, t: string)
  {
    IsSpace(sep) || sep == ',' || (sep == Danda && (t == [] || !IsDevanagari(t[0])))
  }

  /** A Devanagari word ending in halanta, at the start of the text and
      followed by whitespace, a comma, or a danda that ends the run, is the
      match there: it keeps or loses exactly its final halanta. */
  lemma WordAtStart(w: string, sep: char, t: string)
    requires |w| >= 2 && w[|w| - 1] == Halanta
    requires forall i :: 0 <= i < |w| ==> IsDevanagari(w[i])
    requires EndsWord(sep, t)
    ensures StripTrailingHalanta(w + [sep] + t) == KeepOrDrop(w) + StripTrailingHalanta([sep] + t)
  {
    var s := w + [sep] + t;
    assert HalantaMatch(s) == Some(|w|) by {
      assert s[|w| - 1] == Halanta && s[|w|] == sep;
      assert LastHalantaEnd(s, |w|) == Some(|w|);
      RunOfWord(w, sep, t);
      if sep == Danda {
        assert LastHalantaEnd(s, |w| + 1) == LastHalantaEnd(s, |w|);
      }
    }
    StripAtMatch(s, |w|);
    assert s[..|w|] == w && s[|w|..] == [sep] + t;
  }

  /** Where a match of length `m` starts, the matched word is kept or loses
      its halanta, and the scan resumes after it. */
  lemma StripAtMatch(s: string, m: nat)
    requires s != [] && HalantaMatch(s) == Some(m)
    ensures 0 < m <= |s|
    ensures StripTrailingHalanta(s) == KeepOrDrop(s[..m]) + StripTrailingHalanta(s[m..])
  {
  }

  lemma {:induction false} RunOfWord(w: string, sep: char, t: string)
    requires forall i :: 0 <= i < |w| ==> IsDevanagari(w[i])
    requires EndsWord(sep, t)
    ensures RunLength(w + [sep] + t) == if sep == Danda then |w| + 1 else |w|
    decreases |w|
  {
    if w != [] {
      assert (w + [sep] + t)[1..] == w[1..] + [sep] + t;
      RunOfWord(w[1..], sep, t);
    } else {
      assert [sep] + t == w + [sep] + t;
      if sep == Danda && t != [] {
        assert ([sep] + t)[1..] == t;
      }
    }
  }

  /** The trailing-halanta rule in context: after text that ends in a
      non-Devanagari character (or at the start), a Devanagari word ending in
      halanta and followed by whitespace, a comma, or a danda that ends the
      run loses exactly that final halanta, unless it is in the keep list or
      shorter than three code points. */
  lemma HalantaWordInContext(p: string, w: string, sep: char, t: string)
    requires p == [] || !IsDevanagari(p[|p| - 1])
    requires |w| >= 2 && w[|w| - 1] == Halanta
    requires forall i :: 0 <= i < |w| ==> IsDevanagari(w[i])
    requires EndsWord(sep, t)
    ensures StripTrailingHalanta(p + (w + [sep] + t))
         == StripTrailingHalanta(p) + (KeepOrDrop(w) + StripTrailingHalanta([sep] + t))
  {
    WordAtStart(w, sep, t);
    StripComposes(p, w + [sep] + t);
  }

  // ---------------------------------------------------------------------
  // `clean_text`

  const CitizenshipBroken: string := "नागर्ि कता"
  const Citizenship: string := "नागरिकता"
  const CitizenBroken: string := "नागर्ि क"
  const Citizen: string := "नागरिक"
  const NgaInParens: string := "(\U{00AA})"
  const NgaFixed: string := "(ङ)"

  /** The steps of `clean_text` after the table: the regex substitution, the
      two word fixups, removal of the zero-width joiners, the `(ª)` fixup. */
  function Fixups(replaced: string): string
  {
    var stripped := StripTrailingHalanta(replaced);
    var fixed := ReplaceAll(ReplaceAll(stripped, CitizenshipBroken, Citizenship), CitizenBroken, Citizen);
    var visible := ReplaceAll(ReplaceAll(fixed, [Zwj], ""), [Zwnj], "");
    ReplaceAll(visible, NgaInParens, NgaFixed)
  }

  /** What `clean_text` returns for `text` under the replacement table `table`. */
  function Cleaned(table: seq<Row>, text: string): string
    requires WellFormedTable(table)
  {
    Fixups(ApplyRows(table, text))
  }

  /** `clean_text`: the replacement loop rebinds the text row by row, then the
      regex substitution and the word fixups run once. */
  method CleanText(table: seq<Row>, text: string) returns (r: string)
    requires WellFormedTable(table)
    ensures r == Cleaned(table, text)
  {
    r := text;
    for k := 0 to |table|
      invariant r == ApplyRows(table[..k], text)
    {
      assert table[..k + 1][..k] == table[..k];
      r := ReplaceAll(r, table[k].0, table[k].1);
    }
    assert table[..|table|] == table;
    r := StripTrailingHalanta(r);
    r := ReplaceAll(r, CitizenshipBroken, Citizenship);
    r := ReplaceAll(r, CitizenBroken, Citizen);
    r := ReplaceAll(r, [Zwj], "");
    r := ReplaceAll(r, [Zwnj], "");
    r := ReplaceAll(r, NgaInParens, NgaFixed);
  }

  /** The artifact characters that cleaning removes for good. */
  predicate IsArtifact(c: char)
  {
    || c == '\U{00A5}' || c == '\U{0903}' || c == '\U{00AA}' || c == '\U{00CB}' || c == '\U{00A7}'
    || c == '\U{00E6}' || c == '\U{00C6}' || c == Zwnj || c == Zwj
  }

  predicate NoArtifact(s: string)
  {
    forall i :: 0 <= i < |s| ==> !IsArtifact(s[i])
  }

  /** The row of the standard table that replaces an artifact character. */
  function ArtifactRow(c: char): (k: nat)
    requires IsArtifact(c) && c != Zwj && c != Zwnj
    ensures 5 <= k <= 18
  {
    if c == '\U{00A5}' then 5 else if c == '\U{0903}' then 7
    else if c == '\U{00AA}' then 14 else if c == '\U{00CB}' then 15
    else if c == '\U{00A7}' then 16 else if c == '\U{00E6}' then 17 else 18
  }

  /** No replacement text from the artifact's own row on holds an artifact. */
  lemma LaterRowsLackArtifact(openQuote: string, closeQuote: string, c: char)
    requires NoArtifact(openQuote) && NoArtifact(closeQuote)
    requires IsArtifact(c) && c != Zwj && c != Zwnj
    ensures var table := StandardTable(openQuote, closeQuote);
            var k := ArtifactRow(c);
            table[k].0 == [c] && c !in table[k].1
            && forall j :: k < j < |table| ==> c !in table[j].1
  {
    var table := StandardTable(openQuote, closeQuote);
    forall j | ArtifactRow(c) <= j < |table| ensures c !in table[j].1 {
      if j == 17 {
        assert table[j].1 == openQuote;
      } else if j == 18 {
        assert table[j].1 == closeQuote;
      }
    }
  }

  /** The standard table removes every artifact but the zero-width joiners. */
  lemma TableRemovesArtifact(openQuote: string, closeQuote: string, text: string, c: char)
    requires NoArtifact(openQuote) && NoArtifact(closeQuote)
    requires IsArtifact(c) && c != Zwj && c != Zwnj
    ensures c !in ApplyRows(StandardTable(openQuote, closeQuote), text)
  {
    LaterRowsLackArtifact(openQuote, closeQuote, c);
    RowRemovesChar(StandardTable(openQuote, closeQuote), text, ArtifactRow(c), c);
  }

  /** The steps after the table remove the zero-width joiners and bring no
      other artifact back. */
  lemma FixupsKeepArtifactsOut(replaced: string, c: char)
    requires IsArtifact(c)
    requires c == Zwj || c == Zwnj || c !in replaced
    ensures c !in Fixups(replaced)
  {
    var stripped := StripTrailingHalanta(replaced);
    StripAddsNothing(replaced);
    var fixed1 := ReplaceAll(stripped, CitizenshipBroken, Citizenship);
    ReplaceAddsOnlyReplacement(stripped, CitizenshipBroken, Citizenship);
    var fixed := ReplaceAll(fixed1, CitizenBroken, Citizen);
    ReplaceAddsOnlyReplacement(fixed1, CitizenBroken, Citizen);
    var noZwj := ReplaceAll(fixed, [Zwj], "");
    ReplaceRemovesChar(fixed, Zwj, "");
    ReplaceAddsOnlyReplacement(fixed, [Zwj], "");
    var visible := ReplaceAll(noZwj, [Zwnj], "");
    ReplaceRemovesChar(noZwj, Zwnj, "");
    ReplaceAddsOnlyReplacement(noZwj, [Zwnj], "");
    ReplaceAddsOnlyReplacement(visible, NgaInParens, NgaFixed);
    FixupTextsLackArtifacts(c);
  }

  /** The texts the fixups write hold no artifact. */
  lemma FixupTextsLackArtifacts(c: char)
    requires IsArtifact(c)
    ensures c !in Citizenship && c !in Citizen && c !in NgaFixed
  {
  }

  /** Cleaned text never holds the yen sign, the visarga, the ordinal a,
      E-diaeresis, the section sign, the two quote artifacts æ and Æ or a
      zero-width (non-)joiner: each is replaced and no later step brings it
      back (the quote replacements must not contain them either). */
  lemma CleanedHasNoArtifacts(openQuote: string, closeQuote: string, text: string)
    requires NoArtifact(openQuote) && NoArtifact(closeQuote)
    ensures NoArtifact(Cleaned(StandardTable(openQuote, closeQuote), text))
  {
    var replaced := ApplyRows(StandardTable(openQuote, closeQuote), text);
    var r := Fixups(replaced);
    forall i | 0 <= i < |r| ensures !IsArtifact(r[i]) {
      var c := r[i];
      if IsArtifact(c) {
        if c != Zwj && c != Zwnj {
          TableRemovesArtifact(openQuote, closeQuote, text, c);
        }
        FixupsKeepArtifactsOut(replaced, c);
      }
    }
  }

  /** The `(ª)` fixup never fires: the table already removed every `ª`. */
  lemma NgaFixupIsDead(openQuote: string, closeQuote: string, text: string)
    requires NoArtifact(openQuote) && NoArtifact(closeQuote)
    ensures var replaced := ApplyRows(StandardTable(openQuote, closeQuote), text);
            var stripped := StripTrailingHalanta(replaced);
            var fixed := ReplaceAll(ReplaceAll(stripped, CitizenshipBroken, Citizenship), CitizenBroken, Citizen);
            Cleaned(StandardTable(openQuote, closeQuote), text) == ReplaceAll(ReplaceAll(fixed, [Zwj], ""), [Zwnj], "")
  {
    var c := '\U{00AA}';
    TableRemovesArtifact(openQuote, closeQuote, text, c);
    var replaced := ApplyRows(StandardTable(openQuote, closeQuote), text);
    var stripped := StripTrailingHalanta(replaced);
    StripAddsNothing(replaced);
    var fixed1 := ReplaceAll(stripped, CitizenshipBroken, Citizenship);
    ReplaceAddsOnlyReplacement(stripped, CitizenshipBroken, Citizenship);
    var fixed := ReplaceAll(fixed1, CitizenBroken, Citizen);
    ReplaceAddsOnlyReplacement(fixed1, CitizenBroken, Citizen);
    var noZwj := ReplaceAll(fixed, [Zwj], "");
    ReplaceAddsOnlyReplacement(fixed, [Zwj], "");
    var visible := ReplaceAll(noZwj, [Zwnj], "");
    ReplaceAddsOnlyReplacement(noZwj, [Zwnj], "");
    assert NgaInParens[1] == c;
    ReplaceNeverFires(visible, NgaInParens, NgaFixed, c);
  }

  // ---------------------------------------------------------------------
  // `is_garbage_line`

  /** The converted form of the law commission's web address. */
  const UrlArtifact: string := "धधध।बिधअयफफष्ककष्यल।नयख।लउ"

  /** The class `[द्दण्घक्ष्]` of header and footer debris. */
  predicate IsJunkGlyph(c: char)
  {
    c == 'द' || c == Halanta || c == 'ण' || c == 'घ' || c == 'क' || c == 'ष'
  }

  /** `re.match(r'^\s*[C]+\s*$', line)` for a class C without whitespace:
      the stripped line is non-empty and made of C only. */
  predicate OnlyClass(line: string, inClass: char -> bool)
  {
    var t := Strip(line);
    t != [] && forall i :: 0 <= i < |t| ==> inClass(t[i])
  }

  /** `is_garbage_line`, its tests in source order. */
  predicate IsGarbageLine(line: string)
  {
    if Contains(line, UrlArtifact) then true
    else if OnlyClass(line, IsDevanagariDigit) then true
    else if OnlyClass(line, IsJunkGlyph) then true
    else if Contains(LowerAscii(line), "lawcommission") || Contains(LowerAscii(line), "www") then true
    else |Strip(line)| < 3
  }

  /** `re.match(r'^\s*[C]+\s*$', line)` read literally: whitespace, a
      non-empty run of class C, whitespace, and nothing else. */
  predicate PaddedRunMatch(line: string, inClass: char -> bool)
  {
    exists i, j :: 0 <= i < j <= |line| && IsBlank(line[..i]) && IsBlank(line[j..]) && AllIn(line[i..j], inClass)
  }

  predicate AllIn(s: string, inClass: char -> bool)
  {
    forall k :: 0 <= k < |s| ==> inClass(s[k])
  }

  /** A stripped line that is a non-empty run of the class matches the
      regular expression. */
  lemma OnlyClassMatches(line: string, inClass: char -> bool)
    requires OnlyClass(line, inClass)
    ensures PaddedRunMatch(line, inClass)
  {
    var t := Strip(line);
    var k := StripStart(line);
    assert IsBlank(line[..k]);
    assert t == line[k..k + |t|] by {
      StripSlice(line);
    }
    assert IsBlank(line[k + |t|..]) by {
      var l := LStrip(line);
      assert line[k + |t|..] == l[|t|..];
    }
    assert AllIn(line[k..k + |t|], inClass);
  }

  /** A line the regular expression matches strips to the run it matched. */
  lemma MatchIsOnlyClass(line: string, inClass: char -> bool)
    requires forall c :: inClass(c) ==> !IsSpace(c)
    requires PaddedRunMatch(line, inClass)
    ensures OnlyClass(line, inClass)
  {
    var i, j :| 0 <= i < j <= |line| && IsBlank(line[..i]) && IsBlank(line[j..]) && AllIn(line[i..j], inClass);
    var run := line[i..j];
    assert Strip(line) == run by {
      assert line == line[..i] + run + line[j..];
      assert inClass(run[0]) && inClass(run[|run| - 1]);
      StripPadded(line[..i], run, line[j..]);
    }
  }

  /** For a class without whitespace, "the stripped line is a non-empty run
      of the class" is exactly the regular expression's full match. */
  lemma OnlyClassIffPaddedRun(line: string, inClass: char -> bool)
    requires forall c :: inClass(c) ==> !IsSpace(c)
    ensures OnlyClass(line, inClass) <==> PaddedRunMatch(line, inClass)
  {
    if OnlyClass(line, inClass) {
      OnlyClassMatches(line, inClass);
    }
    if PaddedRunMatch(line, inClass) {
      MatchIsOnlyClass(line, inClass);
    }
  }

  /** The noise rules as the source writes them: a line is garbage exactly
      when it holds the URL artifact, fully matches `\s*[०-९]+\s*` (a page
      number) or `\s*[द्दण्घक्ष्]+\s*` (header debris), mentions the law
      commission's web address in any letter case, or strips to fewer than
      three characters. Any other line is kept. */
  lemma GarbageLineRules(line: string)
    ensures IsGarbageLine(line) <==>
              || Contains(line, UrlArtifact)
              || PaddedRunMatch(line, IsDevanagariDigit)
              || PaddedRunMatch(line, IsJunkGlyph)
              || Contains(LowerAscii(line), "lawcommission")
              || Contains(LowerAscii(line), "www")
              || |Strip(line)| < 3
  {
    OnlyClassIffPaddedRun(line, IsDevanagariDigit);
    OnlyClassIffPaddedRun(line, IsJunkGlyph);
  }
}
