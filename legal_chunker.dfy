/**
  The chunking half of `NepaliLegalChunker`: the size governor that turns
  the lines of one structural unit into chunk records (`_save_chunk_for_rag`
  and `_split_large_chunk`), and the line-by-line state machine of
  `process_pdf_for_rag` that decides where one unit ends and the next
  begins.
*/
module LegalChunker {
  import opened Text
  import opened Outcomes
  import opened LegalClean
  import opened LegalPatterns

  /** The default of `max_chunk_tokens`. */
  const DefaultMaxChunkTokens: int := 800

  /** The label of a chunk that holds a whole unit, or the numbered part of a split one. */
  datatype ChunkKind = CompleteSection | SplitSection(part: nat)

  /** One chunk record; the random uuid the source attaches is not modelled. */
  datatype LegalChunk = LegalChunk(
    text: string,
    chapter: string,
    dafa: string,
    upaDafa: string,
    title: string,
    page: int,
    source: string,
    kind: ChunkKind,
    estimatedTokens: int)

  /** The state of the scan: where in the document structure it is, and the
      lines gathered for the unit that is still open. */
  datatype Cursor = Cursor(
    chapter: string,
    dafa: string,
    upaDafa: Option<string>,
    lines: seq<string>,
    page: int)

  // ---------------------------------------------------------------------
  // Chunk metadata

  /** `os.path.basename`: what follows the last `/`. */
  function Basename(path: string): string
  {
    if path == [] || path[|path| - 1] == '/' then []
    else Basename(path[..|path| - 1]) + [path[|path| - 1]]
  }

  /** The base name is the part of the path after its last `/`: a suffix
      of the path with no `/` in it, preceded by a `/` unless it is the
      whole path. */
  lemma {:induction false} BasenameIsLastComponent(path: string)
    ensures var r := Basename(path);
            '/' !in r && |r| <= |path| && r == path[|path| - |r|..]
            && (|r| < |path| ==> path[|path| - |r| - 1] == '/')
    decreases |path|
  {
    if path != [] && path[|path| - 1] != '/' {
      var init := path[..|path| - 1];
      BasenameIsLastComponent(init);
      var r0 := Basename(init);
      assert path[|path| - |r0| - 1..] == init[|init| - |r0|..] + [path[|path| - 1]];
    }
  }

  /** `upa_dafa or ""` */
  function UpaText(upa: Option<string>): string
  {
    if upa.Some? then upa.value else ""
  }

  /** The dafa names that stand for "no dafa yet" and stay out of titles. */
  predicate IsPlaceholderDafa(dafa: string)
  {
    dafa == "Intro" || dafa == "Header"
  }

  /** The hierarchical title: chapter, then the dafa unless it is a
      placeholder, then the upa-dafa if it is set and non-empty, joined by " > ". */
  function Title(chapter: string, dafa: string, upa: Option<string>): string
  {
    var parts := [chapter]
      + (if IsPlaceholderDafa(dafa) then [] else [dafa])
      + (if upa.Some? && upa.value != [] then [upa.value] else []);
    Join(parts, " > ")
  }

  /** The title spelled out part by part. */
  lemma TitleShape(chapter: string, dafa: string, upa: Option<string>)
    ensures Title(chapter, dafa, upa)
         == chapter
          + (if IsPlaceholderDafa(dafa) then "" else " > " + dafa)
          + (if upa.Some? && upa.value != [] then " > " + upa.value else "")
  {
    var first := [chapter] + (if IsPlaceholderDafa(dafa) then [] else [dafa]);
    if !IsPlaceholderDafa(dafa) {
      JoinAppend([chapter], dafa, " > ");
    }
    if upa.Some? && upa.value != [] {
      JoinAppend(first, upa.value, " > ");
    } else {
      assert first + [] == first;
    }
  }

  // ---------------------------------------------------------------------
  // `_split_large_chunk`

  predicate IsTerminator(c: char)
  {
    c == Danda || c == DoubleDanda
  }

  /** `re.split(r'[।॥]\s*', text)`: cut at every danda or double danda, the
      whitespace after it going with the cut. */
  function SplitAtTerminators(s: string): (r: seq<string>)
    ensures |r| >= 1
    ensures NoTerminators(r)
    decreases |s|
  {
    if s == [] then [[]]
    else if IsTerminator(s[0]) then [[]] + SplitAtTerminators(LStrip(s[1..]))
    else
      var rest := SplitAtTerminators(s[1..]);
      [[s[0]] + rest[0]] + rest[1..]
  }

  /** Text without a danda or double danda is a single piece, itself. */
  lemma {:induction false} SplitWithoutTerminator(s: string)
    requires forall j :: 0 <= j < |s| ==> !IsTerminator(s[j])
    ensures SplitAtTerminators(s) == [s]
    decreases |s|
  {
    if s != [] {
      SplitWithoutTerminator(s[1..]);
      assert [s[0]] + s[1..] == s;
    }
  }

  /** The first terminator ends the first piece: the text before it is that
      piece, and the terminator and the whitespace after it are dropped
      before the rest is split. With `SplitWithoutTerminator` this fixes
      the pieces of every text. */
  lemma {:induction false} SplitAtFirstTerminator(a: string, t: char, ws: string, b: string)
    requires forall j :: 0 <= j < |a| ==> !IsTerminator(a[j])
    requires IsTerminator(t) && IsBlank(ws) && (b == [] || !IsSpace(b[0]))
    ensures SplitAtTerminators(a + [t] + ws + b) == [a] + SplitAtTerminators(b)
    decreases |a|
  {
    var s := a + [t] + ws + b;
    if a == [] {
      assert s[1..] == ws + b;
      LStripPadded(ws, b);
    } else {
      assert s[1..] == a[1..] + [t] + ws + b;
      SplitAtFirstTerminator(a[1..], t, ws, b);
      assert [a[0]] + a[1..] == a;
    }
  }

  /** What the loop makes of a piece: stripped, with the danda put back. */
  predicate IsSentence(s: string)
  {
    |s| >= 2 && !IsSpace(s[0]) && s[|s| - 1] == Danda
    && forall j :: 0 <= j < |s| - 1 ==> !IsTerminator(s[j])
  }

  predicate NoTerminators(pieces: seq<string>)
  {
    forall i, j :: 0 <= i < |pieces| && 0 <= j < |pieces[i]| ==> !IsTerminator(pieces[i][j])
  }

  /** A piece that is not blank becomes a sentence. */
  lemma PieceSentence(piece: string)
    requires forall j :: 0 <= j < |piece| ==> !IsTerminator(piece[j])
    requires Strip(piece) != []
    ensures IsSentence(Strip(piece) + [Danda])
  {
    var t := Strip(piece);
    var k := StripStart(piece);
    StripSlice(piece);
    forall j | 0 <= j < |t| ensures !IsTerminator(t[j]) {
      assert t[j] == piece[k + j];
    }
  }

  /** The sentences of the pieces, blank pieces skipped. */
  function Sentences(pieces: seq<string>): (r: seq<string>)
    requires NoTerminators(pieces)
    ensures forall i :: 0 <= i < |r| ==> IsSentence(r[i])
  {
    if pieces == [] then []
    else
      var t := Strip(pieces[0]);
      var rest := Sentences(pieces[1..]);
      if t == [] then rest
      else
        PieceSentence(pieces[0]);
        [t + [Danda]] + rest
  }

  /** A group of sentences is small enough when it is a single sentence or
      its joined text is within the token budget. */
  predicate Fits(group: seq<string>, maxTokens: int)
  {
    |group| == 1 || |Join(group, " ")| / 4 <= maxTokens
  }

  /** The greedy packing: the open group `cur` takes the next sentence
      unless that would exceed the budget and the group already holds
      something; then the group is closed and the sentence opens the next. */
  function Pack(sents: seq<string>, cur: seq<string>, maxTokens: int): seq<seq<string>>
    decreases |sents|
  {
    if sents == [] then (if cur == [] then [] else [cur])
    else
      var test := cur + [sents[0]];
      if |Join(test, " ")| / 4 > maxTokens && cur != [] then [cur] + Pack(sents[1..], [sents[0]], maxTokens)
      else Pack(sents[1..], test, maxTokens)
  }

  /** The groups together hold the sentences, in order, and none is empty. */
  lemma {:induction false} PackKeepsSentences(sents: seq<string>, cur: seq<string>, maxTokens: int)
    ensures Flatten(Pack(sents, cur, maxTokens)) == cur + sents
    ensures forall i :: 0 <= i < |Pack(sents, cur, maxTokens)| ==> Pack(sents, cur, maxTokens)[i] != []
    decreases |sents|
  {
    if sents == [] {
      assert cur + sents == cur;
      if cur != [] {
        assert Flatten([cur]) == cur + Flatten([cur][1..]);
      }
    } else {
      var test := cur + [sents[0]];
      if |Join(test, " ")| / 4 > maxTokens && cur != [] {
        PackKeepsSentences(sents[1..], [sents[0]], maxTokens);
        var rest := Pack(sents[1..], [sents[0]], maxTokens);
        assert ([cur] + rest)[1..] == rest;
        assert [sents[0]] + sents[1..] == sents;
      } else {
        PackKeepsSentences(sents[1..], test, maxTokens);
        assert test + sents[1..] == cur + sents;
      }
    }
  }

  /** Every group fits, provided the open group does. */
  lemma {:induction false} PackFits(sents: seq<string>, cur: seq<string>, maxTokens: int)
    requires cur == [] || Fits(cur, maxTokens)
    ensures forall i :: 0 <= i < |Pack(sents, cur, maxTokens)| ==> Fits(Pack(sents, cur, maxTokens)[i], maxTokens)
    decreases |sents|
  {
    if sents != [] {
      var test := cur + [sents[0]];
      if |Join(test, " ")| / 4 > maxTokens && cur != [] {
        PackFits(sents[1..], [sents[0]], maxTokens);
        var rest := Pack(sents[1..], [sents[0]], maxTokens);
        assert forall i :: 1 <= i < |[cur] + rest| ==> ([cur] + rest)[i] == rest[i - 1];
      } else {
        PackFits(sents[1..], test, maxTokens);
      }
    }
  }

  /** An open group that holds something stays at the head of the first group. */
  lemma {:induction false} PackKeepsOpenGroupFirst(sents: seq<string>, cur: seq<string>, maxTokens: int)
    requires cur != []
    ensures Pack(sents, cur, maxTokens) != [] && Pack(sents, cur, maxTokens)[0] != []
    ensures Pack(sents, cur, maxTokens)[0][0] == cur[0]
    decreases |sents|
  {
    if sents != [] {
      var test := cur + [sents[0]];
      if !(|Join(test, " ")| / 4 > maxTokens && cur != []) {
        PackKeepsOpenGroupFirst(sents[1..], test, maxTokens);
      }
    }
  }

  /** Every group but the first is non-empty, and its first sentence would
      have pushed the group before it over the budget. */
  predicate ClosedOnlyWhenFull(groups: seq<seq<string>>, maxTokens: int)
  {
    forall i :: 1 <= i < |groups| ==>
      groups[i] != [] && |Join(groups[i - 1] + [groups[i][0]], " ")| / 4 > maxTokens
  }

  /** The packing is greedy: a group is closed only when the next group's
      first sentence would have pushed it over the budget. */
  lemma {:induction false} PackClosesOnlyWhenFull(sents: seq<string>, cur: seq<string>, maxTokens: int)
    ensures ClosedOnlyWhenFull(Pack(sents, cur, maxTokens), maxTokens)
    decreases |sents|
  {
    if sents != [] {
      var test := cur + [sents[0]];
      if |Join(test, " ")| / 4 > maxTokens && cur != [] {
        var rest := Pack(sents[1..], [sents[0]], maxTokens);
        var g := [cur] + rest;
        PackKeepsOpenGroupFirst(sents[1..], [sents[0]], maxTokens);
        PackClosesOnlyWhenFull(sents[1..], [sents[0]], maxTokens);
        assert Pack(sents, cur, maxTokens) == g;
        forall i | 1 <= i < |g|
          ensures g[i] != [] && |Join(g[i - 1] + [g[i][0]], " ")| / 4 > maxTokens
        {
          assert g[i] == rest[i - 1];
          if i > 1 {
            assert g[i - 1] == rest[i - 2];
          }
        }
      } else {
        var g := Pack(sents[1..], test, maxTokens);
        assert Pack(sents, cur, maxTokens) == g;
        PackClosesOnlyWhenFull(sents[1..], test, maxTokens);
      }
    }
  }

  /** A group of sentences joined by spaces needs no stripping. */
  lemma GroupTextIsTrimmed(group: seq<string>)
    requires group != []
    requires forall i :: 0 <= i < |group| ==> IsSentence(group[i])
    ensures Strip(Join(group, " ")) == Join(group, " ")
    ensures Join(group, " ") != []
    ensures Join(group, " ")[|Join(group, " ")| - 1] == Danda
  {
    JoinEnds(group, " ");
    StripOfTrimmed(Join(group, " "));
  }

  /** The title of part `n`: the unit's title with " (भाग n)" after it. */
  function PartTitle(title: string, n: nat): string
  {
    title + " (\U{092D}\U{093E}\U{0917} " + NatToDecimal(n) + ")"
  }

  /** Part `n` of a split unit. The source strips the group's text before
      storing it; stripping changes nothing there (GroupTextIsTrimmed), so
      the text is the group joined by spaces. */
  function Part(group: seq<string>, n: nat, c: Cursor, title: string, name: string): LegalChunk
  {
    var text := Join(group, " ");
    LegalChunk(text, c.chapter, c.dafa, UpaText(c.upaDafa), PartTitle(title, n),
               c.page, name, SplitSection(n), |text| / 4)
  }

  /** The parts of a split unit, numbered from `first`. */
  function Parts(groups: seq<seq<string>>, first: nat, c: Cursor, title: string, name: string): (r: seq<LegalChunk>)
    ensures |r| == |groups|
    decreases |groups|
  {
    if groups == [] then []
    else [Part(groups[0], first, c, title, name)] + Parts(groups[1..], first + 1, c, title, name)
  }

  /** The groups a unit's text is split into. */
  function SplitGroups(text: string, maxTokens: int): seq<seq<string>>
  {
    Pack(Sentences(SplitAtTerminators(text)), [], maxTokens)
  }

  /** What `_split_large_chunk` appends for a unit's text. */
  function SplitChunks(text: string, c: Cursor, title: string, name: string, maxTokens: int): seq<LegalChunk>
  {
    Parts(SplitGroups(text, maxTokens), 1, c, title, name)
  }

  function ChunkTexts(chunks: seq<LegalChunk>): (r: seq<string>)
    ensures |r| == |chunks|
    ensures forall i :: 0 <= i < |r| ==> r[i] == chunks[i].text
  {
    seq(|chunks|, i requires 0 <= i < |chunks| => chunks[i].text)
  }

  function JoinEach(groups: seq<seq<string>>, sep: string): (r: seq<string>)
    ensures |r| == |groups|
  {
    seq(|groups|, i requires 0 <= i < |groups| => Join(groups[i], sep))
  }

  lemma {:induction false} JoinOfJoins(groups: seq<seq<string>>, sep: string)
    requires forall i :: 0 <= i < |groups| ==> groups[i] != []
    ensures Join(JoinEach(groups, sep), sep) == Join(Flatten(groups), sep)
    decreases |groups|
  {
    if |groups| == 1 {
      assert Flatten(groups) == groups[0] + Flatten(groups[1..]);
      assert groups[0] + [] == groups[0];
    } else if |groups| > 1 {
      JoinOfJoins(groups[1..], sep);
      assert JoinEach(groups, sep)[1..] == JoinEach(groups[1..], sep);
      FlattenNonEmpty(groups[1..]);
      JoinConcat(groups[0], Flatten(groups[1..]), sep);
    }
  }

  lemma {:induction false} FlattenNonEmpty<T>(xss: seq<seq<T>>)
    requires xss != [] && xss[0] != []
    ensures Flatten(xss) != []
  {
  }

  /** What the source promises of part `n` of a split unit: it is labelled
      as part `n`, its text ends in a danda and holds no double danda, its
      token estimate is a quarter of its length, and it is a single sentence
      or within the budget. */
  predicate IsSplitPart(p: LegalChunk, n: nat, title: string, maxTokens: int)
  {
    && p.kind == SplitSection(n)
    && p.title == PartTitle(title, n)
    && EndsWithDanda(p.text)
    && DoubleDanda !in p.text
    && p.estimatedTokens == |p.text| / 4
    && (IsSentence(p.text) || p.estimatedTokens <= maxTokens)
  }

  predicate EndsWithDanda(s: string)
  {
    s != [] && s[|s| - 1] == Danda
  }

  /** The text of a group of sentences. */
  lemma GroupText(g: seq<string>)
    requires g != []
    requires forall k :: 0 <= k < |g| ==> IsSentence(g[k])
    ensures var t := Join(g, " ");
            EndsWithDanda(t) && DoubleDanda !in t
            && (|g| == 1 ==> IsSentence(t))
  {
    forall k | 0 <= k < |g| ensures DoubleDanda !in g[k] {
      SentenceLacksDoubleDanda(g[k]);
    }
    JoinLacks(g, " ", DoubleDanda);
    if |g| == 1 {
      assert Join(g, " ") == g[0];
    }
    JoinEnds(g, " ");
  }

  lemma SentenceLacksDoubleDanda(s: string)
    requires IsSentence(s)
    ensures DoubleDanda !in s
  {
  }

  lemma PartFacts(g: seq<string>, n: nat, c: Cursor, title: string, name: string, maxTokens: int)
    requires g != [] && Fits(g, maxTokens)
    requires forall k :: 0 <= k < |g| ==> IsSentence(g[k])
    ensures Part(g, n, c, title, name).text == Join(g, " ")
    ensures IsSplitPart(Part(g, n, c, title, name), n, title, maxTokens)
  {
    GroupText(g);
  }

  /** The groups the packing produces: non-empty groups of sentences, each
      fitting the budget. */
  predicate GoodGroups(groups: seq<seq<string>>, maxTokens: int)
  {
    forall i :: 0 <= i < |groups| ==>
      groups[i] != [] && Fits(groups[i], maxTokens)
      && forall k :: 0 <= k < |groups[i]| ==> IsSentence(groups[i][k])
  }

  lemma SplitGroupsGood(text: string, maxTokens: int)
    ensures GoodGroups(SplitGroups(text, maxTokens), maxTokens)
    ensures Flatten(SplitGroups(text, maxTokens)) == Sentences(SplitAtTerminators(text))
  {
    var sents := Sentences(SplitAtTerminators(text));
    var groups := Pack(sents, [], maxTokens);
    PackKeepsSentences(sents, [], maxTokens);
    PackFits(sents, [], maxTokens);
    assert [] + sents == sents;
    forall i | 0 <= i < |groups|
      ensures forall k :: 0 <= k < |groups[i]| ==> IsSentence(groups[i][k])
    {
      GroupInSentences(groups, i);
    }
  }

  lemma {:induction false} PartsShape(groups: seq<seq<string>>, first: nat, c: Cursor, title: string, name: string, maxTokens: int)
    requires GoodGroups(groups, maxTokens)
    ensures var r := Parts(groups, first, c, title, name);
            forall i :: 0 <= i < |r| ==> r[i].text == Join(groups[i], " ") && IsSplitPart(r[i], first + i, title, maxTokens)
    decreases |groups|
  {
    if groups != [] {
      var r := Parts(groups, first, c, title, name);
      var tail := Parts(groups[1..], first + 1, c, title, name);
      assert r == [Part(groups[0], first, c, title, name)] + tail;
      PartFacts(groups[0], first, c, title, name, maxTokens);
      PartsShape(groups[1..], first + 1, c, title, name, maxTokens);
      forall i | 0 < i < |r|
        ensures r[i].text == Join(groups[i], " ") && IsSplitPart(r[i], first + i, title, maxTokens)
      {
        assert r[i] == tail[i - 1] && groups[i] == groups[1..][i - 1];
      }
    }
  }

  /** The parts of a split unit, in the source's own terms: part numbers run
      1, 2, ...; every part ends in a danda and holds no double danda; every
      part is a single sentence or within the budget. */
  lemma SplitChunksShape(text: string, c: Cursor, title: string, name: string, maxTokens: int)
    ensures var r := SplitChunks(text, c, title, name, maxTokens);
            forall i :: 0 <= i < |r| ==> IsSplitPart(r[i], i + 1, title, maxTokens)
  {
    SplitGroupsGood(text, maxTokens);
    PartsShape(SplitGroups(text, maxTokens), 1, c, title, name, maxTokens);
  }

  /** The parts joined by spaces give back the unit's sentences joined by spaces. */
  lemma SplitChunksJoin(text: string, c: Cursor, title: string, name: string, maxTokens: int)
    ensures Join(ChunkTexts(SplitChunks(text, c, title, name, maxTokens)), " ")
         == Join(Sentences(SplitAtTerminators(text)), " ")
  {
    var groups := SplitGroups(text, maxTokens);
    var r := Parts(groups, 1, c, title, name);
    assert ChunkTexts(r) == JoinEach(groups, " ") by {
      SplitGroupsGood(text, maxTokens);
      PartTexts(groups, c, title, name, maxTokens);
    }
    assert Join(JoinEach(groups, " "), " ") == Join(Flatten(groups), " ") by {
      SplitGroupsGood(text, maxTokens);
      JoinOfJoins(groups, " ");
    }
    assert Flatten(groups) == Sentences(SplitAtTerminators(text)) by {
      SplitGroupsGood(text, maxTokens);
    }
  }

  lemma PartTexts(groups: seq<seq<string>>, c: Cursor, title: string, name: string, maxTokens: int)
    requires GoodGroups(groups, maxTokens)
    ensures ChunkTexts(Parts(groups, 1, c, title, name)) == JoinEach(groups, " ")
  {
    PartsShape(groups, 1, c, title, name, maxTokens);
  }

  /** Every group is made of sentences. */
  lemma GroupInSentences(groups: seq<seq<string>>, i: nat)
    requires i < |groups|
    requires forall k :: 0 <= k < |Flatten(groups)| ==> IsSentence(Flatten(groups)[k])
    ensures forall k :: 0 <= k < |groups[i]| ==> IsSentence(groups[i][k])
  {
    FlattenHolds(groups, i);
  }

  lemma {:induction false} FlattenHolds(groups: seq<seq<string>>, i: nat)
    requires i < |groups|
    ensures forall k :: 0 <= k < |groups[i]| ==> groups[i][k] in Flatten(groups)
    decreases i
  {
    if i > 0 {
      FlattenHolds(groups[1..], i - 1);
    }
  }

  lemma {:induction false} PartsAppend(groups: seq<seq<string>>, g: seq<string>, first: nat, c: Cursor, title: string, name: string)
    ensures Parts(groups + [g], first, c, title, name)
         == Parts(groups, first, c, title, name) + [Part(g, first + |groups|, c, title, name)]
    decreases |groups|
  {
    if groups == [] {
      assert [g][1..] == [];
    } else {
      assert (groups + [g])[1..] == groups[1..] + [g];
      PartsAppend(groups[1..], g, first + 1, c, title, name);
    }
  }

  /** One piece further along: a blank piece adds no sentence, any other adds one. */
  lemma SentencesAt(pieces: seq<string>, k: nat)
    requires NoTerminators(pieces) && k < |pieces|
    ensures NoTerminators(pieces[k..]) && NoTerminators(pieces[k + 1..])
    ensures Strip(pieces[k]) == [] ==> Sentences(pieces[k..]) == Sentences(pieces[k + 1..])
    ensures Strip(pieces[k]) != [] ==> Sentences(pieces[k..]) == [Strip(pieces[k]) + [Danda]] + Sentences(pieces[k + 1..])
  {
    assert pieces[k..][0] == pieces[k] && pieces[k..][1..] == pieces[k + 1..];
  }

  /** The packing step that closes the open group. */
  lemma PackCloses(done: seq<seq<string>>, group: seq<string>, s: string, rest: seq<string>, maxTokens: int)
    requires group != [] && |Join(group + [s], " ")| / 4 > maxTokens
    ensures done + Pack([s] + rest, group, maxTokens) == (done + [group]) + Pack(rest, [s], maxTokens)
  {
    assert ([s] + rest)[0] == s && ([s] + rest)[1..] == rest;
  }

  /** The packing step that extends the open group. */
  lemma PackExtends(group: seq<string>, s: string, rest: seq<string>, maxTokens: int)
    requires !(group != [] && |Join(group + [s], " ")| / 4 > maxTokens)
    ensures Pack([s] + rest, group, maxTokens) == Pack(rest, group + [s], maxTokens)
  {
    assert ([s] + rest)[0] == s && ([s] + rest)[1..] == rest;
  }

  /** The chunk `_split_large_chunk` appends for its open text `current`
      as part `index`. */
  function OpenPart(current: string, index: nat, c: Cursor, title: string, name: string): LegalChunk
  {
    LegalChunk(Strip(current), c.chapter, c.dafa, UpaText(c.upaDafa), PartTitle(title, index),
               c.page, name, SplitSection(index), |current| / 4)
  }

  /** The state of the splitting loop: the open text is the open group
      joined by spaces, the open group is made of sentences and fits, and
      the parts appended so far are those of the closed groups. */
  predicate SplitInv(chunks: seq<LegalChunk>, out: seq<LegalChunk>, current: string, index: nat,
                     done: seq<seq<string>>, group: seq<string>,
                     c: Cursor, title: string, name: string, maxTokens: int)
  {
    && current == Join(group, " ")
    && (forall i :: 0 <= i < |group| ==> IsSentence(group[i]))
    && (group == [] || Fits(group, maxTokens))
    && index == |done| + 1
    && out == chunks + Parts(done, 1, c, title, name)
  }

  /** The loop's trial text is the open group with the sentence added. */
  lemma TrialText(current: string, group: seq<string>, sentence: string)
    requires current == Join(group, " ")
    requires forall i :: 0 <= i < |group| ==> IsSentence(group[i])
    ensures (current != []) == (group != [])
    ensures (if current != [] then current + " " + sentence else sentence) == Join(group + [sentence], " ")
  {
    if group != [] {
      JoinAppend(group, sentence, " ");
      GroupText(group);
    } else {
      assert group + [sentence] == [sentence];
    }
  }

  /** The open part of a group of sentences is that group's part. */
  lemma OpenPartIsPart(group: seq<string>, index: nat, c: Cursor, title: string, name: string)
    requires group != []
    requires forall i :: 0 <= i < |group| ==> IsSentence(group[i])
    ensures OpenPart(Join(group, " "), index, c, title, name) == Part(group, index, c, title, name)
  {
    GroupTextIsTrimmed(group);
  }

  lemma AppendAssoc<T>(a: seq<T>, b: seq<T>, x: T)
    ensures (a + b) + [x] == a + (b + [x])
  {
  }

  /** A sentence that would overflow a non-empty open group closes it. */
  lemma CloseStep(chunks: seq<LegalChunk>, out: seq<LegalChunk>, current: string, index: nat,
                  done: seq<seq<string>>, group: seq<string>, sentence: string, rest: seq<string>,
                  c: Cursor, title: string, name: string, maxTokens: int)
    requires SplitInv(chunks, out, current, index, done, group, c, title, name, maxTokens)
    requires IsSentence(sentence) && group != []
    requires |Join(group + [sentence], " ")| / 4 > maxTokens
    ensures SplitInv(chunks, out + [OpenPart(current, index, c, title, name)], sentence, index + 1,
                     done + [group], [sentence], c, title, name, maxTokens)
    ensures done + Pack([sentence] + rest, group, maxTokens) == (done + [group]) + Pack(rest, [sentence], maxTokens)
  {
    assert out + [OpenPart(current, index, c, title, name)] == chunks + Parts(done + [group], 1, c, title, name) by {
      OpenPartIsPart(group, index, c, title, name);
      PartsAppend(done, group, 1, c, title, name);
      AppendAssoc(chunks, Parts(done, 1, c, title, name), Part(group, index, c, title, name));
    }
    assert Join([sentence], " ") == sentence;
    PackCloses(done, group, sentence, rest, maxTokens);
  }

  /** Any other sentence joins the open group. */
  lemma ExtendStep(chunks: seq<LegalChunk>, out: seq<LegalChunk>, current: string, index: nat,
                   done: seq<seq<string>>, group: seq<string>, sentence: string, rest: seq<string>,
                   c: Cursor, title: string, name: string, maxTokens: int)
    requires SplitInv(chunks, out, current, index, done, group, c, title, name, maxTokens)
    requires IsSentence(sentence)
    requires !(group != [] && |Join(group + [sentence], " ")| / 4 > maxTokens)
    ensures SplitInv(chunks, out, Join(group + [sentence], " "), index, done, group + [sentence],
                     c, title, name, maxTokens)
    ensures Pack([sentence] + rest, group, maxTokens) == Pack(rest, group + [sentence], maxTokens)
  {
    PackExtends(group, sentence, rest, maxTokens);
  }

  /** After the last sentence the open group, if any, is the last part. */
  lemma FinishStep(chunks: seq<LegalChunk>, out: seq<LegalChunk>, current: string, index: nat,
                   done: seq<seq<string>>, group: seq<string>, groups: seq<seq<string>>,
                   c: Cursor, title: string, name: string, maxTokens: int)
    requires SplitInv(chunks, out, current, index, done, group, c, title, name, maxTokens)
    requires done + Pack([], group, maxTokens) == groups
    ensures (if Strip(current) != [] then out + [OpenPart(current, index, c, title, name)] else out)
         == chunks + Parts(groups, 1, c, title, name)
  {
    if group != [] {
      OpenPartIsPart(group, index, c, title, name);
      GroupTextIsTrimmed(group);
      PartsAppend(done, group, 1, c, title, name);
      AppendAssoc(chunks, Parts(done, 1, c, title, name), Part(group, index, c, title, name));
    } else {
      assert done + [] == done;
    }
  }

  /** `_split_large_chunk`: one pass over the sentences, appending a part
      each time the open part would outgrow the budget, and the last part
      at the end. */
  method SplitLargeChunk(chunks: seq<LegalChunk>, text: string, c: Cursor, title: string, name: string, maxTokens: int)
    returns (out: seq<LegalChunk>)
    ensures out == chunks + SplitChunks(text, c, title, name, maxTokens)
  {
    var pieces := SplitAtTerminators(text);
    out := chunks;
    var current: string := "";
    var index: nat := 1;
    ghost var done: seq<seq<string>> := [];
    ghost var group: seq<string> := [];
    assert pieces[0..] == pieces;
    for k := 0 to |pieces|
      invariant SplitInv(chunks, out, current, index, done, group, c, title, name, maxTokens)
      invariant NoTerminators(pieces[k..])
      invariant done + Pack(Sentences(pieces[k..]), group, maxTokens) == SplitGroups(text, maxTokens)
    {
      SentencesAt(pieces, k);
      var sentence := Strip(pieces[k]);
      if sentence == [] {
        continue;
      }
      PieceSentence(pieces[k]);
      sentence := sentence + [Danda];
      ghost var rest := Sentences(pieces[k + 1..]);
      var test := if current != [] then current + " " + sentence else sentence;
      TrialText(current, group, sentence);
      if |test| / 4 > maxTokens && current != [] {
        CloseStep(chunks, out, current, index, done, group, sentence, rest, c, title, name, maxTokens);
        out := out + [OpenPart(current, index, c, title, name)];
        index := index + 1;
        current := sentence;
        done := done + [group];
        group := [sentence];
      } else {
        ExtendStep(chunks, out, current, index, done, group, sentence, rest, c, title, name, maxTokens);
        current := test;
        group := group + [sentence];
      }
    }
    assert pieces[|pieces|..] == [];
    FinishStep(chunks, out, current, index, done, group, SplitGroups(text, maxTokens), c, title, name, maxTokens);
    if Strip(current) != [] {
      out := out + [OpenPart(current, index, c, title, name)];
    }
  }

  // ---------------------------------------------------------------------
  // `_save_chunk_for_rag`

  /** What `_save_chunk_for_rag` appends for the open unit of `c`: nothing
      for a blank unit, one complete chunk when the stripped text is within
      the budget, its split parts otherwise. */
  function Flush(c: Cursor, source: string, maxTokens: int): seq<LegalChunk>
  {
    if c.lines == [] then []
    else
      var text := Strip(Join(c.lines, "\n"));
      if text == [] then []
      else
        var estimated := |text| / 4;
        var title := Title(c.chapter, c.dafa, c.upaDafa);
        if estimated <= maxTokens then
          [LegalChunk(text, c.chapter, c.dafa, UpaText(c.upaDafa), title, c.page, Basename(source), CompleteSection, estimated)]
        else SplitChunks(text, c, title, Basename(source), maxTokens)
  }

  /** `_save_chunk_for_rag`, appending to the caller's list. */
  method SaveChunk(chunks: seq<LegalChunk>, c: Cursor, source: string, maxTokens: int) returns (out: seq<LegalChunk>)
    ensures out == chunks + Flush(c, source, maxTokens)
  {
    out := chunks;
    if c.lines == [] {
      return;
    }
    var text := Strip(Join(c.lines, "\n"));
    if text == [] {
      return;
    }
    var estimated := |text| / 4;
    var title := Title(c.chapter, c.dafa, c.upaDafa);
    if estimated <= maxTokens {
      out := out + [LegalChunk(text, c.chapter, c.dafa, UpaText(c.upaDafa), title, c.page, Basename(source), CompleteSection, estimated)];
    } else {
      out := SplitLargeChunk(out, text, c, title, Basename(source), maxTokens);
    }
  }

  /** A unit whose lines are empty or only whitespace gives no chunk. */
  lemma BlankUnitGivesNothing(c: Cursor, source: string, maxTokens: int)
    requires IsBlank(Join(c.lines, "\n"))
    ensures Flush(c, source, maxTokens) == []
  {
    BlankIffStripEmpty(Join(c.lines, "\n"));
  }

  /** A unit gives one complete chunk exactly when its stripped text is
      non-empty and its estimate is within the budget; that chunk holds the
      stripped text under the unit's title. Otherwise every chunk it gives
      is a split part. */
  lemma FlushKinds(c: Cursor, source: string, maxTokens: int)
    ensures var text := Strip(Join(c.lines, "\n"));
            var r := Flush(c, source, maxTokens);
            && ((|r| == 1 && r[0].kind == CompleteSection) <==> (text != [] && |text| / 4 <= maxTokens))
            && (text != [] && |text| / 4 <= maxTokens ==>
                  r[0].text == text && r[0].title == Title(c.chapter, c.dafa, c.upaDafa)
                  && r[0].estimatedTokens == |text| / 4)
            && (|text| / 4 > maxTokens ==> forall i :: 0 <= i < |r| ==> r[i].kind == SplitSection(i + 1))
  {
    var text := Strip(Join(c.lines, "\n"));
    if c.lines == [] {
      assert text == [];
    } else if text != [] && |text| / 4 > maxTokens {
      SplitChunksShape(text, c, Title(c.chapter, c.dafa, c.upaDafa), Basename(source), maxTokens);
    }
  }

  // ---------------------------------------------------------------------
  // `process_pdf_for_rag`

  /** The scan state together with the units closed so far, in order. The
      chunks the scan has produced are exactly the flushes of the closed units. */
  datatype Machine = Machine(cursor: Cursor, closed: seq<Cursor>)

  /** The state before the first line. */
  const Start: Cursor := Cursor("Unknown", "Intro", None, [], 1)

  /** The dafa name given at a dafa or numbered-section boundary. */
  function DafaLabel(num: string): string
  {
    DafaWord + " " + num
  }

  /** The upa-dafa name given at an upa-dafa boundary. */
  function UpaDafaLabel(num: string): string
  {
    "(" + num + ")"
  }

  /** A line takes part in the scan when, stripped, it is neither empty nor garbage. */
  predicate IsKept(line: string)
  {
    Strip(line) != [] && !IsGarbageLine(Strip(line))
  }

  /** Whether a kept line closes the open unit: every chapter, dafa or
      section boundary does; an upa-dafa boundary does only when an upa-dafa
      is already open. */
  predicate Closes(m: Marker, c: Cursor)
  {
    m.Chapter? || m.Dafa? || m.Section? || (m.UpaDafa? && c.upaDafa.Some?)
  }

  /** One line of the scan; `pageNum` is the zero-based page index. */
  function Step(m: Machine, line: string, pageNum: nat): Machine
  {
    if !IsKept(line) then m
    else
      var l := Strip(line);
      var c := m.cursor;
      match Classify(l)
      case Chapter(n) => Machine(Cursor(ChapterLabel(n), "Header", None, [l], pageNum + 1), m.closed + [c])
      case Dafa(n) => Machine(Cursor(c.chapter, DafaLabel(n), None, [l], pageNum + 1), m.closed + [c])
      case Section(n) => Machine(Cursor(c.chapter, DafaLabel(n), None, [l], pageNum + 1), m.closed + [c])
      case UpaDafa(n) =>
        if c.upaDafa.Some? then Machine(c.(upaDafa := Some(UpaDafaLabel(n)), lines := [l]), m.closed + [c])
        else Machine(c.(upaDafa := Some(UpaDafaLabel(n)), lines := c.lines + [l]), m.closed)
      case Body => Machine(c.(lines := c.lines + [l]), m.closed)
  }

  /** The scan over the lines of one page. */
  function RunLines(m: Machine, lines: seq<string>, pageNum: nat): Machine
    decreases |lines|
  {
    if lines == [] then m
    else Step(RunLines(m, lines[..|lines| - 1], pageNum), lines[|lines| - 1], pageNum)
  }

  /** `text.split('\n')` of a page after `clean_text`. */
  function PageLines(table: seq<Row>, text: string): seq<string>
    requires WellFormedTable(table)
  {
    SplitOn(Cleaned(table, text), "\n")
  }

  /** The scan over the pages; a page whose conversion failed (`None`) is
      skipped, but still counts in the page numbering. */
  function RunPages(pages: seq<Option<string>>, table: seq<Row>): Machine
    requires WellFormedTable(table)
    decreases |pages|
  {
    if pages == [] then Machine(Start, [])
    else
      var m := RunPages(pages[..|pages| - 1], table);
      match pages[|pages| - 1]
      case None => m
      case Some(text) => RunLines(m, PageLines(table, text), |pages| - 1)
  }

  /** Every unit the scan hands to the flush, the last one included. */
  function Units(pages: seq<Option<string>>, table: seq<Row>): seq<Cursor>
    requires WellFormedTable(table)
  {
    var m := RunPages(pages, table);
    m.closed + [m.cursor]
  }

  function FlushAll(units: seq<Cursor>, source: string, maxTokens: int): seq<LegalChunk>
    decreases |units|
  {
    if units == [] then [] else FlushAll(units[..|units| - 1], source, maxTokens) + Flush(units[|units| - 1], source, maxTokens)
  }

  /** What `process_pdf_for_rag` returns for a document whose pages are
      `pages`, already converted to Unicode. */
  function ChunkDocument(pages: seq<Option<string>>, table: seq<Row>, source: string, maxTokens: int): seq<LegalChunk>
    requires WellFormedTable(table)
  {
    FlushAll(Units(pages, table), source, maxTokens)
  }

  /** What one kept line does to the scan, by boundary type: chapter, dafa
      and section boundaries always close the open unit, set the page to the
      current page and clear the upa-dafa; a chapter names the dafa
      "Header"; an upa-dafa boundary closes the unit only when an upa-dafa is
      open, and neither it nor a body line touches the chapter, the dafa or
      the page. A closing line starts the next unit's lines; any other line
      is appended to the open unit. */
  lemma StepEffects(m: Machine, line: string, pageNum: nat, mk: Marker)
    requires IsKept(line) && mk == Classify(Strip(line))
    ensures var l := Strip(line);
            var r := Step(m, line, pageNum);
            && (Closes(mk, m.cursor) ==> r.closed == m.closed + [m.cursor] && r.cursor.lines == [l])
            && (!Closes(mk, m.cursor) ==> r.closed == m.closed && r.cursor.lines == m.cursor.lines + [l])
            && (mk.Chapter? ==> r.cursor.chapter == ChapterLabel(mk.number) && r.cursor.dafa == "Header")
            && (mk.Dafa? || mk.Section? ==> r.cursor.chapter == m.cursor.chapter && r.cursor.dafa == DafaLabel(mk.number))
            && (mk.Chapter? || mk.Dafa? || mk.Section? ==> r.cursor.upaDafa == None && r.cursor.page == pageNum + 1)
            && (mk.UpaDafa? ==> r.cursor.upaDafa == Some(UpaDafaLabel(mk.number)))
            && (mk.UpaDafa? || mk.Body? ==>
                  r.cursor.chapter == m.cursor.chapter && r.cursor.dafa == m.cursor.dafa && r.cursor.page == m.cursor.page)
            && (mk.Body? ==> r.cursor.upaDafa == m.cursor.upaDafa)
  {
  }

  /** A line that is empty or garbage once stripped leaves the scan as it is. */
  lemma SkippedLineIsIgnored(m: Machine, line: string, pageNum: nat)
    requires !IsKept(line)
    ensures Step(m, line, pageNum) == m
  {
  }

  /** The lines of the units, in order. */
  function LinesOf(units: seq<Cursor>): seq<string>
    decreases |units|
  {
    if units == [] then [] else LinesOf(units[..|units| - 1]) + units[|units| - 1].lines
  }

  /** The kept lines of a page, stripped, in order. */
  function KeptLines(lines: seq<string>): seq<string>
    decreases |lines|
  {
    if lines == [] then []
    else KeptLines(lines[..|lines| - 1]) + (if IsKept(lines[|lines| - 1]) then [Strip(lines[|lines| - 1])] else [])
  }

  /** The kept lines of a document, page after page; a page whose
      conversion failed contributes nothing. */
  function DocumentLines(pages: seq<Option<string>>, table: seq<Row>): seq<string>
    requires WellFormedTable(table)
    decreases |pages|
  {
    if pages == [] then []
    else DocumentLines(pages[..|pages| - 1], table)
         + match pages[|pages| - 1] case None => [] case Some(text) => KeptLines(PageLines(table, text))
  }

  function UnitsOf(m: Machine): seq<Cursor>
  {
    m.closed + [m.cursor]
  }

  lemma LinesOfSnoc(units: seq<Cursor>, u: Cursor)
    ensures LinesOf(units + [u]) == LinesOf(units) + u.lines
  {
    assert (units + [u])[..|units|] == units;
  }

  /** One step adds its kept line to the units' lines and nothing else. */
  lemma StepKeepsLines(m: Machine, line: string, pageNum: nat)
    ensures LinesOf(UnitsOf(Step(m, line, pageNum)))
         == LinesOf(UnitsOf(m)) + (if IsKept(line) then [Strip(line)] else [])
  {
    if IsKept(line) {
      var l := Strip(line);
      var r := Step(m, line, pageNum);
      StepEffects(m, line, pageNum, Classify(l));
      LinesOfSnoc(m.closed, m.cursor);
      LinesOfSnoc(r.closed, r.cursor);
      if Closes(Classify(l), m.cursor) {
        LinesOfSnoc(m.closed + [m.cursor], r.cursor);
      } else {
        ConcatAssoc(LinesOf(m.closed), m.cursor.lines, [l]);
      }
    } else {
      assert LinesOf(UnitsOf(m)) + [] == LinesOf(UnitsOf(m));
    }
  }

  lemma {:induction false} RunLinesKeepsLines(m: Machine, lines: seq<string>, pageNum: nat)
    ensures LinesOf(UnitsOf(RunLines(m, lines, pageNum))) == LinesOf(UnitsOf(m)) + KeptLines(lines)
    decreases |lines|
  {
    if lines == [] {
      assert LinesOf(UnitsOf(m)) + [] == LinesOf(UnitsOf(m));
    } else {
      var init := lines[..|lines| - 1];
      var last := lines[|lines| - 1];
      RunLinesKeepsLines(m, init, pageNum);
      StepKeepsLines(RunLines(m, init, pageNum), last, pageNum);
      ConcatAssoc(LinesOf(UnitsOf(m)), KeptLines(init), if IsKept(last) then [Strip(last)] else []);
    }
  }

  /** No content loss: the units the scan hands to the flush hold every
      kept line of the document, stripped, each exactly once and in document
      order; the scan starts from an empty unit. */
  lemma {:induction false} NoContentLoss(pages: seq<Option<string>>, table: seq<Row>)
    requires WellFormedTable(table)
    ensures LinesOf(Units(pages, table)) == DocumentLines(pages, table)
    decreases |pages|
  {
    if pages == [] {
      assert Units(pages, table) == [Start];
      LinesOfSnoc([], Start);
    } else {
      var init := pages[..|pages| - 1];
      var m := RunPages(init, table);
      assert LinesOf(UnitsOf(m)) == DocumentLines(init, table) by {
        NoContentLoss(init, table);
      }
      match pages[|pages| - 1]
      case None =>
        assert RunPages(pages, table) == m;
        assert DocumentLines(pages, table) == DocumentLines(init, table) + [];
      case Some(text) =>
        var lines := PageLines(table, text);
        assert RunPages(pages, table) == RunLines(m, lines, |pages| - 1);
        assert DocumentLines(pages, table) == DocumentLines(init, table) + KeptLines(lines);
        RunLinesKeepsLines(m, lines, |pages| - 1);
    }
  }

  /** A unit with no lines gives no chunk, so a document without a kept line
      gives none. */
  lemma {:induction false} NoLinesNoChunks(units: seq<Cursor>, source: string, maxTokens: int)
    requires LinesOf(units) == []
    ensures FlushAll(units, source, maxTokens) == []
    decreases |units|
  {
    if units != [] {
      NoLinesNoChunks(units[..|units| - 1], source, maxTokens);
    }
  }

  /** The last unit is flushed after the final page, after every unit closed
      before it. */
  lemma LastUnitFlushed(pages: seq<Option<string>>, table: seq<Row>, source: string, maxTokens: int)
    requires WellFormedTable(table)
    ensures var m := RunPages(pages, table);
            ChunkDocument(pages, table, source, maxTokens)
            == FlushAll(m.closed, source, maxTokens) + Flush(m.cursor, source, maxTokens)
  {
    var m := RunPages(pages, table);
    FlushAllSnoc(m.closed, m.cursor, source, maxTokens);
  }

  lemma RunLinesSnoc(m: Machine, lines: seq<string>, k: nat, pageNum: nat)
    requires k < |lines|
    ensures RunLines(m, lines[..k + 1], pageNum) == Step(RunLines(m, lines[..k], pageNum), lines[k], pageNum)
  {
    assert lines[..k + 1][..k] == lines[..k];
  }

  lemma RunPagesSnoc(pages: seq<Option<string>>, table: seq<Row>, n: nat)
    requires WellFormedTable(table) && n < |pages|
    ensures pages[n].None? ==> RunPages(pages[..n + 1], table) == RunPages(pages[..n], table)
    ensures pages[n].Some? ==> RunPages(pages[..n + 1], table) == RunLines(RunPages(pages[..n], table), PageLines(table, pages[n].value), n)
  {
    assert pages[..n + 1][..n] == pages[..n];
  }

  lemma FlushAllSnoc(units: seq<Cursor>, u: Cursor, source: string, maxTokens: int)
    ensures FlushAll(units + [u], source, maxTokens) == FlushAll(units, source, maxTokens) + Flush(u, source, maxTokens)
  {
    assert (units + [u])[..|units|] == units;
  }

  lemma StepChapter(m: Machine, line: string, pageNum: nat)
    requires IsKept(line) && ChapterNumber(Strip(line)).Some?
    ensures Step(m, line, pageNum)
         == Machine(Cursor(ChapterLabel(ChapterNumber(Strip(line)).value), "Header", None, [Strip(line)], pageNum + 1),
                    m.closed + [m.cursor])
  {
  }

  lemma StepDafa(m: Machine, line: string, pageNum: nat)
    requires IsKept(line) && ChapterNumber(Strip(line)).None? && DafaNumber(Strip(line)).Some?
    ensures Step(m, line, pageNum)
         == Machine(m.cursor.(dafa := DafaLabel(DafaNumber(Strip(line)).value), upaDafa := None, lines := [Strip(line)], page := pageNum + 1),
                    m.closed + [m.cursor])
  {
  }

  lemma StepSection(m: Machine, line: string, pageNum: nat)
    requires IsKept(line) && ChapterNumber(Strip(line)).None? && DafaNumber(Strip(line)).None?
    requires SectionNumber(Strip(line)).Some?
    ensures Step(m, line, pageNum)
         == Machine(m.cursor.(dafa := DafaLabel(SectionNumber(Strip(line)).value), upaDafa := None, lines := [Strip(line)], page := pageNum + 1),
                    m.closed + [m.cursor])
  {
  }

  lemma StepUpaDafa(m: Machine, line: string, pageNum: nat)
    requires IsKept(line) && ChapterNumber(Strip(line)).None? && DafaNumber(Strip(line)).None?
    requires SectionNumber(Strip(line)).None? && UpaDafaNumber(Strip(line)).Some?
    ensures var upa := Some(UpaDafaLabel(UpaDafaNumber(Strip(line)).value));
            Step(m, line, pageNum)
            == if m.cursor.upaDafa.Some? then Machine(m.cursor.(upaDafa := upa, lines := [] + [Strip(line)]), m.closed + [m.cursor])
               else Machine(m.cursor.(upaDafa := upa, lines := m.cursor.lines + [Strip(line)]), m.closed)
  {
    assert [] + [Strip(line)] == [Strip(line)];
  }

  lemma StepBody(m: Machine, line: string, pageNum: nat)
    requires IsKept(line) && ChapterNumber(Strip(line)).None? && DafaNumber(Strip(line)).None?
    requires SectionNumber(Strip(line)).None? && UpaDafaNumber(Strip(line)).None?
    ensures Step(m, line, pageNum) == Machine(m.cursor.(lines := m.cursor.lines + [Strip(line)]), m.closed)
  {
  }

  /** One line of the walk in `process_pdf_for_rag`: the stripped line is
      skipped, opens a new unit (saving the open one), or joins the open
      unit. */
  method HandleLine(chunks: seq<LegalChunk>, before: Cursor, ghost closed: seq<Cursor>, rawLine: string, pageNum: nat,
                    path: string, maxTokens: int)
    returns (out: seq<LegalChunk>, after: Cursor, ghost closedAfter: seq<Cursor>)
    requires chunks == FlushAll(closed, path, maxTokens)
    ensures Machine(after, closedAfter) == Step(Machine(before, closed), rawLine, pageNum)
    ensures out == FlushAll(closedAfter, path, maxTokens)
  {
    ghost var m := Machine(before, closed);
    out, after, closedAfter := chunks, before, closed;
    var line := Strip(rawLine);
    if line == [] || IsGarbageLine(line) {
      return;
    }
    var chapterMatch := ChapterNumber(line);
    if chapterMatch.Some? {
      StepChapter(m, rawLine, pageNum);
      FlushAllSnoc(closed, before, path, maxTokens);
      out := SaveChunk(chunks, before, path, maxTokens);
      closedAfter := closed + [before];
      after := Cursor(ChapterLabel(chapterMatch.value), "Header", None, [line], pageNum + 1);
      return;
    }
    var dafaMatch := DafaNumber(line);
    if dafaMatch.Some? {
      StepDafa(m, rawLine, pageNum);
      FlushAllSnoc(closed, before, path, maxTokens);
      out := SaveChunk(chunks, before, path, maxTokens);
      closedAfter := closed + [before];
      after := before.(dafa := DafaLabel(dafaMatch.value), upaDafa := None, lines := [line], page := pageNum + 1);
      return;
    }
    var sectionMatch := SectionNumber(line);
    if sectionMatch.Some? {
      StepSection(m, rawLine, pageNum);
      FlushAllSnoc(closed, before, path, maxTokens);
      out := SaveChunk(chunks, before, path, maxTokens);
      closedAfter := closed + [before];
      after := before.(dafa := DafaLabel(sectionMatch.value), upaDafa := None, lines := [line], page := pageNum + 1);
      return;
    }
    var upaDafaMatch := UpaDafaNumber(line);
    if upaDafaMatch.Some? {
      StepUpaDafa(m, rawLine, pageNum);
      var textLines := before.lines;
      if before.upaDafa.Some? {
        FlushAllSnoc(closed, before, path, maxTokens);
        out := SaveChunk(chunks, before, path, maxTokens);
        closedAfter := closed + [before];
        textLines := [];
      }
      after := before.(upaDafa := Some(UpaDafaLabel(upaDafaMatch.value)), lines := textLines + [line]);
      return;
    }
    StepBody(m, rawLine, pageNum);
    after := before.(lines := before.lines + [line]);
  }

  /** `process_pdf_for_rag`. The file test and the page texts are inputs:
      `pages[i]` is the converted text of page `i`, or `None` when reading or
      converting it raised. */
  method ProcessPdf(path: string, fileExists: bool, pages: seq<Option<string>>, table: seq<Row>, maxTokens: int)
    returns (r: Result<seq<LegalChunk>, string>)
    requires WellFormedTable(table)
    ensures !fileExists ==> r == Err("PDF file not found: " + path)
    ensures fileExists ==> r == Ok(ChunkDocument(pages, table, path, maxTokens))
  {
    if !fileExists {
      return Err("PDF file not found: " + path);
    }
    var chunks: seq<LegalChunk> := [];
    var cursor := Cursor("Unknown", "Intro", None, [], 1);
    ghost var closed: seq<Cursor> := [];
    for pageNum := 0 to |pages|
      invariant Machine(cursor, closed) == RunPages(pages[..pageNum], table)
      invariant chunks == FlushAll(closed, path, maxTokens)
    {
      RunPagesSnoc(pages, table, pageNum);
      if pages[pageNum].None? {
        continue;
      }
      var text := CleanText(table, pages[pageNum].value);
      var lines := SplitOn(text, "\n");
      ghost var m0 := RunPages(pages[..pageNum], table);
      assert lines[..0] == [];
      for k := 0 to |lines|
        invariant Machine(cursor, closed) == RunLines(m0, lines[..k], pageNum)
        invariant chunks == FlushAll(closed, path, maxTokens)
      {
        RunLinesSnoc(m0, lines, k, pageNum);
        chunks, cursor, closed := HandleLine(chunks, cursor, closed, lines[k], pageNum, path, maxTokens);
      }
      assert lines[..|lines|] == lines;
    }
    assert pages[..|pages|] == pages;
    FlushAllSnoc(closed, cursor, path, maxTokens);
    chunks := SaveChunk(chunks, cursor, path, maxTokens);
    return Ok(chunks);
  }
}
