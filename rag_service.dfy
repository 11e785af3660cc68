/**
  The document side of `NepaliRAGService` (chat/rag_service.py): the
  header/paragraph chunker with its sentence-aligned overlap, the
  "passage: " / "query: " prefix convention of the embedding model, the
  aligned records handed to the vector store, the shaping of search
  results, the prompt template, and the record `process_document` returns.
  The tokenizer, the embedding model, the vector store and the PDF parser
  are parameters.
*/
module RagService {
  import opened Text
  import opened Outcomes

  /** Target tokens per chunk. */
  const ChunkSize: nat := 650
  /** Token budget of the overlap carried into the next chunk. */
  const ChunkOverlap: nat := 65

  // ---------------------------------------------------------------------
  // `semantic_chunk_markdown`

  /** The `current_metadata` dictionary: the enclosing level-1 and level-2 headers. */
  datatype SectionMeta = SectionMeta(section: string, subsection: string)

  /** One chunk: stripped text, a snapshot of the header metadata, and the
      token count of the text before stripping. */
  datatype RagChunk = RagChunk(text: string, meta: SectionMeta, tokenCount: nat)

  /** The chunker's state: the chunks closed so far, the open chunk, the metadata. */
  datatype Chunker = Chunker(chunks: seq<RagChunk>, current: string, meta: SectionMeta)

  const Fresh: Chunker := Chunker([], "", SectionMeta("", ""))

  /** `piece.startswith('#')` */
  predicate IsHeader(piece: string)
  {
    piece != [] && piece[0] == '#'
  }

  /** `len(piece.split()[0])` for a piece that starts with a non-space
      character: the length of its first whitespace-delimited word. */
  function FirstWordLength(s: string): (n: nat)
    ensures n <= |s|
    ensures forall i :: 0 <= i < n ==> !IsSpace(s[i])
    ensures n < |s| ==> IsSpace(s[n])
  {
    if s != [] && !IsSpace(s[0]) then 1 + FirstWordLength(s[1..]) else 0
  }

  /** `piece.replace('#', '').strip()` */
  function HeaderText(piece: string): string
  {
    Strip(ReplaceAll(piece, "#", ""))
  }

  /** The metadata after a header: level 1 opens a section and clears the
      subsection, level 2 opens a subsection, any other level changes nothing. */
  function HeaderMeta(meta: SectionMeta, piece: string): SectionMeta
  {
    var level := FirstWordLength(piece);
    if level == 1 then SectionMeta(HeaderText(piece), "")
    else if level == 2 then meta.(subsection := HeaderText(piece))
    else meta
  }

  /** A header goes into the open chunk on a line of its own. */
  function AddHeader(st: Chunker, piece: string): Chunker
  {
    st.(current := st.current + ("\n" + piece + "\n"), meta := HeaderMeta(st.meta, piece))
  }

  /** One paragraph of a content piece: blank paragraphs are skipped; a
      paragraph that would take a non-empty open chunk over the budget
      closes it and opens the next one with the overlap in front. */
  function AddParagraph(st: Chunker, paragraph: string, count: string -> nat): Chunker
  {
    if Strip(paragraph) == [] then st
    else
      var test := st.current + "\n\n" + paragraph;
      if count(test) > ChunkSize && st.current != [] then
        Chunker(st.chunks + [RagChunk(Strip(st.current), st.meta, count(st.current))],
                Overlap(st.current, count) + "\n\n" + paragraph, st.meta)
      else st.(current := test)
  }

  function AddParagraphs(st: Chunker, paragraphs: seq<string>, count: string -> nat): Chunker
    decreases |paragraphs|
  {
    if paragraphs == [] then st
    else AddParagraph(AddParagraphs(st, paragraphs[..|paragraphs| - 1], count), paragraphs[|paragraphs| - 1], count)
  }

  /** One piece of `re.split(r'\n(#{1,3}\s+.+?)\n', markdown)`: a header, or
      content split into paragraphs at blank lines. */
  function AddPiece(st: Chunker, piece: string, count: string -> nat): Chunker
  {
    if IsHeader(piece) then AddHeader(st, piece)
    else AddParagraphs(st, SplitOn(piece, "\n\n"), count)
  }

  function AddPieces(pieces: seq<string>, count: string -> nat): Chunker
    decreases |pieces|
  {
    if pieces == [] then Fresh
    else AddPiece(AddPieces(pieces[..|pieces| - 1], count), pieces[|pieces| - 1], count)
  }

  /** The open chunk is emitted at the end unless it is blank. */
  function FinalChunks(st: Chunker, count: string -> nat): seq<RagChunk>
  {
    if Strip(st.current) != [] then st.chunks + [RagChunk(Strip(st.current), st.meta, count(st.current))]
    else st.chunks
  }

  /** What `semantic_chunk_markdown` returns for the pieces of a document. */
  function SemanticChunks(pieces: seq<string>, count: string -> nat): seq<RagChunk>
  {
    FinalChunks(AddPieces(pieces, count), count)
  }

  /** `semantic_chunk_markdown`, given the pieces of the header split and the
      tokenizer's count. */
  method SemanticChunkMarkdown(pieces: seq<string>, count: string -> nat) returns (chunks: seq<RagChunk>)
    ensures chunks == SemanticChunks(pieces, count)
  {
    chunks := [];
    var current: string := "";
    var meta := SectionMeta("", "");
    for i := 0 to |pieces|
      invariant Chunker(chunks, current, meta) == AddPieces(pieces[..i], count)
    {
      assert pieces[..i + 1][..i] == pieces[..i];
      var piece := pieces[i];
      if IsHeader(piece) {
        var level := FirstWordLength(piece);
        var headerText := Strip(ReplaceAll(piece, "#", ""));
        if level == 1 {
          meta := meta.(section := headerText, subsection := "");
        } else if level == 2 {
          meta := meta.(subsection := headerText);
        }
        current := current + ("\n" + piece + "\n");
      } else {
        var paragraphs := SplitOn(piece, "\n\n");
        ghost var st0 := Chunker(chunks, current, meta);
        assert paragraphs[..0] == [];
        for k := 0 to |paragraphs|
          invariant Chunker(chunks, current, meta) == AddParagraphs(st0, paragraphs[..k], count)
        {
          assert paragraphs[..k + 1][..k] == paragraphs[..k];
          var paragraph := paragraphs[k];
          if Strip(paragraph) == [] {
            continue;
          }
          var test := current + "\n\n" + paragraph;
          var tokenCount := count(test);
          if tokenCount > ChunkSize && current != [] {
            chunks := chunks + [RagChunk(Strip(current), meta, count(current))];
            var overlapText := GetOverlap(current, count);
            current := overlapText + "\n\n" + paragraph;
          } else {
            current := current + "\n\n" + paragraph;
          }
        }
        assert paragraphs[..|paragraphs|] == paragraphs;
      }
    }
    assert pieces[..|pieces|] == pieces;
    if Strip(current) != [] {
      chunks := chunks + [RagChunk(Strip(current), meta, count(current))];
    }
  }

  /** A header captured by the split, `#`, `##` or `###` then whitespace,
      has the level its hashes say. */
  lemma CapturedHeaderLevel(hashes: string, gap: string, title: string)
    requires 1 <= |hashes| <= 3 && forall i :: 0 <= i < |hashes| ==> hashes[i] == '#'
    requires gap != [] && IsSpace(gap[0])
    ensures FirstWordLength(hashes + gap + title) == |hashes|
  {
    var s := hashes + gap + title;
    assert s[|hashes|] == gap[0];
    assert forall i :: 0 <= i < |hashes| ==> s[i] == '#';
  }

  /** What a header does, by level: level 1 sets the section and clears
      the subsection, level 2 sets the subsection, level 3 changes neither;
      in every case the header is appended as a line of its own and no
      chunk is closed. */
  lemma HeaderEffects(st: Chunker, piece: string)
    requires IsHeader(piece)
    ensures var r := AddHeader(st, piece);
            var level := FirstWordLength(piece);
            && r.chunks == st.chunks
            && r.current == st.current + ("\n" + piece + "\n")
            && (level == 1 ==> r.meta == SectionMeta(HeaderText(piece), ""))
            && (level == 2 ==> r.meta == SectionMeta(st.meta.section, HeaderText(piece)))
            && (level != 1 && level != 2 ==> r.meta == st.meta)
            && level >= 1
  {
  }

  /** A chunk is closed only by a non-blank paragraph that would take a
      non-empty open chunk over the budget; the closed chunk is the open
      text stripped, with the metadata of the moment, and the next one
      starts with the overlap. Otherwise no chunk is closed. */
  lemma ParagraphEffects(st: Chunker, paragraph: string, count: string -> nat)
    ensures var r := AddParagraph(st, paragraph, count);
            var closes := !IsBlank(paragraph) && count(st.current + "\n\n" + paragraph) > ChunkSize && st.current != [];
            && (closes ==> r.chunks == st.chunks + [RagChunk(Strip(st.current), st.meta, count(st.current))]
                           && r.current == Overlap(st.current, count) + "\n\n" + paragraph)
            && (!closes ==> r.chunks == st.chunks)
            && (IsBlank(paragraph) ==> r == st)
            && r.meta == st.meta
  {
    BlankIffStripEmpty(paragraph);
  }

  /** The chunker's standing invariant: every chunk holds non-empty stripped
      text, and the open text is empty or not blank. */
  predicate Tidy(st: Chunker)
  {
    TidyChunks(st.chunks) && (st.current == [] || !IsBlank(st.current))
  }

  /** A chunk's text is non-empty with no whitespace at either end. */
  predicate TidyChunk(c: RagChunk)
  {
    c.text != [] && !IsSpace(c.text[0]) && !IsSpace(c.text[|c.text| - 1])
  }

  predicate TidyChunks(cs: seq<RagChunk>)
  {
    forall i :: 0 <= i < |cs| ==> TidyChunk(cs[i])
  }

  lemma TidyChunksSnoc(cs: seq<RagChunk>, c: RagChunk)
    requires TidyChunks(cs) && TidyChunk(c)
    ensures TidyChunks(cs + [c])
  {
    forall i | 0 <= i < |cs + [c]|
      ensures TidyChunk((cs + [c])[i])
    {
      if i < |cs| {
        assert (cs + [c])[i] == cs[i];
      } else {
        assert (cs + [c])[i] == c;
      }
    }
  }

  /** The chunk closed from a non-blank open text is tidy. */
  lemma ClosedChunkTidy(current: string, meta: SectionMeta, tokens: nat)
    requires !IsBlank(current)
    ensures TidyChunk(RagChunk(Strip(current), meta, tokens))
  {
    BlankIffStripEmpty(current);
  }

  lemma NotBlankAfter(a: string, b: string)
    requires !IsBlank(b)
    ensures !IsBlank(a + b)
  {
    var k :| 0 <= k < |b| && !IsSpace(b[k]);
    assert (a + b)[|a| + k] == b[k];
  }

  lemma NotBlankBefore(a: string, b: string)
    requires !IsBlank(a)
    ensures !IsBlank(a + b)
  {
    var k :| 0 <= k < |a| && !IsSpace(a[k]);
    assert (a + b)[k] == a[k];
  }

  lemma AddParagraphTidy(st: Chunker, paragraph: string, count: string -> nat)
    requires Tidy(st)
    ensures Tidy(AddParagraph(st, paragraph, count))
  {
    if Strip(paragraph) != [] {
      BlankIffStripEmpty(paragraph);
      if count(st.current + "\n\n" + paragraph) > ChunkSize && st.current != [] {
        ClosedChunkTidy(st.current, st.meta, count(st.current));
        TidyChunksSnoc(st.chunks, RagChunk(Strip(st.current), st.meta, count(st.current)));
        NotBlankAfter(Overlap(st.current, count) + "\n\n", paragraph);
      } else {
        NotBlankAfter(st.current + "\n\n", paragraph);
      }
    }
  }

  lemma {:induction false} AddParagraphsTidy(st: Chunker, paragraphs: seq<string>, count: string -> nat)
    requires Tidy(st)
    ensures Tidy(AddParagraphs(st, paragraphs, count))
    decreases |paragraphs|
  {
    if paragraphs != [] {
      AddParagraphsTidy(st, paragraphs[..|paragraphs| - 1], count);
      AddParagraphTidy(AddParagraphs(st, paragraphs[..|paragraphs| - 1], count), paragraphs[|paragraphs| - 1], count);
    }
  }

  lemma AddPieceTidy(st: Chunker, piece: string, count: string -> nat)
    requires Tidy(st)
    ensures Tidy(AddPiece(st, piece, count))
  {
    if IsHeader(piece) {
      assert !IsBlank(piece) by {
        assert !IsSpace(piece[0]);
      }
      NotBlankAfter("\n", piece);
      NotBlankBefore("\n" + piece, "\n");
      NotBlankAfter(st.current, "\n" + piece + "\n");
    } else {
      AddParagraphsTidy(st, SplitOn(piece, "\n\n"), count);
    }
  }

  lemma {:induction false} AddPiecesTidy(pieces: seq<string>, count: string -> nat)
    ensures Tidy(AddPieces(pieces, count))
    decreases |pieces|
  {
    if pieces != [] {
      AddPiecesTidy(pieces[..|pieces| - 1], count);
      AddPieceTidy(AddPieces(pieces[..|pieces| - 1], count), pieces[|pieces| - 1], count);
    }
  }

  /** Every chunk the chunker emits holds non-empty text with no whitespace
      at either end; a blank final chunk is never emitted. */
  lemma ChunksAreTrimmed(pieces: seq<string>, count: string -> nat)
    ensures TidyChunks(SemanticChunks(pieces, count))
  {
    var st := AddPieces(pieces, count);
    AddPiecesTidy(pieces, count);
    if Strip(st.current) != [] {
      BlankIffStripEmpty(st.current);
      ClosedChunkTidy(st.current, st.meta, count(st.current));
      TidyChunksSnoc(st.chunks, RagChunk(Strip(st.current), st.meta, count(st.current)));
    }
  }

  // ---------------------------------------------------------------------
  // `_get_overlap`

  /** The class `[।॥।\.\?\!]` of sentence ends. */
  predicate IsStop(c: char)
  {
    c == '\U{0964}' || c == '\U{0965}' || c == '.' || c == '?' || c == '!'
  }

  /** `re.split(r'([।॥।\.\?\!])', text)`: the text between the sentence
      ends, with each sentence end kept as a piece of its own. */
  function SplitKeep(s: string): (r: seq<string>)
    ensures |r| >= 1
    decreases |s|
  {
    if s == [] then [[]]
    else if IsStop(s[0]) then [[], [s[0]]] + SplitKeep(s[1..])
    else
      var rest := SplitKeep(s[1..]);
      [[s[0]] + rest[0]] + rest[1..]
  }

  /** The pieces of the capturing split concatenate back to the text. */
  lemma {:induction false} SplitKeepConcat(s: string)
    ensures Flatten(SplitKeep(s)) == s
    decreases |s|
  {
    if s == [] {
    } else if IsStop(s[0]) {
      var rest := SplitKeep(s[1..]);
      SplitKeepConcat(s[1..]);
      var r := [[], [s[0]]] + rest;
      assert r[1..] == [[s[0]]] + rest && r[1..][1..] == rest;
      assert Flatten(r) == [] + Flatten(r[1..]);
      assert Flatten(r[1..]) == [s[0]] + Flatten(rest);
      assert [s[0]] + s[1..] == s;
    } else {
      var rest := SplitKeep(s[1..]);
      SplitKeepConcat(s[1..]);
      var r := [[s[0]] + rest[0]] + rest[1..];
      assert r[1..] == rest[1..];
      assert Flatten(rest) == rest[0] + Flatten(rest[1..]);
      ConcatAssoc([s[0]], rest[0], Flatten(rest[1..]));
      assert [s[0]] + s[1..] == s;
    }
  }

  /** Where the overlap starts: walking back from piece `i`, the first piece
      that would take the accumulated suffix over the budget stops the walk. */
  function OverlapStart(pieces: seq<string>, i: nat, count: string -> nat): (j: nat)
    requires i <= |pieces|
    ensures j <= i
    decreases i
  {
    if i == 0 then 0
    else if count(pieces[i - 1] + Flatten(pieces[i..])) > ChunkOverlap then i
    else OverlapStart(pieces, i - 1, count)
  }

  /** The overlap before the final strip. */
  function RawOverlap(text: string, count: string -> nat): string
  {
    var pieces := SplitKeep(text);
    Flatten(pieces[OverlapStart(pieces, |pieces|, count)..])
  }

  /** What `_get_overlap` returns. */
  function Overlap(text: string, count: string -> nat): string
  {
    Strip(RawOverlap(text, count))
  }

  lemma FlattenFrom(pieces: seq<string>, i: nat)
    requires 0 < i <= |pieces|
    ensures Flatten(pieces[i - 1..]) == pieces[i - 1] + Flatten(pieces[i..])
  {
    assert pieces[i - 1..][0] == pieces[i - 1] && pieces[i - 1..][1..] == pieces[i..];
  }

  /** `_get_overlap`: accumulate whole pieces from the end while the
      accumulated suffix stays within the budget. */
  method GetOverlap(text: string, count: string -> nat) returns (r: string)
    ensures r == Overlap(text, count)
  {
    var sentences := SplitKeep(text);
    var overlap := "";
    var i := |sentences|;
    assert sentences[i..] == [];
    while i > 0
      invariant 0 <= i <= |sentences|
      invariant overlap == Flatten(sentences[i..])
      invariant OverlapStart(sentences, i, count) == OverlapStart(sentences, |sentences|, count)
      decreases i
    {
      var testOverlap := sentences[i - 1] + overlap;
      if count(testOverlap) > ChunkOverlap {
        break;
      }
      FlattenFrom(sentences, i);
      overlap := testOverlap;
      i := i - 1;
    }
    r := Strip(overlap);
  }

  lemma {:induction false} OverlapStartFits(pieces: seq<string>, i: nat, count: string -> nat)
    requires i <= |pieces|
    ensures var j := OverlapStart(pieces, i, count);
            && (j < i ==> count(Flatten(pieces[j..])) <= ChunkOverlap)
            && (j > 0 ==> count(pieces[j - 1] + Flatten(pieces[j..])) > ChunkOverlap)
    decreases i
  {
    if i > 0 && count(pieces[i - 1] + Flatten(pieces[i..])) <= ChunkOverlap {
      OverlapStartFits(pieces, i - 1, count);
      FlattenFrom(pieces, i);
    }
  }

  /** The overlap, before stripping, is a suffix of the text made of whole
      pieces of the sentence split; it is within the budget unless it is
      empty, and one more piece would have taken it over. */
  lemma OverlapIsWholePieces(text: string, count: string -> nat)
    ensures var pieces := SplitKeep(text);
            var j := OverlapStart(pieces, |pieces|, count);
            && text == Flatten(pieces[..j]) + RawOverlap(text, count)
            && (RawOverlap(text, count) != [] ==> count(RawOverlap(text, count)) <= ChunkOverlap)
            && (j > 0 ==> count(pieces[j - 1] + RawOverlap(text, count)) > ChunkOverlap)
  {
    var pieces := SplitKeep(text);
    var j := OverlapStart(pieces, |pieces|, count);
    SplitKeepConcat(text);
    assert pieces[..j] + pieces[j..] == pieces;
    FlattenAppend(pieces[..j], pieces[j..]);
    OverlapStartFits(pieces, |pieces|, count);
    if j == |pieces| {
      assert pieces[j..] == [];
    }
  }

  // ---------------------------------------------------------------------
  // The prefix convention of the embedding model

  /** What `generate_embeddings` embeds for a stored chunk. */
  function PassageText(text: string): string
  {
    "passage: " + text
  }

  /** What `retrieve_context` embeds for a question. */
  function QueryText(query: string): string
  {
    "query: " + query
  }

  /** The texts `generate_embeddings` hands to the model, one per chunk, in order. */
  function EmbeddingInputs(chunks: seq<RagChunk>): (r: seq<string>)
    ensures |r| == |chunks|
    ensures forall i :: 0 <= i < |r| ==> r[i] == PassageText(chunks[i].text)
  {
    seq(|chunks|, i requires 0 <= i < |chunks| => PassageText(chunks[i].text))
  }

  /** A passage is never embedded as the same text as a query, and the
      prefix loses nothing: the embedded text determines the original. */
  lemma PrefixesKeepRolesApart(a: string, b: string)
    ensures PassageText(a) != QueryText(b)
    ensures PassageText(a) == PassageText(b) ==> a == b
    ensures QueryText(a) == QueryText(b) ==> a == b
  {
    assert PassageText(a)[0] == 'p' && QueryText(b)[0] == 'q';
    if PassageText(a) == PassageText(b) {
      assert a == PassageText(a)[9..];
    }
    if QueryText(a) == QueryText(b) {
      assert a == QueryText(a)[7..];
    }
  }

  // ---------------------------------------------------------------------
  // `store_in_chromadb`

  /** A metadata value: the store accepts strings and integers. */
  datatype Value = Str(s: string) | Int(i: int)

  type Metadata = map<string, Value>

  type Vector = seq<real>

  function MetaOf(m: SectionMeta): Metadata
  {
    map["section" := Str(m.section), "subsection" := Str(m.subsection)]
  }

  /** `f"{collection_name}_chunk_{i}"` */
  function ChunkId(name: string, i: nat): string
  {
    name + "_chunk_" + IntToString(i)
  }

  /** The metadata of chunk `i`: the dict literal spreads the chunk's
      metadata, then the token count and the index, then the document's
      metadata, a later key overriding an earlier one. */
  function ChunkMetadata(c: RagChunk, i: nat, documentMeta: Metadata): Metadata
  {
    MetaOf(c.meta) + map["token_count" := Int(c.tokenCount), "chunk_index" := Int(i)] + documentMeta
  }

  /** The collection's own metadata. */
  function CollectionMetadata(documentMeta: Metadata): Metadata
  {
    map["description" := Str("Nepali legal documents")] + documentMeta
  }

  /** Everything handed to the vector store in one upsert. */
  datatype StoreBatch = StoreBatch(
    collection: string,
    collectionMeta: Metadata,
    ids: seq<string>,
    embeddings: seq<Vector>,
    documents: seq<string>,
    metadatas: seq<Metadata>)

  function BuildStoreBatch(name: string, chunks: seq<RagChunk>, embeddings: seq<Vector>, documentMeta: Metadata): StoreBatch
  {
    StoreBatch(
      name,
      CollectionMetadata(documentMeta),
      seq(|chunks|, i requires 0 <= i < |chunks| => ChunkId(name, i)),
      embeddings,
      seq(|chunks|, i requires 0 <= i < |chunks| => chunks[i].text),
      seq(|chunks|, i requires 0 <= i < |chunks| => ChunkMetadata(chunks[i], i, documentMeta)))
  }

  /** `store_in_chromadb`; `upsert` stands for the store and answers the
      error it raised, if any. */
  function StoreInChromaDB(name: string, chunks: seq<RagChunk>, embeddings: seq<Vector>, documentMeta: Metadata,
                           upsert: StoreBatch -> Option<string>): (r: Result<string, string>)
    ensures r.Ok? <==> upsert(BuildStoreBatch(name, chunks, embeddings, documentMeta)).None?
    ensures r.Ok? ==> r.value == name
  {
    match upsert(BuildStoreBatch(name, chunks, embeddings, documentMeta))
    case None => Ok(name)
    case Some(e) => Err(e)
  }

  /** The lists handed to the store are aligned with the chunks: one id,
      one document and one metadata per chunk, in order; chunk `i` is
      stored under `{name}_chunk_{i}` with its text and its index; the
      document's metadata wins over the chunk's on every shared key. */
  lemma StoreBatchAligned(name: string, chunks: seq<RagChunk>, embeddings: seq<Vector>, documentMeta: Metadata)
    ensures var b := BuildStoreBatch(name, chunks, embeddings, documentMeta);
            && |b.ids| == |chunks| && |b.documents| == |chunks| && |b.metadatas| == |chunks|
            && forall i :: 0 <= i < |chunks| ==>
                 && b.ids[i] == ChunkId(name, i)
                 && b.documents[i] == chunks[i].text
                 && b.metadatas[i].Keys == {"section", "subsection", "token_count", "chunk_index"} + documentMeta.Keys
                 && ("chunk_index" !in documentMeta ==> b.metadatas[i]["chunk_index"] == Int(i))
                 && (forall k :: k in documentMeta ==> b.metadatas[i][k] == documentMeta[k])
  {
  }

  /** No two chunks of a collection share an id. */
  lemma ChunkIdsDistinct(name: string, i: nat, j: nat)
    requires ChunkId(name, i) == ChunkId(name, j)
    ensures i == j
  {
    var p := name + "_chunk_";
    assert ChunkId(name, i) == p + IntToString(i) && ChunkId(name, j) == p + IntToString(j);
    assert IntToString(i) == ChunkId(name, i)[|p|..];
    assert IntToString(j) == ChunkId(name, j)[|p|..];
    IntToStringInjective(i, j);
  }

  // ---------------------------------------------------------------------
  // `retrieve_context`

  /** The answer of the vector store to one query: one list per query
      embedding, of which only the first is used. */
  datatype QueryResult = QueryResult(documents: seq<seq<string>>, metadatas: seq<seq<Metadata>>, distances: seq<seq<real>>)

  /** One retrieved chunk. */
  datatype Retrieved = Retrieved(text: string, metadata: Metadata, relevanceScore: real, rank: nat)

  function Min3(a: nat, b: nat, c: nat): (m: nat)
    ensures m <= a && m <= b && m <= c
    ensures m == a || m == b || m == c
  {
    if a <= b && a <= c then a else if b <= c then b else c
  }

  /** `retrieve_context`. `search` stands for fetching the collection,
      embedding the text it is given and querying the store for `topK`
      results; an error from any of them is its `Err`. */
  method RetrieveContext(query: string, collectionName: string, topK: nat,
                         search: (string, string, nat) -> Result<QueryResult, string>)
    returns (r: seq<Retrieved>)
    ensures var res := search(collectionName, QueryText(query), topK);
            if res.Err? || res.value.documents == [] || res.value.metadatas == [] || res.value.distances == [] then r == []
            else
              var q := res.value;
              && |r| == Min3(|q.documents[0]|, |q.metadatas[0]|, |q.distances[0]|)
              && forall i :: 0 <= i < |r| ==>
                   r[i] == Retrieved(q.documents[0][i], q.metadatas[0][i], 1.0 - q.distances[0][i], i + 1)
  {
    var results := search(collectionName, QueryText(query), topK);
    if results.Err? {
      return [];
    }
    var q := results.value;
    r := [];
    if q.documents != [] {
      if q.metadatas == [] || q.distances == [] {
        // indexing the missing list raises, and the handler answers []
        return [];
      }
      var n := Min3(|q.documents[0]|, |q.metadatas[0]|, |q.distances[0]|);
      for i := 0 to n
        invariant |r| == i
        invariant forall k :: 0 <= k < i ==>
                    r[k] == Retrieved(q.documents[0][k], q.metadatas[0][k], 1.0 - q.distances[0][k], k + 1)
      {
        r := r + [Retrieved(q.documents[0][i], q.metadatas[0][i], 1.0 - q.distances[0][i], i + 1)];
      }
    }
  }

  // ---------------------------------------------------------------------
  // `format_rag_prompt`

  const PromptIntro: string := "तपाईं एक नेपाली कानुनी सहायक हुनुहुन्छ। तलको सन्दर्भको आधारमा मात्र प्रश्नको उत्तर दिनुहोस्।\n\nसन्दर्भ (Context):\n"
  const PromptQuestion: string := "\n\nप्रश्न (Question): "
  const PromptInstructions: string := "\n\nनिर्देशन (Instructions):\n1. माथि दिइएको सन्दर्भको आधारमा मात्र उत्तर दिनुहोस्\n2. उत्तर नेपालीमा दिनुहोस्\n3. यदि सन्दर्भमा जानकारी छैन भने \"मलाई यो जानकारी उपलब्ध छैन\" भन्नुहोस्\n4. कुन स्रोतबाट जानकारी लिनुभयो त्यो उल्लेख गर्नुहोस् (जस्तै: [स्रोत 1] अनुसार...)\n5.दिइएका स्रोतहरूका लेखाइमा त्रुटि हुनसक्ने सम्भावना भएकाले अन्त्यमा तपाईं आफ्नो उत्तर पनि अलगै लेखिदिनुहोस्।\n\nउत्तर (Answer):"
  const BlockSeparator: string := "\n\n---\n\n"

  /** `f"[स्रोत {rank}]\n{text}"` */
  function SourceBlock(c: Retrieved): string
  {
    "[स्रोत " + IntToString(c.rank) + "]\n" + c.text
  }

  function SourceBlocks(chunks: seq<Retrieved>): (r: seq<string>)
    ensures |r| == |chunks|
    ensures forall i :: 0 <= i < |r| ==> r[i] == SourceBlock(chunks[i])
  {
    seq(|chunks|, i requires 0 <= i < |chunks| => SourceBlock(chunks[i]))
  }

  function Context(chunks: seq<Retrieved>): string
  {
    Join(SourceBlocks(chunks), BlockSeparator)
  }

  /** `format_rag_prompt` */
  function FormatPrompt(query: string, chunks: seq<Retrieved>): string
  {
    PromptIntro + Context(chunks) + PromptQuestion + query + PromptInstructions
  }

  /** The prompt shows the context, then the question: the context sits
      right after the fixed introduction and the question after it, with
      the question heading between them. */
  lemma ContextBeforeQuery(query: string, chunks: seq<Retrieved>)
    ensures var p := FormatPrompt(query, chunks);
            var ctx := Context(chunks);
            var at := |PromptIntro| + |ctx| + |PromptQuestion|;
            && at + |query| <= |p|
            && p[|PromptIntro|..|PromptIntro| + |ctx|] == ctx
            && p[at..at + |query|] == query
  {
    var p := FormatPrompt(query, chunks);
    var ctx := Context(chunks);
    var a := PromptIntro + ctx;
    var b := a + PromptQuestion;
    var c := b + query;
    assert p == c + PromptInstructions;
    assert p[..|c|] == c;
    assert c[..|a|] == a;
    assert a[|PromptIntro|..] == ctx;
    assert c[|b|..] == query;
  }

  /** For the chunks of one retrieval, block `i` of the context is labelled
      `[स्रोत i+1]`, the label the instructions tell the model to cite. */
  lemma BlocksFollowRanks(chunks: seq<Retrieved>)
    requires forall i :: 0 <= i < |chunks| ==> chunks[i].rank == i + 1
    ensures forall i :: 0 <= i < |chunks| ==>
              SourceBlocks(chunks)[i] == "[स्रोत " + IntToString(i + 1) + "]\n" + chunks[i].text
  {
  }

  // ---------------------------------------------------------------------
  // `process_document`

  /** What the parser gives: the pieces of the header split of the
      document's markdown, and the number of pages. */
  datatype Parsed = Parsed(pieces: seq<string>, numPages: nat)

  /** The result dictionary of `process_document`. */
  datatype ProcessResult =
    | Processed(collectionId: string, numPages: nat, numChunks: nat, totalTokens: nat)
    | ProcessFailed(error: string)

  /** `f"user_{user_id}_doc_{document_id}"` */
  function CollectionName(userId: int, documentId: int): string
  {
    "user_" + IntToString(userId) + "_doc_" + IntToString(documentId)
  }

  function DocumentMetadata(userId: int, documentId: int, fileName: string): Metadata
  {
    map["user_id" := Int(userId), "document_id" := Int(documentId), "filename" := Str(fileName)]
  }

  function TotalTokens(chunks: seq<RagChunk>): nat
    decreases |chunks|
  {
    if chunks == [] then 0 else TotalTokens(chunks[..|chunks| - 1]) + chunks[|chunks| - 1].tokenCount
  }

  /** `process_document`: parse, chunk, embed, store. `parsed` is the
      parser's outcome, `embed` the embedding model's and `upsert` the
      store's; the first error ends the pipeline with its message. */
  function ProcessDocument(parsed: Result<Parsed, string>, userId: int, documentId: int, fileName: string,
                           count: string -> nat,
                           embed: seq<string> -> Result<seq<Vector>, string>,
                           upsert: StoreBatch -> Option<string>): ProcessResult
  {
    match parsed
    case Err(e) => ProcessFailed(e)
    case Ok(p) =>
      var chunks := SemanticChunks(p.pieces, count);
      match embed(EmbeddingInputs(chunks))
      case Err(e) => ProcessFailed(e)
      case Ok(vectors) =>
        var name := CollectionName(userId, documentId);
        match StoreInChromaDB(name, chunks, vectors, DocumentMetadata(userId, documentId, fileName), upsert)
        case Err(e) => ProcessFailed(e)
        case Ok(_) => Processed(name, p.numPages, |chunks|, TotalTokens(chunks))
  }

  /** The pipeline succeeds exactly when parsing, embedding and storing all
      do; it then reports the collection of the user and document, the page
      count, the number of chunks and their tokens in total. */
  lemma ProcessDocumentOutcome(parsed: Result<Parsed, string>, userId: int, documentId: int, fileName: string,
                               count: string -> nat,
                               embed: seq<string> -> Result<seq<Vector>, string>,
                               upsert: StoreBatch -> Option<string>)
    ensures var r := ProcessDocument(parsed, userId, documentId, fileName, count, embed, upsert);
            && (parsed.Err? ==> r == ProcessFailed(parsed.error))
            && (parsed.Ok? ==>
                  var chunks := SemanticChunks(parsed.value.pieces, count);
                  var embedded := embed(EmbeddingInputs(chunks));
                  && (embedded.Err? ==> r == ProcessFailed(embedded.error))
                  && (embedded.Ok? ==>
                        var batch := BuildStoreBatch(CollectionName(userId, documentId), chunks, embedded.value,
                                                     DocumentMetadata(userId, documentId, fileName));
                        && (upsert(batch).Some? ==> r == ProcessFailed(upsert(batch).value))
                        && (upsert(batch).None? ==>
                              r == Processed(CollectionName(userId, documentId), parsed.value.numPages,
                                             |chunks|, TotalTokens(chunks)))))
  {
  }

  /** Distinct (user, document) pairs get distinct collections. */
  lemma CollectionNameInjective(u1: int, d1: int, u2: int, d2: int)
    requires CollectionName(u1, d1) == CollectionName(u2, d2)
    ensures u1 == u2 && d1 == d2
  {
    var a, c := IntToString(u1), IntToString(u2);
    var b, d := IntToString(d1), IntToString(d2);
    CollectionNameShape(u1, d1);
    CollectionNameShape(u2, d2);
    CancelPrefix("user_", a + ("_doc_" + b), c + ("_doc_" + d));
    IntToStringHasNoUnderscore(u1);
    IntToStringHasNoUnderscore(u2);
    UnderscoreSplit(a, "_doc_" + b, c, "_doc_" + d);
    CancelPrefix("_doc_", b, d);
    IntToStringInjective(u1, u2);
    IntToStringInjective(d1, d2);
  }

  lemma CollectionNameShape(u: int, d: int)
    ensures CollectionName(u, d) == "user_" + (IntToString(u) + ("_doc_" + IntToString(d)))
  {
    ConcatAssoc("user_", IntToString(u), "_doc_");
    ConcatAssoc("user_" + IntToString(u), "_doc_", IntToString(d));
    ConcatAssoc("user_", IntToString(u), "_doc_" + IntToString(d));
  }

  lemma CancelPrefix(p: string, x: string, y: string)
    requires p + x == p + y
    ensures x == y
  {
    assert x == (p + x)[|p|..];
    assert y == (p + y)[|p|..];
  }

  /** Two strings free of underscores, each followed by text that starts
      with one, are equal when the concatenations are. */
  lemma UnderscoreSplit(a: string, x: string, c: string, y: string)
    requires '_' !in a && '_' !in c
    requires x != [] && x[0] == '_' && y != [] && y[0] == '_'
    requires a + x == c + y
    ensures a == c && x == y
  {
    var s := a + x;
    assert s[|a|] == '_' && s[|c|] == '_';
    assert forall i :: 0 <= i < |a| ==> s[i] == a[i] && s[i] != '_';
    assert forall i :: 0 <= i < |c| ==> s[i] == c[i] && s[i] != '_';
    assert a == s[..|a|] && c == s[..|c|];
    assert x == s[|a|..] && y == s[|c|..];
  }
}
