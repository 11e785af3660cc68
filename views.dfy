/**
  The decisions the chat endpoints (chat/views.py) take around the
  retrieval service: which knowledge base a question is searched in, how
  the chunks retrieved from several collections are merged into the five
  that go into the prompt, how their sources are tallied, what the user is
  answered, how an uploaded document moves through its statuses, and which
  requests are refused. The retrieval calls and the completion call are
  parameters; their exceptions are their `Err` cases. So is the reply
  without retrieval: views.py calls a `generate_simple_response` that the
  viewset never defines, which `SimpleReplyAsWritten` models.
*/
module ChatViews {
  import opened Text
  import opened Outcomes
  import opened RagService

  // ---------------------------------------------------------------------
  // The search source

  /** The source for a new message: an explicit `search_source` in the
      request wins; otherwise the user's own documents when the
      conversation has a completed one, else the permanent knowledge base. */
  function ChooseSearchSource(requested: Option<string>, hasCompletedDocument: bool): (s: string)
    ensures requested.Some? ==> s == requested.value
    ensures requested.None? ==> (s == "user" <==> hasCompletedDocument)
    ensures requested.None? ==> (s == "permanent" <==> !hasCompletedDocument)
  {
    match requested
    case Some(r) => r
    case None => if hasCompletedDocument then "user" else "permanent"
  }

  /** The source used when an edited message is answered again. */
  function EditSearchSource(hasCompletedDocument: bool): string
  {
    if hasCompletedDocument then "user" else "permanent"
  }

  /** An edit chooses its source exactly as a new message without an
      explicit source does. */
  lemma EditChoosesLikeNewMessage(hasCompletedDocument: bool)
    ensures EditSearchSource(hasCompletedDocument) == ChooseSearchSource(None, hasCompletedDocument)
    ensures EditSearchSource(hasCompletedDocument) in {"user", "permanent"}
  {
  }

  // ---------------------------------------------------------------------
  // The retrieval plan

  /** One call of `retrieve_context`: a user collection with 3 results, or
      the permanent knowledge base (no collection) with 5. */
  datatype Request = Request(collection: Option<string>, topK: nat)

  const PermanentRequest: Request := Request(None, 5)

  predicate SearchesUserDocuments(source: string)
  {
    source == "user" || source == "all"
  }

  predicate SearchesPermanent(source: string)
  {
    source == "permanent" || source == "all"
  }

  /** Python's truth value of an optional string: set and not empty. A
      document is searched only when its `collection_id` is one. */
  predicate IsSet(o: Option<string>)
  {
    o.Some? && o.value != ""
  }

  /** The completed documents of the conversation, or, when it has none,
      every completed document of the user; each is given by its
      `collection_id`. */
  function SearchedDocuments(conversationDocs: seq<Option<string>>, userDocs: seq<Option<string>>): seq<Option<string>>
  {
    if conversationDocs != [] then conversationDocs else userDocs
  }

  function UserRequests(docs: seq<Option<string>>): seq<Request>
    decreases |docs|
  {
    if docs == [] then []
    else
      var last := docs[|docs| - 1];
      UserRequests(docs[..|docs| - 1]) + (if IsSet(last) then [Request(last, 3)] else [])
  }

  /** The calls `generate_rag_response` makes, in order. */
  function RetrievalPlan(source: string, conversationDocs: seq<Option<string>>, userDocs: seq<Option<string>>): seq<Request>
  {
    (if SearchesUserDocuments(source) then UserRequests(SearchedDocuments(conversationDocs, userDocs)) else [])
    + (if SearchesPermanent(source) then [PermanentRequest] else [])
  }

  lemma {:induction false} UserRequestsShape(docs: seq<Option<string>>)
    ensures forall i :: 0 <= i < |UserRequests(docs)| ==>
              UserRequests(docs)[i].topK == 3 && IsSet(UserRequests(docs)[i].collection)
              && UserRequests(docs)[i].collection in docs
    decreases |docs|
  {
    if docs != [] {
      var init := docs[..|docs| - 1];
      UserRequestsShape(init);
      assert forall d :: d in init ==> d in docs;
      assert docs[|docs| - 1] in docs;
    }
  }

  lemma {:induction false} UserRequestsCover(docs: seq<Option<string>>, d: Option<string>)
    requires d in docs && IsSet(d)
    ensures Request(d, 3) in UserRequests(docs)
    decreases |docs|
  {
    var init := docs[..|docs| - 1];
    if docs[|docs| - 1] != d {
      assert docs == init + [docs[|docs| - 1]];
      UserRequestsCover(init, d);
    }
  }

  /** The plan asks the permanent knowledge base, once and last, exactly
      for 'permanent' and 'all'; it asks a user collection, for 3 results,
      exactly for 'user' and 'all', and then it asks every searched
      document that has a collection and nothing else. */
  lemma RetrievalPlanShape(source: string, conversationDocs: seq<Option<string>>, userDocs: seq<Option<string>>)
    ensures var plan := RetrievalPlan(source, conversationDocs, userDocs);
            var docs := SearchedDocuments(conversationDocs, userDocs);
            && (PermanentRequest in plan <==> SearchesPermanent(source))
            && (SearchesPermanent(source) ==> plan[|plan| - 1] == PermanentRequest)
            && (forall r :: r in plan && r != PermanentRequest ==>
                  SearchesUserDocuments(source) && r.topK == 3 && IsSet(r.collection) && r.collection in docs)
            && (SearchesUserDocuments(source) ==>
                  forall d :: d in docs && IsSet(d) ==> Request(d, 3) in plan)
            && (!SearchesUserDocuments(source) && !SearchesPermanent(source) ==> plan == [])
  {
    var docs := SearchedDocuments(conversationDocs, userDocs);
    var user := if SearchesUserDocuments(source) then UserRequests(docs) else [];
    var perm := if SearchesPermanent(source) then [PermanentRequest] else [];
    var plan := RetrievalPlan(source, conversationDocs, userDocs);
    assert plan == user + perm;
    UserRequestsShape(docs);
    assert forall r :: r in user ==> r.collection.Some?;
    if SearchesUserDocuments(source) {
      forall d | d in docs && IsSet(d)
        ensures Request(d, 3) in plan
      {
        UserRequestsCover(docs, d);
      }
    }
  }

  // ---------------------------------------------------------------------
  // Gathering the retrieved chunks

  /** The chunks of all the calls of a plan, concatenated in plan order; an
      exception raised by a call ends the gathering with it. */
  function Gather(plan: seq<Request>, retrieve: Request -> Result<seq<Retrieved>, string>): Result<seq<Retrieved>, string>
    decreases |plan|
  {
    if plan == [] then Ok([])
    else
      match Gather(plan[..|plan| - 1], retrieve)
      case Err(e) => Err(e)
      case Ok(xs) =>
        match retrieve(plan[|plan| - 1])
        case Err(e) => Err(e)
        case Ok(ys) => Ok(xs + ys)
  }

  lemma {:induction false} GatherErrSticks(p: seq<Request>, q: seq<Request>, retrieve: Request -> Result<seq<Retrieved>, string>)
    requires Gather(p, retrieve).Err?
    ensures Gather(p + q, retrieve) == Gather(p, retrieve)
    decreases |q|
  {
    if q == [] {
      assert p + q == p;
    } else {
      var q' := q[..|q| - 1];
      GatherErrSticks(p, q', retrieve);
      assert (p + q)[..|p + q| - 1] == p + q';
    }
  }

  /** The results of the calls of a plan that all succeed, in plan order. */
  function Results(plan: seq<Request>, retrieve: Request -> Result<seq<Retrieved>, string>): (r: seq<seq<Retrieved>>)
    requires forall i :: 0 <= i < |plan| ==> retrieve(plan[i]).Ok?
    ensures |r| == |plan|
    ensures forall i :: 0 <= i < |plan| ==> r[i] == retrieve(plan[i]).value
    decreases |plan|
  {
    if plan == [] then []
    else Results(plan[..|plan| - 1], retrieve) + [retrieve(plan[|plan| - 1]).value]
  }

  /** When every call succeeds, the gathered chunks are the calls' results
      concatenated, none dropped and none merged. */
  lemma {:induction false} GatherConcatenates(plan: seq<Request>, retrieve: Request -> Result<seq<Retrieved>, string>)
    requires forall i :: 0 <= i < |plan| ==> retrieve(plan[i]).Ok?
    ensures Gather(plan, retrieve) == Ok(Flatten(Results(plan, retrieve)))
    decreases |plan|
  {
    if plan != [] {
      var init := plan[..|plan| - 1];
      var last := retrieve(plan[|plan| - 1]).value;
      assert forall i :: 0 <= i < |init| ==> init[i] == plan[i];
      GatherConcatenates(init, retrieve);
      FlattenAppend(Results(init, retrieve), [last]);
      assert Flatten([last]) == last + Flatten<Retrieved>([]);
      assert Results(plan, retrieve) == Results(init, retrieve) + [last];
      assert Flatten(Results(plan, retrieve)) == Flatten(Results(init, retrieve)) + last;
      assert retrieve(plan[|plan| - 1]) == Ok(last);
      assert Gather(plan, retrieve) == Ok(Flatten(Results(init, retrieve)) + last);
    }
  }

  // ---------------------------------------------------------------------
  // The merge: stable sort by relevance, descending, then the first five

  /** Inserts after every element scoring at least as much, so that among
      equal scores the earlier chunk stays first. */
  function Insert(s: seq<Retrieved>, x: Retrieved): (r: seq<Retrieved>)
    ensures |r| == |s| + 1
    ensures s != [] ==> r[0] == (if s[0].relevanceScore >= x.relevanceScore then s[0] else x)
    ensures s == [] ==> r == [x]
  {
    if s == [] then [x]
    else if s[0].relevanceScore >= x.relevanceScore then [s[0]] + Insert(s[1..], x)
    else [x] + s
  }

  /** `list.sort(key=relevance_score, reverse=True)`: a stable sort, by
      score, highest first. */
  function SortByScore(xs: seq<Retrieved>): (r: seq<Retrieved>)
    ensures |r| == |xs|
    decreases |xs|
  {
    if xs == [] then [] else Insert(SortByScore(xs[..|xs| - 1]), xs[|xs| - 1])
  }

  predicate Descending(s: seq<Retrieved>)
  {
    forall i, j :: 0 <= i < j < |s| ==> s[i].relevanceScore >= s[j].relevanceScore
  }

  /** The chunks of `s` with score `v`, in their order in `s`. */
  function WithScore(s: seq<Retrieved>, v: real): seq<Retrieved>
    decreases |s|
  {
    if s == [] then [] else (if s[0].relevanceScore == v then [s[0]] else []) + WithScore(s[1..], v)
  }

  function Min(a: nat, b: nat): nat
  {
    if a <= b then a else b
  }

  /** `all_context_chunks[:5]` after the sort. */
  function TopFive(all: seq<Retrieved>): seq<Retrieved>
  {
    SortByScore(all)[..Min(5, |all|)]
  }

  lemma {:induction false} InsertDescending(s: seq<Retrieved>, x: Retrieved)
    requires Descending(s)
    ensures Descending(Insert(s, x))
    decreases |s|
  {
    if s != [] && s[0].relevanceScore >= x.relevanceScore {
      var t := Insert(s[1..], x);
      InsertDescending(s[1..], x);
      assert t == [] || t[0].relevanceScore <= s[0].relevanceScore;
      assert forall j :: 0 <= j < |t| ==> t[j].relevanceScore <= s[0].relevanceScore;
      assert Insert(s, x) == [s[0]] + t;
    }
  }

  lemma {:induction false} InsertPermutes(s: seq<Retrieved>, x: Retrieved)
    ensures multiset(Insert(s, x)) == multiset(s) + multiset{x}
    decreases |s|
  {
    if s != [] && s[0].relevanceScore >= x.relevanceScore {
      InsertPermutes(s[1..], x);
      assert s == [s[0]] + s[1..];
    }
  }

  lemma {:induction false} WithScoreAppend(a: seq<Retrieved>, b: seq<Retrieved>, v: real)
    ensures WithScore(a + b, v) == WithScore(a, v) + WithScore(b, v)
    decreases |a|
  {
    if a == [] {
      assert a + b == b;
    } else {
      assert (a + b)[1..] == a[1..] + b;
      WithScoreAppend(a[1..], b, v);
      ConcatAssoc(if a[0].relevanceScore == v then [a[0]] else [], WithScore(a[1..], v), WithScore(b, v));
    }
  }

  lemma {:induction false} NoneWithScore(s: seq<Retrieved>, v: real)
    requires forall i :: 0 <= i < |s| ==> s[i].relevanceScore < v
    ensures WithScore(s, v) == []
    decreases |s|
  {
    if s != [] {
      NoneWithScore(s[1..], v);
    }
  }

  lemma {:induction false} InsertKeepsTies(s: seq<Retrieved>, x: Retrieved, v: real)
    requires Descending(s)
    ensures WithScore(Insert(s, x), v) == WithScore(s, v) + (if x.relevanceScore == v then [x] else [])
    decreases |s|
  {
    var fx: seq<Retrieved> := if x.relevanceScore == v then [x] else [];
    if s == [] {
      assert WithScore([x], v) == fx + WithScore([], v);
    } else if s[0].relevanceScore >= x.relevanceScore {
      var f0: seq<Retrieved> := if s[0].relevanceScore == v then [s[0]] else [];
      InsertKeepsTies(s[1..], x, v);
      assert ([s[0]] + Insert(s[1..], x))[1..] == Insert(s[1..], x);
      assert WithScore(Insert(s, x), v) == f0 + (WithScore(s[1..], v) + fx);
      ConcatAssoc(f0, WithScore(s[1..], v), fx);
    } else {
      assert ([x] + s)[1..] == s;
      assert WithScore(Insert(s, x), v) == fx + WithScore(s, v);
      if x.relevanceScore == v {
        NoneWithScore(s, v);
      }
    }
  }

  /** The sort removes the last chunk and inserts it into the sorted rest. */
  lemma SortSnoc(xs: seq<Retrieved>)
    requires xs != []
    ensures SortByScore(xs) == Insert(SortByScore(xs[..|xs| - 1]), xs[|xs| - 1])
  {
  }

  lemma {:induction false} SortDescending(xs: seq<Retrieved>)
    ensures Descending(SortByScore(xs))
    decreases |xs|
  {
    if xs != [] {
      SortSnoc(xs);
      SortDescending(xs[..|xs| - 1]);
      InsertDescending(SortByScore(xs[..|xs| - 1]), xs[|xs| - 1]);
    }
  }

  lemma {:induction false} SortPermutes(xs: seq<Retrieved>)
    ensures multiset(SortByScore(xs)) == multiset(xs)
    decreases |xs|
  {
    if xs != [] {
      var init, last := xs[..|xs| - 1], xs[|xs| - 1];
      assert multiset(SortByScore(xs)) == multiset(SortByScore(init)) + multiset{last} by {
        SortSnoc(xs);
        InsertPermutes(SortByScore(init), last);
      }
      assert multiset(SortByScore(init)) == multiset(init) by {
        SortPermutes(init);
      }
      assert multiset(xs) == multiset(init) + multiset{last} by {
        assert xs == init + [last];
      }
    }
  }

  lemma {:induction false} SortKeepsTies(xs: seq<Retrieved>, v: real)
    ensures WithScore(SortByScore(xs), v) == WithScore(xs, v)
    decreases |xs|
  {
    if xs != [] {
      var init, last := xs[..|xs| - 1], xs[|xs| - 1];
      assert WithScore(SortByScore(xs), v) == WithScore(SortByScore(init), v) + (if last.relevanceScore == v then [last] else []) by {
        SortSnoc(xs);
        SortDescending(init);
        InsertKeepsTies(SortByScore(init), last, v);
      }
      assert WithScore(SortByScore(init), v) == WithScore(init, v) by {
        SortKeepsTies(init, v);
      }
      assert WithScore(xs, v) == WithScore(init, v) + WithScore([last], v) by {
        assert xs == init + [last];
        WithScoreAppend(init, [last], v);
      }
      assert WithScore([last], v) == (if last.relevanceScore == v then [last] else []) + WithScore([], v);
    }
  }

  /** The sort orders by score, highest first, loses and adds nothing, and
      keeps chunks of equal score in the order they were gathered. */
  lemma SortByScoreIsStableSort(xs: seq<Retrieved>)
    ensures Descending(SortByScore(xs))
    ensures multiset(SortByScore(xs)) == multiset(xs)
    ensures forall v :: WithScore(SortByScore(xs), v) == WithScore(xs, v)
  {
    SortDescending(xs);
    SortPermutes(xs);
    forall v
      ensures WithScore(SortByScore(xs), v) == WithScore(xs, v)
    {
      SortKeepsTies(xs, v);
    }
  }

  /** The merge keeps the five best-scoring chunks, or all of them when
      there are fewer: it does not remove duplicates, every chunk left out
      scores at most as much as every chunk kept, nothing is invented, and
      among chunks of equal score the ones gathered first are kept. */
  lemma TopFiveSelects(all: seq<Retrieved>)
    ensures var top := TopFive(all);
            var rest := SortByScore(all)[|top|..];
            && |top| == Min(5, |all|)
            && Descending(top)
            && multiset(all) == multiset(top) + multiset(rest)
            && (forall i, j :: 0 <= i < |top| && 0 <= j < |rest| ==> top[i].relevanceScore >= rest[j].relevanceScore)
            && (forall v :: WithScore(top, v) <= WithScore(all, v))
  {
    var sorted := SortByScore(all);
    var k := Min(5, |all|);
    SortDescending(all);
    DescendingCut(sorted, k);
    assert multiset(all) == multiset(sorted[..k]) + multiset(sorted[k..]) by {
      assert sorted == sorted[..k] + sorted[k..];
      SortPermutes(all);
    }
    forall v
      ensures WithScore(sorted[..k], v) <= WithScore(all, v)
    {
      SortKeepsTies(all, v);
      PrefixKeepsTies(sorted, k, v);
    }
  }

  /** Cutting a descending sequence leaves a descending head whose every
      element scores at least every element of the tail. */
  lemma DescendingCut(s: seq<Retrieved>, k: nat)
    requires Descending(s) && k <= |s|
    ensures Descending(s[..k])
    ensures forall i, j :: 0 <= i < k && 0 <= j < |s| - k ==> s[..k][i].relevanceScore >= s[k..][j].relevanceScore
  {
    forall i, j | 0 <= i < k && 0 <= j < |s| - k
      ensures s[..k][i].relevanceScore >= s[k..][j].relevanceScore
    {
      assert s[..k][i] == s[i] && s[k..][j] == s[k + j];
    }
  }

  /** The chunks of one score in a prefix are a prefix of those in the whole. */
  lemma PrefixKeepsTies(s: seq<Retrieved>, k: nat, v: real)
    requires k <= |s|
    ensures WithScore(s[..k], v) <= WithScore(s, v)
  {
    assert s == s[..k] + s[k..];
    WithScoreAppend(s[..k], s[k..], v);
  }

  // ---------------------------------------------------------------------
  // The source tally

  /** The `sources` dictionary: source names with their counts, in order of
      first appearance, as a Python dictionary keeps them. */
  type Tally = seq<(string, nat)>

  /** `sources[source] = sources.get(source, 0) + 1` */
  function Bump(t: Tally, key: string): Tally
    decreases |t|
  {
    if t == [] then [(key, 1)]
    else if t[0].0 == key then [(key, t[0].1 + 1)] + t[1..]
    else [t[0]] + Bump(t[1..], key)
  }

  function TallyOf(keys: seq<string>): Tally
    decreases |keys|
  {
    if keys == [] then [] else Bump(TallyOf(keys[..|keys| - 1]), keys[|keys| - 1])
  }

  /** The count the tally holds for `key`, 0 when it has none. */
  function CountOf(t: Tally, key: string): nat
    decreases |t|
  {
    if t == [] then 0 else if t[0].0 == key then t[0].1 else CountOf(t[1..], key)
  }

  function SumCounts(t: Tally): nat
    decreases |t|
  {
    if t == [] then 0 else t[0].1 + SumCounts(t[1..])
  }

  function Occurrences(keys: seq<string>, key: string): nat
    decreases |keys|
  {
    if keys == [] then 0 else Occurrences(keys[..|keys| - 1], key) + (if keys[|keys| - 1] == key then 1 else 0)
  }

  /** `chunk.get('source', 'unknown')`: the chunks `retrieve_context`
      returns carry no 'source' key, so each counts as 'unknown'. */
  function SourceKeys(top: seq<Retrieved>): (keys: seq<string>)
    ensures |keys| == |top|
    ensures forall i :: 0 <= i < |keys| ==> keys[i] == "unknown"
  {
    seq(|top|, i requires 0 <= i < |top| => "unknown")
  }

  lemma {:induction false} BumpCounts(t: Tally, key: string, other: string)
    ensures SumCounts(Bump(t, key)) == SumCounts(t) + 1
    ensures CountOf(Bump(t, key), other) == CountOf(t, other) + (if other == key then 1 else 0)
    decreases |t|
  {
    if t != [] && t[0].0 != key {
      BumpCounts(t[1..], key, other);
      assert ([t[0]] + Bump(t[1..], key))[1..] == Bump(t[1..], key);
    } else if t != [] {
      assert ([(key, t[0].1 + 1)] + t[1..])[1..] == t[1..];
    }
  }

  /** The tally counts each source as often as it occurs, and its counts
      sum to the number of chunks counted. */
  lemma {:induction false} TallyCounts(keys: seq<string>, key: string)
    ensures SumCounts(TallyOf(keys)) == |keys|
    ensures CountOf(TallyOf(keys), key) == Occurrences(keys, key)
    decreases |keys|
  {
    if keys != [] {
      TallyCounts(keys[..|keys| - 1], key);
      BumpCounts(TallyOf(keys[..|keys| - 1]), keys[|keys| - 1], key);
    }
  }

  /** With the chunks `retrieve_context` returns, the tally has one entry,
      'unknown', counting every chunk. */
  lemma {:induction false} TallyIsAllUnknown(top: seq<Retrieved>)
    ensures TallyOf(SourceKeys(top)) == if top == [] then [] else [("unknown", |top|)]
    decreases |top|
  {
    if top != [] {
      var init := top[..|top| - 1];
      TallyIsAllUnknown(init);
      assert SourceKeys(top)[..|top| - 1] == SourceKeys(init);
    }
  }

  // ---------------------------------------------------------------------
  // `generate_rag_response`

  /** What `generate_rag_response` returns: the bare fallback text when no
      chunk was found, else the completion with the source tally. */
  datatype RagReply = Fallback(text: string) | Reply(response: string, sources: Tally)

  const FallbackText: string := "मलाई तपाईंको प्रश्नको उत्तर दिन पर्याप्त जानकारी छैन। \n\n    कृपया कानुनी दस्तावेज अपलोड गर्नुहोस् वा अधिक विशिष्ट प्रश्न सोध्नुहोस्।\n\n    (I don't have enough information to answer your question. Please upload a legal document or ask a more specific question.)"

  /** The outcome of `generate_rag_response`; `Err` is an exception it raises. */
  function RagResponse(source: string, conversationDocs: seq<Option<string>>, userDocs: seq<Option<string>>, query: string,
                       retrieve: Request -> Result<seq<Retrieved>, string>,
                       complete: string -> Result<string, string>): Result<RagReply, string>
  {
    match Gather(RetrievalPlan(source, conversationDocs, userDocs), retrieve)
    case Err(e) => Err(e)
    case Ok(all) =>
      var top := TopFive(all);
      if top == [] then Ok(Fallback(FallbackText))
      else
        match complete(FormatPrompt(query, top))
        case Err(e) => Err(e)
        case Ok(text) => Ok(Reply(text, TallyOf(SourceKeys(top))))
  }

  /** The fallback is answered exactly when every call succeeded and none
      found a chunk; a reply always carries a tally that counts the chunks
      given to the model, at most five. */
  lemma RagResponseOutcome(source: string, conversationDocs: seq<Option<string>>, userDocs: seq<Option<string>>, query: string,
                           retrieve: Request -> Result<seq<Retrieved>, string>,
                           complete: string -> Result<string, string>)
    ensures var r := RagResponse(source, conversationDocs, userDocs, query, retrieve, complete);
            var g := Gather(RetrievalPlan(source, conversationDocs, userDocs), retrieve);
            && (r.Ok? && r.value.Fallback? <==> g == Ok([]))
            && (r.Ok? && r.value.Fallback? ==> r.value.text == FallbackText)
            && (r.Ok? && r.value.Reply? ==> 1 <= SumCounts(r.value.sources) <= 5)
            && (g.Err? ==> r == Err(g.error))
  {
    var g := Gather(RetrievalPlan(source, conversationDocs, userDocs), retrieve);
    if g.Ok? {
      var top := TopFive(g.value);
      assert |top| == Min(5, |g.value|);
      assert SumCounts(TallyOf(SourceKeys(top))) == |top| by {
        TallyCounts(SourceKeys(top), "unknown");
      }
    }
  }

  /** Nothing is asked when the source names neither kind of collection,
      so the fallback is answered. */
  lemma UnknownSourceFallsBack(source: string, conversationDocs: seq<Option<string>>, userDocs: seq<Option<string>>, query: string,
                               retrieve: Request -> Result<seq<Retrieved>, string>,
                               complete: string -> Result<string, string>)
    requires !SearchesUserDocuments(source) && !SearchesPermanent(source)
    ensures RagResponse(source, conversationDocs, userDocs, query, retrieve, complete) == Ok(Fallback(FallbackText))
  {
    assert RetrievalPlan(source, conversationDocs, userDocs) == [];
  }

  lemma {:induction false} UserRequestsAppend(a: seq<Option<string>>, b: seq<Option<string>>)
    ensures UserRequests(a + b) == UserRequests(a) + UserRequests(b)
    decreases |b|
  {
    if b == [] {
      assert a + b == a;
    } else {
      var b' := b[..|b| - 1];
      var last := b[|b| - 1];
      UserRequestsAppend(a, b');
      assert (a + b)[..|a + b| - 1] == a + b';
      var tail: seq<Request> := if IsSet(last) then [Request(last, 3)] else [];
      ConcatAssoc(UserRequests(a), UserRequests(b'), tail);
    }
  }

  /** One document of the user loop: a document without a collection is
      skipped, otherwise its chunks are added or its exception ends the loop. */
  lemma UserStep(docs: seq<Option<string>>, i: nat, all: seq<Retrieved>, retrieve: Request -> Result<seq<Retrieved>, string>)
    requires i < |docs|
    requires Gather(UserRequests(docs[..i]), retrieve) == Ok(all)
    ensures !IsSet(docs[i]) ==> Gather(UserRequests(docs[..i + 1]), retrieve) == Ok(all)
    ensures IsSet(docs[i]) ==>
              Gather(UserRequests(docs[..i + 1]), retrieve) ==
              match retrieve(Request(docs[i], 3))
              case Err(e) => Err(e)
              case Ok(ys) => Ok(all + ys)
  {
    var p := UserRequests(docs[..i]);
    assert docs[..i + 1][..i] == docs[..i];
    if IsSet(docs[i]) {
      assert UserRequests(docs[..i + 1]) == p + [Request(docs[i], 3)];
      assert (p + [Request(docs[i], 3)])[..|p|] == p;
    } else {
      assert UserRequests(docs[..i + 1]) == p + [];
      assert p + [] == p;
    }
  }

  /** An exception from the call for document `i` is the outcome of the
      whole user loop. */
  lemma UserCallFails(docs: seq<Option<string>>, i: nat, retrieve: Request -> Result<seq<Retrieved>, string>)
    requires i < |docs|
    requires Gather(UserRequests(docs[..i + 1]), retrieve).Err?
    ensures Gather(UserRequests(docs), retrieve) == Gather(UserRequests(docs[..i + 1]), retrieve)
  {
    assert docs == docs[..i + 1] + docs[i + 1..];
    UserRequestsAppend(docs[..i + 1], docs[i + 1..]);
    GatherErrSticks(UserRequests(docs[..i + 1]), UserRequests(docs[i + 1..]), retrieve);
  }

  /** The loop over the searched documents: 3 chunks from each one that has
      a collection, in order. */
  method RetrieveFromDocuments(docs: seq<Option<string>>, retrieve: Request -> Result<seq<Retrieved>, string>)
    returns (r: Result<seq<Retrieved>, string>)
    ensures r == Gather(UserRequests(docs), retrieve)
  {
    var all: seq<Retrieved> := [];
    for i := 0 to |docs|
      invariant Gather(UserRequests(docs[..i]), retrieve) == Ok(all)
    {
      UserStep(docs, i, all, retrieve);
      var collectionId := docs[i];
      if collectionId.Some? && collectionId.value != "" {
        var chunks := retrieve(Request(collectionId, 3));
        if chunks.Err? {
          UserCallFails(docs, i, retrieve);
          return Err(chunks.error);
        }
        all := all + chunks.value;
      }
    }
    assert docs[..|docs|] == docs;
    r := Ok(all);
  }

  /** The loop that fills the `sources` dictionary. */
  method CountSources(top: seq<Retrieved>) returns (sources: Tally)
    ensures sources == TallyOf(SourceKeys(top))
  {
    sources := [];
    for i := 0 to |top|
      invariant sources == TallyOf(SourceKeys(top[..i]))
    {
      assert SourceKeys(top[..i + 1])[..i] == SourceKeys(top[..i]);
      sources := Bump(sources, "unknown");
    }
    assert top[..|top|] == top;
  }

  lemma GatherSnoc(p: seq<Request>, x: Request, retrieve: Request -> Result<seq<Retrieved>, string>)
    ensures Gather(p + [x], retrieve) ==
            match Gather(p, retrieve)
            case Err(e) => Err(e)
            case Ok(xs) => (match retrieve(x) case Err(e) => Err(e) case Ok(ys) => Ok(xs + ys))
  {
    assert (p + [x])[..|p|] == p;
  }

  /** `generate_rag_response`: the user collections, then the permanent
      knowledge base, as the source asks; the merge; the tally; the
      completion. */
  method GenerateRagResponse(source: string, conversationDocs: seq<Option<string>>, userDocs: seq<Option<string>>,
                             query: string,
                             retrieve: Request -> Result<seq<Retrieved>, string>,
                             complete: string -> Result<string, string>)
    returns (r: Result<RagReply, string>)
    ensures r == RagResponse(source, conversationDocs, userDocs, query, retrieve, complete)
  {
    var all: seq<Retrieved> := [];
    ghost var done: seq<Request> := [];
    ghost var perm: seq<Request> := if SearchesPermanent(source) then [PermanentRequest] else [];
    if SearchesUserDocuments(source) {
      done := UserRequests(SearchedDocuments(conversationDocs, userDocs));
      var chunks := RetrieveFromDocuments(SearchedDocuments(conversationDocs, userDocs), retrieve);
      if chunks.Err? {
        GatherErrSticks(done, perm, retrieve);
        return Err(chunks.error);
      }
      all := chunks.value;
    }
    assert RetrievalPlan(source, conversationDocs, userDocs) == done + perm;
    if SearchesPermanent(source) {
      GatherSnoc(done, PermanentRequest, retrieve);
      var kbChunks := retrieve(PermanentRequest);
      if kbChunks.Err? {
        return Err(kbChunks.error);
      }
      all := all + kbChunks.value;
    } else {
      assert done + perm == done;
    }
    var sorted := SortByScore(all);
    var top := sorted[..Min(5, |sorted|)];
    if top == [] {
      return Ok(Fallback(FallbackText));
    }
    var sources := CountSources(top);
    var prompt := FormatPrompt(query, top);
    var completion := complete(prompt);
    if completion.Err? {
      return Err(completion.error);
    }
    r := Ok(Reply(completion.value, sources));
  }

  // ---------------------------------------------------------------------
  // `add_message` and the edit endpoint

  const ApologyText: string := "माफ गर्नुहोस्, मलाई अहिले उत्तर दिन समस्या भइरहेको छ। कृपया फेरि प्रयास गर्नुहोस्।"
  const EmptyContentError: string := "Content cannot be empty"
  const NotUserMessageError: string := "Only user messages can be edited"

  /** The assistant's text and sources for a retrieval outcome, as written:
      the bare fallback string is indexed with 'response', which raises, so
      the apology is answered instead of the fallback. */
  function AssistantOfAsWritten(reply: Result<RagReply, string>): (string, Tally)
  {
    match reply
    case Err(_) => (ApologyText, [])
    case Ok(Fallback(_)) => (ApologyText, [])
    case Ok(Reply(text, sources)) => (text, sources)
  }

  /** The same with the fallback answered as the text it is. */
  function AssistantOf(reply: Result<RagReply, string>): (string, Tally)
  {
    match reply
    case Err(_) => (ApologyText, [])
    case Ok(Fallback(text)) => (text, [])
    case Ok(Reply(text, sources)) => (text, sources)
  }

  /** As written, a question nothing was found for is answered with the
      apology for a failure, never with the fallback text. */
  lemma FallbackHiddenAsWritten()
    ensures AssistantOfAsWritten(Ok(Fallback(FallbackText))).0 == ApologyText
    ensures AssistantOfAsWritten(Ok(Fallback(FallbackText))).0 != FallbackText
  {
    assert |ApologyText| < |FallbackText|;
  }

  /** Corrected, the apology is answered exactly when generation failed,
      the fallback text when nothing was found, and the completion with
      its sources otherwise. */
  lemma AssistantAnswers(reply: Result<RagReply, string>)
    ensures reply.Err? ==> AssistantOf(reply) == (ApologyText, [])
    ensures reply == Ok(Fallback(FallbackText)) ==> AssistantOf(reply).0 == FallbackText
    ensures reply.Ok? && reply.value.Reply? ==> AssistantOf(reply) == (reply.value.response, reply.value.sources)
  {
  }

  /** A message exchange: the user's text as sent, the assistant's answer,
      the source tally. */
  datatype Exchange = Exchange(userContent: string, assistantContent: string, sources: Tally)

  /** `add_message`. `rag` stands for `generate_rag_response` on the chosen
      source, `simple` for the reply without retrieval (as written the
      undefined `generate_simple_response`, `SimpleReplyAsWritten`),
      `answerOf` for how the retrieval
      outcome becomes the assistant's text: `AssistantOfAsWritten` as the
      source does it, `AssistantOf` corrected. An `Err` is the 400 answer. */
  function AddMessage(content: string, useRag: bool, requestedSource: Option<string>, hasCompletedDocument: bool,
                      rag: string -> Result<RagReply, string>, simple: string -> Result<string, string>,
                      answerOf: Result<RagReply, string> -> (string, Tally)): Result<Exchange, string>
  {
    var source := ChooseSearchSource(requestedSource, hasCompletedDocument);
    if Strip(content) == [] then Err(EmptyContentError)
    else
      var answer :=
        if useRag then answerOf(rag(source))
        else match simple(content)
             case Err(_) => (ApologyText, [])
             case Ok(text) => (text, []);
      Ok(Exchange(content, answer.0, answer.1))
  }

  /** A blank message is refused and anything else is kept as sent and
      answered; with retrieval, the answer is the one for the chosen source,
      and without it the plain reply or, when that raises, the apology. */
  lemma AddMessageOutcome(content: string, useRag: bool, requestedSource: Option<string>, hasCompletedDocument: bool,
                          rag: string -> Result<RagReply, string>, simple: string -> Result<string, string>,
                          answerOf: Result<RagReply, string> -> (string, Tally))
    ensures var r := AddMessage(content, useRag, requestedSource, hasCompletedDocument, rag, simple, answerOf);
            && (r.Err? <==> IsBlank(content))
            && (r.Err? ==> r.error == EmptyContentError)
            && (r.Ok? ==> r.value.userContent == content)
            && (r.Ok? && useRag ==>
                  (r.value.assistantContent, r.value.sources) == answerOf(rag(ChooseSearchSource(requestedSource, hasCompletedDocument))))
            && (r.Ok? && !useRag ==>
                  r.value.sources == [] && r.value.assistantContent == (if simple(content).Ok? then simple(content).value else ApologyText))
  {
    BlankIffStripEmpty(content);
  }

  /** As written, a non-blank question that retrieval finds nothing for is
      answered with the apology; corrected, with the fallback text. */
  lemma AddMessageFallback(content: string, requestedSource: Option<string>, hasCompletedDocument: bool,
                           rag: string -> Result<RagReply, string>, simple: string -> Result<string, string>)
    requires !IsBlank(content)
    requires rag(ChooseSearchSource(requestedSource, hasCompletedDocument)) == Ok(Fallback(FallbackText))
    ensures var r := AddMessage(content, true, requestedSource, hasCompletedDocument, rag, simple, AssistantOfAsWritten);
            r.Ok? && r.value.assistantContent == ApologyText && r.value.assistantContent != FallbackText
    ensures var r := AddMessage(content, true, requestedSource, hasCompletedDocument, rag, simple, AssistantOf);
            r.Ok? && r.value.assistantContent == FallbackText
  {
    BlankIffStripEmpty(content);
    FallbackHiddenAsWritten();
  }

  const MissingSimpleReplyError: string :=
    "'ConversationViewSet' object has no attribute 'generate_simple_response'"

  /** `self.generate_simple_response(content)` as written: the viewset
      defines no such method, so the call raises `AttributeError`. */
  function SimpleReplyAsWritten(content: string): (r: Result<string, string>)
    ensures r.Err? && r.error == MissingSimpleReplyError
  {
    Err(MissingSimpleReplyError)
  }

  /** As written, every non-blank message sent without retrieval is
      answered with the apology and no sources, whatever the question and
      whichever way the retrieval outcome would be read. */
  lemma NoPlainReplyAsWritten(content: string, requestedSource: Option<string>, hasCompletedDocument: bool,
                              rag: string -> Result<RagReply, string>,
                              answerOf: Result<RagReply, string> -> (string, Tally))
    requires !IsBlank(content)
    ensures var r := AddMessage(content, false, requestedSource, hasCompletedDocument, rag, SimpleReplyAsWritten, answerOf);
            r.Ok? && r.value.userContent == content && r.value.assistantContent == ApologyText && r.value.sources == []
  {
    AddMessageOutcome(content, false, requestedSource, hasCompletedDocument, rag, SimpleReplyAsWritten, answerOf);
  }

  /** With a reply function that exists, a non-blank message sent without
      retrieval is answered with that reply's text, or the apology when it
      raises. */
  lemma PlainReplyAnswers(content: string, requestedSource: Option<string>, hasCompletedDocument: bool,
                          rag: string -> Result<RagReply, string>, simple: string -> Result<string, string>,
                          answerOf: Result<RagReply, string> -> (string, Tally), text: string)
    requires !IsBlank(content)
    requires simple(content) == Ok(text)
    ensures var r := AddMessage(content, false, requestedSource, hasCompletedDocument, rag, simple, answerOf);
            r.Ok? && r.value.assistantContent == text && r.value.sources == []
  {
    AddMessageOutcome(content, false, requestedSource, hasCompletedDocument, rag, simple, answerOf);
  }

  /** The checks of the edit endpoint: only a user's message can be edited,
      and only to non-blank text, which is stored stripped. */
  function ValidateEdit(role: string, content: string): (r: Result<string, string>)
    ensures r.Ok? ==> r.value != [] && !IsSpace(r.value[0]) && !IsSpace(r.value[|r.value| - 1])
  {
    if role != "user" then Err(NotUserMessageError)
    else
      var stripped := Strip(content);
      if stripped == [] then Err(EmptyContentError) else Ok(stripped)
  }

  /** An edit is accepted exactly for a user's message with non-blank new
      text; the role is checked first. */
  lemma EditAccepted(role: string, content: string)
    ensures ValidateEdit(role, content).Ok? <==> role == "user" && !IsBlank(content)
    ensures role != "user" ==> ValidateEdit(role, content) == Err(NotUserMessageError)
    ensures role == "user" && IsBlank(content) ==> ValidateEdit(role, content) == Err(EmptyContentError)
  {
    BlankIffStripEmpty(content);
  }

  const RegenerationError: string := "Failed to generate response: "

  /** What indexing a string with a string key raises. */
  const StringIndexError: string := "string indices must be integers"

  /** The answer to an edited message, as written; an `Err` is the 500
      answer. The bare fallback string is indexed with 'response'. */
  function EditReplyAsWritten(reply: Result<RagReply, string>): Result<string, string>
  {
    match reply
    case Err(e) => Err(RegenerationError + e)
    case Ok(Fallback(_)) => Err(RegenerationError + StringIndexError)
    case Ok(Reply(text, _)) => Ok(text)
  }

  /** The same with the fallback answered as the text it is. */
  function EditReply(reply: Result<RagReply, string>): Result<string, string>
  {
    match reply
    case Err(e) => Err(RegenerationError + e)
    case Ok(Fallback(text)) => Ok(text)
    case Ok(Reply(text, _)) => Ok(text)
  }

  /** As written, an edit nothing is found for ends in a server error. */
  lemma EditFallbackFailsAsWritten()
    ensures EditReplyAsWritten(Ok(Fallback(FallbackText))).Err?
  {
  }

  /** Corrected, the edited message gets an answer exactly when generation
      did not raise, and the fallback text when nothing was found. */
  lemma EditReplyAnswers(reply: Result<RagReply, string>)
    ensures EditReply(reply).Ok? <==> reply.Ok?
    ensures reply.Ok? && reply.value.Fallback? ==> EditReply(reply) == Ok(reply.value.text)
    ensures reply.Err? ==> EditReply(reply) == Err(RegenerationError + reply.error)
  {
  }

  /** A chat message whose text the edit endpoint changes in place. */
  class Message {
    var role: string
    var content: string

    constructor(role: string, content: string)
      ensures this.role == role && this.content == content
    {
      this.role := role;
      this.content := content;
    }

    /** The first half of `update`: check the edit and store the new text. */
    method Edit(newContent: string) returns (r: Result<string, string>)
      modifies this
      ensures r == ValidateEdit(old(role), newContent)
      ensures role == old(role)
      ensures content == (if r.Ok? then r.value else old(content))
    {
      if role != "user" {
        return Err(NotUserMessageError);
      }
      var stripped := Strip(newContent);
      if stripped == [] {
        return Err(EmptyContentError);
      }
      content := stripped;
      r := Ok(stripped);
    }
  }

  // ---------------------------------------------------------------------
  // Upload and the document lifecycle

  datatype Status = Pending | Processing | Completed | Failed

  predicate EndsWith(s: string, suffix: string)
  {
    |suffix| <= |s| && s[|s| - |suffix|..] == suffix
  }

  /** The upload checks: a file must be given and its name end in ".pdf";
      the answer is the 400 error, if any. */
  function ValidateUpload(fileName: Option<string>): (error: Option<string>)
    ensures error.None? <==> fileName.Some? && EndsWith(fileName.value, ".pdf")
    ensures fileName.None? ==> error == Some("No file provided")
  {
    if fileName.None? then Some("No file provided")
    else if !EndsWith(fileName.value, ".pdf") then Some("Only PDF files are supported")
    else None
  }

  /** How processing concluded: the fields a success sets, or the error. */
  datatype Settled = Done(collectionId: string, numPages: nat, numChunks: nat) | Failure(message: string)

  /** The conclusion for the outcome of `process_document` (`Err` is an
      exception raised by the call). */
  function Settle(outcome: Result<ProcessResult, string>): (s: Settled)
    ensures s.Done? <==> outcome.Ok? && outcome.value.Processed?
  {
    match outcome
    case Err(e) => Failure(e)
    case Ok(ProcessFailed(e)) => Failure(e)
    case Ok(Processed(c, p, n, _)) => Done(c, p, n)
  }

  /** `str(KeyError('parsing_method'))` */
  const MissingParsingMethod: string := "'parsing_method'"

  /** The conclusion as written: on success the log line reads the
      'parsing_method' key, which the result of `process_document` does not
      have, so every success is turned into a failure. */
  function SettleAsWritten(outcome: Result<ProcessResult, string>): Settled
  {
    match outcome
    case Err(e) => Failure(e)
    case Ok(ProcessFailed(e)) => Failure(e)
    case Ok(Processed(_, _, _, _)) => Failure(MissingParsingMethod)
  }

  /** As written, no document ever completes. */
  lemma NothingCompletesAsWritten(outcome: Result<ProcessResult, string>)
    ensures SettleAsWritten(outcome).Failure?
    ensures outcome.Ok? && outcome.value.Processed? ==> SettleAsWritten(outcome) == Failure(MissingParsingMethod)
  {
  }

  /** Corrected, a document completes exactly when processing succeeded,
      with the collection, page and chunk counts it reported, and
      otherwise fails with the error it reported or raised. */
  lemma SettleReports(outcome: Result<ProcessResult, string>)
    ensures outcome.Ok? && outcome.value.Processed? ==>
              Settle(outcome) == Done(outcome.value.collectionId, outcome.value.numPages, outcome.value.numChunks)
    ensures outcome.Ok? && outcome.value.ProcessFailed? ==> Settle(outcome) == Failure(outcome.value.error)
    ensures outcome.Err? ==> Settle(outcome) == Failure(outcome.error)
  {
  }

  /** An uploaded document, as stored. */
  class Document {
    var fileName: string
    var conversationId: Option<string>
    var status: Status
    var collectionId: Option<string>
    var numPages: nat
    var numChunks: nat
    var errorMessage: string
    var processed: bool

    /** A new document is pending. */
    constructor(fileName: string, conversationId: Option<string>)
      ensures this.fileName == fileName && this.conversationId == conversationId
      ensures status == Pending && collectionId.None? && numPages == 0 && numChunks == 0
      ensures errorMessage == "" && !processed
    {
      this.fileName := fileName;
      this.conversationId := conversationId;
      status := Pending;
      collectionId := None;
      numPages := 0;
      numChunks := 0;
      errorMessage := "";
      processed := false;
    }

    /** The fields a conclusion sets; the others keep their old values. */
    method Conclude(s: Settled)
      modifies this
      ensures s.Done? ==> status == Completed && collectionId == Some(s.collectionId)
                          && numPages == s.numPages && numChunks == s.numChunks && processed
                          && errorMessage == old(errorMessage)
      ensures s.Failure? ==> status == Failed && errorMessage == s.message
                             && collectionId == old(collectionId) && numPages == old(numPages)
                             && numChunks == old(numChunks) && processed == old(processed)
      ensures fileName == old(fileName) && conversationId == old(conversationId)
    {
      match s
      case Done(c, p, n) =>
        status := Completed;
        collectionId := Some(c);
        numPages := p;
        numChunks := n;
        processed := true;
      case Failure(m) =>
        status := Failed;
        errorMessage := m;
    }

    /** `_process_document_async`, corrected: the document is processing
      while the pipeline runs, then completed or failed as it concluded. */
    method ProcessInBackground(outcome: Result<ProcessResult, string>)
      modifies this
      ensures status == (if Settle(outcome).Done? then Completed else Failed)
      ensures status == Completed ==> collectionId == Some(outcome.value.collectionId)
                                      && numPages == outcome.value.numPages && numChunks == outcome.value.numChunks
                                      && processed && errorMessage == old(errorMessage)
      ensures status == Failed ==> errorMessage == Settle(outcome).message
                                   && collectionId == old(collectionId) && numPages == old(numPages)
                                   && numChunks == old(numChunks) && processed == old(processed)
      ensures fileName == old(fileName) && conversationId == old(conversationId)
    {
      status := Processing;
      Conclude(Settle(outcome));
    }

    /** `_process_document_async` as written: a success is never saved, and
      the document fails with the missing key as its error. */
    method ProcessInBackgroundAsWritten(outcome: Result<ProcessResult, string>)
      modifies this
      ensures status == Failed
      ensures errorMessage == SettleAsWritten(outcome).message
      ensures collectionId == old(collectionId) && numPages == old(numPages) && numChunks == old(numChunks)
      ensures processed == old(processed)
      ensures fileName == old(fileName) && conversationId == old(conversationId)
    {
      status := Processing;
      NothingCompletesAsWritten(outcome);
      Conclude(SettleAsWritten(outcome));
    }
  }

  /** `create`: the upload checks, then a new pending document. A
      conversation id that is missing or empty is stored as none. */
  method Upload(fileName: Option<string>, conversationId: Option<string>) returns (r: Result<Document, string>)
    ensures r.Err? <==> ValidateUpload(fileName).Some?
    ensures r.Err? ==> r.error == ValidateUpload(fileName).value
    ensures r.Ok? ==> fresh(r.value) && r.value.status == Pending && r.value.fileName == fileName.value
                      && r.value.conversationId == (if IsSet(conversationId) then conversationId else None)
  {
    if fileName.None? {
      return Err("No file provided");
    }
    if !EndsWith(fileName.value, ".pdf") {
      return Err("Only PDF files are supported");
    }
    var conversation := if conversationId.Some? && conversationId.value != "" then conversationId else None;
    var document := new Document(fileName.value, conversation);
    r := Ok(document);
  }
}
