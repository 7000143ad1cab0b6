/** The question-answering path of app/qa.py: the raw query result is
    unwrapped to its single query, the retrieved chunks are numbered
    `[1]..[N]` into a context with an aligned source list, and the chat model
    is asked with a fixed system prompt and a user message built from the
    question and that context. With nothing retrieved a fixed answer is
    returned and the chat model is not asked. */
module Qa {
  import opened Wrappers
  import opened Text
  import opened Json

  /** The exceptions this path raises. */
  datatype QaError =
    | EmptyResultList  // IndexError: `v[0]` on an empty list in the unwrap
    | TitleNotString   // `.strip()` on a truthy title value that is not a string
    | UrlNotString     // `.strip()` on a truthy url value that is not a string

  // ------------------------------------------------------------ retrieve

  /** `{k: v[0] for k, v in res.items() if isinstance(v, list)}`: the keys
      whose value is a list, each mapped to that list's first element. */
  function Unwrap(res: map<string, Value>): (r: Result<map<string, Value>, QaError>)
    ensures r.Err? <==> exists k :: k in res && res[k] == Arr([])
    ensures r.Ok? ==> && r.value.Keys == set k | k in res && res[k].Arr?
                      && forall k :: k in r.value ==>
                           k in res && res[k].Arr? && res[k].elems != [] && r.value[k] == res[k].elems[0]
  {
    if exists k :: k in res && res[k] == Arr([]) then Err(EmptyResultList)
    else Ok(map k | k in res && res[k].Arr? :: res[k].elems[0])
  }

  // ----------------------------------------------------- _format_context

  /** One entry of the source list: `{"ref": ..., "title": ..., "url": ...}`. */
  datatype SourceRef = SourceRef(ref: string, title: string, url: string)

  /** The keys tried for a title, in order, and the title used when none
      holds a truthy value. */
  const TitleKeys: seq<string> := ["product_name", "source_title", "type"]
  const DefaultTitle: string := "Source"
  /** The keys tried for a url, in order. */
  const UrlKeys: seq<string> := ["url", "source_url"]

  /** `f"[{i}]"`. */
  function Ref(i: nat): (r: string)
    ensures |r| >= 3 && r[0] == '[' && r[|r| - 1] == ']' && r[1..|r| - 1] == Digits(i)
  {
    "[" + Digits(i) + "]"
  }

  /** `(md.get("product_name") or md.get("source_title") or md.get("type") or "Source").strip()`. */
  function TitleOf(md: map<string, Value>): Result<string, QaError> {
    match FirstTruthy(md, TitleKeys)
    case Null => Ok(Strip(DefaultTitle))
    case Str(s) => Ok(Strip(s))
    case _ => Err(TitleNotString)
  }

  /** `(md.get("url") or md.get("source_url") or "").strip()`. */
  function UrlOf(md: map<string, Value>): Result<string, QaError> {
    match FirstTruthy(md, UrlKeys)
    case Null => Ok("")
    case Str(s) => Ok(Strip(s))
    case _ => Err(UrlNotString)
  }

  /** `f"[{i}] {title}\n{snippet}\n"`. */
  function Block(ref: string, title: string, snippet: string): string {
    ref + " " + title + "\n" + snippet + "\n"
  }

  /** The block and the source of pair `i` (1-based), or the error its
      title or url raises. */
  function PairEntry(i: nat, doc: string, md: map<string, Value>): Result<(string, SourceRef), QaError> {
    match TitleOf(md)
    case Err(e) => Err(e)
    case Ok(title) =>
      match UrlOf(md)
      case Err(e) => Err(e)
      case Ok(url) => Ok((Block(Ref(i), title, Strip(doc)), SourceRef(Ref(i), title, url)))
  }

  /** The entry of every pair of `zip(docs, metas)`. */
  function PairEntries(docs: seq<string>, metas: seq<map<string, Value>>): (r: seq<Result<(string, SourceRef), QaError>>)
    ensures |r| == Min(|docs|, |metas|)
    ensures forall k :: 0 <= k < |r| ==> r[k] == PairEntry(k + 1, docs[k], metas[k])
  {
    seq(Min(|docs|, |metas|), k requires 0 <= k < Min(|docs|, |metas|) => PairEntry(k + 1, docs[k], metas[k]))
  }

  /** The context blocks and the sources built so far. */
  datatype Listing = Listing(blocks: seq<string>, sources: seq<SourceRef>)

  /** The listing of the first `n` entries; the first entry that raises
      ends it with its error. */
  function Collect(es: seq<Result<(string, SourceRef), QaError>>, n: nat): Result<Listing, QaError>
    requires n <= |es|
  {
    if n == 0 then Ok(Listing([], []))
    else match Collect(es, n - 1)
      case Err(e) => Err(e)
      case Ok(l) =>
        match es[n - 1]
        case Err(e) => Err(e)
        case Ok((block, source)) => Ok(Listing(l.blocks + [block], l.sources + [source]))
  }

  /** The specification of `_format_context`: the blocks joined by line
      breaks, and the sources. */
  function Formatted(docs: seq<string>, metas: seq<map<string, Value>>): Result<(string, seq<SourceRef>), QaError> {
    var es := PairEntries(docs, metas);
    match Collect(es, |es|)
    case Err(e) => Err(e)
    case Ok(l) => Ok((Join("\n", l.blocks), l.sources))
  }

  /** Once an entry raises, the listing of any longer prefix is that error. */
  lemma {:induction false} ErrorPersists(es: seq<Result<(string, SourceRef), QaError>>, j: nat, m: nat)
    requires j <= m <= |es|
    requires Collect(es, j).Err?
    ensures Collect(es, m) == Collect(es, j)
    decreases m - j
  {
    if j < m {
      ErrorPersists(es, j, m - 1);
    }
  }

  /** The first entry that raises past a listing decides every longer one. */
  lemma CollectStops(es: seq<Result<(string, SourceRef), QaError>>, i: nat, n: nat)
    requires i < n <= |es| && Collect(es, i).Ok? && es[i].Err?
    ensures Collect(es, n) == Err(es[i].error)
  {
    var l := Collect(es, i).value;
    assert Collect(es, i) == Ok(l);
    assert Collect(es, i + 1) == Err(es[i].error);
    ErrorPersists(es, i + 1, n);
  }

  method FormatContext(docs: seq<string>, metas: seq<map<string, Value>>) returns (r: Result<(string, seq<SourceRef>), QaError>)
    ensures r == Formatted(docs, metas)
  {
    ghost var es := PairEntries(docs, metas);
    var n := Min(|docs|, |metas|);
    var sources: seq<SourceRef> := [];
    var blocks: seq<string> := [];
    var i := 0;
    while i < n
      invariant 0 <= i <= n
      invariant Collect(es, i) == Ok(Listing(blocks, sources))
    {
      assert es[i] == PairEntry(i + 1, docs[i], metas[i]);
      var md := metas[i];
      var title := TitleOf(md);
      if title.Err? {
        CollectStops(es, i, n);
        return Err(title.error);
      }
      var url := UrlOf(md);
      if url.Err? {
        CollectStops(es, i, n);
        return Err(url.error);
      }
      var snippet := Strip(docs[i]);
      var block, source := Block(Ref(i + 1), title.value, snippet), SourceRef(Ref(i + 1), title.value, url.value);
      assert es[i] == Ok((block, source));
      blocks := blocks + [block];
      sources := sources + [source];
      i := i + 1;
    }
    r := Ok((Join("\n", blocks), sources));
  }

  /** A listing of `n` entries exists exactly when none of them raises; it
      then holds their blocks and sources in order. */
  lemma {:induction false} CollectShape(es: seq<Result<(string, SourceRef), QaError>>, n: nat)
    requires n <= |es|
    ensures Collect(es, n).Ok? <==> forall k :: 0 <= k < n ==> es[k].Ok?
    ensures Collect(es, n).Ok? ==>
              var l := Collect(es, n).value;
              && |l.blocks| == |l.sources| == n
              && forall k :: 0 <= k < n ==> es[k] == Ok((l.blocks[k], l.sources[k]))
    decreases n
  {
    if n > 0 {
      CollectShape(es, n - 1);
    }
  }

  /** The title and url of one metadata mapping are both strings. */
  predicate Resolves(md: map<string, Value>) {
    TitleOf(md).Ok? && UrlOf(md).Ok?
  }

  /** `_format_context` returns one source per pair of `zip(docs, metas)`,
      referenced `[1]..[N]` in order, each source and its block carrying
      the same reference and title, and the context is the blocks joined by
      line breaks; it raises exactly when some pair's title or url is a
      truthy non-string. */
  lemma FormattedShape(docs: seq<string>, metas: seq<map<string, Value>>)
    ensures var n := Min(|docs|, |metas|);
            Formatted(docs, metas).Ok? <==> forall k :: 0 <= k < n ==> Resolves(metas[k])
    ensures Formatted(docs, metas).Ok? ==>
              var n, ctx, srcs := Min(|docs|, |metas|), Formatted(docs, metas).value.0, Formatted(docs, metas).value.1;
              && |srcs| == n
              && (forall k :: 0 <= k < n ==>
                    srcs[k] == SourceRef(Ref(k + 1), TitleOf(metas[k]).value, UrlOf(metas[k]).value))
              && ctx == Join("\n", Blocks(srcs, docs))
  {
    var es := PairEntries(docs, metas);
    CollectShape(es, |es|);
    PairEntriesShape(docs, metas);
    if Collect(es, |es|).Ok? {
      var l := Collect(es, |es|).value;
      assert l.blocks == Blocks(l.sources, docs);
    }
  }

  /** Entry `k` exists exactly when pair `k` resolves, and then holds the
      block and the source of its title, url and stripped document. */
  lemma PairEntriesShape(docs: seq<string>, metas: seq<map<string, Value>>)
    ensures var es := PairEntries(docs, metas);
            forall k :: 0 <= k < |es| ==>
              && (es[k].Ok? <==> Resolves(metas[k]))
              && (es[k].Ok? ==> es[k].value == (Block(Ref(k + 1), TitleOf(metas[k]).value, Strip(docs[k])),
                                                SourceRef(Ref(k + 1), TitleOf(metas[k]).value, UrlOf(metas[k]).value)))
  {
    var es := PairEntries(docs, metas);
    forall k | 0 <= k < |es|
      ensures es[k].Ok? <==> Resolves(metas[k])
      ensures es[k].Ok? ==> es[k].value == (Block(Ref(k + 1), TitleOf(metas[k]).value, Strip(docs[k])),
                                             SourceRef(Ref(k + 1), TitleOf(metas[k]).value, UrlOf(metas[k]).value))
    {
      assert es[k] == PairEntry(k + 1, docs[k], metas[k]);
    }
  }

  /** The block of each source over its stripped document. */
  function Blocks(srcs: seq<SourceRef>, docs: seq<string>): (r: seq<string>)
    requires |srcs| <= |docs|
    ensures |r| == |srcs|
  {
    seq(|srcs|, k requires 0 <= k < |srcs| => Block(srcs[k].ref, srcs[k].title, Strip(docs[k])))
  }

  /** The references are pairwise distinct. */
  lemma RefsDistinct(i: nat, j: nat)
    ensures Ref(i) == Ref(j) <==> i == j
  {
    if Ref(i) == Ref(j) {
      assert Digits(i) == Ref(i)[1..|Ref(i)| - 1];
      DigitsInjective(i, j);
    }
  }

  /** The title is the stripped first truthy value among `product_name`,
      `source_title` and `type`, so an empty string falls through to the next
      key; with none it is `Source`; a truthy non-string raises. */
  lemma TitleChain(md: map<string, Value>, i: nat)
    requires i < |TitleKeys| && Truthy(Get(md, TitleKeys[i]))
    requires forall j :: 0 <= j < i ==> !Truthy(Get(md, TitleKeys[j]))
    ensures Get(md, TitleKeys[i]).Str? ==> TitleOf(md) == Ok(Strip(Get(md, TitleKeys[i]).s))
    ensures !Get(md, TitleKeys[i]).Str? ==> TitleOf(md) == Err(TitleNotString)
  {
    FirstTruthyPicksEarliest(md, TitleKeys, i);
  }

  lemma TitleDefault(md: map<string, Value>)
    requires forall j :: 0 <= j < |TitleKeys| ==> !Truthy(Get(md, TitleKeys[j]))
    ensures TitleOf(md) == Ok(DefaultTitle)
  {
    StripIdentity(DefaultTitle);
  }

  /** The url is the stripped first truthy value among `url` and
      `source_url`, empty with none; a truthy non-string raises. */
  lemma UrlChain(md: map<string, Value>, i: nat)
    requires i < |UrlKeys| && Truthy(Get(md, UrlKeys[i]))
    requires forall j :: 0 <= j < i ==> !Truthy(Get(md, UrlKeys[j]))
    ensures Get(md, UrlKeys[i]).Str? ==> UrlOf(md) == Ok(Strip(Get(md, UrlKeys[i]).s))
    ensures !Get(md, UrlKeys[i]).Str? ==> UrlOf(md) == Err(UrlNotString)
  {
    FirstTruthyPicksEarliest(md, UrlKeys, i);
  }

  lemma UrlDefault(md: map<string, Value>)
    requires forall j :: 0 <= j < |UrlKeys| ==> !Truthy(Get(md, UrlKeys[j]))
    ensures UrlOf(md) == Ok("")
  {
  }

  // ----------------------------------------------------- answer_question

  const Fallback: string := "I don't have enough information to answer from the current index."

  const SystemPrompt: string :=
    "You are a precise assistant for Aprobo\U{2019}s product and acoustic-flooring knowledge.\n"
    + "\n"
    + "Rules:\n"
    + "- Answer using ONLY the provided context.\n"
    + "- If the answer isn't in context, say you don't know and suggest what to check next.\n"
    + "- Keep answers concise, technical when needed, and include a short 'Citations' section listing source refs like [1], [2].\n"
    + "- Do not invent values/specs.\n"

  const Instructions: string :=
    "Instructions:\n"
    + "1) Provide a direct answer first.\n"
    + "2) Then add a 'Citations' line listing the matching [n] refs you used.\n"
    + "3) If multiple options apply, compare them briefly.\n"

  /** `USER_TEMPLATE.format(question=question, context=context)`. */
  function UserMessage(question: string, context: string): string {
    "Question:\n" + question + "\n\nContext:\n" + context + "\n\n" + Instructions
  }

  datatype Message = Message(role: string, content: string)

  /** The unwrapped query result as the collection returns it for the
      entries this pipeline writes; a key that is absent is an empty list. */
  datatype Hits = Hits(documents: seq<string>, metadatas: seq<map<string, Value>>, distances: Value)

  /** The returned dictionary; `distances` is absent in the fallback. */
  datatype Response = Response(answer: string, sources: seq<SourceRef>, distances: Option<Value>)

  /** The messages sent for a question and its context. */
  function Messages(question: string, context: string): seq<Message> {
    [Message("system", SystemPrompt), Message("user", UserMessage(question, context))]
  }

  /** The specification of `answer_question`, with `retrieve` and `chat` as
      parameters. */
  function AnswerQuestion(question: string, k: int, retrieve: (string, int) -> Hits,
                          chat: seq<Message> -> string): Result<Response, QaError>
  {
    var hits := retrieve(question, k);
    if hits.documents == [] then Ok(Response(Fallback, [], None))
    else match Formatted(hits.documents, hits.metadatas)
      case Err(e) => Err(e)
      case Ok((context, sources)) => Ok(Response(chat(Messages(question, context)), sources, Some(hits.distances)))
  }

  /** With nothing retrieved the answer is the fixed fallback with no
      sources and no distances, whatever the chat model would say. */
  lemma NoDocumentsFallback(question: string, k: int, retrieve: (string, int) -> Hits,
                            chat1: seq<Message> -> string, chat2: seq<Message> -> string)
    requires retrieve(question, k).documents == []
    ensures AnswerQuestion(question, k, retrieve, chat1) == Ok(Response(Fallback, [], None))
    ensures AnswerQuestion(question, k, retrieve, chat1) == AnswerQuestion(question, k, retrieve, chat2)
  {
  }

  /** With documents the sources are exactly `_format_context`'s list, the
      distances pass through unchanged, and the answer is the chat model's
      reply to the system prompt followed by the user message; the
      question's fate depends on the chat model only through that reply. */
  lemma WithDocuments(question: string, k: int, retrieve: (string, int) -> Hits, chat: seq<Message> -> string)
    requires retrieve(question, k).documents != []
    ensures var hits := retrieve(question, k);
            var f := Formatted(hits.documents, hits.metadatas);
            && (AnswerQuestion(question, k, retrieve, chat).Ok? <==> f.Ok?)
            && (f.Ok? ==>
                  var r := AnswerQuestion(question, k, retrieve, chat).value;
                  && r.sources == f.value.1 && r.distances == Some(hits.distances)
                  && r.answer == chat(Messages(question, f.value.0))
                  && Messages(question, f.value.0)
                     == [Message("system", SystemPrompt), Message("user", UserMessage(question, f.value.0))])
  {
  }
}
