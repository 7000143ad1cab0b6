/** The chunking ingester of app/ingest_chroma.py: JSON-lines records are
    read, records without id or text or already present are skipped, the
    text is cleaned and chunked, and every chunk becomes an entry
    `<id>::chunkNNN` whose metadata carries its provenance. Entries are
    written with `add` in batches of 32 through three parallel pending
    lists. */
module IngestChroma {
  import opened Wrappers
  import opened Text
  import opened Json
  import opened VectorStore
  import Cleaner
  import Chunker

  const BatchSize: nat := 32
  const MaxChars: nat := 1800
  const Overlap: nat := 200

  /** The metadata fields copied from a record to each of its chunks. */
  const KnownKeys: seq<string> := ["product_id", "product_name", "category", "subcategory", "url", "type"]

  /** The code the ingester calls but does not define. */
  datatype Services = Services(
    parse: string -> Option<Value>,      // json.loads; None where it raises JSONDecodeError
    stripNav: string -> string,          // the NAV_PATTERNS substitutions
    show: Value -> string,               // str(v) for a value that is not a string
    embed: seq<string> -> seq<Embedding> // embed_batch
  )

  /** The exceptions a record can raise; each aborts the run. */
  datatype Fault =
    | RecordNotObject        // obj.get on a JSON value that is not an object
    | TextNotString          // re.sub on a truthy "text" that is not a string
    | MetadataNotIndexable   // `k in meta` or `meta[k]` on a metadata that is not an object

  /** How the run decides that a record is already in the collection. */
  datatype SkipRule =
    | AsWritten   // `doc_id in existing`, as the source tests it
    | Corrected   // also looks for the record's first chunk identifier

  datatype RunOutcome =
    | NoRecords                           // no record was read: nothing is written
    | Completed(added: nat)               // every record was handled; `added` entries were sent
    | Aborted(fault: Fault, added: nat)   // a record raised; `added` entries had been sent before

  // ----------------------------------------------------- read_jsonl_files

  /** The record one stripped line yields: none for a blank line or one
      that does not parse. */
  function LineRecord(path: string, line: string, parse: string -> Option<Value>): seq<(string, Value)> {
    if line == "" then []
    else match parse(line)
      case None => []
      case Some(v) => [(path, v)]
  }

  /** The records the stripped lines of one file yield. */
  function ReadLines(path: string, lines: seq<string>, parse: string -> Option<Value>): seq<(string, Value)>
    decreases |lines|
  {
    if lines == [] then [] else LineRecord(path, lines[0], parse) + ReadLines(path, lines[1..], parse)
  }

  /** `read_jsonl_files`: the files in the order given (the source sorts the
      glob result), each line stripped before it is parsed. */
  function ReadRecords(files: seq<SourceFile>, parse: string -> Option<Value>): seq<(string, Value)>
    decreases |files|
  {
    if files == [] then []
    else ReadLines(files[0].path, StripEach(files[0].lines), parse) + ReadRecords(files[1..], parse)
  }

  /** `rec` is tagged with `path` and is what some non-blank stripped line
      parses to. */
  ghost predicate ParsedFrom(path: string, lines: seq<string>, parse: string -> Option<Value>, rec: (string, Value)) {
    rec.0 == path &&
    exists i :: 0 <= i < |lines| && lines[i] != "" && parse(lines[i]) == Some(rec.1)
  }

  /** Every record of a file comes from a non-blank stripped line of it
      that parses to that record, and a file of blank or unparsable lines
      yields none. */
  lemma {:induction false} ReadLinesFromParsedLines(path: string, lines: seq<string>, parse: string -> Option<Value>)
    ensures forall j :: 0 <= j < |ReadLines(path, lines, parse)| ==>
              ParsedFrom(path, lines, parse, ReadLines(path, lines, parse)[j])
    ensures (forall i :: 0 <= i < |lines| ==> lines[i] == "" || parse(lines[i]).None?) ==>
              ReadLines(path, lines, parse) == []
    decreases |lines|
  {
    if lines != [] {
      var here, rest := LineRecord(path, lines[0], parse), ReadLines(path, lines[1..], parse);
      ReadLinesFromParsedLines(path, lines[1..], parse);
      forall j | 0 <= j < |here + rest|
        ensures ParsedFrom(path, lines, parse, (here + rest)[j])
      {
        if j < |here| {
          assert ParsedFrom(path, lines, parse, here[j]) by {
            assert lines[0] == lines[0];
          }
        } else {
          var rec := rest[j - |here|];
          assert ParsedFrom(path, lines[1..], parse, rec);
          var i :| 0 <= i < |lines[1..]| && lines[1..][i] != "" && parse(lines[1..][i]) == Some(rec.1);
          assert lines[1..][i] == lines[i + 1];
        }
      }
      if forall i :: 0 <= i < |lines| ==> lines[i] == "" || parse(lines[i]).None? {
        assert lines[0] == "" || parse(lines[0]).None?;
        assert forall i :: 0 <= i < |lines[1..]| ==> lines[1..][i] == lines[i + 1];
      }
    }
  }

  /** Reading distributes over concatenation: the lines of `a` yield their
      records before those of `b`. */
  lemma {:induction false} ReadLinesConcat(path: string, a: seq<string>, b: seq<string>, parse: string -> Option<Value>)
    ensures ReadLines(path, a + b, parse) == ReadLines(path, a, parse) + ReadLines(path, b, parse)
    decreases |a|
  {
    if a == [] {
      assert a + b == b;
    } else {
      assert (a + b)[1..] == a[1..] + b;
      ReadLinesConcat(path, a[1..], b, parse);
    }
  }

  /** Each line yields its record in place: a non-blank line that parses
      contributes its record between the records of the lines before it and
      those of the lines after it, and any other line contributes nothing. */
  lemma ReadLinesAt(path: string, lines: seq<string>, parse: string -> Option<Value>, n: nat)
    requires n < |lines|
    ensures lines[n] != "" && parse(lines[n]).Some? ==>
              ReadLines(path, lines, parse) ==
                ReadLines(path, lines[..n], parse) + [(path, parse(lines[n]).value)] + ReadLines(path, lines[n + 1..], parse)
    ensures lines[n] == "" || parse(lines[n]).None? ==>
              ReadLines(path, lines, parse) == ReadLines(path, lines[..n], parse) + ReadLines(path, lines[n + 1..], parse)
  {
    ReadLinesSplit(path, lines, parse, n);
    var before, after := ReadLines(path, lines[..n], parse), ReadLines(path, lines[n + 1..], parse);
    if lines[n] == "" || parse(lines[n]).None? {
      assert before + [] == before;
    }
  }

  lemma ReadLinesSplit(path: string, lines: seq<string>, parse: string -> Option<Value>, n: nat)
    requires n < |lines|
    ensures ReadLines(path, lines, parse) ==
              ReadLines(path, lines[..n], parse) + LineRecord(path, lines[n], parse) + ReadLines(path, lines[n + 1..], parse)
  {
    var before, after := lines[..n], lines[n + 1..];
    var tail := [lines[n]] + after;
    assert lines == before + tail;
    ReadLinesConcat(path, before, tail, parse);
    ReadLinesConcat(path, [lines[n]], after, parse);
    ReadLinesOne(path, lines[n], parse);
  }

  lemma ReadLinesOne(path: string, line: string, parse: string -> Option<Value>)
    ensures ReadLines(path, [line], parse) == LineRecord(path, line, parse)
  {
    assert [line][1..] == [];
  }

  // ------------------------------------------------------ one record

  /** `str(obj.get("id") or "")`. */
  function DocId(show: Value -> string, o: map<string, Value>): string {
    var v := Or(Get(o, "id"), Str(""));
    if v.Str? then v.s else show(v)
  }

  /** `f"{doc_id}::chunk{i:03d}"`. */
  function ChunkId(docId: string, i: nat): string {
    docId + "::chunk" + Pad3(i)
  }

  /** The position just after the last `/` among the first `n` characters
      of `p`, 0 when there is none. */
  function AfterLastSlash(p: string, n: nat): (k: nat)
    requires n <= |p|
    ensures k <= n
    ensures k > 0 ==> p[k - 1] == '/'
    ensures forall j :: k <= j < n ==> p[j] != '/'
    decreases n
  {
    if n == 0 || p[n - 1] == '/' then n else AfterLastSlash(p, n - 1)
  }

  /** `os.path.basename`: what follows the last `/`. */
  function Basename(p: string): string {
    p[AfterLastSlash(p, |p|)..]
  }

  /** The base name is a suffix without `/`, preceded by a `/` unless it is
      the whole path. */
  lemma BasenameIsLastComponent(p: string)
    ensures var b := Basename(p);
            |b| <= |p| && b == p[|p| - |b|..] && (forall k :: 0 <= k < |b| ==> b[k] != '/') &&
            (|b| < |p| ==> p[|p| - |b| - 1] == '/')
  {
    var k := AfterLastSlash(p, |p|);
    assert forall j :: 0 <= j < |p| - k ==> p[k..][j] == p[k + j];
  }

  /** The `for k in [...]: if k in meta: m[k] = meta[k]` loop over every
      kind of value `meta` may hold: on an object it copies the known keys
      present; on a list or a string `in` is a membership or substring test
      and a hit makes the subscript raise; on a number or `True` the test
      itself raises. */
  function KnownFields(meta: Value): Result<map<string, Value>, Fault>
  {
    match meta
    case Obj(m) => Ok(map k | k in m && k in KnownKeys :: m[k])
    case Arr(xs) =>
      if exists j | 0 <= j < |KnownKeys| :: Str(KnownKeys[j]) in xs then Err(MetadataNotIndexable) else Ok(map[])
    case Str(s) =>
      if exists j | 0 <= j < |KnownKeys| :: IsSubstring(KnownKeys[j], s) then Err(MetadataNotIndexable) else Ok(map[])
    case _ => if Truthy(meta) then Err(MetadataNotIndexable) else Ok(map[])
  }

  /** The metadata of chunk `i` of `n`. */
  function ChunkMeta(docId: string, i: nat, n: nat, fp: string, known: map<string, Value>): map<string, Value> {
    map["source_id" := Str(docId), "chunk_index" := Int(i),
        "num_chunks" := Int(n), "ingest_file" := Str(Basename(fp))] + known
  }

  /** The entry of chunk `i` of `n`. */
  function ChunkItem(docId: string, fp: string, n: nat, i: nat, chunk: string, known: map<string, Value>): Item {
    Item(ChunkId(docId, i), chunk, ChunkMeta(docId, i, n, fp, known))
  }

  /** The entries of the chunks from position `i` on. */
  function ChunkItemsFrom(docId: string, fp: string, chunks: seq<string>, known: map<string, Value>, i: nat): seq<Item>
    requires i <= |chunks|
    decreases |chunks| - i
  {
    if i == |chunks| then []
    else [ChunkItem(docId, fp, |chunks|, i, chunks[i], known)] + ChunkItemsFrom(docId, fp, chunks, known, i + 1)
  }

  /** The entries of a record's chunks: entry `i` has identifier
      `ChunkId(docId, i)`, chunk `i` as its document and the metadata of chunk
      `i` of `|chunks|`. */
  function ChunkItems(docId: string, fp: string, chunks: seq<string>, known: map<string, Value>): seq<Item> {
    ChunkItemsFrom(docId, fp, chunks, known, 0)
  }

  lemma {:induction false} ChunkItemsFromLength(docId: string, fp: string, chunks: seq<string>, known: map<string, Value>, i: nat)
    requires i <= |chunks|
    ensures |ChunkItemsFrom(docId, fp, chunks, known, i)| == |chunks| - i
    decreases |chunks| - i
  {
    if i < |chunks| {
      ChunkItemsFromLength(docId, fp, chunks, known, i + 1);
    }
  }

  lemma {:induction false} ChunkItemsFromAt(docId: string, fp: string, chunks: seq<string>, known: map<string, Value>, i: nat, k: nat)
    requires i <= k < |chunks|
    ensures |ChunkItemsFrom(docId, fp, chunks, known, i)| == |chunks| - i
    ensures ChunkItemsFrom(docId, fp, chunks, known, i)[k - i] == ChunkItem(docId, fp, |chunks|, k, chunks[k], known)
    decreases k - i
  {
    ChunkItemsFromLength(docId, fp, chunks, known, i);
    if i < k {
      var rest := ChunkItemsFrom(docId, fp, chunks, known, i + 1);
      ChunkItemsFromAt(docId, fp, chunks, known, i + 1, k);
      assert ChunkItemsFrom(docId, fp, chunks, known, i) == [ChunkItem(docId, fp, |chunks|, i, chunks[i], known)] + rest;
      assert ChunkItemsFrom(docId, fp, chunks, known, i)[k - i] == rest[k - (i + 1)];
    }
  }

  lemma ChunkItemsAt(docId: string, fp: string, chunks: seq<string>, known: map<string, Value>)
    ensures |ChunkItems(docId, fp, chunks, known)| == |chunks|
    ensures forall k :: 0 <= k < |chunks| ==>
              ChunkItems(docId, fp, chunks, known)[k] == ChunkItem(docId, fp, |chunks|, k, chunks[k], known)
  {
    ChunkItemsFromLength(docId, fp, chunks, known, 0);
    forall k | 0 <= k < |chunks|
      ensures ChunkItems(docId, fp, chunks, known)[k] == ChunkItem(docId, fp, |chunks|, k, chunks[k], known)
    {
      ChunkItemsFromAt(docId, fp, chunks, known, 0, k);
    }
  }

  lemma ChunkItemAt(docId: string, fp: string, chunks: seq<string>, known: map<string, Value>, k: nat)
    requires k < |chunks|
    ensures |ChunkItems(docId, fp, chunks, known)| == |chunks|
    ensures ChunkItems(docId, fp, chunks, known)[k] == ChunkItem(docId, fp, |chunks|, k, chunks[k], known)
  {
    ChunkItemsFromAt(docId, fp, chunks, known, 0, k);
  }

  predicate AlreadyIngested(rule: SkipRule, docId: string, existing: set<string>) {
    match rule
    case AsWritten => docId in existing
    case Corrected => docId in existing || ChunkId(docId, 0) in existing
  }

  /** The cleaned and chunked text of a record. */
  function RecordChunks(stripNav: string -> string, text: string): seq<string> {
    Chunker.Chunks(Cleaner.Cleaned(stripNav, text), MaxChars, Overlap)
  }

  /** The entries one record contributes, or the exception it raises. */
  function RecordItems(svc: Services, rule: SkipRule, fp: string, obj: Value, existing: set<string>): Result<seq<Item>, Fault>
  {
    if !obj.Obj? then Err(RecordNotObject)
    else
      var o := obj.fields;
      var docId := DocId(svc.show, o);
      var raw := Or(Get(o, "text"), Str(""));
      var meta := Or(Get(o, "metadata"), Obj(map[]));
      if docId == "" || !Truthy(raw) then Ok([])
      else if AlreadyIngested(rule, docId, existing) then Ok([])
      else if !raw.Str? then Err(TextNotString)
      else
        var chunks := RecordChunks(svc.stripNav, raw.s);
        if chunks == [] then Ok([])
        else match KnownFields(meta)
          case Err(e) => Err(e)
          case Ok(known) => Ok(ChunkItems(docId, fp, chunks, known))
  }

  /** What the run as a whole writes, record after record, up to the first
      exception. */
  datatype Plan = Plan(items: seq<Item>, fault: Option<Fault>)

  /** What the run writes given the result of each record: the entries of
      the records from position `r` on, up to the first exception. */
  function PlanOf(results: seq<Result<seq<Item>, Fault>>, r: nat): Plan
    requires r <= |results|
    decreases |results| - r
  {
    if r == |results| then Plan([], None)
    else match results[r]
      case Err(e) => Plan([], Some(e))
      case Ok(its) =>
        var p := PlanOf(results, r + 1);
        Plan(its + p.items, p.fault)
  }

  /** The plan so far is `produced` followed by the plan from `r`; a record
      that yields entries extends `produced`, one that raises ends the plan. */
  ghost predicate PlanSplit(results: seq<Result<seq<Item>, Fault>>, r: nat, produced: seq<Item>)
    requires r <= |results|
  {
    PlanOf(results, 0) == Plan(produced + PlanOf(results, r).items, PlanOf(results, r).fault)
  }

  lemma PlanAdvance(results: seq<Result<seq<Item>, Fault>>, r: nat, produced: seq<Item>)
    requires r < |results| && results[r].Ok? && PlanSplit(results, r, produced)
    ensures PlanSplit(results, r + 1, produced + results[r].value)
  {
    var q := PlanOf(results, r + 1);
    assert produced + (results[r].value + q.items) == (produced + results[r].value) + q.items;
  }

  lemma PlanStops(results: seq<Result<seq<Item>, Fault>>, r: nat, produced: seq<Item>)
    requires r < |results| && results[r].Err? && PlanSplit(results, r, produced)
    ensures PlanOf(results, 0) == Plan(produced, Some(results[r].error))
  {
    assert produced + [] == produced;
  }

  lemma PlanEnds(results: seq<Result<seq<Item>, Fault>>, produced: seq<Item>)
    requires PlanSplit(results, |results|, produced)
    ensures PlanOf(results, 0) == Plan(produced, None)
  {
    assert produced + [] == produced;
  }

  /** The result of each record against the identifiers present at the
      start. */
  function Outcomes(svc: Services, rule: SkipRule, records: seq<(string, Value)>, existing: set<string>)
    : (r: seq<Result<seq<Item>, Fault>>)
    ensures |r| == |records|
    ensures forall k :: 0 <= k < |records| ==> r[k] == RecordItems(svc, rule, records[k].0, records[k].1, existing)
  {
    seq(|records|, k requires 0 <= k < |records| => RecordItems(svc, rule, records[k].0, records[k].1, existing))
  }

  function PlanRun(svc: Services, rule: SkipRule, records: seq<(string, Value)>, existing: set<string>): Plan {
    PlanOf(Outcomes(svc, rule, records, existing), 0)
  }

  // ------------------------------------------------------------ batching

  /** Consecutive groups of `BatchSize` entries, the last one possibly
      shorter. */
  function Groups(items: seq<Item>): seq<seq<Item>>
    decreases |items|
  {
    if items == [] then []
    else if |items| <= BatchSize then [items]
    else [items[..BatchSize]] + Groups(items[BatchSize..])
  }

  function Flatten(gs: seq<seq<Item>>): seq<Item>
    decreases |gs|
  {
    if gs == [] then [] else gs[0] + Flatten(gs[1..])
  }

  /** Every batch is non-empty and at most `BatchSize` long, every batch but
      the last is exactly `BatchSize` long, and the batches in order are the
      entries. */
  lemma {:induction false} GroupsPartition(items: seq<Item>)
    ensures Flatten(Groups(items)) == items
    ensures forall j :: 0 <= j < |Groups(items)| ==> 0 < |Groups(items)[j]| <= BatchSize
    ensures forall j :: 0 <= j < |Groups(items)| - 1 ==> |Groups(items)[j]| == BatchSize
    decreases |items|
  {
    if |items| > BatchSize {
      GroupsPartition(items[BatchSize..]);
      assert items[..BatchSize] + items[BatchSize..] == items;
    }
  }

  lemma NextWhole(n: nat)
    requires n % BatchSize == 0
    ensures (n + BatchSize) % BatchSize == 0
  {
  }

  /** The `add` calls that writing `items` in batches makes: one call per
      group, carrying the group and the embeddings of its documents. */
  function AddCalls(embed: seq<string> -> seq<Embedding>, items: seq<Item>): seq<Call>
    decreases |items|
  {
    if items == [] then []
    else if |items| <= BatchSize then [Add(Batch(items, embed(Docs(items))))]
    else [Add(Batch(items[..BatchSize], embed(Docs(items[..BatchSize]))))] + AddCalls(embed, items[BatchSize..])
  }

  lemma {:induction false} AddCallsAreGroups(embed: seq<string> -> seq<Embedding>, items: seq<Item>)
    ensures |AddCalls(embed, items)| == |Groups(items)|
    ensures forall j :: 0 <= j < |Groups(items)| ==>
              AddCalls(embed, items)[j] == Add(Batch(Groups(items)[j], embed(Docs(Groups(items)[j]))))
    decreases |items|
  {
    if |items| > BatchSize {
      AddCallsAreGroups(embed, items[BatchSize..]);
    }
  }

  lemma PrevWhole(n: nat)
    requires n % BatchSize == 0 && n >= BatchSize
    ensures (n - BatchSize) % BatchSize == 0
  {
  }

  /** More than one batch: the first call carries the first `BatchSize`
      entries. */
  lemma AddCallsFirst(embed: seq<string> -> seq<Embedding>, zs: seq<Item>)
    requires |zs| > BatchSize
    ensures AddCalls(embed, zs) == [Add(Batch(zs[..BatchSize], embed(Docs(zs[..BatchSize]))))] + AddCalls(embed, zs[BatchSize..])
  {
  }

  lemma ConcatSlices(xs: seq<Item>, ys: seq<Item>, n: nat)
    requires n <= |xs|
    ensures (xs + ys)[..n] == xs[..n] && (xs + ys)[n..] == xs[n..] + ys
  {
  }

  lemma WholeAtLeastOne(n: nat)
    requires n % BatchSize == 0 && n > 0
    ensures n >= BatchSize
  {
  }

  /** One whole batch in front adds its call in front. */
  lemma AddCallsPrepend(embed: seq<string> -> seq<Embedding>, xs: seq<Item>, ys: seq<Item>)
    requires |xs| == BatchSize
    ensures AddCalls(embed, xs + ys) == AddCalls(embed, xs) + AddCalls(embed, ys)
  {
    if ys == [] {
      assert xs + ys == xs;
    } else {
      ConcatSlices(xs, ys, BatchSize);
      assert xs[..BatchSize] == xs && xs[BatchSize..] + ys == ys;
      AddCallsFirst(embed, xs + ys);
    }
  }

  lemma {:induction false} AddCallsAppend(embed: seq<string> -> seq<Embedding>, xs: seq<Item>, ys: seq<Item>)
    requires |xs| % BatchSize == 0
    ensures AddCalls(embed, xs + ys) == AddCalls(embed, xs) + AddCalls(embed, ys)
    decreases |xs|
  {
    if xs == [] {
      assert xs + ys == ys;
    } else {
      WholeAtLeastOne(|xs|);
      PrevWhole(|xs|);
      var head, tail := xs[..BatchSize], xs[BatchSize..];
      assert xs == head + tail && xs + ys == head + (tail + ys);
      AddCallsAppend(embed, tail, ys);
      AddCallsPrepend(embed, head, tail + ys);
      AddCallsPrepend(embed, head, tail);
      assert AddCalls(embed, head) + (AddCalls(embed, tail) + AddCalls(embed, ys)) ==
             (AddCalls(embed, head) + AddCalls(embed, tail)) + AddCalls(embed, ys);
    }
  }

  lemma AddCallsOneBatch(embed: seq<string> -> seq<Embedding>, xs: seq<Item>, ys: seq<Item>)
    requires |xs| % BatchSize == 0 && 0 < |ys| <= BatchSize
    ensures AddCalls(embed, xs + ys) == AddCalls(embed, xs) + [Add(Batch(ys, embed(Docs(ys))))]
  {
    AddCallsAppend(embed, xs, ys);
  }


  /** After the entries `all[..upTo]`, the first `sent` of them went out in
      whole batches, and the rest are pending. */
  ghost predicate Progress(embed: seq<string> -> seq<Embedding>, all: seq<Item>, calls0: seq<Call>,
                           sent: nat, upTo: nat, pending: seq<Item>, calls: seq<Call>)
  {
    && sent % BatchSize == 0 && sent <= upTo <= |all|
    && |pending| < BatchSize && pending == all[sent..upTo]
    && calls == calls0 + AddCalls(embed, all[..sent])
  }

  /** One `Push` of the next entry keeps that progress. */
  lemma PushStep(embed: seq<string> -> seq<Embedding>, all: seq<Item>, calls0: seq<Call>, sent: nat, upTo: nat,
                 pending: seq<Item>, pending': seq<Item>, before: seq<Call>, after: seq<Call>, sent': nat)
    requires upTo < |all| && Progress(embed, all, calls0, sent, upTo, pending, before)
    requires var full := pending + [all[upTo]];
             if |full| == BatchSize
             then pending' == [] && after == before + [Add(Batch(full, embed(Docs(full))))]
             else pending' == full && after == before
    requires sent' == if pending' == [] then sent + BatchSize else sent
    ensures Progress(embed, all, calls0, sent', upTo + 1, pending', after)
  {
    var full := pending + [all[upTo]];
    assert full == all[sent..upTo + 1];
    if |full| == BatchSize {
      FlushStep(embed, all, sent, full);
      assert after == calls0 + (AddCalls(embed, all[..sent]) + [Add(Batch(full, embed(Docs(full))))]);
      assert all[sent'..upTo + 1] == [];
    }
  }

  /** Sending a full pending list moves the sent prefix up by one batch. */
  lemma FlushStep(embed: seq<string> -> seq<Embedding>, all: seq<Item>, sent: nat, pending: seq<Item>)
    requires sent % BatchSize == 0 && |pending| == BatchSize && sent + BatchSize <= |all|
    requires pending == all[sent..sent + BatchSize]
    ensures (sent + BatchSize) % BatchSize == 0
    ensures AddCalls(embed, all[..sent + BatchSize]) == AddCalls(embed, all[..sent]) + [Add(Batch(pending, embed(Docs(pending))))]
  {
    NextWhole(sent);
    assert all[..sent + BatchSize] == all[..sent] + pending;
    AddCallsOneBatch(embed, all[..sent], pending);
  }

  lemma WholeSum(a: nat, b: nat)
    requires a % BatchSize == 0 && b % BatchSize == 0
    ensures (a + b) % BatchSize == 0
  {
  }

  /** Of the entries `produced` so far, the first `added` went out in whole
      batches after `calls0`, and the rest are pending. */
  ghost predicate Batched(embed: seq<string> -> seq<Embedding>, calls0: seq<Call>, calls: seq<Call>,
                          produced: seq<Item>, added: nat, pending: seq<Item>)
  {
    && added % BatchSize == 0 && added + |pending| == |produced| && |pending| < BatchSize
    && pending == produced[added..]
    && calls == calls0 + AddCalls(embed, produced[..added])
  }

  lemma AdvanceStep(embed: seq<string> -> seq<Embedding>, calls0: seq<Call>, before: seq<Call>, after: seq<Call>,
                    produced: seq<Item>, added: nat, pending: seq<Item>, its: seq<Item>, sent: nat, pending': seq<Item>,
                    produced': seq<Item>, added': nat)
    requires Batched(embed, calls0, before, produced, added, pending)
    requires produced' == produced + its && added' == added + sent
    requires sent % BatchSize == 0 && |pending'| < BatchSize
    requires sent <= |pending + its| && pending' == (pending + its)[sent..]
    requires after == before + AddCalls(embed, (pending + its)[..sent])
    ensures Batched(embed, calls0, after, produced', added', pending')
  {
    WholeSum(added, sent);
    assert produced + its == produced[..added] + (pending + its);
    assert (produced + its)[..added + sent] == produced[..added] + (pending + its)[..sent];
    AddCallsAppend(embed, produced[..added], (pending + its)[..sent]);
  }

  /** Sending what is pending at the end completes the batches of all
      entries. */
  lemma FinishStep(embed: seq<string> -> seq<Embedding>, calls0: seq<Call>, before: seq<Call>, after: seq<Call>,
                   produced: seq<Item>, added: nat, pending: seq<Item>)
    requires added % BatchSize == 0 && added + |pending| == |produced| && pending == produced[added..]
    requires |pending| <= BatchSize
    requires before == calls0 + AddCalls(embed, produced[..added])
    requires pending != [] ==> after == before + [Add(Batch(pending, embed(Docs(pending))))]
    requires pending == [] ==> after == before
    ensures after == calls0 + AddCalls(embed, produced)
  {
    assert produced == produced[..added] + pending;
    if pending != [] {
      AddCallsOneBatch(embed, produced[..added], pending);
      assert after == calls0 + (AddCalls(embed, produced[..added]) + [Add(Batch(pending, embed(Docs(pending))))]);
    } else {
      assert produced[..added] == produced;
    }
  }

  // ------------------------------------------------------------- the run

  /** One step of the `for i, ch in enumerate(chunks)` loop: `item` joins
      the pending list, which is sent and emptied once it holds `BatchSize`
      entries. */
  method Push(embed: seq<string> -> seq<Embedding>, col: Collection, pending: seq<Item>, item: Item)
    returns (pending': seq<Item>)
    requires |pending| < BatchSize
    requires col.Valid()
    modifies col
    ensures col.Valid() && col.initial == old(col.initial)
    ensures var full := pending + [item];
            if |full| == BatchSize
            then pending' == [] && col.calls == old(col.calls) + [Add(Batch(full, embed(Docs(full))))]
            else pending' == full && col.calls == old(col.calls)
  {
    pending' := pending + [item];
    if |pending'| >= BatchSize {
      col.AddBatch(Batch(pending', embed(Docs(pending'))));
      pending' := [];
    }
  }

  /** The `for i, ch in enumerate(chunks)` loop, run over the entries of
      the chunks in order. The three pending lists `pend_ids`, `pend_docs`,
      `pend_meta` are appended together and emptied together, so they are
      kept as one list of entries. Each entry is appended, and the list is
      sent as one `add` call and emptied whenever it reaches `BatchSize`;
      `sent` is what the loop adds to `added`. */
  method AppendItems(embed: seq<string> -> seq<Embedding>, col: Collection, items: seq<Item>, pending: seq<Item>)
    returns (pending': seq<Item>, sent: nat)
    requires |pending| < BatchSize
    requires col.Valid()
    modifies col
    ensures col.Valid() && col.initial == old(col.initial)
    ensures |pending'| < BatchSize
    ensures sent % BatchSize == 0 && sent <= |pending + items|
    ensures pending' == (pending + items)[sent..]
    ensures col.calls == old(col.calls) + AddCalls(embed, (pending + items)[..sent])
  {
    ghost var all := pending + items;
    ghost var calls0 := col.calls;
    pending', sent := pending, 0;
    var i := 0;
    while i < |items|
      invariant 0 <= i <= |items|
      invariant Progress(embed, all, calls0, sent, |pending| + i, pending', col.calls)
      invariant col.Valid() && col.initial == old(col.initial)
    {
      assert all[|pending| + i] == items[i];
      ghost var before := col.calls;
      var p := pending';
      pending' := Push(embed, col, p, items[i]);
      var sent' := if pending' == [] then sent + BatchSize else sent;
      PushStep(embed, all, calls0, sent, |pending| + i, p, pending', before, col.calls, sent');
      sent := sent';
      i := i + 1;
    }
    assert all[sent..|all|] == all[sent..];
  }

  /** `results` holds the result of each record. The trigger keeps a
      caller that only moves through `results` from unfolding the records'
      processing. */
  ghost predicate ResultsOf(svc: Services, rule: SkipRule, records: seq<(string, Value)>, existing: set<string>,
                            results: seq<Result<seq<Item>, Fault>>)
  {
    && |results| == |records|
    && forall k {:trigger RecordItems(svc, rule, records[k].0, records[k].1, existing)} ::
         0 <= k < |records| ==> results[k] == RecordItems(svc, rule, records[k].0, records[k].1, existing)
  }

  /** One iteration of the record loop of `main`, on record `r`, whose result
      is `outs[r]`. */
  method IngestRecord(svc: Services, rule: SkipRule, records: seq<(string, Value)>, r: nat, existing: set<string>,
                      col: Collection, pending: seq<Item>, ghost outs: seq<Result<seq<Item>, Fault>>)
    returns (pending': seq<Item>, sent: nat, fault: Option<Fault>)
    requires r < |records| && ResultsOf(svc, rule, records, existing, outs)
    requires |pending| < BatchSize
    requires col.Valid()
    modifies col
    ensures col.Valid() && col.initial == old(col.initial)
    ensures |pending'| < BatchSize
    ensures match outs[r]
            case Err(e) => fault == Some(e) && col.calls == old(col.calls)
            case Ok(its) =>
              && fault == None
              && sent % BatchSize == 0 && sent <= |pending + its|
              && pending' == (pending + its)[sent..]
              && col.calls == old(col.calls) + AddCalls(svc.embed, (pending + its)[..sent])
  {
    var fp, obj := records[r].0, records[r].1;
    assert outs[r] == RecordItems(svc, rule, fp, obj, existing);
    pending', sent, fault := pending, 0, None;
    assert pending + [] == pending;
    if !obj.Obj? {
      return pending', sent, Some(RecordNotObject);
    }
    var o := obj.fields;
    var docId := DocId(svc.show, o);
    var raw := Or(Get(o, "text"), Str(""));
    var meta := Or(Get(o, "metadata"), Obj(map[]));
    if docId == "" || !Truthy(raw) {
      return;
    }
    if AlreadyIngested(rule, docId, existing) {
      return;
    }
    if !raw.Str? {
      return pending', sent, Some(TextNotString);
    }
    var text := Cleaner.CleanText(svc.stripNav, raw.s);
    var chunks := Chunker.Chunkify(text, MaxChars, Overlap);
    if chunks == [] {
      return;
    }
    var known := KnownFields(meta);
    if known.Err? {
      return pending', sent, Some(known.error);
    }
    var items := ChunkItems(docId, fp, chunks, known.value);
    pending', sent := AppendItems(svc.embed, col, items, pending);
  }

  /** The record loop of `main`: the records are ingested in order until
      one fails. `produced` is what the records before the stop gave, of
      which the first `added` entries were sent in whole batches and the
      rest are `pending`. */
  method RecordLoop(svc: Services, rule: SkipRule, records: seq<(string, Value)>, existing: set<string>,
                    col: Collection, ghost outs: seq<Result<seq<Item>, Fault>>)
    returns (pending: seq<Item>, added: nat, fault: Option<Fault>, ghost produced: seq<Item>)
    requires ResultsOf(svc, rule, records, existing, outs)
    requires col.Valid()
    modifies col
    ensures col.Valid() && col.initial == old(col.initial)
    ensures PlanOf(outs, 0) == Plan(produced, fault)
    ensures added % BatchSize == 0 && added + |pending| == |produced| && |pending| < BatchSize
    ensures pending == produced[added..]
    ensures col.calls == old(col.calls) + AddCalls(svc.embed, produced[..added])
  {
    ghost var calls0 := col.calls;
    produced := [];
    pending := [];
    added := 0;
    var r := 0;
    while r < |records|
      invariant 0 <= r <= |records|
      invariant PlanSplit(outs, r, produced)
      invariant Batched(svc.embed, calls0, col.calls, produced, added, pending)
      invariant col.Valid() && col.initial == old(col.initial)
    {
      ghost var before := col.calls;
      var pending0 := pending;
      var sent;
      pending, sent, fault := IngestRecord(svc, rule, records, r, existing, col, pending, outs);
      if fault.Some? {
        PlanStops(outs, r, produced);
        return pending0, added, fault, produced;
      }
      assert outs[r].Ok?;
      ghost var its := outs[r].value;
      PlanAdvance(outs, r, produced);
      ghost var produced' := produced + its;
      var added' := added + sent;
      AdvanceStep(svc.embed, calls0, before, col.calls, produced, added, pending0, its, sent, pending, produced', added');
      produced, added := produced', added';
      r := r + 1;
    }
    PlanEnds(outs, produced);
    fault := None;
  }

  /** The record loop of `main` and the final flush, over the records read
      and the identifiers present when the run started. */
  method IngestRecords(svc: Services, rule: SkipRule, records: seq<(string, Value)>, existing: set<string>,
                       col: Collection, ghost outs: seq<Result<seq<Item>, Fault>>) returns (outcome: RunOutcome)
    requires ResultsOf(svc, rule, records, existing, outs)
    requires col.Valid()
    modifies col
    ensures col.Valid() && col.initial == old(col.initial)
    ensures var p := PlanOf(outs, 0);
            && (records == [] ==> outcome == NoRecords && col.calls == old(col.calls))
            && (records != [] && p.fault == None ==>
                  outcome == Completed(|p.items|) && col.calls == old(col.calls) + AddCalls(svc.embed, p.items))
            && (p.fault.Some? ==>
                  && outcome.Aborted? && outcome.fault == p.fault.value
                  && outcome.added % BatchSize == 0 && outcome.added <= |p.items| < outcome.added + BatchSize
                  && col.calls == old(col.calls) + AddCalls(svc.embed, p.items[..outcome.added]))
  {
    ghost var calls0 := col.calls;
    var pending, added, fault, produced := RecordLoop(svc, rule, records, existing, col, outs);
    if fault.Some? {
      return Aborted(fault.value, added);
    }
    if records == [] {
      assert produced[..added] == [];
      return NoRecords;
    }
    ghost var before, added0 := col.calls, added;
    if |pending| > 0 {
      col.AddBatch(Batch(pending, svc.embed(Docs(pending))));
      added := added + |pending|;
    }
    FinishStep(svc.embed, calls0, before, col.calls, produced, added0, pending);
    assert added == |produced| && PlanOf(outs, 0) == Plan(produced, None);
    return Completed(added);
  }

  /** `main`: the identifiers present are read once, then the records of the
      files are ingested. */
  method Ingest(svc: Services, rule: SkipRule, files: seq<SourceFile>, col: Collection) returns (outcome: RunOutcome)
    requires col.Valid()
    modifies col
    ensures col.Valid() && col.initial == old(col.initial)
    ensures var records := ReadRecords(files, svc.parse);
            var p := PlanRun(svc, rule, records, old(col.Ids()));
            && (records == [] ==> outcome == NoRecords && col.calls == old(col.calls))
            && (records != [] && p.fault == None ==>
                  outcome == Completed(|p.items|) && col.calls == old(col.calls) + AddCalls(svc.embed, p.items))
            && (p.fault.Some? ==>
                  && outcome.Aborted? && outcome.fault == p.fault.value
                  && outcome.added % BatchSize == 0 && outcome.added <= |p.items| < outcome.added + BatchSize
                  && col.calls == old(col.calls) + AddCalls(svc.embed, p.items[..outcome.added]))
    ensures var p := PlanRun(svc, rule, ReadRecords(files, svc.parse), old(col.Ids()));
            && (outcome.Completed? ==> col.Ids() == old(col.Ids()) + IdSet(p.items))
            && (outcome.Aborted? ==> col.Ids() == old(col.Ids()) + IdSet(p.items[..outcome.added]))
            && forall id :: id in old(col.entries) ==> id in col.entries && col.entries[id] == old(col.entries)[id]
  {
    var existing := col.Ids();
    var records := ReadRecords(files, svc.parse);
    outcome := IngestRecords(svc, rule, records, existing, col, Outcomes(svc, rule, records, existing));
    ghost var p := PlanRun(svc, rule, records, existing);
    ghost var sent := if outcome.Aborted? then p.items[..outcome.added] else if outcome.Completed? then p.items else [];
    assert col.calls == old(col.calls) + AddCalls(svc.embed, sent);
    StoreAfterAdds(svc.embed, col.initial, old(col.calls), sent);
  }

  /** Recorded `add` calls after earlier ones: the new contents are the
      earlier contents with the new identifiers added and nothing replaced. */
  lemma StoreAfterAdds(embed: seq<string> -> seq<Embedding>, m: map<string, Stored>, calls0: seq<Call>, items: seq<Item>)
    ensures var before, after := ApplyCalls(m, calls0), ApplyCalls(m, calls0 + AddCalls(embed, items));
            && after.Keys == before.Keys + IdSet(items)
            && forall id :: id in before ==> after[id] == before[id]
  {
    ApplyCallsConcat(m, calls0, AddCalls(embed, items));
    AddCallsStore(embed, ApplyCalls(m, calls0), items);
  }

  // ---------------------------------------------------------- properties

  /** Chunk identifiers of one record differ from each other and from the
      record's own identifier. */
  lemma ChunkIdsDistinct(docId: string, i: nat, j: nat)
    ensures ChunkId(docId, i) == ChunkId(docId, j) <==> i == j
    ensures ChunkId(docId, i) != docId
  {
    if ChunkId(docId, i) == ChunkId(docId, j) {
      var pre := docId + "::chunk";
      assert ChunkId(docId, i) == pre + Pad3(i) && ChunkId(docId, j) == pre + Pad3(j);
      assert Pad3(i) == ChunkId(docId, i)[|pre|..];
      assert Pad3(j) == ChunkId(docId, j)[|pre|..];
      Pad3RoundTrip(i);
      Pad3RoundTrip(j);
    }
    assert |ChunkId(docId, i)| > |docId|;
  }

  /** On an object, the known keys it holds are copied and nothing else; a
      list or string raises exactly when one of the known keys is an element
      or a substring of it; any other truthy value raises, and a falsy one
      (which `or {}` has already replaced) contributes nothing. */
  lemma KnownFieldsSemantics(meta: Value)
    ensures meta.Obj? ==>
              && KnownFields(meta).Ok?
              && KnownFields(meta).value.Keys == set k | k in meta.fields && k in KnownKeys
              && forall k :: k in KnownFields(meta).value ==> KnownFields(meta).value[k] == meta.fields[k]
    ensures meta.Arr? ==>
              (KnownFields(meta).Err? <==> exists j :: 0 <= j < |KnownKeys| && Str(KnownKeys[j]) in meta.elems)
    ensures meta.Str? ==>
              (KnownFields(meta).Err? <==> exists j :: 0 <= j < |KnownKeys| && IsSubstring(KnownKeys[j], meta.s))
    ensures (meta.Null? || meta.Bool? || meta.Int? || meta.Float?) ==> (KnownFields(meta).Err? <==> Truthy(meta))
    ensures KnownFields(meta).Ok? ==> forall k :: k in KnownFields(meta).value ==> k in KnownKeys
  {
  }

  /** The metadata of chunk `i` of `n` names the record, the position, the
      count and the file's base name, and carries every known field. */
  lemma ChunkMetaFields(docId: string, i: nat, n: nat, fp: string, known: map<string, Value>)
    requires forall k :: k in known ==> k in KnownKeys
    ensures var m := ChunkMeta(docId, i, n, fp, known);
            && m["source_id"] == Str(docId) && m["chunk_index"] == Int(i)
            && m["num_chunks"] == Int(n) && m["ingest_file"] == Str(Basename(fp))
            && m.Keys == {"source_id", "chunk_index", "num_chunks", "ingest_file"} + known.Keys
            && forall k :: k in known ==> m[k] == known[k]
  {
    assert "source_id" !in KnownKeys && "chunk_index" !in KnownKeys;
    assert "num_chunks" !in KnownKeys && "ingest_file" !in KnownKeys;
  }

  /** A record is left out, with nothing written and no exception, when it
      has no identifier, no text, is already present, or its text cleans to
      nothing. */
  lemma SkippedRecords(svc: Services, rule: SkipRule, fp: string, o: map<string, Value>, existing: set<string>)
    ensures var docId, raw := DocId(svc.show, o), Or(Get(o, "text"), Str(""));
            (docId == "" || !Truthy(raw) || AlreadyIngested(rule, docId, existing) ||
             (raw.Str? && RecordChunks(svc.stripNav, raw.s) == [])) ==>
            RecordItems(svc, rule, fp, Obj(o), existing) == Ok([])
  {
  }

  /** Every chunk of a record's text holds at most `MaxChars` characters. */
  lemma ChunksFit(stripNav: string -> string, text: string)
    ensures forall k :: 0 <= k < |RecordChunks(stripNav, text)| ==> |RecordChunks(stripNav, text)[k]| <= MaxChars
  {
    var t := Cleaner.Cleaned(stripNav, text);
    var c := Chunker.Chunks(t, MaxChars, Overlap);
    assert RecordChunks(stripNav, text) == c;
    if |Strip(t)| > MaxChars {
      Chunker.ChunksAreWindows(t, MaxChars, Overlap);
      Chunker.WindowingSizes(c, Strip(t), MaxChars, Overlap);
    } else {
      Chunker.ShortTextIsOneChunk(t, MaxChars, Overlap);
    }
  }

  /** Entry `k` of a record's chunk list is chunk `k` under identifier
      `<id>::chunkNNN`, and its metadata names the record, `k`, the chunk
      count and the file, and carries the known fields. */
  lemma ChunkEntries(docId: string, fp: string, chunks: seq<string>, known: map<string, Value>)
    requires forall k :: k in known ==> k in KnownKeys
    ensures var its := ChunkItems(docId, fp, chunks, known);
            && |its| == |chunks|
            && forall k :: 0 <= k < |its| ==>
                 && its[k].id == ChunkId(docId, k)
                 && its[k].document == chunks[k]
                 && "source_id" in its[k].metadata && its[k].metadata["source_id"] == Str(docId)
                 && "chunk_index" in its[k].metadata && its[k].metadata["chunk_index"] == Int(k)
                 && "num_chunks" in its[k].metadata && its[k].metadata["num_chunks"] == Int(|chunks|)
                 && "ingest_file" in its[k].metadata && its[k].metadata["ingest_file"] == Str(Basename(fp))
                 && forall key :: key in known ==> key in its[k].metadata && its[k].metadata[key] == known[key]
  {
    ChunkItemsAt(docId, fp, chunks, known);
    forall k | 0 <= k < |chunks|
      ensures var m := ChunkMeta(docId, k, |chunks|, fp, known);
              && m["source_id"] == Str(docId) && m["chunk_index"] == Int(k)
              && m["num_chunks"] == Int(|chunks|) && m["ingest_file"] == Str(Basename(fp))
              && forall key :: key in known ==> m[key] == known[key]
    {
      ChunkMetaFields(docId, k, |chunks|, fp, known);
    }
  }

  /** The entries of a record that is not skipped are those of its cleaned
      chunks, each at most `MaxChars` characters long. */
  lemma RecordEntries(svc: Services, rule: SkipRule, fp: string, o: map<string, Value>, existing: set<string>)
    requires RecordItems(svc, rule, fp, Obj(o), existing).Ok?
    requires RecordItems(svc, rule, fp, Obj(o), existing).value != []
    ensures var docId, raw := DocId(svc.show, o), Or(Get(o, "text"), Str(""));
            var meta := Or(Get(o, "metadata"), Obj(map[]));
            && docId != "" && !AlreadyIngested(rule, docId, existing) && raw.Str?
            && KnownFields(meta).Ok?
            && RecordItems(svc, rule, fp, Obj(o), existing).value
               == ChunkItems(docId, fp, RecordChunks(svc.stripNav, raw.s), KnownFields(meta).value)
            && forall k :: 0 <= k < |RecordChunks(svc.stripNav, raw.s)| ==>
                 |RecordChunks(svc.stripNav, raw.s)[k]| <= MaxChars
  {
    var raw := Or(Get(o, "text"), Str(""));
    ChunksFit(svc.stripNav, raw.s);
  }

  /** A collection holding nothing. */
  const NoIds: set<string> := {}

  /** As written, a record whose chunks are stored is not recognised on a
      later run: the test looks for the bare identifier, which is never a
      chunk identifier, so the record gives the same entries it would give
      against an empty collection, and their identifiers are already stored. */
  lemma AsWrittenResendsStoredRecord(svc: Services, fp: string, o: map<string, Value>, existing: set<string>)
    requires DocId(svc.show, o) !in existing && ChunkId(DocId(svc.show, o), 0) in existing
    requires RecordItems(svc, AsWritten, fp, Obj(o), NoIds).Ok?
    requires RecordItems(svc, AsWritten, fp, Obj(o), NoIds).value != []
    ensures RecordItems(svc, AsWritten, fp, Obj(o), existing) == RecordItems(svc, AsWritten, fp, Obj(o), NoIds)
    ensures RecordItems(svc, AsWritten, fp, Obj(o), existing).value[0].id in existing
  {
    RecordEntries(svc, AsWritten, fp, o, NoIds);
    var raw, meta := Or(Get(o, "text"), Str("")), Or(Get(o, "metadata"), Obj(map[]));
    ChunkItemAt(DocId(svc.show, o), fp, RecordChunks(svc.stripNav, raw.s), KnownFields(meta).value, 0);
  }

  /** With the corrected test, a record whose first chunk is stored is
      skipped. */
  lemma CorrectedSkipsStoredRecord(svc: Services, fp: string, o: map<string, Value>, existing: set<string>)
    requires ChunkId(DocId(svc.show, o), 0) in existing
    ensures RecordItems(svc, Corrected, fp, Obj(o), existing) == Ok([])
  {
  }

  /** With the corrected test, a record that produced entries once, or was
      skipped, is skipped on a later run against a collection that holds
      what was there before and the entries it produced. */
  lemma RecordRerun(svc: Services, fp: string, obj: Value, e1: set<string>, e2: set<string>)
    requires e1 <= e2
    requires RecordItems(svc, Corrected, fp, obj, e1).Ok?
    requires IdSet(RecordItems(svc, Corrected, fp, obj, e1).value) <= e2
    ensures RecordItems(svc, Corrected, fp, obj, e2) == Ok([])
  {
    var its := RecordItems(svc, Corrected, fp, obj, e1).value;
    if its != [] {
      var o := obj.fields;
      RecordEntries(svc, Corrected, fp, o, e1);
      var raw, meta := Or(Get(o, "text"), Str("")), Or(Get(o, "metadata"), Obj(map[]));
      ChunkItemAt(DocId(svc.show, o), fp, RecordChunks(svc.stripNav, raw.s), KnownFields(meta).value, 0);
      assert its[0].id in IdSet(its);
    }
  }

  /** A plan without exception whose every record is skipped on the second
      run leaves nothing to write on it. */
  lemma {:induction false} RerunFrom(res1: seq<Result<seq<Item>, Fault>>, res2: seq<Result<seq<Item>, Fault>>,
                                     e2: set<string>, r: nat)
    requires r <= |res1| == |res2|
    requires forall k :: r <= k < |res1| && res1[k].Ok? && IdSet(res1[k].value) <= e2 ==> res2[k] == Ok([])
    requires PlanOf(res1, r).fault == None && IdSet(PlanOf(res1, r).items) <= e2
    ensures PlanOf(res2, r) == Plan([], None)
    decreases |res1| - r
  {
    if r < |res1| {
      var p1 := PlanOf(res1, r + 1);
      IdSetConcat(res1[r].value, p1.items);
      RerunFrom(res1, res2, e2, r + 1);
    }
  }

  /** With the corrected test the pipeline is idempotent: once a run has
      completed, a second run over the same files against the collection it
      left adds nothing. */
  lemma RerunAddsNothing(svc: Services, records: seq<(string, Value)>, e1: set<string>, e2: set<string>)
    requires e1 <= e2
    requires PlanRun(svc, Corrected, records, e1).fault == None
    requires IdSet(PlanRun(svc, Corrected, records, e1).items) <= e2
    ensures PlanRun(svc, Corrected, records, e2) == Plan([], None)
  {
    var res1, res2 := Outcomes(svc, Corrected, records, e1), Outcomes(svc, Corrected, records, e2);
    forall k | 0 <= k < |res1| && res1[k].Ok? && IdSet(res1[k].value) <= e2
      ensures res2[k] == Ok([])
    {
      RecordRerun(svc, records[k].0, records[k].1, e1, e2);
    }
    RerunFrom(res1, res2, e2, 0);
  }

  /** Writing a run's entries with `add` calls stores every new identifier
      and leaves every stored entry as it was. */
  lemma {:induction false} AddCallsStore(embed: seq<string> -> seq<Embedding>, m: map<string, Stored>, items: seq<Item>)
    ensures ApplyCalls(m, AddCalls(embed, items)).Keys == m.Keys + IdSet(items)
    ensures forall id :: id in m ==> ApplyCalls(m, AddCalls(embed, items))[id] == m[id]
    decreases |items|
  {
    if items != [] {
      if |items| <= BatchSize {
        var c := Add(Batch(items, embed(Docs(items))));
        assert AddCalls(embed, items) == [c];
        ApplyOne(m, c);
      } else {
        var head, tail := items[..BatchSize], items[BatchSize..];
        var c := Add(Batch(head, embed(Docs(head))));
        var rest := AddCalls(embed, tail);
        assert AddCalls(embed, items) == [c] + rest;
        ApplyCallsConcat(m, [c], rest);
        ApplyOne(m, c);
        AddCallsStore(embed, InsertAbsent(m, head), tail);
        TakeDrop(items, BatchSize);
        IdSetConcat(head, tail);
      }
    }
  }
}
