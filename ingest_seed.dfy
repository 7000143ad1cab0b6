/** The seed ingester of app/ingest_seed.py: JSON-lines seed records are
    loaded, failing on the first line that does not parse; each record is
    normalised to a stripped text, an identifier and scalar metadata, records
    that do not normalise are skipped, and the survivors are written in one
    `upsert` call. */
module IngestSeed {
  import opened Wrappers
  import opened Text
  import opened Json
  import opened VectorStore

  /** The length of text the fallback identifier is computed from. */
  const HashedPrefix: nat := 256
  /** The length of the offending line quoted in a parse error. */
  const QuotedPrefix: nat := 200
  /** The number of hexadecimal digits kept from the digest. */
  const IdDigits: nat := 16

  /** The code the seed ingester calls but does not define. */
  datatype Services = Services(
    parse: string -> Option<Value>,       // json.loads; None where it raises
    sha1Hex: string -> string,            // hashlib.sha1(s.encode("utf-8")).hexdigest()
    dumps: Value -> string,               // json.dumps(v, ensure_ascii=False)
    embed: seq<string> -> seq<Embedding>  // embed_texts
  )

  // ----------------------------------------------------- load_jsonl_files

  datatype LoadError =
    | NoFilesMatched                                         // FileNotFoundError
    | InvalidJson(path: string, lineNo: nat, excerpt: string) // ValueError naming `fp:i` and the line
    | NoRecords                                              // ValueError: no records across the files

  /** `r` with `vs` in front of its values; an error is kept. */
  function Prepend(vs: seq<Value>, r: Result<seq<Value>, LoadError>): Result<seq<Value>, LoadError> {
    match r
    case Ok(ws) => Ok(vs + ws)
    case Err(e) => Err(e)
  }

  /** The first error of `r1` and `r2`, or both value lists in order. */
  function Chain(r1: Result<seq<Value>, LoadError>, r2: Result<seq<Value>, LoadError>): Result<seq<Value>, LoadError> {
    match r1
    case Err(e) => Err(e)
    case Ok(vs) => Prepend(vs, r2)
  }

  /** The records of the stripped lines of file `fp` from position `i`
      (line number `i + 1`) on: blank lines are skipped, the first line that
      does not parse is an error. */
  function LoadLines(fp: string, lines: seq<string>, parse: string -> Option<Value>, i: nat): Result<seq<Value>, LoadError>
    requires i <= |lines|
    decreases |lines| - i
  {
    if i == |lines| then Ok([])
    else
      var line := lines[i];
      if line == "" then LoadLines(fp, lines, parse, i + 1)
      else match parse(line)
        case None => Err(InvalidJson(fp, i + 1, Head(line, QuotedPrefix)))
        case Some(v) => Prepend([v], LoadLines(fp, lines, parse, i + 1))
  }

  /** The records of the files from position `f` on. */
  function LoadFiles(files: seq<SourceFile>, parse: string -> Option<Value>, f: nat): Result<seq<Value>, LoadError>
    requires f <= |files|
    decreases |files| - f
  {
    if f == |files| then Ok([])
    else Chain(LoadLines(files[f].path, StripEach(files[f].lines), parse, 0), LoadFiles(files, parse, f + 1))
  }

  /** The specification of `load_jsonl_files` over the matched files, in
      the order given (the source sorts the glob result). */
  function Loaded(files: seq<SourceFile>, parse: string -> Option<Value>): Result<seq<Value>, LoadError> {
    if files == [] then Err(NoFilesMatched)
    else match LoadFiles(files, parse, 0)
      case Err(e) => Err(e)
      case Ok(rs) => if rs == [] then Err(NoRecords) else Ok(rs)
  }

  lemma PrependPrepend(a: seq<Value>, b: seq<Value>, r: Result<seq<Value>, LoadError>)
    ensures Prepend(a, Prepend(b, r)) == Prepend(a + b, r)
  {
    if r.Ok? {
      assert a + (b + r.value) == (a + b) + r.value;
    }
  }

  lemma PrependNothing(r: Result<seq<Value>, LoadError>)
    ensures Prepend([], r) == r
  {
    if r.Ok? {
      assert [] + r.value == r.value;
    }
  }

  lemma ChainPrepend(a: seq<Value>, r1: Result<seq<Value>, LoadError>, r2: Result<seq<Value>, LoadError>)
    ensures Chain(Prepend(a, r1), r2) == Prepend(a, Chain(r1, r2))
  {
    if r1.Ok? {
      PrependPrepend(a, r1.value, r2);
    }
  }

  /** The inner loop of `load_jsonl_files` over the lines of one file. */
  method LoadFileLines(fp: string, lines: seq<string>, parse: string -> Option<Value>) returns (r: Result<seq<Value>, LoadError>)
    ensures r == LoadLines(fp, StripEach(lines), parse, 0)
  {
    ghost var stripped := StripEach(lines);
    var records: seq<Value> := [];
    PrependNothing(LoadLines(fp, stripped, parse, 0));
    var i := 0;
    while i < |lines|
      invariant 0 <= i <= |lines|
      invariant Prepend(records, LoadLines(fp, stripped, parse, i)) == LoadLines(fp, stripped, parse, 0)
    {
      var line := Strip(lines[i]);
      assert line == stripped[i];
      if line != "" {
        match parse(line)
        case None =>
          return Err(InvalidJson(fp, i + 1, Head(line, QuotedPrefix)));
        case Some(v) =>
          PrependPrepend(records, [v], LoadLines(fp, stripped, parse, i + 1));
          records := records + [v];
      }
      i := i + 1;
    }
    assert records + [] == records;
    r := Ok(records);
  }

  method LoadJsonlFiles(files: seq<SourceFile>, parse: string -> Option<Value>) returns (r: Result<seq<Value>, LoadError>)
    ensures r == Loaded(files, parse)
  {
    if files == [] {
      return Err(NoFilesMatched);
    }
    var records: seq<Value> := [];
    PrependNothing(LoadFiles(files, parse, 0));
    var f := 0;
    while f < |files|
      invariant 0 <= f <= |files|
      invariant Prepend(records, LoadFiles(files, parse, f)) == LoadFiles(files, parse, 0)
    {
      var fileRecords := LoadFileLines(files[f].path, files[f].lines, parse);
      if fileRecords.Err? {
        return Err(fileRecords.error);
      }
      PrependPrepend(records, fileRecords.value, LoadFiles(files, parse, f + 1));
      records := records + fileRecords.value;
      f := f + 1;
    }
    assert records + [] == records;
    if records == [] {
      return Err(NoRecords);
    }
    r := Ok(records);
  }

  /** A non-blank line of a file: its path, 1-based number and stripped
      text. */
  datatype Line = Line(path: string, lineNo: nat, text: string)

  /** The non-blank lines among the stripped lines of one file from
      position `i` on. */
  function LinesFrom(fp: string, lines: seq<string>, i: nat): seq<Line>
    requires i <= |lines|
    decreases |lines| - i
  {
    if i == |lines| then []
    else if lines[i] == "" then LinesFrom(fp, lines, i + 1)
    else [Line(fp, i + 1, lines[i])] + LinesFrom(fp, lines, i + 1)
  }

  /** The non-blank lines of the files from position `f` on, in order. */
  function NonBlankFrom(files: seq<SourceFile>, f: nat): seq<Line>
    requires f <= |files|
    decreases |files| - f
  {
    if f == |files| then [] else LinesFrom(files[f].path, StripEach(files[f].lines), 0) + NonBlankFrom(files, f + 1)
  }

  /** Every non-blank line parses. */
  predicate AllParse(ls: seq<Line>, parse: string -> Option<Value>) {
    forall k :: 0 <= k < |ls| ==> parse(ls[k].text).Some?
  }

  /** A reference reading: the values of the non-blank lines in order, or
      the error of the earliest one that does not parse. */
  function ParseAll(ls: seq<Line>, parse: string -> Option<Value>): Result<seq<Value>, LoadError>
    decreases |ls|
  {
    if ls == [] then Ok([])
    else match parse(ls[0].text)
      case None => Err(InvalidJson(ls[0].path, ls[0].lineNo, Head(ls[0].text, QuotedPrefix)))
      case Some(v) => Prepend([v], ParseAll(ls[1..], parse))
  }

  /** The reference reading succeeds exactly when every line parses, and
      then holds each line's value; otherwise it names the earliest line
      that does not parse. */
  lemma {:induction false} ParseAllMeaning(ls: seq<Line>, parse: string -> Option<Value>)
    ensures var r := ParseAll(ls, parse);
            && (r.Ok? <==> AllParse(ls, parse))
            && (r.Ok? ==> |r.value| == |ls| && forall k :: 0 <= k < |ls| ==> Some(r.value[k]) == parse(ls[k].text))
            && (r.Err? ==> exists k :: 0 <= k < |ls| && parse(ls[k].text).None? && AllParse(ls[..k], parse) &&
                             r.error == InvalidJson(ls[k].path, ls[k].lineNo, Head(ls[k].text, QuotedPrefix)))
    decreases |ls|
  {
    if ls != [] {
      var rest := ls[1..];
      ParseAllMeaning(rest, parse);
      assert forall k :: 1 <= k < |ls| ==> ls[k] == rest[k - 1];
      if parse(ls[0].text).None? {
        assert ls[..0] == [];
      } else {
        assert forall k :: 1 <= k <= |ls| ==> ls[..k][1..] == rest[..k - 1];
      }
    }
  }

  lemma {:induction false} ParseAllConcat(a: seq<Line>, b: seq<Line>, parse: string -> Option<Value>)
    ensures ParseAll(a + b, parse) == Chain(ParseAll(a, parse), ParseAll(b, parse))
    decreases |a|
  {
    if a == [] {
      assert a + b == b;
      assert Prepend([], ParseAll(b, parse)) == ParseAll(b, parse) by {
        if ParseAll(b, parse).Ok? { assert [] + ParseAll(b, parse).value == ParseAll(b, parse).value; }
      }
    } else {
      assert (a + b)[1..] == a[1..] + b;
      ParseAllConcat(a[1..], b, parse);
      if parse(a[0].text).Some? {
        ChainPrepend([parse(a[0].text).value], ParseAll(a[1..], parse), ParseAll(b, parse));
      }
    }
  }

  lemma {:induction false} LoadLinesIsParseAll(fp: string, lines: seq<string>, parse: string -> Option<Value>, i: nat)
    requires i <= |lines|
    ensures LoadLines(fp, lines, parse, i) == ParseAll(LinesFrom(fp, lines, i), parse)
    decreases |lines| - i
  {
    if i < |lines| {
      LoadLinesIsParseAll(fp, lines, parse, i + 1);
      var line := lines[i];
      if line != "" {
        ParseAllConcat([Line(fp, i + 1, line)], LinesFrom(fp, lines, i + 1), parse);
        var single := [Line(fp, i + 1, line)];
        assert single[1..] == [];
        if parse(line).Some? {
          assert ParseAll(single, parse) == Prepend([parse(line).value], Ok([]));
          assert [parse(line).value] + [] == [parse(line).value];
        }
      }
    }
  }

  lemma {:induction false} LoadFilesIsParseAll(files: seq<SourceFile>, parse: string -> Option<Value>, f: nat)
    requires f <= |files|
    ensures LoadFiles(files, parse, f) == ParseAll(NonBlankFrom(files, f), parse)
    decreases |files| - f
  {
    if f < |files| {
      var fp, lines := files[f].path, StripEach(files[f].lines);
      var here, later := LinesFrom(fp, lines, 0), NonBlankFrom(files, f + 1);
      assert LoadFiles(files, parse, f) == Chain(LoadLines(fp, lines, parse, 0), LoadFiles(files, parse, f + 1));
      assert NonBlankFrom(files, f) == here + later;
      LoadFilesIsParseAll(files, parse, f + 1);
      LoadLinesIsParseAll(fp, lines, parse, 0);
      ParseAllConcat(here, later, parse);
    }
  }

  /** Every line `LinesFrom` reports is a non-blank line under its 1-based
      number, and the numbers increase. */
  lemma {:induction false} LinesFromAreLines(fp: string, lines: seq<string>, i: nat)
    requires i <= |lines|
    ensures forall k :: 0 <= k < |LinesFrom(fp, lines, i)| ==>
              var l := LinesFrom(fp, lines, i)[k];
              && l.path == fp && i + 1 <= l.lineNo <= |lines|
              && l.text == lines[l.lineNo - 1] && l.text != ""
    ensures forall a, b :: 0 <= a < b < |LinesFrom(fp, lines, i)| ==>
              LinesFrom(fp, lines, i)[a].lineNo < LinesFrom(fp, lines, i)[b].lineNo
    decreases |lines| - i
  {
    if i < |lines| {
      var rest := LinesFrom(fp, lines, i + 1);
      LinesFromAreLines(fp, lines, i + 1);
      if lines[i] != "" {
        var ls := LinesFrom(fp, lines, i);
        var head := Line(fp, i + 1, lines[i]);
        assert ls == [head] + rest;
        assert forall k :: 1 <= k < |ls| ==> ls[k] == rest[k - 1];
      }
    }
  }

  /** Every non-blank line from `i` on is reported, under its 1-based
      number. */
  lemma {:induction false} LinesFromComplete(fp: string, lines: seq<string>, i: nat, n: nat)
    requires i <= n < |lines| && lines[n] != ""
    ensures exists k :: 0 <= k < |LinesFrom(fp, lines, i)| && LinesFrom(fp, lines, i)[k] == Line(fp, n + 1, lines[n])
    decreases n - i
  {
    var ls := LinesFrom(fp, lines, i);
    if n == i {
      assert ls[0] == Line(fp, n + 1, lines[n]);
    } else {
      var rest := LinesFrom(fp, lines, i + 1);
      LinesFromComplete(fp, lines, i + 1, n);
      var k :| 0 <= k < |rest| && rest[k] == Line(fp, n + 1, lines[n]);
      if lines[i] != "" {
        assert ls == [Line(fp, i + 1, lines[i])] + rest;
        assert ls[k + 1] == rest[k];
      } else {
        assert ls == rest;
      }
    }
  }

  /** `load_jsonl_files` against the reference reading: with files matched,
      it yields the values of all non-blank lines in order when they all
      parse and there is at least one, and otherwise names the earliest
      line that does not parse, by path and 1-based number, quoting at most
      200 characters of it. */
  lemma LoadedIsReference(files: seq<SourceFile>, parse: string -> Option<Value>)
    ensures var ls := NonBlankFrom(files, 0);
            && (files == [] <==> Loaded(files, parse) == Err(NoFilesMatched))
            && (files != [] && AllParse(ls, parse) && ls == [] ==> Loaded(files, parse) == Err(NoRecords))
            && (files != [] && AllParse(ls, parse) && ls != [] ==>
                  Loaded(files, parse).Ok? && |Loaded(files, parse).value| == |ls| &&
                  forall k :: 0 <= k < |ls| ==> Some(Loaded(files, parse).value[k]) == parse(ls[k].text))
            && (files != [] && !AllParse(ls, parse) ==>
                  Loaded(files, parse).Err? && Loaded(files, parse).error.InvalidJson? &&
                  |Loaded(files, parse).error.excerpt| <= QuotedPrefix &&
                  exists k :: 0 <= k < |ls| && parse(ls[k].text).None? && AllParse(ls[..k], parse) &&
                    Loaded(files, parse).error ==
                      InvalidJson(ls[k].path, ls[k].lineNo, Head(ls[k].text, QuotedPrefix)))
  {
    LoadFilesIsParseAll(files, parse, 0);
    ParseAllMeaning(NonBlankFrom(files, 0), parse);
  }

  // ------------------------------------------------------- normalize_item

  /** `sha16`: the first 16 hexadecimal digits of the SHA-1 digest. */
  function Sha16(sha1Hex: string -> string, s: string): (r: string)
    ensures r <= sha1Hex(s)
    ensures |sha1Hex(s)| >= IdDigits ==> |r| == IdDigits
    ensures |r| <= IdDigits
  {
    Head(sha1Hex(s), IdDigits)
  }

  /** A record that normalises: stripped text, identifier and metadata. */
  datatype Normal = Normal(text: string, id: string, meta: map<string, Value>)

  /** The exceptions `normalize_item` raises. */
  datatype Fault =
    | NotAnObject        // `it.get` on a value that is not an object
    | TextNotString      // `.strip()` on a truthy "text" that is not a string
    | MissingText        // ValueError: the stripped text is empty
    | IdNotString        // `.strip()` on a truthy "id" that is not a string
    | MetadataNotObject  // `.items()` on a truthy "metadata" that is not an object

  /** A metadata value as stored: lists and objects become their JSON
      text, every other value is kept. */
  function SafeValue(dumps: Value -> string, v: Value): (r: Value)
    ensures !r.Arr? && !r.Obj?
    ensures (v.Arr? || v.Obj?) <==> r != v
    ensures (v.Arr? || v.Obj?) ==> r == Str(dumps(v))
  {
    if v.Arr? || v.Obj? then Str(dumps(v)) else v
  }

  /** The metadata `normalize_item` returns: the same keys, each value made
      safe. */
  function SafeMetaOf(dumps: Value -> string, md: map<string, Value>): (r: map<string, Value>)
    ensures r.Keys == md.Keys
    ensures forall k :: k in r ==> r[k] == SafeValue(dumps, md[k])
  {
    map k | k in md :: SafeValue(dumps, md[k])
  }

  /** The identifier of a record with stripped text `text`: the stripped
      given identifier, or the hash of the first 256 characters of the text
      when there is none. */
  function IdOf(sha1Hex: string -> string, o: map<string, Value>, text: string): Result<string, Fault> {
    var raw := Or(Get(o, "id"), Str(""));
    if !raw.Str? then Err(IdNotString)
    else
      var given := Strip(raw.s);
      Ok(if given != "" then given else Sha16(sha1Hex, Head(text, HashedPrefix)))
  }

  /** The specification of `normalize_item`. */
  function Normalized(svc: Services, it: Value): Result<Normal, Fault> {
    if !it.Obj? then Err(NotAnObject)
    else
      var o := it.fields;
      var raw := Or(Get(o, "text"), Str(""));
      if !raw.Str? then Err(TextNotString)
      else
        var text := Strip(raw.s);
        if text == "" then Err(MissingText)
        else match IdOf(svc.sha1Hex, o, text)
          case Err(e) => Err(e)
          case Ok(id) =>
            var md := Or(Get(o, "metadata"), Obj(map[]));
            if !md.Obj? then Err(MetadataNotObject)
            else Ok(Normal(text, id, SafeMetaOf(svc.dumps, md.fields)))
  }

  /** The `safe_meta` loop, one key at a time. */
  method SafeMeta(dumps: Value -> string, md: map<string, Value>) returns (safe: map<string, Value>)
    ensures safe == SafeMetaOf(dumps, md)
  {
    safe := map[];
    var todo := md.Keys;
    while todo != {}
      invariant todo <= md.Keys
      invariant safe.Keys == md.Keys - todo
      invariant forall k :: k in safe ==> safe[k] == SafeValue(dumps, md[k])
      decreases todo
    {
      var k :| k in todo;
      var v := md[k];
      if v.Arr? || v.Obj? {
        safe := safe[k := Str(dumps(v))];
      } else {
        safe := safe[k := v];
      }
      todo := todo - {k};
    }
  }

  method NormalizeItem(svc: Services, it: Value) returns (r: Result<Normal, Fault>)
    ensures r == Normalized(svc, it)
  {
    if !it.Obj? {
      return Err(NotAnObject);
    }
    var o := it.fields;
    var raw := Or(Get(o, "text"), Str(""));
    if !raw.Str? {
      return Err(TextNotString);
    }
    var text := Strip(raw.s);
    if text == "" {
      return Err(MissingText);
    }
    var rawId := Or(Get(o, "id"), Str(""));
    if !rawId.Str? {
      return Err(IdNotString);
    }
    var docId := Strip(rawId.s);
    if docId == "" {
      docId := Sha16(svc.sha1Hex, Head(text, HashedPrefix));
    }
    var md := Or(Get(o, "metadata"), Obj(map[]));
    if !md.Obj? {
      return Err(MetadataNotObject);
    }
    var safe := SafeMeta(svc.dumps, md.fields);
    r := Ok(Normal(text, docId, safe));
  }

  /** What a normalised record holds: its text stripped and non-empty, the
      stripped given identifier or else a prefix of the hash of the text (16
      digits long when the digest is 40 long), and metadata with the
      record's keys (none when absent) where lists and objects became their
      JSON text and every other value is kept. */
  lemma NormalizedFields(svc: Services, o: map<string, Value>)
    requires Normalized(svc, Obj(o)).Ok?
    ensures var n, raw := Normalized(svc, Obj(o)).value, Get(o, "text");
            var rawId, md := Or(Get(o, "id"), Str("")), Or(Get(o, "metadata"), Obj(map[]));
            && raw.Str? && n.text == Strip(raw.s) && n.text != "" && NoEdgeSpace(n.text)
            && rawId.Str? && md.Obj?
            && (Strip(rawId.s) != "" ==> n.id == Strip(rawId.s))
            && (Strip(rawId.s) == "" ==> n.id <= svc.sha1Hex(Head(n.text, HashedPrefix)))
            && (Strip(rawId.s) == "" && |svc.sha1Hex(Head(n.text, HashedPrefix))| == 40 ==> |n.id| == IdDigits)
            && n.meta == SafeMetaOf(svc.dumps, md.fields)
            && n.meta.Keys == md.fields.Keys
            && (forall k :: k in n.meta ==> !n.meta[k].Arr? && !n.meta[k].Obj?)
            && (forall k :: k in n.meta && (md.fields[k].Arr? || md.fields[k].Obj?) ==>
                  n.meta[k] == Str(svc.dumps(md.fields[k])))
            && (forall k :: k in n.meta && !md.fields[k].Arr? && !md.fields[k].Obj? ==> n.meta[k] == md.fields[k])
  {
  }

  /** A record is rejected exactly when it is not an object, its text is
      missing, blank or not a string, its identifier is not a string, or its
      metadata is neither absent nor an object. */
  lemma NormalizedRejects(svc: Services, it: Value)
    ensures Normalized(svc, it).Err? <==>
              || !it.Obj?
              || !Or(Get(it.fields, "text"), Str("")).Str?
              || Strip(Or(Get(it.fields, "text"), Str("")).s) == ""
              || !Or(Get(it.fields, "id"), Str("")).Str?
              || !Or(Get(it.fields, "metadata"), Obj(map[])).Obj?
  {
  }

  /** Without a given identifier, the identifier is the hash of the first
      256 characters of the stripped text. */
  lemma FallbackId(svc: Services, o: map<string, Value>)
    requires Normalized(svc, Obj(o)).Ok?
    requires Strip(Or(Get(o, "id"), Str("")).s) == ""
    ensures var n := Normalized(svc, Obj(o)).value;
            n.id == Sha16(svc.sha1Hex, Head(n.text, HashedPrefix))
  {
    var text := Strip(Or(Get(o, "text"), Str("")).s);
    NormalizedParts(svc, o);
    assert IdOf(svc.sha1Hex, o, text) == Ok(Sha16(svc.sha1Hex, Head(text, HashedPrefix)));
  }

  lemma NormalizedParts(svc: Services, o: map<string, Value>)
    requires Normalized(svc, Obj(o)).Ok?
    ensures var n, text := Normalized(svc, Obj(o)).value, Strip(Or(Get(o, "text"), Str("")).s);
            n.text == text && IdOf(svc.sha1Hex, o, text) == Ok(n.id)
  {
    var raw := Or(Get(o, "text"), Str(""));
    assert raw.Str?;
    var text := Strip(raw.s);
    assert text != "";
    var id := IdOf(svc.sha1Hex, o, text);
    assert id.Ok?;
    var md := Or(Get(o, "metadata"), Obj(map[]));
    assert md.Obj?;
    assert Normalized(svc, Obj(o)) == Ok(Normal(text, id.value, SafeMetaOf(svc.dumps, md.fields)));
  }

  /** Without a given identifier, the identifier depends only on the first
      256 characters of the stripped text. */
  lemma FallbackIdFromPrefix(svc: Services, o1: map<string, Value>, o2: map<string, Value>)
    requires Normalized(svc, Obj(o1)).Ok? && Normalized(svc, Obj(o2)).Ok?
    requires Strip(Or(Get(o1, "id"), Str("")).s) == "" && Strip(Or(Get(o2, "id"), Str("")).s) == ""
    requires Head(Normalized(svc, Obj(o1)).value.text, HashedPrefix) == Head(Normalized(svc, Obj(o2)).value.text, HashedPrefix)
    ensures Normalized(svc, Obj(o1)).value.id == Normalized(svc, Obj(o2)).value.id
  {
    FallbackId(svc, o1);
    FallbackId(svc, o2);
  }

  // ----------------------------------------------------------------- main

  /** The result of normalising each record. */
  function Results(svc: Services, items: seq<Value>): (r: seq<Result<Normal, Fault>>)
    ensures |r| == |items|
    ensures forall k :: 0 <= k < |items| ==> r[k] == Normalized(svc, items[k])
  {
    seq(|items|, k requires 0 <= k < |items| => Normalized(svc, items[k]))
  }

  /** The values of the successful results, in order. */
  function Kept<T, E>(rs: seq<Result<T, E>>): seq<T>
    decreases |rs|
  {
    if rs == [] then []
    else
      var n := |rs| - 1;
      Kept(rs[..n]) + (if rs[n].Ok? then [rs[n].value] else [])
  }

  /** The records that normalise, in input order. */
  function Survivors(svc: Services, items: seq<Value>): seq<Normal> {
    Kept(Results(svc, items))
  }

  /** Skipping distributes over concatenation: what is kept of a list is
      what is kept of its first part followed by what is kept of the rest. */
  lemma {:induction false} KeptConcat<T, E>(a: seq<Result<T, E>>, b: seq<Result<T, E>>)
    ensures Kept(a + b) == Kept(a) + Kept(b)
    decreases |b|
  {
    if b == [] {
      assert a + b == a;
    } else {
      var n := |b| - 1;
      assert (a + b)[..|a + b| - 1] == a + b[..n];
      KeptConcat(a, b[..n]);
    }
  }

  /** One more result keeps its value when it is successful. */
  lemma KeptSnoc<T, E>(rs: seq<Result<T, E>>, j: nat)
    requires j < |rs|
    ensures Kept(rs[..j + 1]) == Kept(rs[..j]) + (if rs[j].Ok? then [rs[j].value] else [])
  {
    assert rs[..j + 1][..j] == rs[..j];
  }

  /** Nothing is kept exactly when every result is an error. */
  lemma {:induction false} NothingKept<T, E>(rs: seq<Result<T, E>>)
    ensures Kept(rs) == [] <==> forall k :: 0 <= k < |rs| ==> rs[k].Err?
    decreases |rs|
  {
    if rs != [] {
      var n := |rs| - 1;
      NothingKept(rs[..n]);
      assert forall k :: 0 <= k < n ==> rs[..n][k] == rs[k];
    }
  }

  /** What is kept comes from successful results, in order, and no
      successful result is dropped. */
  lemma {:induction false} KeptInOrder<T, E>(rs: seq<Result<T, E>>) returns (ix: seq<nat>)
    ensures |ix| == |Kept(rs)|
    ensures forall j :: 0 <= j < |ix| ==> ix[j] < |rs| && rs[ix[j]] == Ok(Kept(rs)[j])
    ensures forall a, b :: 0 <= a < b < |ix| ==> ix[a] < ix[b]
    ensures forall k :: 0 <= k < |rs| && rs[k].Ok? ==> k in ix
    decreases |rs|
  {
    if rs == [] {
      ix := [];
    } else {
      var n := |rs| - 1;
      var p := rs[..n];
      var ix' := KeptInOrder(p);
      var kept, kept' := Kept(rs), Kept(p);
      var keep := rs[n].Ok?;
      assert kept == kept' + (if keep then [rs[n].value] else []);
      ix := ix' + (if keep then [n] else []);
      forall j | 0 <= j < |ix|
        ensures ix[j] < |rs| && rs[ix[j]] == Ok(kept[j])
      {
        if j < |ix'| {
          assert ix[j] == ix'[j] && kept[j] == kept'[j];
          assert p[ix'[j]] == rs[ix'[j]];
        }
      }
      forall a, b | 0 <= a < b < |ix|
        ensures ix[a] < ix[b]
      {
        if b < |ix'| {
          assert ix[a] == ix'[a] && ix[b] == ix'[b];
        } else {
          assert ix[a] == ix'[a];
        }
      }
      forall k | 0 <= k < |rs| && rs[k].Ok?
        ensures k in ix
      {
        if k < n {
          assert p[k] == rs[k];
          assert k in ix';
        }
      }
    }
  }

  /** Nothing survives exactly when every record is rejected. */
  lemma NoSurvivors(svc: Services, items: seq<Value>)
    ensures Survivors(svc, items) == [] <==> forall k :: 0 <= k < |items| ==> Normalized(svc, items[k]).Err?
  {
    NothingKept(Results(svc, items));
  }

  /** Every survivor is the normal form of a record, the survivors keep the
      order of their records, and every record that normalises survives. */
  lemma SurvivorsInOrder(svc: Services, items: seq<Value>) returns (ix: seq<nat>)
    ensures |ix| == |Survivors(svc, items)|
    ensures forall j :: 0 <= j < |ix| ==> ix[j] < |items| && Normalized(svc, items[ix[j]]) == Ok(Survivors(svc, items)[j])
    ensures forall a, b :: 0 <= a < b < |ix| ==> ix[a] < ix[b]
    ensures forall k :: 0 <= k < |items| && Normalized(svc, items[k]).Ok? ==> k in ix
  {
    ix := KeptInOrder(Results(svc, items));
  }

  /** The three parallel lists hold the fields of `ns`, position by position. */
  predicate Aligned(ns: seq<Normal>, texts: seq<string>, ids: seq<string>, metas: seq<map<string, Value>>) {
    && |texts| == |ids| == |metas| == |ns|
    && forall k :: 0 <= k < |ns| ==> ns[k] == Normal(texts[k], ids[k], metas[k])
  }

  lemma AlignedSnoc(ns: seq<Normal>, texts: seq<string>, ids: seq<string>, metas: seq<map<string, Value>>, n: Normal)
    requires Aligned(ns, texts, ids, metas)
    ensures Aligned(ns + [n], texts + [n.text], ids + [n.id], metas + [n.meta])
  {
  }

  /** The skip-and-align loop: records that raise are skipped, the others
      fill the three parallel lists. */
  method NormalizeAll(svc: Services, items: seq<Value>) returns (texts: seq<string>, ids: seq<string>, metas: seq<map<string, Value>>)
    ensures |texts| == |ids| == |metas| == |Survivors(svc, items)|
    ensures forall k :: 0 <= k < |texts| ==> Survivors(svc, items)[k] == Normal(texts[k], ids[k], metas[k])
  {
    ghost var rs := Results(svc, items);
    ghost var kept: seq<Normal> := [];
    texts, ids, metas := [], [], [];
    var j := 0;
    while j < |items|
      invariant 0 <= j <= |items|
      invariant kept == Kept(rs[..j])
      invariant Aligned(kept, texts, ids, metas)
    {
      var r := NormalizeItem(svc, items[j]);
      assert r == rs[j];
      KeptSnoc(rs, j);
      if r.Ok? {
        var n := r.value;
        AlignedSnoc(kept, texts, ids, metas, n);
        kept := kept + [n];
        texts, ids, metas := texts + [n.text], ids + [n.id], metas + [n.meta];
      }
      j := j + 1;
    }
    assert rs[..|items|] == rs;
  }

  /** The entries `upsert` receives from the survivors. */
  function SeedItems(ns: seq<Normal>): (r: seq<Item>)
    ensures |r| == |ns|
    ensures forall k :: 0 <= k < |ns| ==> r[k] == Item(ns[k].id, ns[k].text, ns[k].meta)
  {
    seq(|ns|, k requires 0 <= k < |ns| => Item(ns[k].id, ns[k].text, ns[k].meta))
  }

  datatype SeedOutcome =
    | LoadFailed(error: LoadError)  // load_jsonl_files raised
    | NoValidItems                  // ValueError: nothing survived normalisation
    | Upserted(count: nat)          // one upsert of `count` entries

  /** `main`: load, normalise, and write the survivors in a single `upsert`;
      nothing is written when loading fails or nothing survives. */
  method SeedIngest(svc: Services, files: seq<SourceFile>, col: Collection) returns (outcome: SeedOutcome)
    requires col.Valid()
    modifies col
    ensures col.Valid() && col.initial == old(col.initial)
    ensures match Loaded(files, svc.parse)
            case Err(e) => outcome == LoadFailed(e) && col.calls == old(col.calls) && col.entries == old(col.entries)
            case Ok(items) =>
              var ns := Survivors(svc, items);
              && (ns == [] ==> outcome == NoValidItems && col.calls == old(col.calls) && col.entries == old(col.entries))
              && (ns != [] ==>
                    var its := SeedItems(ns);
                    var texts := seq(|ns|, k requires 0 <= k < |ns| => ns[k].text);
                    && outcome == Upserted(|ns|)
                    && col.calls == old(col.calls) + [Upsert(Batch(its, svc.embed(texts)))]
                    && col.entries == Overwrite(old(col.entries), its))
  {
    var loaded := LoadJsonlFiles(files, svc.parse);
    if loaded.Err? {
      return LoadFailed(loaded.error);
    }
    var items := loaded.value;
    var texts, ids, metas := NormalizeAll(svc, items);
    if texts == [] {
      return NoValidItems;
    }
    ghost var ns := Survivors(svc, items);
    assert texts == seq(|ns|, k requires 0 <= k < |ns| => ns[k].text);
    var embeddings := svc.embed(texts);
    var batch := Batch(Zip(ids, texts, metas), embeddings);
    assert batch.items == SeedItems(ns);
    col.UpsertBatch(batch);
    outcome := Upserted(|texts|);
  }

  /** After the upsert every surviving identifier is stored, with the text
      and metadata of the last survivor under it; entries under other
      identifiers are left as they were. */
  lemma UpsertKeepsLast(m: map<string, Stored>, ns: seq<Normal>)
    ensures var r := Overwrite(m, SeedItems(ns));
            && (forall k :: 0 <= k < |ns| ==> ns[k].id in r)
            && (forall k :: 0 <= k < |ns| && (forall k' :: k < k' < |ns| ==> ns[k'].id != ns[k].id) ==>
                  r[ns[k].id] == Stored(ns[k].text, ns[k].meta))
            && (forall id :: id in m && (forall k :: 0 <= k < |ns| ==> ns[k].id != id) ==> id in r && r[id] == m[id])
  {
    var its := SeedItems(ns);
    var r := Overwrite(m, its);
    forall k | 0 <= k < |ns|
      ensures ns[k].id in r
    {
      assert its[k].id in IdSet(its);
    }
    forall k | 0 <= k < |ns| && (forall k' :: k < k' < |ns| ==> ns[k'].id != ns[k].id)
      ensures r[ns[k].id] == Stored(ns[k].text, ns[k].meta)
    {
      assert LastWrites(r, its, k);
    }
    forall id | id in m && (forall k :: 0 <= k < |ns| ==> ns[k].id != id)
      ensures id in r && r[id] == m[id]
    {
      assert id !in IdSet(its);
    }
  }
}
