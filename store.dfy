/** The vector collection, abstracted to what the pipeline observes: a map
    from identifier to stored document and metadata, and the sequence of
    write calls it received. Embeddings travel with each call and are not
    interpreted. */
module VectorStore {
  import opened Json

  type Embedding = seq<real>

  /** One entry to write: identifier, document text and scalar metadata. */
  datatype Item = Item(id: string, document: string, metadata: map<string, Value>)

  /** The parallel `ids`, `documents`, `metadatas` lists of one call, kept
      aligned as one list of items, with the embeddings computed for them. */
  datatype Batch = Batch(items: seq<Item>, embeddings: seq<Embedding>)

  datatype Call = Add(batch: Batch) | Upsert(batch: Batch)

  datatype Stored = Stored(document: string, metadata: map<string, Value>)

  /** The three parallel lists of a call, as one list of items. */
  function Zip(ids: seq<string>, docs: seq<string>, metas: seq<map<string, Value>>): (r: seq<Item>)
    requires |ids| == |docs| == |metas|
    ensures |r| == |ids|
  {
    seq(|ids|, j requires 0 <= j < |ids| => Item(ids[j], docs[j], metas[j]))
  }

  function Docs(items: seq<Item>): (r: seq<string>)
    ensures |r| == |items|
  {
    seq(|items|, j requires 0 <= j < |items| => items[j].document)
  }

  function IdSet(items: seq<Item>): set<string> {
    set j | 0 <= j < |items| :: items[j].id
  }

  lemma IdSetConcat(xs: seq<Item>, ys: seq<Item>)
    ensures IdSet(xs + ys) == IdSet(xs) + IdSet(ys)
  {
    forall id | id in IdSet(xs + ys) ensures id in IdSet(xs) + IdSet(ys) {
      var j :| 0 <= j < |xs + ys| && (xs + ys)[j].id == id;
      if j < |xs| {
        assert xs[j].id == id;
      } else {
        assert ys[j - |xs|].id == id;
      }
    }
    forall id | id in IdSet(xs) ensures id in IdSet(xs + ys) {
      var j :| 0 <= j < |xs| && xs[j].id == id;
      assert (xs + ys)[j] == xs[j];
    }
    forall id | id in IdSet(ys) ensures id in IdSet(xs + ys) {
      var j :| 0 <= j < |ys| && ys[j].id == id;
      assert (xs + ys)[|xs| + j] == ys[j];
    }
  }

  lemma IdSetCons(items: seq<Item>)
    requires items != []
    ensures IdSet(items) == {items[0].id} + IdSet(items[1..])
  {
    forall id | id in IdSet(items) ensures id in {items[0].id} + IdSet(items[1..]) {
      var j :| 0 <= j < |items| && items[j].id == id;
      if j > 0 { assert items[1..][j - 1] == items[j]; }
    }
    forall id | id in IdSet(items[1..]) ensures id in IdSet(items) {
      var j :| 0 <= j < |items[1..]| && items[1..][j].id == id;
      assert items[j + 1] == items[1..][j];
    }
  }

  /** `add`: identifiers already present are left as they are. */
  function InsertAbsent(m: map<string, Stored>, items: seq<Item>): (r: map<string, Stored>)
    ensures r.Keys == m.Keys + IdSet(items)
    ensures forall id :: id in m ==> r[id] == m[id]
    decreases |items|
  {
    if items == [] then m
    else
      var it := items[0];
      var m' := if it.id in m then m else m[it.id := Stored(it.document, it.metadata)];
      var r := InsertAbsent(m', items[1..]);
      IdSetCons(items);
      r
  }

  /** The entry the last item under `items[j].id` writes. */
  ghost predicate LastWrites(r: map<string, Stored>, items: seq<Item>, j: int)
  {
    0 <= j < |items| && (forall j' :: j < j' < |items| ==> items[j'].id != items[j].id) ==>
      items[j].id in r && r[items[j].id] == Stored(items[j].document, items[j].metadata)
  }

  /** The step of `Overwrite`: writing the head first and the rest after
      it keeps the properties of the rest for the whole list. */
  lemma OverwriteStep(m: map<string, Stored>, items: seq<Item>, r: map<string, Stored>)
    requires items != []
    requires var it := items[0];
             var m' := m[it.id := Stored(it.document, it.metadata)];
             && r.Keys == m'.Keys + IdSet(items[1..])
             && (forall id :: id in m' && id !in IdSet(items[1..]) ==> r[id] == m'[id])
             && (forall j :: LastWrites(r, items[1..], j))
    ensures r.Keys == m.Keys + IdSet(items)
    ensures forall id :: id in m && id !in IdSet(items) ==> r[id] == m[id]
    ensures forall j :: LastWrites(r, items, j)
  {
    var it := items[0];
    var rest := items[1..];
    IdSetCons(items);
    forall j ensures LastWrites(r, items, j) {
      if 0 < j < |items| {
        assert LastWrites(r, rest, j - 1);
        assert rest[j - 1] == items[j];
        assert forall j' :: j - 1 < j' < |rest| ==> rest[j'] == items[j' + 1];
      } else if j == 0 && (forall j' :: 0 < j' < |items| ==> items[j'].id != it.id) {
        forall k | 0 <= k < |rest| ensures rest[k].id != it.id {
          assert rest[k] == items[k + 1];
        }
        assert it.id !in IdSet(rest);
      }
    }
  }

  /** `upsert`: every identifier ends with the last item written under it. */
  function Overwrite(m: map<string, Stored>, items: seq<Item>): (r: map<string, Stored>)
    ensures r.Keys == m.Keys + IdSet(items)
    ensures forall id :: id in m && id !in IdSet(items) ==> r[id] == m[id]
    ensures forall j :: LastWrites(r, items, j)
    decreases |items|
  {
    if items == [] then m
    else
      var it := items[0];
      var r := Overwrite(m[it.id := Stored(it.document, it.metadata)], items[1..]);
      OverwriteStep(m, items, r);
      r
  }

  function Apply(m: map<string, Stored>, c: Call): map<string, Stored> {
    match c
    case Add(b) => InsertAbsent(m, b.items)
    case Upsert(b) => Overwrite(m, b.items)
  }

  /** The contents after a sequence of calls, applied in order. */
  function ApplyCalls(m: map<string, Stored>, cs: seq<Call>): map<string, Stored>
    decreases |cs|
  {
    if cs == [] then m else Apply(ApplyCalls(m, cs[..|cs| - 1]), cs[|cs| - 1])
  }

  lemma ApplyOne(m: map<string, Stored>, c: Call)
    ensures ApplyCalls(m, [c]) == Apply(m, c)
  {
    assert [c][..0] == [];
  }

  lemma TakeDrop(items: seq<Item>, n: nat)
    requires n <= |items|
    ensures items[..n] + items[n..] == items
  {
  }

  lemma {:induction false} ApplyCallsConcat(m: map<string, Stored>, xs: seq<Call>, ys: seq<Call>)
    ensures ApplyCalls(m, xs + ys) == ApplyCalls(ApplyCalls(m, xs), ys)
    decreases |ys|
  {
    if ys == [] {
      assert xs + ys == xs;
    } else {
      var ys' := ys[..|ys| - 1];
      assert (xs + ys)[..|xs + ys| - 1] == xs + ys';
      ApplyCallsConcat(m, xs, ys');
    }
  }

  /** A collection that only received `add` calls holds every identifier it
      was given and lost none it had. */
  lemma {:induction false} AddsOnlyGrow(m: map<string, Stored>, cs: seq<Call>)
    requires forall j :: 0 <= j < |cs| ==> cs[j].Add?
    ensures m.Keys <= ApplyCalls(m, cs).Keys
    ensures forall id :: id in m ==> ApplyCalls(m, cs)[id] == m[id]
    ensures forall j, k :: 0 <= j < |cs| && 0 <= k < |cs[j].batch.items| ==>
              cs[j].batch.items[k].id in ApplyCalls(m, cs)
    decreases |cs|
  {
    if cs != [] {
      var p := cs[..|cs| - 1];
      AddsOnlyGrow(m, p);
      forall j, k | 0 <= j < |cs| && 0 <= k < |cs[j].batch.items|
        ensures cs[j].batch.items[k].id in ApplyCalls(m, cs)
      {
        if j < |p| {
          assert cs[j] == p[j];
        } else {
          assert cs[j].batch.items[k].id in IdSet(cs[j].batch.items);
        }
      }
    }
  }

  class Collection {
    var entries: map<string, Stored>
    var calls: seq<Call>
    /** The contents before the first recorded call. */
    ghost var initial: map<string, Stored>

    /** The contents are the initial contents with every recorded call
        applied in order. */
    ghost predicate Valid()
      reads this
    {
      entries == ApplyCalls(initial, calls)
    }

    constructor (contents: map<string, Stored>)
      ensures Valid() && entries == contents && calls == []
    {
      entries := contents;
      calls := [];
      initial := contents;
    }

    /** The identifiers currently stored. */
    function Ids(): set<string>
      reads this
    {
      entries.Keys
    }

    method AddBatch(b: Batch)
      requires Valid()
      modifies this
      ensures Valid() && initial == old(initial)
      ensures calls == old(calls) + [Add(b)]
      ensures entries == InsertAbsent(old(entries), b.items)
    {
      calls := calls + [Add(b)];
      entries := InsertAbsent(entries, b.items);
      assert calls[..|calls| - 1] == old(calls);
    }

    method UpsertBatch(b: Batch)
      requires Valid()
      modifies this
      ensures Valid() && initial == old(initial)
      ensures calls == old(calls) + [Upsert(b)]
      ensures entries == Overwrite(old(entries), b.items)
    {
      calls := calls + [Upsert(b)];
      entries := Overwrite(entries, b.items);
      assert calls[..|calls| - 1] == old(calls);
    }
  }
}
