/** The append-only data file: every save returns the interval it wrote, and every earlier
    interval reads back as it was saved. */
module DataStorage {
  import opened Wrappers

  type Byte = b: int | 0 <= b < 256

  /** Byte offsets of one saved value. */
  datatype Index = Index(start: nat, end: nat)

  /** What a load of `index` finds in a file of these bytes. Nothing is read for an empty interval. */
  function Slice(bytes: seq<Byte>, index: Index): Result<seq<Byte>>
    requires index.start <= index.end
  {
    if index.start == index.end then Ok([])
    else if index.end <= |bytes| then Ok(bytes[index.start..index.end])
    else Err
  }

  /** A load finds exactly the bytes of its interval, and fails exactly when some of them are not there. */
  lemma SliceMeans(bytes: seq<Byte>, index: Index)
    requires index.start <= index.end
    ensures Slice(bytes, index).Ok? <==> index.start == index.end || index.end <= |bytes|
    ensures Slice(bytes, index).Ok? ==>
      && |Slice(bytes, index).value| == index.end - index.start
      && forall i :: index.start <= i < index.end ==> Slice(bytes, index).value[i - index.start] == bytes[i]
  {
  }

  /** What was saved stays readable under its interval whatever is appended. */
  lemma SavedStays(before: seq<Byte>, data: seq<Byte>, after: seq<Byte>)
    ensures Slice(before + data + after, Index(|before|, |before| + |data|)) == Ok(data)
  {
    var all := before + data + after;
    assert all[|before|..|before| + |data|] == data;
  }

  class DataFile {
    var bytes: seq<Byte>
    var position: nat

    constructor (bytes: seq<Byte>)
      ensures this.bytes == bytes && position == 0
    {
      this.bytes, position := bytes, 0;
    }

    /** Seek to the end, append, and say where the data is. */
    method Save(data: seq<Byte>) returns (index: Index)
      modifies this
      ensures bytes == old(bytes) + data
      ensures index == Index(|old(bytes)|, |old(bytes)| + |data|)
    {
      position := |bytes|;
      var tail := position;
      bytes := bytes + data;
      position := |bytes|;
      index := Index(tail, tail + |data|);
    }

    /** Seek and read exactly the interval; the file keeps its content. */
    method Load(index: Index) returns (r: Result<seq<Byte>>)
      requires index.start <= index.end
      modifies this`position
      ensures r == Slice(bytes, index)
    {
      position := index.start;
      var len := index.end - index.start;
      if len == 0 {
        return Ok([]);
      }
      if position + len > |bytes| {
        return Err;
      }
      var data := bytes[position..position + len];
      position := position + len;
      r := Ok(data);
    }
  }

  // ---- Runs of saves and loads -----------------------------------------------------------

  /** `Load(k)` reads back the interval that the k-th save of the run returned. */
  datatype Call = Save(data: seq<Byte>) | Load(which: nat)

  /** The values saved by a run. */
  function Saved(calls: seq<Call>): seq<seq<Byte>>
  {
    if calls == [] then []
    else
      var n := |calls| - 1;
      Saved(calls[..n]) + (if calls[n].Save? then [calls[n].data] else [])
  }

  /** What the loads of a run should return: the value of the save they name, if it came before. */
  function Answers(calls: seq<Call>): seq<seq<Byte>>
  {
    if calls == [] then []
    else
      var n := |calls| - 1;
      var saved := Saved(calls[..n]);
      Answers(calls[..n]) + (if calls[n].Load? && calls[n].which < |saved| then [saved[calls[n].which]] else [])
  }

  function Concat(values: seq<seq<Byte>>): seq<Byte>
  {
    if values == [] then [] else Concat(values[..|values| - 1]) + values[|values| - 1]
  }

  lemma RunStep(calls: seq<Call>, i: nat)
    requires i < |calls|
    ensures var saved := Saved(calls[..i]);
      && Saved(calls[..i + 1]) == (if calls[i].Save? then saved + [calls[i].data] else saved)
      && Answers(calls[..i + 1]) ==
           if calls[i].Load? && calls[i].which < |saved| then Answers(calls[..i]) + [saved[calls[i].which]]
           else Answers(calls[..i])
  {
    assert calls[..i + 1][..i] == calls[..i];
  }

  lemma ConcatAppend(base: seq<Byte>, values: seq<seq<Byte>>, data: seq<Byte>)
    ensures base + Concat(values) + data == base + Concat(values + [data])
  {
    assert (values + [data])[..|values|] == values;
  }

  /** The intervals of the saves lie one behind the other: the first starts at `start`, each next
      one where the one before it ends, and each is as long as its value. */
  predicate Tiles(start: nat, values: seq<seq<Byte>>, indexes: seq<Index>)
  {
    && |indexes| == |values|
    && (values != [] ==>
        var n := |values| - 1;
        && indexes[n].start == End(start, indexes[..n])
        && indexes[n].end == indexes[n].start + |values[n]|
        && Tiles(start, values[..n], indexes[..n]))
  }

  function End(start: nat, indexes: seq<Index>): nat { if indexes == [] then start else indexes[|indexes| - 1].end }

  lemma {:induction false} TilesEnd(start: nat, values: seq<seq<Byte>>, indexes: seq<Index>)
    requires Tiles(start, values, indexes)
    ensures End(start, indexes) == start + |Concat(values)|
  {
    if values != [] {
      var n := |values| - 1;
      TilesEnd(start, values[..n], indexes[..n]);
    }
  }

  /** Every interval of a tiling reads back as its own value. */
  lemma {:induction false} TileReadsBack(base: seq<Byte>, values: seq<seq<Byte>>, indexes: seq<Index>, k: nat,
                                         after: seq<Byte>)
    requires Tiles(|base|, values, indexes) && k < |values|
    ensures indexes[k].start <= indexes[k].end && Slice(base + Concat(values) + after, indexes[k]) == Ok(values[k])
    decreases |values|
  {
    var n := |values| - 1;
    TilesEnd(|base|, values[..n], indexes[..n]);
    var front := base + Concat(values[..n]);
    assert base + Concat(values) + after == front + values[n] + after;
    if k == n {
      SavedStays(front, values[n], after);
    } else {
      TileReadsBack(base, values[..n], indexes[..n], k, values[n] + after);
      assert front + values[n] + after == front + (values[n] + after);
    }
  }

  lemma TileAppend(start: nat, values: seq<seq<Byte>>, indexes: seq<Index>, data: seq<Byte>)
    requires Tiles(start, values, indexes)
    ensures var from := start + |Concat(values)|;
      Tiles(start, values + [data], indexes + [Index(from, from + |data|)])
  {
    TilesEnd(start, values, indexes);
    var from := start + |Concat(values)|;
    assert (values + [data])[..|values|] == values;
    assert (indexes + [Index(from, from + |data|)])[..|indexes|] == indexes;
  }

  method SaveNext(file: DataFile, data: seq<Byte>, indexes: seq<Index>, ghost base: seq<Byte>,
                  ghost values: seq<seq<Byte>>)
    returns (more: seq<Index>)
    requires file.bytes == base + Concat(values) && Tiles(|base|, values, indexes)
    modifies file
    ensures file.bytes == base + Concat(values + [data]) && Tiles(|base|, values + [data], more)
  {
    var index := file.Save(data);
    TileAppend(|base|, values, indexes, data);
    ConcatAppend(base, values, data);
    more := indexes + [index];
  }

  method LoadBack(file: DataFile, which: nat, indexes: seq<Index>, ghost base: seq<Byte>,
                  ghost values: seq<seq<Byte>>)
    returns (data: seq<Byte>)
    requires file.bytes == base + Concat(values) && Tiles(|base|, values, indexes) && which < |indexes|
    modifies file
    ensures file.bytes == old(file.bytes) && data == values[which]
  {
    TileReadsBack(base, values, indexes, which, []);
    assert base + Concat(values) + [] == file.bytes;
    var r := file.Load(indexes[which]);
    data := r.value;
  }

  /** Any run on a file that already holds `bytes`: consecutive saves tile what was appended, and
      every load of an earlier save returns what was saved, whatever happened in between. */
  method Run(file: DataFile, calls: seq<Call>) returns (indexes: seq<Index>, loads: seq<seq<Byte>>)
    modifies file
    ensures file.bytes == old(file.bytes) + Concat(Saved(calls))
    ensures Tiles(|old(file.bytes)|, Saved(calls), indexes)
    ensures loads == Answers(calls)
  {
    indexes, loads := [], [];
    ghost var base := file.bytes;
    assert base + Concat([]) == base;
    for i := 0 to |calls|
      invariant file.bytes == base + Concat(Saved(calls[..i]))
      invariant Tiles(|base|, Saved(calls[..i]), indexes)
      invariant loads == Answers(calls[..i])
    {
      ghost var values := Saved(calls[..i]);
      RunStep(calls, i);
      match calls[i] {
        case Save(data) => indexes := SaveNext(file, data, indexes, base, values);
        case Load(which) =>
          if which < |indexes| {
            var data := LoadBack(file, which, indexes, base, values);
            loads := loads + [data];
          }
      }
    }
    assert calls[..|calls|] == calls;
  }
}
