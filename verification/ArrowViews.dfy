/** Read-only views over metadata batches, and the reader that exports a view as bounded batches. */
module ArrowViews {
  import opened Common
  import opened PrefixOffsets

  const METADATA_BATCH_ROWS: nat := 65_536

  datatype ArrowMetadata<T> = ArrowMetadata(
    batches: seq<seq<T>>, offsets: seq<nat>, rows: nat, selection: Option<seq<nat>>)
  {
    ghost predicate Valid() {
      && AreOffsets(Sizes(batches), offsets)
      && rows == |Flat(batches)|
      && (selection.Some? ==> forall k :: 0 <= k < |selection.value| ==> selection.value[k] < rows)
    }

    function Len(): nat { if selection.Some? then |selection.value| else rows }

    /** The flat row that a view position names. */
    function Target(position: nat): nat
      requires position < Len()
    {
      if selection.Some? then selection.value[position] else position
    }

    /** What the view shows: the concatenated batches, or the selected rows of them in order. */
    ghost function View(): (r: seq<T>)
      requires Valid()
      ensures |r| == Len() && forall k :: 0 <= k < |r| ==> r[k] == Flat(batches)[Target(k)]
    {
      seq(Len(), k requires 0 <= k < Len() => Flat(batches)[Target(k)])
    }

    /** `location`: a position past the end is refused, every other one is found. */
    function Location(position: nat): (r: Result<(nat, nat)>)
      requires Valid()
      ensures r.Ok? <==> position < Len()
      ensures r.Err? ==> r.error == InvalidInput
      ensures r.Ok? ==>
        && r.value.0 < |batches| && r.value.1 < |batches[r.value.0]|
        && Offset(Sizes(batches), r.value.0) + r.value.1 == Target(position)
    {
      if position >= Len() then Err(InvalidInput)
      else
        FlatLength(batches);
        match Locate(Sizes(batches), offsets, Target(position))
        case None => Err(InvalidInput)
        case Some(place) => Ok(place)
    }

    /** Batch search agrees with flat indexing. */
    lemma LocationShows(position: nat)
      requires Valid() && position < Len()
      ensures var place := Location(position).value; batches[place.0][place.1] == View()[position]
    {
      var place := Location(position).value;
      FlatAt(batches, place.0, place.1);
    }
  }

  /** Without a selection, rows that follow each other in one batch follow each other in the view. */
  lemma SharedRun<T>(table: ArrowMetadata<T>, view: seq<T>, position: nat, b: nat, row: nat, end: nat)
    requires table.Valid() && table.selection.None? && view == table.View() && position < table.Len()
    requires table.Location(position) == Ok((b, row)) && row < end <= |table.batches[b]|
    ensures position + (end - row) <= |view|
    ensures table.batches[b][row..end] == view[position..position + (end - row)]
  {
    FlatSlice(table.batches, Flat(table.batches), table.batches[b], b, row, end, position);
    assert view == Flat(table.batches);
  }

  /** `row`: the batch a view position falls into, and the row there. */
  method Row<T>(table: ArrowMetadata<T>, ghost view: seq<T>, position: nat) returns (b: nat, value: T)
    requires table.Valid() && view == table.View() && position < table.Len()
    ensures b == table.Location(position).value.0 && value == view[position]
  {
    var place := table.Location(position).value;
    table.LocationShows(position);
    b, value := place.0, table.batches[place.0][place.1];
  }

  /** `ArrowMetadata::new`. */
  method New<T>(batches: seq<seq<T>>) returns (r: Result<ArrowMetadata<T>>)
    ensures r.Ok? <==> |Flat(batches)| <= U64_MAX
    ensures r.Ok? ==> r.value.Valid() && r.value.batches == batches && r.value.View() == Flat(batches)
  {
    var offsets, total := BuildOffsets(Sizes(batches));
    FlatLength(batches);
    match offsets
    case Err(error) => r := Err(error);
    case Ok(starts) => r := Ok(ArrowMetadata(batches, starts, total, None));
  }

  /** `select`: nulls and rows out of range are refused; repeats are allowed. */
  method Select<T>(table: ArrowMetadata<T>, selection: seq<Option<nat>>) returns (r: Result<ArrowMetadata<T>>)
    requires table.Valid()
    ensures r.Ok? <==> forall k :: 0 <= k < |selection| ==> selection[k].Some? && selection[k].value < table.rows
    ensures r.Ok? ==> r.value.Valid() && r.value.batches == table.batches && |r.value.View()| == |selection|
    ensures r.Ok? ==> forall k :: 0 <= k < |selection| ==> r.value.View()[k] == Flat(table.batches)[selection[k].value]
  {
    var chosen: seq<nat> := [];
    for i := 0 to |selection|
      invariant |chosen| == i
      invariant forall k :: 0 <= k < i ==> selection[k] == Some(chosen[k]) && chosen[k] < table.rows
    {
      if selection[i].None? || selection[i].value >= table.rows {
        return Err(InvalidInput);
      }
      chosen := chosen + [selection[i].value];
    }
    r := Ok(table.(selection := Some(chosen)));
  }

  /** An exported batch: neither empty nor too long, and exactly a stretch of the view. */
  ghost predicate Exports<T>(view: seq<T>, from: nat, to: nat, batch: seq<T>) {
    from < to <= |view| && to - from <= 65_536 && batch == view[from..to]
  }

  class MetadataReader<T(!new)> {
    const table: ArrowMetadata<T>
    var position: nat

    ghost predicate Valid()
      reads this
    {
      table.Valid() && position <= table.Len()
    }

    constructor (table: ArrowMetadata<T>)
      requires table.Valid()
      ensures Valid() && this.table == table && position == 0 && fresh(this)
    {
      this.table, position := table, 0;
    }

    /** `shared_batch`: the rest of one producer batch, cut to the row limit. */
    method SharedBatch() returns (batch: seq<T>)
      requires Valid() && position < table.Len() && table.selection.None?
      modifies this
      ensures Valid() && Exports(table.View(), old(position), position, batch)
      ensures position < table.Len() && |batch| < METADATA_BATCH_ROWS ==>
        table.Location(position).value.0 != table.Location(old(position)).value.0
    {
      var place := table.Location(position).value;
      var source := table.batches[place.0];
      var len := if |source| - place.1 < METADATA_BATCH_ROWS then |source| - place.1 else METADATA_BATCH_ROWS;
      batch := source[place.1..place.1 + len];
      SharedRun(table, table.View(), position, place.0, place.1, place.1 + len);
      position := position + len;
    }

    /** `selected_batch`: the longest run of selected rows from one producer batch, up to the row limit. */
    method SelectedBatch() returns (batch: seq<T>)
      requires Valid() && position < table.Len()
      modifies this
      ensures Valid() && Exports(table.View(), old(position), position, batch)
      ensures position < table.Len() && |batch| < METADATA_BATCH_ROWS ==>
        table.Location(position).value.0 != table.Location(old(position)).value.0
    {
      ghost var view, from := table.View(), position;
      var first, value := Row(table, view, position);
      batch := [value];
      var end := position + 1;
      while end < table.Len() && |batch| < METADATA_BATCH_ROWS
        invariant from < end <= table.Len() && |batch| == end - from <= METADATA_BATCH_ROWS
        invariant batch == view[from..end]
      {
        var b, next := Row(table, view, end);
        if b != first {
          break;
        }
        batch := batch + [next];
        end := end + 1;
      }
      position := end;
    }

    method Next() returns (batch: Option<seq<T>>)
      requires Valid()
      modifies this
      ensures Valid()
      ensures batch.None? <==> old(position) == table.Len()
      ensures batch.None? ==> position == old(position)
      ensures batch.Some? ==> Exports(table.View(), old(position), position, batch.value)
    {
      if position >= table.Len() {
        return None;
      }
      var b;
      if table.selection.None? {
        b := SharedBatch();
      } else {
        b := SelectedBatch();
      }
      batch := Some(b);
    }
  }

  /** Reading to the end: bounded nonempty batches whose concatenation is the view. */
  method Export<T(!new)>(table: ArrowMetadata<T>) returns (out: seq<seq<T>>)
    requires table.Valid()
    ensures Flat(out) == table.View()
    ensures forall k :: 0 <= k < |out| ==> 0 < |out[k]| <= METADATA_BATCH_ROWS
  {
    var reader := new MetadataReader(table);
    out := [];
    ghost var view := table.View();
    var batch := reader.Next();
    while batch.Some?
      invariant reader.Valid() && |Flat(out)| <= reader.position
      invariant batch.None? ==> reader.position == table.Len() && Flat(out) == view[..reader.position]
      invariant batch.Some? ==>
        Exports(view, |Flat(out)|, reader.position, batch.value) && Flat(out) == view[..|Flat(out)|]
      invariant forall k :: 0 <= k < |out| ==> 0 < |out[k]| <= METADATA_BATCH_ROWS
      decreases table.Len() - |Flat(out)|
    {
      FlatAppend(out, batch.value);
      out := out + [batch.value];
      batch := reader.Next();
    }
    assert view[..|view|] == view;
  }
}
