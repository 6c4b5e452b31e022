/**
 * The converter's run over a table: each row in turn goes through
 * `parse_row`; a section row is skipped, any other row has its declaration
 * written, and the first exception stops the run.  The rows are given already
 * read from the CSV file.
 */
module Batch {
  import opened Wrappers
  import opened Epdx
  import opened Table7

  /** What `parse_row` does with one row. */
  type Outcome = Result<Option<Epd>, PyError>

  /** What a run leaves behind: the declarations written, in order, and the
      exception that stopped it, if one did. */
  datatype Run = Run(written: seq<Epd>, failure: Option<PyError>)

  /** What ParseRow promises about one row's outcome: no identifier raises
      AttributeError, a section row gives nothing, any other row gives its
      declaration, commented with its identifier, or an exception. */
  predicate Fits(out: Outcome, row: Row) {
    match Get(row, SortingId)
    case None => out == Failure(AttributeError)
    case Some(id) =>
      if StartsWith(id, SkipPrefix) then out == Success(None)
      else out.Success? ==> out.value.Some? && out.value.value.comment == Some(id)
  }

  /** `parse_row` for each row from the row numbered `first` on; the row
      numbered k gets `newId(k)` as its generated identifier. */
  function Outcomes(rows: seq<Row>, lookup: map<string, string>, newId: nat -> string, first: nat): (outs: seq<Outcome>)
    ensures |outs| == |rows|
    ensures forall k :: 0 <= k < |rows| ==> outs[k] == ParseRow(rows[k], lookup, newId(first + k))
    ensures forall k :: 0 <= k < |rows| ==> Fits(outs[k], rows[k])
  {
    seq(|rows|, k requires 0 <= k < |rows| => ParseRow(rows[k], lookup, newId(first + k)))
  }

  lemma OutcomesPrefix(rows: seq<Row>, lookup: map<string, string>, newId: nat -> string, first: nat, k: nat)
    requires k <= |rows|
    ensures Outcomes(rows[..k], lookup, newId, first) == Outcomes(rows, lookup, newId, first)[..k]
  {
    var outs := Outcomes(rows, lookup, newId, first);
    var prefix := Outcomes(rows[..k], lookup, newId, first);
    forall i | 0 <= i < k
      ensures prefix[i] == outs[..k][i]
    {
      assert rows[..k][i] == rows[i];
    }
  }

  /** The loop of `main`: write each declaration until the first exception. */
  function Collect(outs: seq<Outcome>): (run: Run)
    ensures |run.written| <= |outs|
    ensures run.failure.Some? ==> Failure(run.failure.value) in outs
    decreases |outs|
  {
    if outs == [] then
      Run([], None)
    else
      match outs[0]
      case Failure(e) => Run([], Some(e))
      case Success(None) => Collect(outs[1..])
      case Success(Some(epd)) =>
        var rest := Collect(outs[1..]);
        Run([epd] + rest.written, rest.failure)
  }

  /** `main` over a whole table. */
  function ConvertTable(rows: seq<Row>, lookup: map<string, string>, newId: nat -> string): (run: Run)
    ensures |run.written| <= |rows|
  {
    Collect(Outcomes(rows, lookup, newId, 0))
  }

  /** The declarations among some outcomes, in order. */
  function Emitted(outs: seq<Outcome>): seq<Epd>
    decreases |outs|
  {
    if outs == [] then []
    else if outs[0].Success? && outs[0].value.Some? then [outs[0].value.value] + Emitted(outs[1..])
    else Emitted(outs[1..])
  }

  /** The identifiers of the rows that are not section rows, in order. */
  function KeptIds(rows: seq<Row>): seq<string>
    decreases |rows|
  {
    if rows == [] then []
    else
      var rest := KeptIds(rows[1..]);
      match Get(rows[0], SortingId)
      case Some(id) => if StartsWith(id, SkipPrefix) then rest else [id] + rest
      case None => rest
  }

  function Comments(written: seq<Epd>): seq<Option<string>>
    decreases |written|
  {
    if written == [] then [] else [written[0].comment] + Comments(written[1..])
  }

  function AsSome(ids: seq<string>): seq<Option<string>>
    decreases |ids|
  {
    if ids == [] then [] else [Some(ids[0])] + AsSome(ids[1..])
  }

  /** Running two tables one after the other is running them joined: the
      second is reached only when the first ran through. */
  lemma {:induction false} CollectAppend(a: seq<Outcome>, b: seq<Outcome>)
    ensures Collect(a + b) ==
      if Collect(a).failure.Some? then Collect(a) else Run(Collect(a).written + Collect(b).written, Collect(b).failure)
    decreases |a|
  {
    if a == [] {
      assert a + b == b;
    } else {
      assert (a + b)[0] == a[0] && (a + b)[1..] == a[1..] + b;
      CollectAppend(a[1..], b);
      if a[0].Success? && a[0].value.Some? {
        var epd := a[0].value.value;
        var ra := Collect(a[1..]);
        assert [epd] + (ra.written + Collect(b).written) == ([epd] + ra.written) + Collect(b).written;
      }
    }
  }

  /** A run goes through exactly when no row raises, and then it writes every declaration. */
  lemma {:induction false} CollectCompletes(outs: seq<Outcome>)
    ensures Collect(outs).failure.None? <==> forall k :: 0 <= k < |outs| ==> outs[k].Success?
    ensures Collect(outs).failure.None? ==> Collect(outs).written == Emitted(outs)
    decreases |outs|
  {
    if outs != [] {
      CollectCompletes(outs[1..]);
      assert forall k :: 1 <= k < |outs| ==> outs[k] == outs[1..][k - 1];
    }
  }

  /** A run stopped by an exception stopped at the first row that raised it, and
      has written exactly the declarations of the rows before that one. */
  lemma {:induction false} CollectStopsAtFirstFailure(outs: seq<Outcome>) returns (k: nat)
    requires Collect(outs).failure.Some?
    ensures k < |outs| && outs[k] == Failure(Collect(outs).failure.value)
    ensures forall j :: 0 <= j < k ==> outs[j].Success?
    ensures Collect(outs).written == Emitted(outs[..k])
    decreases |outs|
  {
    if outs[0].Failure? {
      k := 0;
      assert outs[..0] == [];
    } else {
      var k' := CollectStopsAtFirstFailure(outs[1..]);
      k := k' + 1;
      assert outs[..k][0] == outs[0] && outs[..k][1..] == outs[1..][..k'];
      forall j | 0 <= j < k
        ensures outs[j].Success?
      {
        if j > 0 {
          assert outs[j] == outs[1..][j - 1];
        }
      }
    }
  }

  /** When every row converts, the declarations are one per non-section row, in
      order, each carrying its row's identifier as its comment. */
  lemma {:induction false} EmittedKeptRows(outs: seq<Outcome>, rows: seq<Row>)
    requires |outs| == |rows|
    requires forall k :: 0 <= k < |rows| ==> Fits(outs[k], rows[k]) && outs[k].Success?
    ensures Comments(Emitted(outs)) == AsSome(KeptIds(rows))
    decreases |rows|
  {
    if rows != [] {
      assert forall k :: 0 <= k < |rows[1..]| ==> rows[1..][k] == rows[k + 1] && outs[1..][k] == outs[k + 1];
      EmittedKeptRows(outs[1..], rows[1..]);
      assert Fits(outs[0], rows[0]);
    }
  }

  /** No declaration emitted comes from a section row. */
  lemma {:induction false} EmittedNoSectionRow(outs: seq<Outcome>, rows: seq<Row>)
    requires |outs| == |rows|
    requires forall k :: 0 <= k < |rows| ==> Fits(outs[k], rows[k])
    ensures forall epd :: epd in Emitted(outs) ==> epd.comment.Some? && !StartsWith(epd.comment.value, SkipPrefix)
    decreases |rows|
  {
    if rows != [] {
      assert forall k :: 0 <= k < |rows[1..]| ==> rows[1..][k] == rows[k + 1] && outs[1..][k] == outs[k + 1];
      EmittedNoSectionRow(outs[1..], rows[1..]);
      assert Fits(outs[0], rows[0]);
    }
  }

  /** A table runs through exactly when no row raises. */
  lemma ConvertTableCompletes(rows: seq<Row>, lookup: map<string, string>, newId: nat -> string)
    ensures ConvertTable(rows, lookup, newId).failure.None? <==>
      forall k :: 0 <= k < |rows| ==> ParseRow(rows[k], lookup, newId(k)).Success?
  {
    var outs := Outcomes(rows, lookup, newId, 0);
    CollectCompletes(outs);
    assert forall k :: 0 <= k < |rows| ==> outs[k] == ParseRow(rows[k], lookup, newId(0 + k));
  }

  /** A table with no exception: one declaration per non-section row, in order,
      commented with that row's identifier. */
  lemma ConvertTableWritesKeptRows(rows: seq<Row>, lookup: map<string, string>, newId: nat -> string)
    requires ConvertTable(rows, lookup, newId).failure.None?
    ensures Comments(ConvertTable(rows, lookup, newId).written) == AsSome(KeptIds(rows))
  {
    var outs := Outcomes(rows, lookup, newId, 0);
    CollectCompletes(outs);
    EmittedKeptRows(outs, rows);
  }

  /** Whatever happens, no declaration written comes from a section row. */
  lemma ConvertTableSkipsSectionRows(rows: seq<Row>, lookup: map<string, string>, newId: nat -> string)
    ensures forall epd :: epd in ConvertTable(rows, lookup, newId).written ==>
      epd.comment.Some? && !StartsWith(epd.comment.value, SkipPrefix)
  {
    var outs := Outcomes(rows, lookup, newId, 0);
    if Collect(outs).failure.None? {
      CollectCompletes(outs);
      EmittedNoSectionRow(outs, rows);
    } else {
      var k := CollectStopsAtFirstFailure(outs);
      OutcomesPrefix(rows, lookup, newId, 0, k);
      EmittedNoSectionRow(outs[..k], rows[..k]);
    }
  }

  /** `from_dict` applied to each row that is not a section row, in order, the
      row numbered k with `newId(k)` as its generated identifier; rows it
      cannot convert, and rows without an identifier, give nothing. */
  function KeptDecls(rows: seq<Row>, lookup: map<string, string>, newId: nat -> string, first: nat): seq<Epd>
    decreases |rows|
  {
    if rows == [] then []
    else
      var rest := KeptDecls(rows[1..], lookup, newId, first + 1);
      match Get(rows[0], SortingId)
      case None => rest
      case Some(id) =>
        if StartsWith(id, SkipPrefix) then rest
        else
          match FromDict(rows[0], lookup, newId(first))
          case Success(epd) => [epd] + rest
          case Failure(_) => rest
  }

  /** The outcomes of the rows after the first are the outcomes after the first. */
  lemma OutcomesTail(rows: seq<Row>, lookup: map<string, string>, newId: nat -> string, first: nat)
    requires rows != []
    ensures Outcomes(rows[1..], lookup, newId, first + 1) == Outcomes(rows, lookup, newId, first)[1..]
  {
    var outs := Outcomes(rows, lookup, newId, first);
    var tail := Outcomes(rows[1..], lookup, newId, first + 1);
    forall k | 0 <= k < |tail|
      ensures tail[k] == outs[1..][k]
    {
      assert rows[1..][k] == rows[k + 1] && first + 1 + k == first + (k + 1);
    }
  }

  /** When the run goes through, its declarations are those of KeptDecls. */
  lemma {:induction false} EmittedKeptDecls(rows: seq<Row>, lookup: map<string, string>, newId: nat -> string, first: nat)
    requires Collect(Outcomes(rows, lookup, newId, first)).failure.None?
    ensures Collect(Outcomes(rows, lookup, newId, first)).written == KeptDecls(rows, lookup, newId, first)
    decreases |rows|
  {
    if rows != [] {
      var outs := Outcomes(rows, lookup, newId, first);
      OutcomesTail(rows, lookup, newId, first);
      EmittedKeptDecls(rows[1..], lookup, newId, first + 1);
      assert outs[0] == ParseRow(rows[0], lookup, newId(first + 0));
    }
  }

  /** A table with no exception writes exactly `from_dict` of each non-section
      row, in row order. */
  lemma ConvertTableWritesKeptDecls(rows: seq<Row>, lookup: map<string, string>, newId: nat -> string)
    requires ConvertTable(rows, lookup, newId).failure.None?
    ensures ConvertTable(rows, lookup, newId).written == KeptDecls(rows, lookup, newId, 0)
  {
    EmittedKeptDecls(rows, lookup, newId, 0);
  }

  /** A table stopped by an exception: the exception is that of the first row
      that raises, and what was written is what the rows before it write. */
  lemma ConvertTableStopsAtFirstFailure(rows: seq<Row>, lookup: map<string, string>, newId: nat -> string)
    returns (k: nat)
    requires ConvertTable(rows, lookup, newId).failure.Some?
    ensures k < |rows|
    ensures ParseRow(rows[k], lookup, newId(k)) == Failure(ConvertTable(rows, lookup, newId).failure.value)
    ensures forall j :: 0 <= j < k ==> ParseRow(rows[j], lookup, newId(j)).Success?
    ensures ConvertTable(rows[..k], lookup, newId) == Run(ConvertTable(rows, lookup, newId).written, None)
    ensures ConvertTable(rows, lookup, newId).written == KeptDecls(rows[..k], lookup, newId, 0)
  {
    var outs := Outcomes(rows, lookup, newId, 0);
    k := CollectStopsAtFirstFailure(outs);
    assert forall j :: 0 <= j < |rows| ==> outs[j] == ParseRow(rows[j], lookup, newId(0 + j));
    OutcomesPrefix(rows, lookup, newId, 0, k);
    CollectCompletes(outs[..k]);
    ConvertTableWritesKeptDecls(rows[..k], lookup, newId);
  }

  /** The output directory after the declarations are written in order: the
      file named after an identifier holds the declaration written last under
      it, since a later write replaces an earlier file of the same name. */
  function Directory(written: seq<Epd>): (dir: map<string, Epd>)
    ensures forall id :: id in dir ==> dir[id].id == id
    decreases |written|
  {
    if written == [] then map[]
    else
      var last := written[|written| - 1];
      Directory(written[..|written| - 1])[last.id := last]
  }

  /** A file exists exactly for the identifiers written. */
  lemma {:induction false} DirectoryNames(written: seq<Epd>)
    ensures forall id :: id in Directory(written) <==> exists k :: 0 <= k < |written| && written[k].id == id
    decreases |written|
  {
    if written != [] {
      var init := written[..|written| - 1];
      DirectoryNames(init);
      assert forall k :: 0 <= k < |init| ==> init[k] == written[k];
    }
  }

  /** Each file holds the last declaration written under its name. */
  lemma {:induction false} DirectoryHoldsLastWrite(written: seq<Epd>, k: nat)
    requires k < |written|
    requires forall j :: k < j < |written| ==> written[j].id != written[k].id
    ensures written[k].id in Directory(written) && Directory(written)[written[k].id] == written[k]
    decreases |written|
  {
    if k < |written| - 1 {
      var init := written[..|written| - 1];
      DirectoryHoldsLastWrite(init, k);
    }
  }
}
