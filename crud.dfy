/** The create/read/update interface every model class inherits (timetabler/models.py:10-87):
    rows found by keyword arguments within the current year and study period, created on
    demand, and updated attribute by attribute. */
module Crud {
  import opened Seqs
  import opened Roster

  /** A column value. */
  datatype Value = Int(i: int) | Str(s: string) | Bool(b: bool) | Null

  /** A row as its attributes, by column name. */
  type Attrs = map<string, Value>

  /** `.first()` of a query: the earliest row satisfying the filter, if any. */
  function FirstMatch<R>(rows: seq<R>, matches: R -> bool): (found: Option<nat>)
    ensures found.Some? ==> found.value < |rows| && matches(rows[found.value])
    ensures found.Some? ==> forall p :: 0 <= p < found.value ==> !matches(rows[p])
    ensures found.None? ==> forall p :: 0 <= p < |rows| ==> !matches(rows[p])
  {
    if rows == [] then None
    else if matches(rows[0]) then Some(0)
    else match FirstMatch(rows[1..], matches)
      case None => None
      case Some(p) => Some(p + 1)
  }

  /** `get_or_create` (models.py:20-35): the first matching row when there is one, leaving the
      rows as they are; otherwise `novel` is appended and its position returned. The rows only
      ever grow, by one row at most, and only when nothing matched. */
  function FindOrAppend<R>(rows: seq<R>, matches: R -> bool, novel: R): (result: (seq<R>, nat))
    ensures result.1 < |result.0| && |rows| <= |result.0| <= |rows| + 1
    ensures result.0[..|rows|] == rows
    ensures |result.0| == |rows| + 1 <==> forall p :: 0 <= p < |rows| ==> !matches(rows[p])
    ensures result.1 < |rows| ==> matches(rows[result.1])
    ensures result.1 == |rows| ==> result.0[result.1] == novel
  {
    match FirstMatch(rows, matches)
    case Some(p) => (rows, p)
    case None => (rows + [novel], |rows|)
  }

  /** A second `get_or_create` with the same arguments finds the row the first one returned
      and creates nothing, provided the created row satisfies its own query. */
  lemma GetOrCreateIdempotent<R>(rows: seq<R>, matches: R -> bool, novel: R)
    requires matches(novel)
    ensures FindOrAppend(FindOrAppend(rows, matches, novel).0, matches, novel) == FindOrAppend(rows, matches, novel)
  {
    if FirstMatch(rows, matches).None? {
      FirstMatchAfter(rows, matches, novel);
    }
  }

  /** A matching row appended after rows that do not match is the first match. */
  lemma {:induction false} FirstMatchAfter<R>(rows: seq<R>, matches: R -> bool, novel: R)
    requires matches(novel) && forall p :: 0 <= p < |rows| ==> !matches(rows[p])
    ensures FirstMatch(rows + [novel], matches) == Some(|rows|)
  {
    if rows != [] {
      assert (rows + [novel])[1..] == rows[1..] + [novel];
      assert forall p :: 0 <= p < |rows[1..]| ==> rows[1..][p] == rows[p + 1];
      FirstMatchAfter(rows[1..], matches, novel);
    }
  }

  /** `filter_by(year=..., studyperiod=..., **kwargs)` (models.py:17-18): the row lies in the
      current context and agrees with every keyword argument. */
  function KwargsMatch(ctx: Context, kwargs: Attrs): Attrs -> bool {
    (row: Attrs) =>
      && "year" in row && row["year"] == Int(ctx.year)
      && "studyperiod" in row && row["studyperiod"] == Str(ctx.studyperiod)
      && forall a :: a in kwargs ==> a in row && row[a] == kwargs[a]
  }

  /** `cls(**kwargs)` for a model whose constructor stores every argument under its own name
      after `Base.__init__` stamps the current year and study period (models.py:101-106).
      A keyword named `year` or `studyperiod` would reach `filter_by` twice, which Python
      rejects, so callers never pass one. */
  function Construct(ctx: Context, kwargs: Attrs): (row: Attrs)
    requires "year" !in kwargs && "studyperiod" !in kwargs
    ensures KwargsMatch(ctx, kwargs)(row)
    ensures row.Keys == kwargs.Keys + {"year", "studyperiod"}
  {
    kwargs["year" := Int(ctx.year)]["studyperiod" := Str(ctx.studyperiod)]
  }

  /** `update(**kwargs)` on one row (models.py:37-46): every keyword's attribute takes the new
      value and every other attribute keeps its old one. */
  function Updated(row: Attrs, kwargs: Attrs): (row': Attrs)
    ensures row'.Keys == row.Keys + kwargs.Keys
    ensures forall a :: a in kwargs ==> row'[a] == kwargs[a]
    ensures forall a :: a in row && a !in kwargs ==> row'[a] == row[a]
  {
    row + kwargs
  }

  /** Updating twice with the same keywords is updating once. */
  lemma UpdateIdempotent(row: Attrs, kwargs: Attrs)
    ensures Updated(Updated(row, kwargs), kwargs) == Updated(row, kwargs)
  {
  }

  /** After `update(**kwargs)` on a row of the current context, `get(**kwargs)` finds a row. */
  lemma UpdateThenGet(ctx: Context, rows: seq<Attrs>, id: nat, kwargs: Attrs)
    requires id < |rows| && "year" !in kwargs && "studyperiod" !in kwargs
    requires "year" in rows[id] && rows[id]["year"] == Int(ctx.year)
    requires "studyperiod" in rows[id] && rows[id]["studyperiod"] == Str(ctx.studyperiod)
    ensures FirstMatch(rows[id := Updated(rows[id], kwargs)], KwargsMatch(ctx, kwargs)).Some?
  {
    var rows' := rows[id := Updated(rows[id], kwargs)];
    assert KwargsMatch(ctx, kwargs)(rows'[id]);
  }

  /** A table of one model class, its rows in id order. */
  class Table {
    var rows: seq<Attrs>

    constructor ()
      ensures rows == []
    {
      rows := [];
    }

    /** `cls.get_or_create(**kwargs)` in the context `ctx`; `id` is the row returned. */
    method GetOrCreate(ctx: Context, kwargs: Attrs) returns (id: nat)
      requires "year" !in kwargs && "studyperiod" !in kwargs
      modifies this
      ensures (rows, id) == FindOrAppend(old(rows), KwargsMatch(ctx, kwargs), Construct(ctx, kwargs))
    {
      var found := FirstMatch(rows, KwargsMatch(ctx, kwargs));
      if found.None? {
        id := |rows|;
        rows := rows + [Construct(ctx, kwargs)];
      } else {
        id := found.value;
      }
    }

    /** `row.update(**kwargs)`: one `setattr` per keyword, in turn. */
    method Update(id: nat, kwargs: Attrs)
      requires id < |rows|
      modifies this
      ensures rows == old(rows)[id := Updated(old(rows)[id], kwargs)]
    {
      var pending := kwargs.Keys;
      while pending != {}
        invariant pending <= kwargs.Keys
        invariant |rows| == |old(rows)| && forall p :: 0 <= p < |rows| && p != id ==> rows[p] == old(rows)[p]
        invariant rows[id].Keys == old(rows)[id].Keys + (kwargs.Keys - pending)
        invariant forall a :: a in kwargs && a !in pending ==> rows[id][a] == kwargs[a]
        invariant forall a :: a in old(rows)[id] && (a !in kwargs || a in pending) ==> rows[id][a] == old(rows)[id][a]
        decreases pending
      {
        var a :| a in pending;
        rows := rows[id := rows[id][a := kwargs[a]]];
        pending := pending - {a};
      }
      assert rows[id] == Updated(old(rows)[id], kwargs);
    }
  }
}
