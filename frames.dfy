/** One-row data frames as the per-item code builds them: `flatten`
    applied to a frame's columns, and column assignment `flat[k] = v`. */
module Frames {
  import opened Wrappers
  import opened JsonValues
  import opened Columns

  function Names(row: Row): (names: seq<string>)
    ensures |names| == |row|
    ensures forall i :: 0 <= i < |row| ==> names[i] == row[i].0
  {
    seq(|row|, i requires 0 <= i < |row| => row[i].0)
  }

  /** `flatten(df)` on a frame: the columns are renamed, the values stay. */
  function FlattenRow(row: Row): (r: Row)
    ensures Names(r) == Flatten(Names(row))
    ensures forall i :: 0 <= i < |row| ==> r[i].1 == row[i].1
  {
    seq(|row|, i requires 0 <= i < |row| => (FlattenName(row[i].0), row[i].1))
  }

  /** A flattened frame is flattened again to itself. */
  lemma FlattenRowIdempotent(row: Row)
    ensures FlattenRow(FlattenRow(row)) == FlattenRow(row)
  {
    var once := FlattenRow(row);
    FlattenIdempotent(Names(row));
    forall i | 0 <= i < |row| ensures FlattenRow(once)[i] == once[i] {
      assert Flatten(Names(once))[i] == Flatten(Flatten(Names(row)))[i];
    }
  }

  predicate HasColumn(row: Row, k: string) {
    exists i :: 0 <= i < |row| && row[i].0 == k
  }

  /** `flat[k] = v`: every column named `k` takes the value `v`; without one,
      a new column is added at the end. */
  function SetColumn(row: Row, k: string, v: Json): Row {
    if HasColumn(row, k) then
      seq(|row|, i requires 0 <= i < |row| => if row[i].0 == k then (k, v) else row[i])
    else row + [(k, v)]
  }

  /** Same-named columns are overwritten where they stand; the row only
      grows when there was none. */
  lemma SetColumnShape(row: Row, k: string, v: Json)
    ensures var r := SetColumn(row, k, v);
            HasColumn(row, k) ==>
              (|r| == |row| &&
               forall i :: 0 <= i < |row| ==> r[i] == if row[i].0 == k then (k, v) else row[i])
    ensures !HasColumn(row, k) ==> SetColumn(row, k, v) == row + [(k, v)]
  {
  }

  /** After `flat[k] = v`, `flat[k]` reads `v` and every other column reads
      what it read before; existing columns keep their place. */
  lemma SetColumnReads(row: Row, k: string, v: Json)
    ensures Lookup(SetColumn(row, k, v), k) == Some(v)
    ensures forall c :: c != k ==> Lookup(SetColumn(row, k, v), c) == Lookup(row, c)
    ensures |SetColumn(row, k, v)| >= |row|
    ensures forall i :: 0 <= i < |row| ==> SetColumn(row, k, v)[i].0 == row[i].0
  {
    var r := SetColumn(row, k, v);
    SetColumnShape(row, k, v);
    if !HasColumn(row, k) {
      assert r[|row|] == (k, v);
    }
    forall c | c != k ensures Lookup(r, c) == Lookup(row, c) {
      LookupSameKeys(row, r, c);
    }
  }

  /** Two rows whose fields agree wherever either has key `c`, and which
      have the field at the same positions, answer the same for `c`. */
  lemma {:induction false} LookupSameKeys(a: Row, b: Row, c: string)
    requires |a| <= |b|
    requires forall i :: 0 <= i < |a| ==> (a[i].0 == c <==> b[i].0 == c) && (a[i].0 == c ==> a[i] == b[i])
    requires forall i :: |a| <= i < |b| ==> b[i].0 != c
    ensures Lookup(a, c) == Lookup(b, c)
  {
    if a != [] {
      if a[0].0 != c {
        LookupSameKeys(a[1..], b[1..], c);
      }
    } else if b != [] {
      assert forall i :: 0 <= i < |b| ==> b[i].0 != c;
    }
  }

  /** `for k, v in meta.items(): flat[k] = v`, one column after another. */
  function WithColumns(row: Row, meta: Row): Row {
    if meta == [] then row
    else
      var (k, v) := meta[|meta| - 1];
      SetColumn(WithColumns(row, meta[..|meta| - 1]), k, v)
  }

  predicate DistinctKeys(meta: Row) {
    forall i, j :: 0 <= i < j < |meta| ==> meta[i].0 != meta[j].0
  }

  /** With distinct keys, every key of `meta` reads its `meta` value,
      whatever the row held under it; every other column is untouched, and
      the row's own columns keep their order in front. */
  lemma {:induction false} WithColumnsReads(row: Row, meta: Row)
    requires DistinctKeys(meta)
    ensures forall i :: 0 <= i < |meta| ==> Lookup(WithColumns(row, meta), meta[i].0) == Some(meta[i].1)
    ensures forall c :: (forall i :: 0 <= i < |meta| ==> meta[i].0 != c) ==>
      Lookup(WithColumns(row, meta), c) == Lookup(row, c)
    ensures |WithColumns(row, meta)| >= |row|
    ensures forall i :: 0 <= i < |row| ==> WithColumns(row, meta)[i].0 == row[i].0
  {
    if meta != [] {
      var init := meta[..|meta| - 1];
      var (k, v) := meta[|meta| - 1];
      assert DistinctKeys(init);
      WithColumnsReads(row, init);
      SetColumnReads(WithColumns(row, init), k, v);
      forall i | 0 <= i < |meta| ensures Lookup(WithColumns(row, meta), meta[i].0) == Some(meta[i].1) {
        if i < |meta| - 1 {
          assert init[i] == meta[i];
        }
      }
    }
  }

  /** The loop `for k, v in meta.items(): flat[k] = v`. */
  method AssignColumns(flat: Row, meta: Row) returns (r: Row)
    ensures r == WithColumns(flat, meta)
  {
    r := flat;
    var i := 0;
    while i < |meta|
      invariant 0 <= i <= |meta|
      invariant r == WithColumns(flat, meta[..i])
    {
      assert meta[..i + 1][..i] == meta[..i];
      r := SetColumn(r, meta[i].0, meta[i].1);
      i := i + 1;
    }
    assert meta[..|meta|] == meta;
  }
}
