/** Parsed JSON as `r.json()` returns it, with the Python operations the
    scraper applies to it: truthiness (`if not data`), `.get(key, default)`,
    `key in obj`, iteration, and `pandas.json_normalize` of one record. */
module JsonValues {
  import opened Wrappers

  /** Objects keep their keys in document order, as Python dicts do.
      Numbers are integers; floating point is not modelled. */
  datatype Json =
    | JNull
    | JBool(b: bool)
    | JNum(n: int)
    | JStr(s: string)
    | JArr(items: seq<Json>)
    | JObj(fields: seq<(string, Json)>)

  /** A one-row data frame: its columns in order, each with its value. */
  type Row = seq<(string, Json)>

  /** Python's `bool(x)`: `None`, `False`, `0` and empty containers are false. */
  predicate Truthy(j: Json) {
    match j
    case JNull => false
    case JBool(b) => b
    case JNum(n) => n != 0
    case JStr(s) => s != ""
    case JArr(xs) => xs != []
    case JObj(fs) => fs != []
  }

  /** The value stored under `key`: the first field with that key. */
  function Lookup(fs: seq<(string, Json)>, key: string): (r: Option<Json>)
    ensures r.None? <==> forall i :: 0 <= i < |fs| ==> fs[i].0 != key
    ensures r.Some? ==> (exists i :: 0 <= i < |fs| && fs[i] == (key, r.value) &&
                                     forall j :: 0 <= j < i ==> fs[j].0 != key)
  {
    if fs == [] then None
    else if fs[0].0 == key then Some(fs[0].1)
    else
      var r := Lookup(fs[1..], key);
      if r.Some? then
        var i :| 0 <= i < |fs[1..]| && fs[1..][i] == (key, r.value) &&
          forall j :: 0 <= j < i ==> fs[1..][j].0 != key;
        assert fs[i + 1] == (key, r.value);
        r
      else r
  }

  /** `j.get(key, default)`. */
  function Get(j: Json, key: string, default: Json): (r: Json)
    ensures j.JObj? && Lookup(j.fields, key).Some? ==> r == Lookup(j.fields, key).value
    ensures !(j.JObj? && Lookup(j.fields, key).Some?) ==> r == default
  {
    if j.JObj? then
      match Lookup(j.fields, key)
      case Some(v) => v
      case None => default
    else default
  }

  /** `key in j` for an object. */
  predicate HasKey(j: Json, key: string) {
    j.JObj? && Lookup(j.fields, key).Some?
  }

  /** What `for x in j` visits: the elements of a list, the keys of an
      object, the characters of a string. */
  function Elements(j: Json): (r: seq<Json>)
    ensures j.JArr? ==> r == j.items
    ensures j.JObj? ==> |r| == |j.fields|
    ensures j.JStr? ==> |r| == |j.s|
    ensures Truthy(j) && (j.JArr? || j.JObj? || j.JStr?) <==> r != []
  {
    match j
    case JArr(xs) => xs
    case JObj(fs) => seq(|fs|, i requires 0 <= i < |fs| => JStr(fs[i].0))
    case JStr(s) => seq(|s|, i requires 0 <= i < |s| => JStr([s[i]]))
    case _ => []
  }

  /** `pandas.json_normalize` of one record: the top-level fields whose
      values are not objects come first, in document order; then the nested
      objects, in document order, flattened into `outer.inner` columns. An
      empty nested object contributes no column. */
  function Normalize(record: Json): Row {
    if record.JObj?
    then ScalarFields(record.fields) + NormalizeFrom("", JObj(ObjectFields(record.fields)), 0)
    else []
  }

  /** The fields whose values are not objects, in order. */
  function ScalarFields(fs: seq<(string, Json)>): seq<(string, Json)> {
    if fs == [] then []
    else (if fs[0].1.JObj? then [] else [fs[0]]) + ScalarFields(fs[1..])
  }

  /** The fields whose values are objects, in order. */
  function ObjectFields(fs: seq<(string, Json)>): seq<(string, Json)> {
    if fs == [] then []
    else (if fs[0].1.JObj? then [fs[0]] else []) + ObjectFields(fs[1..])
  }

  /** The nested objects below `obj`'s fields from `i` on, flattened under
      `prefix`, field by field. */
  function NormalizeFrom(prefix: string, obj: Json, i: nat): Row
    requires obj.JObj? && i <= |obj.fields|
    decreases obj, |obj.fields| - i
  {
    if i == |obj.fields| then []
    else
      var (key, v) := obj.fields[i];
      var column := if prefix == "" then key else prefix + "." + key;
      assert obj.fields[i] in obj.fields;
      (if v.JObj? then NormalizeFrom(column, v, 0) else [(column, v)])
      + NormalizeFrom(prefix, obj, i + 1)
  }

  /** No value of a normalised record is an object. */
  lemma {:induction false} NormalizeFromLeaves(prefix: string, obj: Json, i: nat)
    requires obj.JObj? && i <= |obj.fields|
    decreases obj, |obj.fields| - i
    ensures forall c :: 0 <= c < |NormalizeFrom(prefix, obj, i)| ==>
      !NormalizeFrom(prefix, obj, i)[c].1.JObj?
  {
    if i < |obj.fields| {
      var (key, v) := obj.fields[i];
      var column := if prefix == "" then key else prefix + "." + key;
      assert obj.fields[i] in obj.fields;
      if v.JObj? {
        NormalizeFromLeaves(column, v, 0);
      }
      NormalizeFromLeaves(prefix, obj, i + 1);
    }
  }

  lemma {:induction false} ScalarFieldsLeaves(fs: seq<(string, Json)>)
    ensures forall c :: 0 <= c < |ScalarFields(fs)| ==> !ScalarFields(fs)[c].1.JObj?
  {
    if fs != [] {
      ScalarFieldsLeaves(fs[1..]);
    }
  }

  lemma NormalizeLeaves(record: Json)
    ensures forall c :: 0 <= c < |Normalize(record)| ==> !Normalize(record)[c].1.JObj?
  {
    if record.JObj? {
      ScalarFieldsLeaves(record.fields);
      NormalizeFromLeaves("", JObj(ObjectFields(record.fields)), 0);
    }
  }

  /** Without nested objects, every field is a scalar field and none is an
      object field. */
  lemma {:induction false} FlatFields(fs: seq<(string, Json)>)
    requires forall c :: 0 <= c < |fs| ==> !fs[c].1.JObj?
    ensures ScalarFields(fs) == fs && ObjectFields(fs) == []
  {
    if fs != [] {
      FlatFields(fs[1..]);
    }
  }

  /** A record without nested objects keeps its fields as columns, in
      order. */
  lemma NormalizeFlat(fs: seq<(string, Json)>)
    requires forall c :: 0 <= c < |fs| ==> !fs[c].1.JObj?
    ensures Normalize(JObj(fs)) == fs
  {
    FlatFields(fs);
    assert NormalizeFrom("", JObj([]), 0) == [];
    assert fs + [] == fs;
  }

  /** `{"Driver": {"familyName": v}}` becomes the single column
      `Driver.familyName`. */
  lemma NormalizeNested(outer: string, inner: string, v: Json)
    requires outer != "" && !v.JObj?
    ensures Normalize(JObj([(outer, JObj([(inner, v)]))])) == [(outer + "." + inner, v)]
  {
    var nested := JObj([(inner, v)]);
    var fs := [(outer, nested)];
    assert fs[1..] == [];
    assert ScalarFields(fs) == [] && ObjectFields(fs) == fs;
    assert NormalizeFrom(outer, nested, 1) == [];
    assert NormalizeFrom(outer, nested, 0) == [(outer + "." + inner, v)];
    assert NormalizeFrom("", JObj(fs), 1) == [];
  }

  /** The top-level scalars come before the columns of a nested object that
      precedes them in the record: `{"Driver": {"code": v}, "grid": w}`
      gives `grid` first, then `Driver.code`. */
  lemma NormalizeScalarsFirst(outer: string, inner: string, v: Json, key: string, w: Json)
    requires outer != "" && !v.JObj? && !w.JObj?
    ensures Normalize(JObj([(outer, JObj([(inner, v)])), (key, w)])) == [(key, w), (outer + "." + inner, v)]
  {
    var nested := JObj([(inner, v)]);
    var fs := [(outer, nested), (key, w)];
    assert fs[1..] == [(key, w)] && fs[1..][1..] == [];
    assert ScalarFields([(key, w)]) == [(key, w)];
    assert ObjectFields([(key, w)]) == [];
    assert ScalarFields(fs) == [(key, w)];
    assert ObjectFields(fs) == [(outer, nested)];
    NormalizeNested(outer, inner, v);
    assert NormalizeFrom("", JObj([(outer, nested)]), 0) == [(outer + "." + inner, v)];
  }
}
