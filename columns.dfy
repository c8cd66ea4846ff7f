/** The column-name normaliser applied to every table the scraper builds:
    `.` becomes `_`, then five fixed renames are applied one after another.
    Each step has the meaning of Python's `str.replace`: every occurrence,
    scanned left to right, without overlaps. */
module Columns {

  /** The pattern `q` starts at index `i` of `s`. */
  predicate OccursAt(s: string, q: string, i: int) {
    0 <= i && i + |q| <= |s| && s[i..i + |q|] == q
  }

  /** The pattern `q` occurs somewhere in `s`. */
  predicate Occurs(s: string, q: string) {
    exists i :: 0 <= i <= |s| && OccursAt(s, q, i)
  }

  /** Python's `s.find(pat, k)`: the first index at or after `k` where `pat`
      starts, or -1. */
  function IndexFrom(s: string, pat: string, k: nat): (r: int)
    requires pat != []
    requires k <= |s|
    decreases |s| - k
    ensures r == -1 || (k <= r && OccursAt(s, pat, r))
    ensures forall j :: k <= j && (r == -1 || j < r) ==> !OccursAt(s, pat, j)
  {
    if k + |pat| > |s| then -1
    else if s[k..k + |pat|] == pat then k
    else IndexFrom(s, pat, k + 1)
  }

  /** Python's `s.replace(pat, rep)` for a non-empty pattern: copy up to the
      first occurrence, emit `rep`, and continue after the occurrence. */
  function ReplaceAll(s: string, pat: string, rep: string): string
    requires pat != []
    decreases |s|
  {
    var i := IndexFrom(s, pat, 0);
    if i < 0 then s else s[..i] + rep + ReplaceAll(s[i + |pat|..], pat, rep)
  }

  /** The chain of replacements in `flatten`, in the order they are applied. */
  const Renames: seq<(string, string)> := [
    (".", "_"),
    ("Driver_", "driver_"),
    ("Constructor_", "constructor_"),
    ("Circuit_", "circuit_"),
    ("Time_", "time_"),
    ("AverageSpeed_", "avgSpeed_")
  ]

  predicate NonEmptyPatterns(rs: seq<(string, string)>) {
    forall i :: 0 <= i < |rs| ==> rs[i].0 != []
  }

  /** Applies the replacements of `rs` to `s`, first to last. */
  function ApplyRenames(s: string, rs: seq<(string, string)>): string
    requires NonEmptyPatterns(rs)
    decreases |rs|
  {
    if rs == [] then s else ApplyRenames(ReplaceAll(s, rs[0].0, rs[0].1), rs[1..])
  }

  /** The normalised form of one column name. */
  function FlattenName(c: string): string {
    ApplyRenames(c, Renames)
  }

  /** `flatten`: normalises every column name of a table, keeping the number
      and the order of the columns. */
  function Flatten(columns: seq<string>): (r: seq<string>)
    ensures |r| == |columns|
    ensures forall i :: 0 <= i < |columns| ==> r[i] == FlattenName(columns[i])
  {
    if columns == [] then [] else [FlattenName(columns[0])] + Flatten(columns[1..])
  }

  /** No pattern of `rs` occurs in `s`. */
  predicate CleanOf(s: string, rs: seq<(string, string)>) {
    forall i :: 0 <= i < |rs| ==> !Occurs(s, rs[i].0)
  }

  /** A name `flatten` leaves alone: no `.` and none of the five patterns. */
  predicate Clean(c: string) {
    CleanOf(c, Renames)
  }

  // ---------------------------------------------------------------------------
  // Replacing one pattern
  // ---------------------------------------------------------------------------

  /** A string in which the pattern does not occur is returned unchanged. */
  lemma ReplaceAllNoMatch(s: string, pat: string, rep: string)
    requires pat != []
    requires !Occurs(s, pat)
    ensures ReplaceAll(s, pat, rep) == s
  {
  }

  /** A string in which the pattern's first character does not appear is
      returned unchanged. */
  lemma ReplaceAllNoStart(s: string, pat: string, rep: string)
    requires pat != []
    requires pat[0] !in s
    ensures ReplaceAll(s, pat, rep) == s
  {
    ReplaceAllNoMatch(s, pat, rep);
  }

  /** The first occurrence is replaced and the scan resumes after it. */
  lemma ReplaceAllFirst(a: string, pat: string, b: string, rep: string)
    requires pat != []
    requires forall j :: 0 <= j < |a| ==> !OccursAt(a + pat + b, pat, j)
    ensures ReplaceAll(a + pat + b, pat, rep) == a + rep + ReplaceAll(b, pat, rep)
  {
    var s := a + pat + b;
    assert s[|a|..|a| + |pat|] == pat;
    assert OccursAt(s, pat, |a|);
    var i := IndexFrom(s, pat, 0);
    assert i == |a|;
    assert s[..i] == a;
    assert s[i + |pat|..] == b;
  }

  /** No occurrence of `pat` starts inside `a` when `a` lacks `pat`'s
      first character. */
  lemma NoStartIn(a: string, pat: string, b: string)
    requires pat != [] && pat[0] !in a
    ensures forall j :: 0 <= j < |a| ==> !OccursAt(a + pat + b, pat, j)
  {
    var s := a + pat + b;
    forall j | 0 <= j < |a| ensures !OccursAt(s, pat, j) {
      assert s[j] == a[j] != pat[0];
      if j + |pat| <= |s| {
        assert s[j..j + |pat|][0] == s[j];
      }
    }
  }

  /** `q` cannot overlap a copy of `rep` in any alignment other than being
      wholly outside it: no suffix of `q` after its first character agrees
      with `rep`, and no suffix of `rep` agrees with `q`. */
  predicate Apart(q: string, rep: string) {
    && (forall k :: 1 <= k < |q| ==> !Agree(q[k..], rep))
    && (forall k :: 0 <= k < |rep| ==> !Agree(rep[k..], q))
  }

  /** One of the two strings is a prefix of the other. */
  predicate Agree(a: string, b: string) {
    var m := if |a| <= |b| then |a| else |b|;
    a[..m] == b[..m]
  }

  /** An occurrence of `q` in `x + rep + t` that is apart from `rep` lies
      wholly inside `x` or wholly inside `t`. */
  lemma OccursAroundApart(x: string, rep: string, t: string, q: string, j: int)
    requires q != [] && Apart(q, rep)
    requires OccursAt(x + rep + t, q, j)
    ensures OccursAt(x, q, j) || OccursAt(t, q, j - |x| - |rep|)
  {
    var r := x + rep + t;
    var i := |x|;
    if j + |q| <= i {
      assert r[j..j + |q|] == x[j..j + |q|];
    } else if j < i {
      StraddlesInto(x, rep, t, q, j);
      assert false;
    } else if j < i + |rep| {
      StartsInside(x, rep, t, q, j);
      assert false;
    } else {
      var j' := j - i - |rep|;
      assert t[j'..j' + |q|] == r[j..j + |q|];
    }
  }

  /** An occurrence that starts in `x` and ends past it agrees with `rep`. */
  lemma StraddlesInto(x: string, rep: string, t: string, q: string, j: int)
    requires OccursAt(x + rep + t, q, j)
    requires j < |x| < j + |q|
    ensures Agree(q[|x| - j..], rep)
  {
    var r, i := x + rep + t, |x|;
    var k := i - j;
    var m := if |q| - k <= |rep| then |q| - k else |rep|;
    assert q[k..][..m] == r[i..i + m] == rep[..m];
  }

  /** An occurrence that starts inside `rep` agrees with `rep`'s tail. */
  lemma StartsInside(x: string, rep: string, t: string, q: string, j: int)
    requires OccursAt(x + rep + t, q, j)
    requires |x| <= j < |x| + |rep|
    ensures Agree(rep[j - |x|..], q)
  {
    var r, i := x + rep + t, |x|;
    var k := j - i;
    var m := if |rep| - k <= |q| then |rep| - k else |q|;
    assert r[j..j + |q|] == q;
    assert r[j..j + m] == q[..m];
    assert r[j..j + m] == rep[k..k + m];
    assert rep[k..][..m] == rep[k..k + m];
  }

  /** An occurrence in a suffix of `s` is an occurrence in `s`. */
  lemma OccursInSuffix(s: string, n: nat, q: string, j: int)
    requires n <= |s|
    requires OccursAt(s[n..], q, j)
    ensures OccursAt(s, q, n + j)
  {
    assert s[n + j..n + j + |q|] == s[n..][j..j + |q|];
  }

  /** An occurrence in a prefix of `s` is an occurrence in `s`. */
  lemma OccursInPrefix(s: string, n: nat, q: string, j: int)
    requires n <= |s|
    requires OccursAt(s[..n], q, j)
    ensures OccursAt(s, q, j)
  {
    assert s[j..j + |q|] == s[..n][j..j + |q|];
  }

  /** Replacing `pat` by `rep` creates no occurrence of a pattern `q` that is
      apart from `rep`: afterwards `q` occurs nowhere, if it occurred nowhere
      before or if it is `pat` itself. */
  lemma {:induction false} ReplaceAllCreatesNone(s: string, pat: string, rep: string, q: string)
    requires pat != [] && q != []
    requires Apart(q, rep)
    requires q == pat || !Occurs(s, q)
    ensures !Occurs(ReplaceAll(s, pat, rep), q)
    decreases |s|
  {
    var i := IndexFrom(s, pat, 0);
    if i >= 0 {
      var x, y := s[..i], s[i + |pat|..];
      if q != pat && Occurs(y, q) {
        var j :| 0 <= j <= |y| && OccursAt(y, q, j);
        OccursInSuffix(s, i + |pat|, q, j);
      }
      ReplaceAllCreatesNone(y, pat, rep, q);
      forall j | 0 <= j <= |x| && OccursAt(x, q, j) ensures false {
        OccursInPrefix(s, i, q, j);
      }
      NotInJoin(x, rep, ReplaceAll(y, pat, rep), q);
    }
  }

  /** Joining two strings free of `q` around a copy of `rep` that `q` is
      apart from gives a string free of `q`. */
  lemma NotInJoin(x: string, rep: string, t: string, q: string)
    requires q != [] && Apart(q, rep)
    requires !Occurs(x, q) && !Occurs(t, q)
    ensures !Occurs(x + rep + t, q)
  {
    forall j | 0 <= j <= |x + rep + t| && OccursAt(x + rep + t, q, j) ensures false {
      OccursAroundApart(x, rep, t, q, j);
    }
  }

  /** A sufficient condition for `Apart` that can be checked character by
      character: `q`'s first character does not appear in `rep`, and wherever
      `rep`'s first character appears in `q`, the next characters differ. */
  predicate Separated(q: string, rep: string) {
    && q != [] && rep != []
    && (forall k :: 0 <= k < |rep| ==> rep[k] != q[0])
    && (forall k :: 1 <= k < |q| ==> q[k] != rep[0] || (k + 1 < |q| && 1 < |rep| && q[k + 1] != rep[1]))
  }

  lemma Differ(a: string, b: string, j: nat)
    requires j < |a| && j < |b| && a[j] != b[j]
    ensures !Agree(a, b)
  {
    var m := if |a| <= |b| then |a| else |b|;
    assert a[..m][j] != b[..m][j];
  }

  lemma SeparatedApart(q: string, rep: string)
    requires Separated(q, rep)
    ensures Apart(q, rep)
  {
    forall k | 1 <= k < |q| ensures !Agree(q[k..], rep) {
      if q[k] != rep[0] {
        Differ(q[k..], rep, 0);
      } else {
        assert k + 1 < |q| && 1 < |rep| && q[k + 1] != rep[1];
        assert q[k..][1] == q[k + 1];
        Differ(q[k..], rep, 1);
      }
    }
    forall k | 0 <= k < |rep| ensures !Agree(rep[k..], q) {
      Differ(rep[k..], q, 0);
    }
  }

  /** No replacement recreates a pattern of itself or of an earlier step. */
  predicate Sequential(rs: seq<(string, string)>) {
    forall i, j :: 0 <= i <= j < |rs| ==> Apart(rs[i].0, rs[j].1)
  }

  /** Each pattern is apart from its own replacement and from every later one. */
  lemma RenamesSequential()
    ensures NonEmptyPatterns(Renames)
    ensures Sequential(Renames)
  {
    DotApart();
    DriverApart();
    ConstructorApart();
    CircuitApart();
    TimeApart();
  }

  lemma DotApart()
    ensures forall j :: 0 <= j < |Renames| ==> Apart(Renames[0].0, Renames[j].1)
  {
    forall j | 0 <= j < |Renames| ensures Apart(Renames[0].0, Renames[j].1) {
      SeparatedApart(Renames[0].0, Renames[j].1);
    }
  }

  lemma TimeApart()
    ensures forall j :: 4 <= j < |Renames| ==> Apart(Renames[4].0, Renames[j].1)
    ensures Apart(Renames[5].0, Renames[5].1)
  {
    SeparatedApart("Time_", "time_");
    SeparatedApart("Time_", "avgSpeed_");
    SeparatedApart("AverageSpeed_", "avgSpeed_");
  }

  lemma DriverApart()
    ensures forall j :: 1 <= j < |Renames| ==> Apart(Renames[1].0, Renames[j].1)
  {
    forall j | 1 <= j < |Renames| ensures Apart(Renames[1].0, Renames[j].1) {
      SeparatedApart(Renames[1].0, Renames[j].1);
    }
  }

  lemma ConstructorApart()
    ensures forall j :: 2 <= j < |Renames| ==> Apart(Renames[2].0, Renames[j].1)
  {
    SeparatedApart("Constructor_", "constructor_");
    SeparatedApart("Constructor_", "circuit_");
    ConstructorApartLater();
  }

  lemma ConstructorApartLater()
    ensures Apart("Constructor_", "time_") && Apart("Constructor_", "avgSpeed_")
  {
    SeparatedApart("Constructor_", "time_");
    SeparatedApart("Constructor_", "avgSpeed_");
  }

  lemma CircuitApart()
    ensures forall j :: 3 <= j < |Renames| ==> Apart(Renames[3].0, Renames[j].1)
  {
    SeparatedApart("Circuit_", "circuit_");
    SeparatedApart("Circuit_", "time_");
    SeparatedApart("Circuit_", "avgSpeed_");
  }

  // ---------------------------------------------------------------------------
  // The whole chain
  // ---------------------------------------------------------------------------

  /** Applying replacements that recreate none of their own or earlier
      patterns leaves a string free of all of them. */
  lemma {:induction false} ApplyRenamesCleans(s: string, done: seq<(string, string)>, rs: seq<(string, string)>)
    requires NonEmptyPatterns(done) && NonEmptyPatterns(rs)
    requires CleanOf(s, done)
    requires forall i, j :: 0 <= i < |done| && 0 <= j < |rs| ==> Apart(done[i].0, rs[j].1)
    requires Sequential(rs)
    ensures CleanOf(ApplyRenames(s, rs), done + rs)
    decreases |rs|
  {
    if rs == [] {
      assert done + rs == done;
    } else {
      var p := rs[0];
      var s' := ReplaceAll(s, p.0, p.1);
      forall i | 0 <= i < |done| ensures !Occurs(s', done[i].0) {
        ReplaceAllCreatesNone(s, p.0, p.1, done[i].0);
      }
      ReplaceAllCreatesNone(s, p.0, p.1, p.0);
      var done' := done + [p];
      assert CleanOf(s', done');
      forall i, j | 0 <= i < |done'| && 0 <= j < |rs[1..]| ensures Apart(done'[i].0, rs[1..][j].1) {
        if i == |done| {
          assert Apart(rs[0].0, rs[j + 1].1);
        }
      }
      ApplyRenamesCleans(s', done', rs[1..]);
      assert done' + rs[1..] == done + rs;
    }
  }

  /** A string free of every pattern is left unchanged. */
  lemma {:induction false} ApplyRenamesFixes(s: string, rs: seq<(string, string)>)
    requires NonEmptyPatterns(rs)
    requires CleanOf(s, rs)
    ensures ApplyRenames(s, rs) == s
    decreases |rs|
  {
    if rs != [] {
      ReplaceAllNoMatch(s, rs[0].0, rs[0].1);
      assert CleanOf(s, rs[1..]) by {
        forall i | 0 <= i < |rs[1..]| ensures !Occurs(s, rs[1..][i].0) {
          assert rs[1..][i] == rs[i + 1];
        }
      }
      ApplyRenamesFixes(s, rs[1..]);
    }
  }

  /** A string free of the pattern "." contains no `.`. */
  lemma NoDot(t: string)
    requires !Occurs(t, ".")
    ensures '.' !in t
  {
    if '.' in t {
      var i :| 0 <= i < |t| && t[i] == '.';
      assert t[i..i + 1] == ".";
      assert OccursAt(t, ".", i);
    }
  }

  /** A normalised name contains no `.` and none of the five patterns. */
  lemma FlattenNameClean(c: string)
    ensures Clean(FlattenName(c))
    ensures '.' !in FlattenName(c)
  {
    RenamesSequential();
    ApplyRenamesCleans(c, [], Renames);
    assert [] + Renames == Renames;
    assert Renames[0].0 == ".";
    NoDot(FlattenName(c));
  }

  /** `flatten` leaves a name alone exactly when the name has no `.` and none
      of the five patterns. */
  lemma FlattenNameFixedPoint(c: string)
    ensures FlattenName(c) == c <==> Clean(c)
  {
    RenamesSequential();
    if Clean(c) {
      ApplyRenamesFixes(c, Renames);
    } else {
      FlattenNameClean(c);
    }
  }

  /** Normalising a normalised name changes nothing. */
  lemma FlattenNameIdempotent(c: string)
    ensures FlattenName(FlattenName(c)) == FlattenName(c)
  {
    FlattenNameClean(c);
    FlattenNameFixedPoint(FlattenName(c));
  }

  /** `flatten` is idempotent on a whole table's columns, and none of the
      names it produces contains a `.`. */
  lemma FlattenIdempotent(columns: seq<string>)
    ensures Flatten(Flatten(columns)) == Flatten(columns)
    ensures forall i :: 0 <= i < |columns| ==> '.' !in Flatten(columns)[i]
  {
    FlattenFixes(columns);
    FlattenNoDot(columns);
  }

  lemma {:induction false} FlattenFixes(columns: seq<string>)
    ensures Flatten(Flatten(columns)) == Flatten(columns)
  {
    if columns != [] {
      FlattenFixes(columns[1..]);
      FlattenNameIdempotent(columns[0]);
      assert Flatten(columns)[1..] == Flatten(columns[1..]);
    }
  }

  lemma FlattenNoDot(columns: seq<string>)
    ensures forall i :: 0 <= i < |columns| ==> '.' !in Flatten(columns)[i]
  {
    forall i | 0 <= i < |columns| ensures '.' !in Flatten(columns)[i] {
      FlattenNameClean(columns[i]);
    }
  }

  /** Replacing the single occurrence of a pattern in `a + pat + b`. */
  lemma ReplaceOnce(a: string, pat: string, b: string, rep: string)
    requires pat != [] && pat[0] !in a && pat[0] !in b
    ensures ReplaceAll(a + pat + b, pat, rep) == a + rep + b
  {
    NoStartIn(a, pat, b);
    ReplaceAllFirst(a, pat, b, rep);
    ReplaceAllNoStart(b, pat, rep);
  }

  /** A field name in which no pattern can start: no `.` and none of the
      first letters of the five renamed prefixes. */
  predicate Plain(f: string) {
    forall ch :: ch in f ==> ch !in ".DCTA"
  }

  /** A plain name is left alone. */
  lemma FlattenPlain(f: string)
    requires Plain(f)
    ensures FlattenName(f) == f
  {
    RenamesSequential();
    forall i | 0 <= i < |Renames| ensures !Occurs(f, Renames[i].0) {
      assert Renames[i].0[0] in ".DCTA";
    }
    ApplyRenamesFixes(f, Renames);
  }

  /** `flatten` spelled out as the nested chain of replacements. */
  lemma FlattenNameChain(c: string)
    ensures FlattenName(c) ==
      ReplaceAll(ReplaceAll(ReplaceAll(ReplaceAll(ReplaceAll(ReplaceAll(c,
        ".", "_"), "Driver_", "driver_"), "Constructor_", "constructor_"),
        "Circuit_", "circuit_"), "Time_", "time_"), "AverageSpeed_", "avgSpeed_")
  {
    var rs := Renames;
    assert rs[1..][1..][1..][1..][1..][1..] == [];
  }

  /** The `.` step on `dotted + f`, where `dotted` is `head + "."`: with no
      `.` in `head` or `f`, exactly that one dot becomes `_`. */
  lemma DotStep(head: string, dotted: string, under: string, f: string)
    requires '.' !in head && Plain(f)
    requires dotted == head + "." && under == head + "_"
    ensures ReplaceAll(dotted + f, ".", "_") == under + f
  {
    assert dotted + f == head + "." + f;
    assert under + f == head + "_" + f;
    ReplaceOnce(head, ".", f, "_");
  }

  /** A prefix rename on `pat + f`, `f` plain. */
  lemma PrefixStep(pat: string, rep: string, f: string)
    requires pat != [] && pat[0] in ".DCTA" && Plain(f)
    ensures ReplaceAll(pat + f, pat, rep) == rep + f
  {
    assert [] + pat + f == pat + f;
    assert [] + rep + f == rep + f;
    ReplaceOnce([], pat, f, rep);
  }

  /** A rename whose first letter occurs in neither `head` nor the plain `f`. */
  lemma SkipStep(head: string, f: string, pat: string, rep: string)
    requires pat != [] && pat[0] in ".DCTA" && pat[0] !in head && Plain(f)
    ensures ReplaceAll(head + f, pat, rep) == head + f
  {
    ReplaceAllNoStart(head + f, pat, rep);
  }

  /** A driver field: `Driver.familyName` becomes `driver_familyName`. */
  lemma FlattenDriverField(f: string)
    requires Plain(f)
    ensures FlattenName("Driver." + f) == "driver_" + f
  {
    FlattenNameChain("Driver." + f);
    DriverFirstSteps(f);
    SkipStep("driver_", f, "Circuit_", "circuit_");
    SkipStep("driver_", f, "Time_", "time_");
    SkipStep("driver_", f, "AverageSpeed_", "avgSpeed_");
  }

  /** The first three replacements on `Driver.` + f. */
  lemma DriverFirstSteps(f: string)
    requires Plain(f)
    ensures ReplaceAll(ReplaceAll(ReplaceAll("Driver." + f, ".", "_"), "Driver_", "driver_"),
      "Constructor_", "constructor_") == "driver_" + f
  {
    DotStep("Driver", "Driver.", "Driver_", f);
    PrefixStep("Driver_", "driver_", f);
    SkipStep("driver_", f, "Constructor_", "constructor_");
  }

  /** A time field: `Time.millis` becomes `time_millis`. */
  lemma FlattenTimeField(f: string)
    requires Plain(f)
    ensures FlattenName("Time." + f) == "time_" + f
  {
    FlattenNameChain("Time." + f);
    TimeFirstSteps(f);
    SkipStep("Time_", f, "Circuit_", "circuit_");
    PrefixStep("Time_", "time_", f);
    SkipStep("time_", f, "AverageSpeed_", "avgSpeed_");
  }

  /** The first three replacements on `Time.` + f. */
  lemma TimeFirstSteps(f: string)
    requires Plain(f)
    ensures ReplaceAll(ReplaceAll(ReplaceAll("Time." + f, ".", "_"), "Driver_", "driver_"),
      "Constructor_", "constructor_") == "Time_" + f
  {
    DotStep("Time", "Time.", "Time_", f);
    SkipStep("Time_", f, "Driver_", "driver_");
    SkipStep("Time_", f, "Constructor_", "constructor_");
  }

  /** The renames are not anchored at the start of a name:
      `FastestLap.Time.time` becomes `FastestLap_time_time`. */
  lemma FlattenFastestLapTimeField(f: string)
    requires Plain(f)
    ensures FlattenName("FastestLap.Time." + f) == "FastestLap_time_" + f
  {
    FlattenNameChain("FastestLap.Time." + f);
    FastestLapFirstSteps(f);
    InnerStep("FastestLap_", "Time_", "time_", "FastestLap_Time_", "FastestLap_time_", f);
    SkipStep("FastestLap_time_", f, "AverageSpeed_", "avgSpeed_");
  }

  /** The first four replacements on `FastestLap.Time.` + f. */
  lemma FastestLapFirstSteps(f: string)
    requires Plain(f)
    ensures ReplaceAll(ReplaceAll(ReplaceAll(ReplaceAll("FastestLap.Time." + f,
      ".", "_"), "Driver_", "driver_"), "Constructor_", "constructor_"),
      "Circuit_", "circuit_") == "FastestLap_Time_" + f
  {
    TwoDots("FastestLap", "Time", "FastestLap.Time.", "FastestLap_Time_", f);
    SkipStep("FastestLap_Time_", f, "Driver_", "driver_");
    SkipStep("FastestLap_Time_", f, "Constructor_", "constructor_");
    SkipStep("FastestLap_Time_", f, "Circuit_", "circuit_");
  }

  /** The `.` step on `dotted + f`, where `dotted` is `a + "." + b + "."`. */
  lemma TwoDots(a: string, b: string, dotted: string, under: string, f: string)
    requires '.' !in a && '.' !in b && Plain(f)
    requires dotted == a + "." + (b + ".") && under == a + "_" + (b + "_")
    ensures ReplaceAll(dotted + f, ".", "_") == under + f
  {
    var tail := b + "." + f;
    var tail' := b + "_" + f;
    Regroup(a, ".", b + ".", f);
    NoStartIn(a, ".", tail);
    ReplaceAllFirst(a, ".", tail, "_");
    DotStep(b, b + ".", b + "_", f);
    Regroup(a, "_", b + "_", f);
  }

  /** `(a + x + y) + f == a + x + (y + f)`, spelt out for the solver. */
  lemma Regroup(a: string, x: string, y: string, f: string)
    ensures a + x + y + f == a + x + (y + f)
  {
  }

  /** A rename in the middle of `before + f`, where `before` is
      `head + pat`. */
  lemma InnerStep(head: string, pat: string, rep: string, before: string, after: string, f: string)
    requires pat != [] && pat[0] in ".DCTA" && pat[0] !in head && Plain(f)
    requires before == head + pat && after == head + rep
    ensures ReplaceAll(before + f, pat, rep) == after + f
  {
    assert before + f == head + pat + f;
    assert after + f == head + rep + f;
    ReplaceOnce(head, pat, f, rep);
  }
}
