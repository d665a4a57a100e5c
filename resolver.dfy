/**
 * `UpdateInterColumnInformation`: once every column is extracted, flag the columns the
 * primary-key list names, then give each computed column the type of the column it refers to.
 */
module Resolver {
  import opened Wrappers
  import opened Text
  import opened TableColumns
  import opened Tables

  // ---------------------------------------------------------------------------
  // Pass 1: primary-key flags

  /** One key name: the first column whose name matches it ignoring case is flagged. */
  function MarkKey(columns: seq<TableColumn>, name: NString): (r: seq<TableColumn>)
    ensures |r| == |columns|
  {
    match FindColumn(columns, name)
    case None => columns
    case Some(i) => columns[i := columns[i].(isPrimaryKeyExplicit := true)]
  }

  function MarkKeys(columns: seq<TableColumn>, keys: seq<NString>): (r: seq<TableColumn>)
    ensures |r| == |columns|
    decreases |keys|
  {
    if |keys| == 0 then columns else MarkKeys(MarkKey(columns, keys[0]), keys[1..])
  }

  /** Column `i` is the first column matching some entry of `keys`. */
  ghost predicate IsKeyColumn(columns: seq<TableColumn>, keys: seq<NString>, i: int) {
    exists k :: 0 <= k < |keys| && FindColumn(columns, keys[k]) == Some(i)
  }

  // ---------------------------------------------------------------------------
  // Pass 2: referenced types

  /** Column `i` of pass 2: a non-blank reference takes the matching column's type, or is itself the type. */
  function ResolveColumn(columns: seq<TableColumn>, i: nat): (r: seq<TableColumn>)
    requires i < |columns|
    ensures |r| == |columns|
  {
    var reference := columns[i].referenceColumn;
    if IsNullOrWhiteSpace(reference) then columns
    else
      match FindColumn(columns, reference)
      case Some(j) => columns[i := columns[i].(dataType := columns[j].dataType)]
      case None => columns[i := columns[i].(dataType := reference)]
  }

  /** Pass 2 from column `i` on, each column seeing the types its predecessors were given. */
  function ResolveFrom(columns: seq<TableColumn>, i: nat): (r: seq<TableColumn>)
    requires i <= |columns|
    ensures |r| == |columns|
    decreases |columns| - i
  {
    if i == |columns| then columns else ResolveFrom(ResolveColumn(columns, i), i + 1)
  }

  /** Both passes. */
  function Resolve(table: Table): Table {
    table.(columns := ResolveFrom(MarkKeys(table.columns, table.primaryKeyColumns), 0))
  }

  /**
   * The type pass 2 gives column `k` of `before`, where `after` is the list the pass ends
   * with: a column matched earlier in the list has already been resolved, one matched at
   * or after `k` has not.
   */
  function ResolvedType(before: seq<TableColumn>, after: seq<TableColumn>, k: nat): NString
    requires k < |before| && |after| == |before|
  {
    var reference := before[k].referenceColumn;
    if IsNullOrWhiteSpace(reference) then before[k].dataType
    else
      match FindColumn(before, reference)
      case Some(j) => if j < k then after[j].dataType else before[j].dataType
      case None => reference
  }

  /** `UpdateInterColumnInformation`, over the table's column list. */
  method UpdateInterColumnInformation(table: Table) returns (resolved: Table)
    ensures resolved == Resolve(table)
  {
    var columns := table.columns;
    var keys := table.primaryKeyColumns;
    var k := 0;
    while k < |keys|
      invariant 0 <= k <= |keys|
      invariant MarkKeys(table.columns, keys) == MarkKeys(columns, keys[k..])
    {
      assert keys[k..][1..] == keys[k + 1..];
      var found := FindColumn(columns, keys[k]);
      if found.Some? {
        columns := columns[found.value := columns[found.value].(isPrimaryKeyExplicit := true)];
      }
      k := k + 1;
    }
    ghost var marked := columns;
    var i := 0;
    while i < |columns|
      invariant 0 <= i <= |columns| == |marked|
      invariant ResolveFrom(marked, 0) == ResolveFrom(columns, i)
    {
      var reference := columns[i].referenceColumn;
      if !IsNullOrWhiteSpace(reference) {
        var found := FindColumn(columns, reference);
        if found.Some? {
          columns := columns[i := columns[i].(dataType := columns[found.value].dataType)];
        } else {
          columns := columns[i := columns[i].(dataType := reference)];
        }
      }
      i := i + 1;
    }
    resolved := table.(columns := columns);
  }

  // ---------------------------------------------------------------------------
  // Properties

  /** Two column lists with the same names answer every name lookup alike. */
  lemma SameNamesSameLookups(a: seq<TableColumn>, b: seq<TableColumn>)
    requires |a| == |b| && forall i :: 0 <= i < |a| ==> a[i].name == b[i].name
    ensures forall name :: FindColumn(a, name) == FindColumn(b, name)
  {
    assert Names(a) == Names(b);
  }

  /**
   * Pass 1 flags exactly the first column matching each key name and leaves every other
   * field, and every other column, as it was; a name that matches no column changes nothing.
   */
  lemma {:induction false} MarkKeysFlags(columns: seq<TableColumn>, keys: seq<NString>)
    ensures var r := MarkKeys(columns, keys);
      forall i :: 0 <= i < |columns| ==>
        r[i] == columns[i].(isPrimaryKeyExplicit := columns[i].isPrimaryKeyExplicit || IsKeyColumn(columns, keys, i))
    decreases |keys|
  {
    if |keys| > 0 {
      var next := MarkKey(columns, keys[0]);
      MarkKeysFlags(next, keys[1..]);
      forall i | 0 <= i < |columns|
        ensures IsKeyColumn(columns, keys, i) <==> FindColumn(columns, keys[0]) == Some(i) || IsKeyColumn(next, keys[1..], i)
      {
        IsKeyColumnCons(columns, keys, i);
      }
    }
  }

  /** Column `i` is a key column for `keys` iff the first key matches it or a later key does after the first is marked. */
  lemma IsKeyColumnCons(columns: seq<TableColumn>, keys: seq<NString>, i: int)
    requires |keys| > 0
    ensures IsKeyColumn(columns, keys, i) <==>
      FindColumn(columns, keys[0]) == Some(i) || IsKeyColumn(MarkKey(columns, keys[0]), keys[1..], i)
  {
    var next := MarkKey(columns, keys[0]);
    SameNamesSameLookups(next, columns);
    if IsKeyColumn(columns, keys, i) {
      var k :| 0 <= k < |keys| && FindColumn(columns, keys[k]) == Some(i);
      if k > 0 {
        assert FindColumn(next, keys[1..][k - 1]) == Some(i);
      }
    }
    if IsKeyColumn(next, keys[1..], i) {
      var k :| 0 <= k < |keys[1..]| && FindColumn(next, keys[1..][k]) == Some(i);
      assert FindColumn(columns, keys[k + 1]) == Some(i);
    }
  }

  /** Pass 2 on column `i` changes that column's type only. */
  lemma ResolveColumnEffect(columns: seq<TableColumn>, i: nat)
    requires i < |columns|
    ensures var next := ResolveColumn(columns, i);
      var reference := columns[i].referenceColumn;
      && (forall k :: 0 <= k < |columns| && k != i ==> next[k] == columns[k])
      && next[i] == columns[i].(dataType :=
           if IsNullOrWhiteSpace(reference) then columns[i].dataType
           else match FindColumn(columns, reference)
             case Some(j) => columns[j].dataType
             case None => reference)
  {
  }

  /**
   * Pass 2 from column `i` on: earlier columns stay as they are, and every later column
   * changes only its type, to the one `ResolvedType` describes.
   */
  lemma {:induction false} ResolveFromTypes(columns: seq<TableColumn>, i: nat)
    requires i <= |columns|
    ensures var r := ResolveFrom(columns, i);
      && (forall k :: 0 <= k < i ==> r[k] == columns[k])
      && (forall k :: i <= k < |columns| ==> r[k] == columns[k].(dataType := ResolvedType(columns, r, k)))
    decreases |columns| - i
  {
    if i < |columns| {
      var next := ResolveColumn(columns, i);
      var r := ResolveFrom(columns, i);
      assert r == ResolveFrom(next, i + 1);
      ResolveColumnEffect(columns, i);
      ResolveFromTypes(next, i + 1);
      SameNamesSameLookups(next, columns);
      forall k | 0 <= k < i ensures r[k] == columns[k] {
        assert r[k] == next[k];
      }
      assert r[i] == columns[i].(dataType := ResolvedType(columns, r, i)) by {
        assert r[i] == next[i];
        var reference := columns[i].referenceColumn;
        if !IsNullOrWhiteSpace(reference) {
          match FindColumn(columns, reference) {
            case Some(j) =>
              if j < i {
                assert r[j] == columns[j];
              }
            case None =>
          }
        }
      }
      forall k | i < k < |columns|
        ensures r[k] == columns[k].(dataType := ResolvedType(columns, r, k))
      {
        assert r[k] == next[k].(dataType := ResolvedType(next, r, k));
        assert next[k] == columns[k];
        var reference := columns[k].referenceColumn;
        if !IsNullOrWhiteSpace(reference) {
          match FindColumn(columns, reference) {
            case Some(j) =>
              if j >= k {
                assert next[j] == columns[j];
              }
            case None =>
          }
        }
      }
    }
  }

  /**
   * The resolver's whole effect: the table keeps its schema, name, source, key list,
   * column count and column order, and each column changes at most its key flag (set for
   * the first column matching a key name) and its type (as `ResolvedType` says).
   */
  lemma ResolveSpec(table: Table)
    ensures var r := Resolve(table);
      && r.schema == table.schema && r.name == table.name && r.sql == table.sql
      && r.primaryKeyColumns == table.primaryKeyColumns
      && |r.columns| == |table.columns|
      && forall k :: 0 <= k < |table.columns| ==>
           r.columns[k] == table.columns[k].(
             isPrimaryKeyExplicit := table.columns[k].isPrimaryKeyExplicit
                                     || IsKeyColumn(table.columns, table.primaryKeyColumns, k),
             dataType := ResolvedType(table.columns, r.columns, k))
  {
    var marked := MarkKeys(table.columns, table.primaryKeyColumns);
    var r := Resolve(table);
    MarkKeysFlags(table.columns, table.primaryKeyColumns);
    ResolveFromTypes(marked, 0);
    SameNamesSameLookups(marked, table.columns);
    forall k | 0 <= k < |table.columns|
      ensures ResolvedType(marked, r.columns, k) == ResolvedType(table.columns, r.columns, k)
    {
    }
  }

  /**
   * The resolver changes no name, so lookups by name give the same column before and after;
   * in particular `IsIdColumn`'s precondition survives it.
   */
  lemma ResolveKeepsNames(table: Table)
    ensures Names(Resolve(table).columns) == Names(table.columns)
    ensures forall name :: FindColumn(Resolve(table).columns, name) == FindColumn(table.columns, name)
  {
    ResolveSpec(table);
    SameNamesSameLookups(Resolve(table).columns, table.columns);
  }

  /**
   * A computed column whose reference matches column `j` ends with `j`'s final type when
   * `j` comes no later than it or carries no reference of its own.
   */
  lemma ResolvedMatchesReferenced(table: Table, k: nat, j: nat)
    requires k < |table.columns|
    requires !IsNullOrWhiteSpace(table.columns[k].referenceColumn)
    requires FindColumn(table.columns, table.columns[k].referenceColumn) == Some(j)
    requires j <= k || IsNullOrWhiteSpace(table.columns[j].referenceColumn)
    ensures Resolve(table).columns[k].dataType == Resolve(table).columns[j].dataType
  {
    var r := Resolve(table);
    ResolvedTypeAt(table, k);
    if j < k {
      assert ResolvedType(table.columns, r.columns, k) == r.columns[j].dataType;
    } else if j > k {
      ResolvedTypeAt(table, j);
      assert ResolvedType(table.columns, r.columns, j) == table.columns[j].dataType;
    }
  }

  /** Column `k`'s type after resolution, as `ResolvedType` gives it. */
  lemma ResolvedTypeAt(table: Table, k: nat)
    requires k < |table.columns|
    ensures |Resolve(table).columns| == |table.columns|
    ensures Resolve(table).columns[k].dataType == ResolvedType(table.columns, Resolve(table).columns, k)
    ensures Resolve(table).columns[k].referenceColumn == table.columns[k].referenceColumn
  {
    ResolveSpec(table);
  }

  /** A computed column whose reference matches no column takes the reference as its type. */
  lemma UnmatchedReferenceIsType(table: Table, k: nat)
    requires k < |table.columns|
    requires !IsNullOrWhiteSpace(table.columns[k].referenceColumn)
    requires FindColumn(table.columns, table.columns[k].referenceColumn).None?
    ensures Resolve(table).columns[k].dataType == table.columns[k].referenceColumn
  {
    ResolveSpec(table);
  }

  /** Every matched reference leads to a column without a reference of its own (or to itself). */
  ghost predicate ReferencesArePlain(columns: seq<TableColumn>) {
    forall k, j ::
      && 0 <= k < |columns| && !IsNullOrWhiteSpace(columns[k].referenceColumn)
      && FindColumn(columns, columns[k].referenceColumn) == Some(j) && j != k
      ==> IsNullOrWhiteSpace(columns[j].referenceColumn)
  }

  /** When no reference leads to another computed column, running the resolver twice changes nothing more. */
  lemma ResolveIdempotentWithoutChains(table: Table)
    requires ReferencesArePlain(table.columns)
    ensures Resolve(Resolve(table)) == Resolve(table)
  {
    var r := Resolve(table);
    var r2 := Resolve(r);
    ResolveSpec(table);
    ResolveSpec(r);
    ResolveKeepsNames(table);
    assert forall k :: 0 <= k < |r.columns| ==> r.columns[k].referenceColumn == table.columns[k].referenceColumn;
    forall k | 0 <= k < |r.columns|
      ensures r2.columns[k] == r.columns[k]
    {
      assert IsKeyColumn(r.columns, r.primaryKeyColumns, k) ==> IsKeyColumn(table.columns, table.primaryKeyColumns, k);
      var reference := table.columns[k].referenceColumn;
      if !IsNullOrWhiteSpace(reference) {
        match FindColumn(table.columns, reference)
        case Some(j) =>
          if j != k {
            assert r.columns[j].dataType == table.columns[j].dataType;
            assert r2.columns[j].dataType == table.columns[j].dataType;
          }
        case None =>
      }
    }
    assert r2.columns == r.columns;
  }

  /**
   * Reference chains break idempotence: `A` refers to `B`, which refers to the typed `C`.
   * One run leaves `A` without a type (it reads `B` before `B` is resolved), a second run
   * gives it `C`'s type, so the resolved `A` does not carry its referenced column's type.
   */
  lemma ResolveChainCounterexample()
    ensures var c := NewColumn("", false).(name := Some("C"), dataType := Some("INT"));
      var b := NewColumn("", true).(name := Some("B"), referenceColumn := Some("C"));
      var a := NewColumn("", true).(name := Some("A"), referenceColumn := Some("B"));
      var table := Table("dbo", "T", "", [a, b, c], []);
      && Resolve(table).columns[0].dataType == None
      && Resolve(table).columns[1].dataType == Some("INT")
      && Resolve(Resolve(table)).columns[0].dataType == Some("INT")
      && Resolve(Resolve(table)) != Resolve(table)
  {
    var c := NewColumn("", false).(name := Some("C"), dataType := Some("INT"));
    var b := NewColumn("", true).(name := Some("B"), referenceColumn := Some("C"));
    var a := NewColumn("", true).(name := Some("A"), referenceColumn := Some("B"));
    var table := Table("dbo", "T", "", [a, b, c], []);
    assert Names(table.columns) == [Some("A"), Some("B"), Some("C")];
    ChainLookups(table.columns);
    var r := Resolve(table);
    ResolvedTypeAt(table, 0);
    assert r.columns[0].dataType == None;
    ResolvedTypeAt(table, 1);
    assert r.columns[1].dataType == Some("INT");
    ResolveKeepsNames(table);
    ChainLookups(r.columns);
    ResolvedTypeAt(r, 0);
    assert Resolve(r).columns[0].dataType == Some("INT");
    assert Resolve(r).columns[0] != r.columns[0];
  }

  /** The lookups the chain counterexample relies on, for any columns named A, B, C in that order. */
  lemma ChainLookups(columns: seq<TableColumn>)
    requires Names(columns) == [Some("A"), Some("B"), Some("C")]
    ensures FindColumn(columns, Some("B")) == Some(1) && FindColumn(columns, Some("C")) == Some(2)
  {
    var names := Names(columns);
    assert ToUpper("A") == "A" && ToUpper("B") == "B" && ToUpper("C") == "C";
    assert names[1..] == [Some("B"), Some("C")] && names[1..][1..] == [Some("C")];
    assert FindName(names[1..][1..], Some("C")) == Some(0);
    assert FindName(names[1..], Some("B")) == Some(0);
    assert FindName(names[1..], Some("C")) == Some(1);
  }
}
