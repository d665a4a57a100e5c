/** A column of a parsed table, with the predicates derived from its fields. */
module TableColumns {
  import opened Wrappers
  import opened Text
  import opened SqlDom

  datatype TableColumn = TableColumn(
    name: NString,
    dataType: NString,
    dataTypeExtraInfo1: Option<int>,
    dataTypeExtraInfo2: Option<int>,
    computed: bool,
    /** For a computed column: the column (or, for CONVERT, the type) whose type it takes. */
    referenceColumn: NString,
    sql: string,
    isPrimaryKeyExplicit: bool,
    isIdentityColumnExplicit: bool,
    constraintType: ConstraintType)
  {
    predicate IsIdentity() { isIdentityColumnExplicit || IsIdentityConstraint() }
    predicate IsPrimaryKey() { isPrimaryKeyExplicit || IsPrimaryKeyConstraint() }

    predicate IsIdentityConstraint() { constraintType == Identity }
    predicate IsNull() { constraintType == Null }
    predicate IsNotNull() { constraintType == NotNull }
    predicate IsDefault() { constraintType == Default }
    predicate IsPrimaryKeyConstraint() { constraintType == PrimaryKey }
    predicate IsForeignKey() { constraintType == ForeignKey }
    predicate IsRowGuidCol() { constraintType == RowGuidCol }
    predicate IsUnique() { constraintType == Unique }

    /** The eight constraint tests, in the order the model declares them. */
    function ConstraintTests(): seq<bool> {
      [IsIdentityConstraint(), IsNull(), IsNotNull(), IsDefault(),
       IsPrimaryKeyConstraint(), IsForeignKey(), IsRowGuidCol(), IsUnique()]
    }

    /** The flag part of the diagnostic line: PRIMARY, IDENTITY, READONLY, NULL, NOT NULL or blanks. */
    function FlagSlots(): string {
      Slot(IsPrimaryKey(), "PRIMARY",
        Slot(IsIdentity(), "IDENTITY",
          Slot(computed, "READONLY",
            Slot(IsNull(), "NULL",
              Slot(IsNotNull(), "NOT NULL", "")))))
    }

    /** `$"{DataType,-20} {Name,-20} {primaryKey} {identity} {readOnly} {nullable} {notNullable}"`. */
    function DiagnosticString(): (r: string)
      ensures var typeField, nameField := PadRight(Show(dataType), 20), PadRight(Show(name), 20);
        var nameStart := |typeField| + 1;
        && (|Show(dataType)| <= 20 ==> |typeField| == 20)
        && (|Show(name)| <= 20 ==> |nameField| == 20)
        && nameStart + |nameField| <= |r|
        && r[..|Show(dataType)|] == Show(dataType)
        && (forall i :: |Show(dataType)| <= i < nameStart ==> r[i] == ' ')
        && r[nameStart..nameStart + |Show(name)|] == Show(name)
        && (forall i :: nameStart + |Show(name)| <= i < nameStart + |nameField| ==> r[i] == ' ')
        && r[nameStart + |nameField|..] == FlagSlots()
    {
      var typeField, nameField := PadRight(Show(dataType), 20), PadRight(Show(name), 20);
      var r := typeField + " " + nameField + FlagSlots();
      assert r[..|Show(dataType)|] == typeField[..|Show(dataType)|];
      assert r[|typeField| + 1..|typeField| + 1 + |Show(name)|] == nameField[..|Show(name)|];
      r
    }
  }

  /** A column as `new TableColumn { Computed = computed, Sql = sql }` leaves it. */
  function NewColumn(sql: string, computed: bool): TableColumn {
    TableColumn(None, None, None, None, computed, None, sql, false, false, Unspecified)
  }

  /** One slot of the diagnostic line: a separating blank, then `word` or nothing. */
  function Slot(present: bool, word: string, rest: string): string {
    " " + (if present then word else "") + rest
  }

  datatype Flags = Flags(primaryKey: bool, identity: bool, readOnly: bool, nullable: bool, notNullable: bool)

  /** Reads one slot back: whether `t` (after its separating blank) starts with `word`. */
  function DecodeSlot(t: string, word: string): (bool, string) {
    if |t| > |word| && t[1..|word| + 1] == word then (true, t[|word| + 1..])
    else (false, if |t| > 0 then t[1..] else [])
  }

  function DecodeFlags(t: string): Flags {
    var (primaryKey, t1) := DecodeSlot(t, "PRIMARY");
    var (identity, t2) := DecodeSlot(t1, "IDENTITY");
    var (readOnly, t3) := DecodeSlot(t2, "READONLY");
    var (nullable, t4) := DecodeSlot(t3, "NULL");
    var (notNullable, _) := DecodeSlot(t4, "NOT NULL");
    Flags(primaryKey, identity, readOnly, nullable, notNullable)
  }

  lemma DecodeSlotRoundTrip(present: bool, word: string, rest: string)
    requires |word| > 0 && word[0] != ' '
    requires rest == [] || rest[0] == ' '
    ensures DecodeSlot(Slot(present, word, rest), word) == (present, rest)
  {
    var t := Slot(present, word, rest);
    if present {
      assert t[1..|word| + 1] == word;
      assert t[|word| + 1..] == rest;
    } else {
      assert t == " " + rest;
      if |t| > |word| {
        assert t[1..|word| + 1][0] == rest[0];
      }
    }
  }

  /**
   * The diagnostic line shows each of the five flags faithfully: reading the flag slots
   * back, after the two padded fields, yields exactly the column's flags.
   */
  lemma {:induction false} DiagnosticStringShowsFlags(c: TableColumn)
    ensures var offset := |PadRight(Show(c.dataType), 20)| + 1 + |PadRight(Show(c.name), 20)|;
      && (|Show(c.dataType)| <= 20 && |Show(c.name)| <= 20 ==> offset == 41)
      && offset <= |c.DiagnosticString()|
      && DecodeFlags(c.DiagnosticString()[offset..])
         == Flags(c.IsPrimaryKey(), c.IsIdentity(), c.computed, c.IsNull(), c.IsNotNull())
  {
    var head := PadRight(Show(c.dataType), 20) + " " + PadRight(Show(c.name), 20);
    assert c.DiagnosticString()[|head|..] == c.FlagSlots();
    var s5 := Slot(c.IsNotNull(), "NOT NULL", "");
    var s4 := Slot(c.IsNull(), "NULL", s5);
    var s3 := Slot(c.computed, "READONLY", s4);
    var s2 := Slot(c.IsIdentity(), "IDENTITY", s3);
    DecodeSlotRoundTrip(c.IsPrimaryKey(), "PRIMARY", s2);
    DecodeSlotRoundTrip(c.IsIdentity(), "IDENTITY", s3);
    DecodeSlotRoundTrip(c.computed, "READONLY", s4);
    DecodeSlotRoundTrip(c.IsNull(), "NULL", s5);
    DecodeSlotRoundTrip(c.IsNotNull(), "NOT NULL", "");
  }

  /**
   * Each constraint test is one equality on the constraint type, so no two hold together
   * (in particular a column is never both NULL and NOT NULL), and one holds exactly when
   * the type is one of the eight tested kinds.
   */
  lemma ConstraintTestsExclusive(c: TableColumn)
    ensures forall i, j :: 0 <= i < j < |c.ConstraintTests()| ==> !(c.ConstraintTests()[i] && c.ConstraintTests()[j])
    ensures !(c.IsNull() && c.IsNotNull())
    ensures true in c.ConstraintTests() <==> c.constraintType !in {Unspecified, Check}
  {
  }

  /** The derived key and identity flags: set explicitly, or by the constraint type. */
  lemma DerivedFlags(c: TableColumn)
    ensures c.IsPrimaryKey() <==> c.isPrimaryKeyExplicit || c.constraintType == PrimaryKey
    ensures c.IsIdentity() <==> c.isIdentityColumnExplicit || c.constraintType == Identity
    ensures !NewColumn(c.sql, c.computed).IsPrimaryKey() && !NewColumn(c.sql, c.computed).IsIdentity()
  {
  }
}
