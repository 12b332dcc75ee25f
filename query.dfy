/** The SQL-text shim over the hosted table store (src/database/query.ts).
    It does not run SQL: it trims the statement, decides its kind from the
    upper-cased prefix, picks the table name out of the text with a regular
    expression, and then reads the whole table (SELECT), inserts one row
    built from the column list and the parameters (INSERT), or does nothing
    and answers no rows (UPDATE, DELETE, anything else). The table store is
    a class whose tables the shim reads and appends to; the error it may
    report for a call is a parameter, and the shim passes it on unchanged. */
module SqlShim {
  import opened Wrappers
  import opened Text

  // ------------------------------------------------ statement kind

  datatype StatementKind = Select | Insert | Update | Delete | Other

  /** `sql.toUpperCase().startsWith(...)` on the trimmed text, tried in the
      order SELECT, INSERT, UPDATE, DELETE. */
  function KindOf(text: string): (k: StatementKind)
    ensures var up := Upper(Trim(text));
      && (k == Select <==> StartsWith(up, "SELECT"))
      && (k == Insert <==> StartsWith(up, "INSERT"))
      && (k == Update <==> StartsWith(up, "UPDATE"))
      && (k == Delete <==> StartsWith(up, "DELETE"))
  {
    var up := Upper(Trim(text));
    if StartsWith(up, "SELECT") then Select
    else if StartsWith(up, "INSERT") then Insert
    else if StartsWith(up, "UPDATE") then Update
    else if StartsWith(up, "DELETE") then Delete
    else Other
  }

  /** Leading white space and letter case do not change a statement's kind. */
  lemma KindIgnoresLayout(ws: string, text: string)
    requires forall i :: 0 <= i < |ws| ==> IsJsSpace(ws[i])
    ensures KindOf(ws + text) == KindOf(text)
    ensures KindOf(Upper(text)) == KindOf(text)
  {
    assert Trim(ws + text) == Trim(text) by {
      TrimStartSkipsSpace(ws, text);
    }
    assert Upper(Trim(Upper(text))) == Upper(Trim(text)) by {
      TrimUpper(text);
      UpperIdempotent(Trim(text));
    }
  }

  // ------------------------------------- `/KEYWORD\s+(\w+)/i` matches

  /** The word the pattern `keyword \s+ (\w+)` (letters of the keyword
      without regard to case) captures when its match starts at `i`. */
  function WordAfterAt(s: string, kw: string, i: nat): (w: Option<string>)
    requires i <= |s|
    ensures w.Some? ==> |w.value| >= 1 && forall c :: c in w.value ==> IsWordChar(c)
  {
    if !StartsWithIgnoringCase(s[i..], kw) then None
    else
      var j := i + |kw|;
      var sp := SpanLength(s[j..], IsJsSpace);
      if sp == 0 then None
      else
        var n := SpanLength(s[j + sp..], IsWordChar);
        if n == 0 then None
        else
          assert forall c :: c in s[j + sp..j + sp + n] ==> IsWordChar(c) by {
            forall c | c in s[j + sp..j + sp + n] ensures IsWordChar(c) {
              var m :| 0 <= m < n && s[j + sp..j + sp + n][m] == c;
              assert s[j + sp..][m] == c;
            }
          }
          Some(s[j + sp..j + sp + n])
  }

  /** Where the leftmost match of `keyword \s+ (\w+)` at or after `from`
      starts, if the pattern matches anywhere there. */
  function FirstWordMatch(s: string, kw: string, from: nat): (r: Option<nat>)
    requires from <= |s|
    ensures r.None? ==> forall i :: from <= i <= |s| ==> WordAfterAt(s, kw, i).None?
    ensures r.Some? ==> from <= r.value <= |s| && WordAfterAt(s, kw, r.value).Some?
    ensures r.Some? ==> forall j :: from <= j < r.value ==> WordAfterAt(s, kw, j).None?
    decreases |s| - from
  {
    if WordAfterAt(s, kw, from).Some? then Some(from)
    else if from == |s| then None
    else FirstWordMatch(s, kw, from + 1)
  }

  /** `sql.match(/keyword\s+(\w+)/i)?.[1]`: the table a statement names, the
      word after the first FROM that has one (SELECT and DELETE), after
      INTO (INSERT), after UPDATE (UPDATE). */
  function TableAfter(sql: string, kw: string): (t: Option<string>)
    ensures t.None? <==> forall i :: 0 <= i <= |sql| ==> WordAfterAt(sql, kw, i).None?
  {
    var at := FirstWordMatch(sql, kw, 0);
    if at.Some? then WordAfterAt(sql, kw, at.value) else None
  }

  /** The leftmost match wins: a FROM inside a sub-select written before
      the outer FROM names the table. */
  lemma {:induction false} LeftmostMatchWins(s: string, kw: string, from: nat, i: nat)
    requires from <= i <= |s| && WordAfterAt(s, kw, i).Some?
    requires forall j :: from <= j < i ==> WordAfterAt(s, kw, j).None?
    ensures FirstWordMatch(s, kw, from) == Some(i)
    decreases i - from
  {
    if from < i {
      LeftmostMatchWins(s, kw, from + 1, i);
    }
  }

  lemma FirstFromNamesTable(sql: string, i: nat)
    requires i <= |sql| && WordAfterAt(sql, "FROM", i).Some?
    requires forall j :: 0 <= j < i ==> WordAfterAt(sql, "FROM", j).None?
    ensures TableAfter(sql, "FROM") == WordAfterAt(sql, "FROM", i)
  {
    LeftmostMatchWins(sql, "FROM", 0, i);
  }

  // -------------------------------------------- the INSERT statement

  /** `/VALUES\s*\(([^)]+)\)/i` matches at `i`: the keyword, optional white
      space, an opening parenthesis, at least one other character and a
      closing parenthesis. */
  predicate ValuesAt(s: string, i: nat)
    requires i <= |s|
  {
    StartsWithIgnoringCase(s[i..], "VALUES")
    && var j := i + 6;
       var sp := SpanLength(s[j..], IsJsSpace);
       var k := j + sp;
       k + 1 < |s| && s[k] == '(' && s[k + 1] != ')' && ')' in s[k + 1..]
  }

  predicate HasValues(s: string) {
    exists i :: 0 <= i <= |s| && ValuesAt(s, i)
  }

  /** `[^)]`. */
  predicate NotClosing(c: char) { c != ')' }

  /** The text inside the parentheses of `/INSERT\s+INTO\s+\w+\s*\(([^)]+)\)/i`
      when its match starts at `i`. */
  function ColumnListAt(s: string, i: nat): (r: Option<string>)
    requires i <= |s|
    ensures r.Some? ==> |r.value| >= 1 && ')' !in r.value
  {
    if !StartsWithIgnoringCase(s[i..], "INSERT") then None
    else
      var a := i + 6;
      var sp1 := SpanLength(s[a..], IsJsSpace);
      var b := a + sp1;
      if sp1 == 0 || !StartsWithIgnoringCase(s[b..], "INTO") then None
      else
        var c := b + 4;
        var sp2 := SpanLength(s[c..], IsJsSpace);
        var d := c + sp2;
        var w := SpanLength(s[d..], IsWordChar);
        var e := d + w;
        if sp2 == 0 || w == 0 then None
        else
          var sp3 := SpanLength(s[e..], IsJsSpace);
          var f := e + sp3;
          if f >= |s| || s[f] != '(' then None
          else
            ClosedGroup(s[f + 1..])
  }

  /** `([^)]+)\)` at the start of `rest`: the non-empty run before a `)`. */
  function ClosedGroup(rest: string): (r: Option<string>)
    ensures r.Some? ==> |r.value| >= 1 && ')' !in r.value && r.value + ")" <= rest
  {
    var n := SpanLength(rest, NotClosing);
    if n == 0 || n >= |rest| then None
    else
      assert forall m :: 0 <= m < n ==> rest[..n][m] == rest[m];
      Some(rest[..n])
  }

  /** Where the leftmost match of the column-list pattern starts. */
  function FirstColumnListMatch(s: string, from: nat): (r: Option<nat>)
    requires from <= |s|
    ensures r.None? ==> forall i :: from <= i <= |s| ==> ColumnListAt(s, i).None?
    ensures r.Some? ==> from <= r.value <= |s| && ColumnListAt(s, r.value).Some?
    decreases |s| - from
  {
    if ColumnListAt(s, from).Some? then Some(from)
    else if from == |s| then None
    else FirstColumnListMatch(s, from + 1)
  }

  function TrimAll(parts: seq<string>): (r: seq<string>)
    ensures |r| == |parts| && forall i :: 0 <= i < |parts| ==> r[i] == Trim(parts[i])
  {
    seq(|parts|, i requires 0 <= i < |parts| => Trim(parts[i]))
  }

  /** `.split(',').map(c => c.trim())` of the column list, or nothing when the
      pattern does not match. */
  function Columns(sql: string): (cols: Option<seq<string>>)
    ensures cols.Some? ==> |cols.value| >= 1
    ensures cols.Some? <==> FirstColumnListMatch(sql, 0).Some?
    ensures cols.Some? ==>
      var parts := SplitOn(ColumnListAt(sql, FirstColumnListMatch(sql, 0).value).value, ',');
      && |cols.value| == |parts|
      && forall i :: 0 <= i < |parts| ==> cols.value[i] == Trim(parts[i]) && ',' !in parts[i]
  {
    var at := FirstColumnListMatch(sql, 0);
    if at.None? then None else Some(TrimAll(SplitOn(ColumnListAt(sql, at.value).value, ',')))
  }

  /** An inserted row: column name to parameter; `None` is `undefined`, what
      a column past the end of the parameters receives. */
  type Row<V> = map<string, Option<V>>

  function ParamAt<V>(values: seq<V>, idx: nat): (v: Option<V>)
    ensures idx < |values| ==> v == Some(values[idx])
    ensures idx >= |values| ==> v.None?
  {
    if idx < |values| then Some(values[idx]) else None
  }

  /** The row the `forEach` over the columns builds: each column is set to
      the parameter of its position, later columns overwriting earlier
      columns of the same name. */
  function RowOf<V>(cols: seq<string>, values: seq<V>): (row: Row<V>)
    ensures row.Keys == set c | c in cols
    decreases |cols|
  {
    if cols == [] then map[]
    else
      var last := |cols| - 1;
      var prefix := RowOf(cols[..last], values);
      assert forall c :: c in cols <==> c in cols[..last] || c == cols[last];
      prefix[cols[last] := ParamAt(values, last)]
  }

  /** Column `i` receives parameter `i` unless a later column has the same name. */
  lemma {:induction false} RowOfAt<V>(cols: seq<string>, values: seq<V>, i: nat)
    requires i < |cols| && cols[i] !in cols[i + 1..]
    ensures RowOf(cols, values)[cols[i]] == ParamAt(values, i)
    decreases |cols|
  {
    var last := |cols| - 1;
    if i < last {
      assert cols[last] in cols[i + 1..];
      assert cols[..last][i + 1..] == cols[i + 1..last];
      assert cols[i] !in cols[..last][i + 1..];
      RowOfAt(cols[..last], values, i);
    }
  }

  /** With distinct column names, the i-th column holds the i-th parameter. */
  lemma DistinctColumnsRow<V>(cols: seq<string>, values: seq<V>)
    requires forall i, j :: 0 <= i < j < |cols| ==> cols[i] != cols[j]
    ensures forall i :: 0 <= i < |cols| ==> RowOf(cols, values)[cols[i]] == ParamAt(values, i)
  {
    forall i | 0 <= i < |cols| ensures RowOf(cols, values)[cols[i]] == ParamAt(values, i) {
      RowOfAt(cols, values, i);
    }
  }

  /** `columns?.forEach(...)`: no column list leaves the row empty. */
  function RowFor<V>(cols: Option<seq<string>>, values: seq<V>): (row: Row<V>)
    ensures cols.None? ==> row == map[]
    ensures cols.Some? ==> row.Keys == set c | c in cols.value
  {
    if cols.Some? then RowOf(cols.value, values) else map[]
  }

  /** The `forEach` that fills the row object. */
  method BuildRow<V>(cols: seq<string>, values: seq<V>) returns (row: Row<V>)
    ensures row == RowOf(cols, values)
  {
    row := map[];
    for idx := 0 to |cols|
      invariant row == RowOf(cols[..idx], values)
    {
      assert cols[..idx + 1][..idx] == cols[..idx];
      row := row[cols[idx] := ParamAt(values, idx)];
    }
    assert cols[..|cols|] == cols;
  }

  // ---------------------------------------------------- what a call does

  /** What a statement makes the shim do: read a whole table, insert one
      row, or nothing at all. */
  datatype Plan<V> = ReadTable(table: string) | InsertRow(table: string, row: Row<V>) | NoOp

  /** `params` is `None` when the caller passes no parameter array; an empty
      array is still an array. */
  function PlanOf<V>(text: string, params: Option<seq<V>>): (p: Plan<V>)
    ensures p.ReadTable? ==> KindOf(text) == Select && Some(p.table) == TableAfter(Trim(text), "FROM")
    ensures p.InsertRow? ==> KindOf(text) == Insert && params.Some? && HasValues(Trim(text))
    ensures p.InsertRow? ==> Some(p.table) == TableAfter(Trim(text), "INTO")
                             && p.row == RowFor(Columns(Trim(text)), params.value)
    ensures KindOf(text) in {Update, Delete, Other} ==> p.NoOp?
    ensures KindOf(text) == Select && TableAfter(Trim(text), "FROM").Some? ==>
      p == ReadTable(TableAfter(Trim(text), "FROM").value)
    ensures KindOf(text) == Insert && TableAfter(Trim(text), "INTO").Some? && HasValues(Trim(text))
            && params.Some? ==>
      p == InsertRow(TableAfter(Trim(text), "INTO").value, RowFor(Columns(Trim(text)), params.value))
  {
    var sql := Trim(text);
    match KindOf(text)
    case Select =>
      var t := TableAfter(sql, "FROM");
      if t.Some? then ReadTable(t.value) else NoOp
    case Insert =>
      var t := TableAfter(sql, "INTO");
      if t.Some? && HasValues(sql) && params.Some? then
        InsertRow(t.value, RowFor(Columns(sql), params.value))
      else NoOp
    case _ => NoOp
  }

  /** A SELECT reads the table after its first FROM; where clauses and
      parameters play no part. */
  lemma SelectIgnoresParams<V>(text: string, p1: Option<seq<V>>, p2: Option<seq<V>>)
    requires KindOf(text) == Select && TableAfter(Trim(text), "FROM").Some?
    ensures PlanOf(text, p1) == PlanOf(text, p2) == ReadTable(TableAfter(Trim(text), "FROM").value)
  {
  }

  /** The row an INSERT stores is the one its column list and parameters
      build; with distinct names, column i holds parameter i
      (`DistinctColumnsRow`). */
  lemma InsertPlanRow<V>(text: string, params: seq<V>, cols: seq<string>)
    requires PlanOf(text, Some(params)).InsertRow? && Columns(Trim(text)) == Some(cols)
    ensures PlanOf(text, Some(params)).row == RowOf(cols, params)
  {
  }

  /** The hosted table store the shim talks to: each table a list of rows. */
  class TableStore<V> {
    var tables: map<string, seq<Row<V>>>

    constructor ()
      ensures tables == map[]
    {
      tables := map[];
    }

    /** A table the store does not hold reads as empty. */
    function RowsOf(table: string): seq<Row<V>>
      reads this
    {
      if table in tables then tables[table] else []
    }

    /** `query(text, params)`. `failure` is the error the store reports for
        this call, if it reports one; it is thrown on unchanged. */
    method Query(text: string, params: Option<seq<V>>, failure: Option<string>)
      returns (r: Result<seq<Row<V>>>)
      modifies this
      ensures var plan := PlanOf(text, params);
        match plan
        case ReadTable(t) =>
          && tables == old(tables)
          && r == (if failure.Some? then Err(Fault(failure.value)) else Ok(old(RowsOf(t))))
        case InsertRow(t, row) =>
          if failure.Some? then r == Err(Fault(failure.value)) && tables == old(tables)
          else r == Ok([row]) && tables == old(tables)[t := old(RowsOf(t)) + [row]]
        case NoOp => r == Ok([]) && tables == old(tables)
    {
      var sql := Trim(text);
      var kind := KindOf(text);
      if kind == Select {
        var t := TableAfter(sql, "FROM");
        if t.Some? {
          if failure.Some? {
            return Err(Fault(failure.value));
          }
          return Ok(RowsOf(t.value));
        }
      }
      if kind == Insert {
        var t := TableAfter(sql, "INTO");
        if t.Some? && HasValues(sql) && params.Some? {
          var cols := Columns(sql);
          var row: Row<V> := map[];
          if cols.Some? {
            row := BuildRow(cols.value, params.value);
          }
          if failure.Some? {
            return Err(Fault(failure.value));
          }
          tables := tables[t.value := RowsOf(t.value) + [row]];
          return Ok([row]);
        }
      }
      r := Ok([]);
    }
  }
}
