/**
 * The row merge of scripts/reconcile-matrix-merge.py: what its preflight refuses, what it writes
 * when it does not, and how that compares with a three-way merge of every row.
 *
 * A Python dictionary keeps its insertion order, so an index of rows is an order and a map.
 */
module MatrixMerge {
  import opened Prelude
  import Csv

  type Row = map<string, string>

  datatype Table = Table(header: seq<string>, records: seq<Row>)

  datatype Keyed = Keyed(order: seq<string>, rows: map<string, Row>)

  datatype Refusal =
    | WrongFieldCount(line: nat)
    | MissingId
    | DuplicateId(id: string)
    | BranchDeletes(ids: set<string>)
    | Overlap(ids: set<string>)

  // ------------------------------------------------------------------ tables of named fields

  /** A later column of the same name wins, as in dict(zip(header, values)). */
  function Zipped(header: seq<string>, values: seq<string>): (row: Row)
    requires |header| == |values|
    ensures forall c :: c in row <==> c in header
  {
    if header == [] then map[] else
      var n := |header| - 1;
      assert forall c :: c in header <==> c in header[..n] || c == header[n];
      Zipped(header[..n], values[..n])[header[n] := values[n]]
  }

  function ReadRecords(header: seq<string>, lines: seq<seq<string>>): Result<seq<Row>, Refusal> {
    if lines == [] then Ok([]) else
      var n := |lines| - 1;
      match ReadRecords(header, lines[..n])
      case Err(refusal) => Err(refusal)
      case Ok(rows) =>
        if |lines[n]| != |header| then Err(WrongFieldCount(n + 2)) else Ok(rows + [Zipped(header, lines[n])])
  }

  function ReadTable(lines: seq<seq<string>>): Result<Table, Refusal> {
    if lines == [] then Ok(Table([], [])) else
      match ReadRecords(lines[0], lines[1..])
      case Err(refusal) => Err(refusal)
      case Ok(rows) => Ok(Table(lines[0], rows))
  }

  ghost predicate Rectangular(t: Table) {
    forall i, c :: 0 <= i < |t.records| ==> (c in t.records[i] <==> c in t.header)
  }

  lemma {:induction false} RecordsAreRectangular(header: seq<string>, lines: seq<seq<string>>)
    requires ReadRecords(header, lines).Ok?
    ensures Rectangular(Table(header, ReadRecords(header, lines).value))
  {
    if lines != [] { RecordsAreRectangular(header, lines[..|lines| - 1]); }
  }

  function IdOf(row: Row): string {
    if "id" in row then row["id"] else ""
  }

  // ------------------------------------------------------------------ by_id

  function AddRow(keyed: Keyed, row: Row): Result<Keyed, Refusal> {
    var id := IdOf(row);
    if id == "" then Err(MissingId)
    else if id in keyed.rows then Err(DuplicateId(id))
    else Ok(Keyed(keyed.order + [id], keyed.rows[id := row]))
  }

  function Index(records: seq<Row>): Result<Keyed, Refusal> {
    if records == [] then Ok(Keyed([], map[])) else
      match Index(records[..|records| - 1])
      case Err(refusal) => Err(refusal)
      case Ok(keyed) => AddRow(keyed, records[|records| - 1])
  }

  lemma {:induction false} RefusalStands(records: seq<Row>, i: nat)
    requires i <= |records| && Index(records[..i]).Err?
    ensures Index(records) == Index(records[..i])
  {
    if i == |records| {
      assert records[..i] == records;
    } else {
      var shorter := records[..|records| - 1];
      assert shorter[..i] == records[..i];
      RefusalStands(shorter, i);
    }
  }

  method ById(records: seq<Row>) returns (r: Result<Keyed, Refusal>)
    ensures r == Index(records)
  {
    var order: seq<string> := [];
    var rows: map<string, Row> := map[];
    var i := 0;
    while i < |records|
      invariant 0 <= i <= |records|
      invariant Index(records[..i]) == Ok(Keyed(order, rows))
    {
      assert records[..i + 1][..i] == records[..i];
      var key := IdOf(records[i]);
      if key == "" {
        RefusalStands(records, i + 1);
        return Err(MissingId);
      }
      if key in rows {
        RefusalStands(records, i + 1);
        return Err(DuplicateId(key));
      }
      order := order + [key];
      rows := rows[key := records[i]];
      i := i + 1;
    }
    assert records[..i] == records;
    r := Ok(Keyed(order, rows));
  }

  predicate Distinct(s: seq<string>) {
    forall i, j :: 0 <= i < j < |s| ==> s[i] != s[j]
  }

  ghost predicate Coherent(k: Keyed) {
    Distinct(k.order) && (forall id :: id in k.order <==> id in k.rows)
    && forall id :: id in k.rows ==> IdOf(k.rows[id]) == id && id != ""
  }

  /** Rows listed in an order that names each once. */
  predicate Lists(records: seq<Row>, k: Keyed) {
    && |k.order| == |records|
    && forall i :: 0 <= i < |records| ==> k.order[i] in k.rows && k.rows[k.order[i]] == records[i]
  }

  predicate Identified(records: seq<Row>) {
    (forall i :: 0 <= i < |records| ==> IdOf(records[i]) != "")
    && forall i, j :: 0 <= i < j < |records| ==> IdOf(records[i]) != IdOf(records[j])
  }

  /** Indexing succeeds exactly when every row has an id of its own; then nothing is lost or reordered. */
  lemma {:induction false} IndexDecides(records: seq<Row>)
    ensures Index(records).Ok? <==> Identified(records)
    ensures Index(records).Ok? ==> Coherent(Index(records).value) && Lists(records, Index(records).value)
  {
    if records != [] {
      var n := |records| - 1;
      var shorter, last := records[..n], records[n];
      IndexDecides(shorter);
      assert records == shorter + [last];
      PushIdentified(shorter, last);
      if Index(shorter).Ok? {
        var k := Index(shorter).value;
        IdsListed(shorter, k);
        if IdOf(last) != "" && IdOf(last) !in k.rows {
          AddKeeps(shorter, k, last);
        }
      }
    }
  }

  /** A refusal is for the first row without an id or with one an earlier row has. */
  lemma {:induction false} IndexRefusesWith(records: seq<Row>) returns (i: nat)
    requires Index(records).Err?
    ensures i < |records| && Identified(records[..i])
    ensures IdOf(records[i]) == "" <==> Index(records).error == MissingId
    ensures IdOf(records[i]) != "" ==>
              && Index(records).error == DuplicateId(IdOf(records[i]))
              && exists j :: 0 <= j < i && IdOf(records[j]) == IdOf(records[i])
  {
    var n := |records| - 1;
    IndexDecides(records[..n]);
    if Index(records[..n]).Err? {
      i := IndexRefusesWith(records[..n]);
      assert records[..n][..i] == records[..i];
    } else {
      i := n;
      IdsListed(records[..n], Index(records[..n]).value);
      if IdOf(records[n]) != "" {
        var j :| 0 <= j < n && IdOf(records[..n][j]) == IdOf(records[n]);
        assert IdOf(records[j]) == IdOf(records[n]);
      }
    }
  }

  lemma PushIdentified(records: seq<Row>, row: Row)
    ensures Identified(records + [row])
            <==> Identified(records) && IdOf(row) != ""
                 && forall i :: 0 <= i < |records| ==> IdOf(records[i]) != IdOf(row)
  {
    var all, n := records + [row], |records|;
    assert forall i :: 0 <= i < n ==> all[i] == records[i];
    assert all[n] == row;
  }

  lemma IdsListed(records: seq<Row>, k: Keyed)
    requires Coherent(k) && Lists(records, k)
    ensures forall i :: 0 <= i < |records| ==> k.order[i] == IdOf(records[i])
    ensures forall id :: id in k.rows <==> exists i :: 0 <= i < |records| && IdOf(records[i]) == id
  {
    forall id | id in k.rows ensures exists i :: 0 <= i < |records| && IdOf(records[i]) == id {
      var i :| 0 <= i < |k.order| && k.order[i] == id;
      assert IdOf(records[i]) == id;
    }
  }

  lemma AddKeeps(records: seq<Row>, k: Keyed, row: Row)
    requires Coherent(k) && Lists(records, k)
    requires IdOf(row) != "" && IdOf(row) !in k.rows
    ensures Coherent(AddRow(k, row).value) && Lists(records + [row], AddRow(k, row).value)
  {
    var after := AddRow(k, row).value;
    assert forall id :: id in after.order <==> id in k.order || id == IdOf(row);
  }

  // ------------------------------------------------------------------ the preflight

  function Changed(base: Keyed, head: Keyed): set<string> {
    (set id | id in head.rows && id in base.rows && head.rows[id] != base.rows[id])
    + (head.rows.Keys - base.rows.Keys)
  }

  function Overlapping(base: Keyed, head: Keyed, main: Keyed): set<string> {
    set id | id in Changed(base, head) && id in main.rows && id in base.rows
             && main.rows[id] != base.rows[id] && main.rows[id] != head.rows[id]
  }

  function Preflight(base: Keyed, head: Keyed, main: Keyed): Result<set<string>, Refusal> {
    var removed := base.rows.Keys - head.rows.Keys;
    if removed != {} then Err(BranchDeletes(removed))
    else if Overlapping(base, head, main) != {} then Err(Overlap(Overlapping(base, head, main)))
    else Ok(Changed(base, head))
  }

  /** A branch that deletes rows is refused with exactly those; otherwise one that conflicts with main on
      rows all three versions have is refused with exactly those. */
  lemma PreflightRefusesWith(b: Keyed, h: Keyed, m: Keyed)
    ensures var removed, result := (set id | id in b.rows && id !in h.rows), Preflight(b, h, m);
            && (removed != {} ==> result == Err(BranchDeletes(removed)))
            && (removed == {} && result.Err? ==>
                  result.error.Overlap? && result.error.ids != {}
                  && forall id :: id in result.error.ids <==> id in b.rows && id in m.rows && Conflicts(b, h, m, id))
  {
    assert b.rows.Keys - h.rows.Keys == (set id | id in b.rows && id !in h.rows);
    if b.rows.Keys - h.rows.Keys == {} {
      forall id | id in b.rows ensures id in h.rows { assert id !in b.rows.Keys - h.rows.Keys; }
      forall id ensures id in Overlapping(b, h, m) <==> id in b.rows && id in m.rows && Conflicts(b, h, m, id) {
      }
    }
  }

  // ------------------------------------------------------------------ the rebuilt table

  function MissingFrom(columns: seq<string>, known: seq<string>): (r: seq<string>)
    ensures forall c :: c in r <==> c in columns && c !in known
  {
    if columns == [] then [] else
      var n := |columns| - 1;
      assert forall c :: c in columns <==> c in columns[..n] || c == columns[n];
      MissingFrom(columns[..n], known) + if columns[n] in known then [] else [columns[n]]
  }

  function MergedHeader(main: seq<string>, branch: seq<string>): seq<string> {
    main + MissingFrom(branch, main)
  }

  /** The merged columns: main's as they are, and then the branch's own as often and in the order it has
      them. */
  ghost predicate Extends(header: seq<string>, main: seq<string>, branch: seq<string>) {
    main <= header
    && var own := header[|main|..];
       && Subsequence(own, branch)
       && forall c :: multiset(own)[c] == if c in main then 0 else multiset(branch)[c]
  }

  lemma {:induction false} MissingFollows(columns: seq<string>, known: seq<string>)
    ensures Subsequence(MissingFrom(columns, known), columns)
  {
    if columns != [] {
      var n := |columns| - 1;
      var before := MissingFrom(columns[..n], known);
      MissingFollows(columns[..n], known);
      SubsequenceNext(before, columns, MissingFrom(columns, known));
    }
  }

  lemma {:induction false} MissingCounts(columns: seq<string>, known: seq<string>, c: string)
    ensures multiset(MissingFrom(columns, known))[c] == if c in known then 0 else multiset(columns)[c]
  {
    if columns != [] {
      var n := |columns| - 1;
      var before := MissingFrom(columns[..n], known);
      MissingCounts(columns[..n], known, c);
      assert columns == columns[..n] + [columns[n]];
      if columns[n] in known {
        assert MissingFrom(columns, known) == before;
      } else {
        assert MissingFrom(columns, known) == before + [columns[n]];
      }
    }
  }

  lemma MergedHeaderExtends(main: seq<string>, branch: seq<string>)
    ensures Extends(MergedHeader(main, branch), main, branch)
  {
    MissingFollows(branch, main);
    forall c ensures multiset(MissingFrom(branch, main))[c] == if c in main then 0 else multiset(branch)[c] {
      MissingCounts(branch, main, c);
    }
    assert MergedHeader(main, branch)[|main|..] == MissingFrom(branch, main);
  }

  function Padded(row: Row, header: seq<string>): (r: Row)
    ensures forall c :: c in r <==> c in row || c in header
    ensures forall c :: c in row ==> r[c] == row[c]
    ensures forall c :: c in r && c !in row ==> r[c] == ""
  {
    if header == [] then row else
      var n := |header| - 1;
      assert forall c :: c in header <==> c in header[..n] || c == header[n];
      SetDefault(Padded(row, header[..n]), header[n])
  }

  function SetDefault(row: Row, column: string): Row {
    if column in row then row else row[column := ""]
  }

  method Pad(given: Row, header: seq<string>) returns (row: Row)
    ensures row == Padded(given, header)
  {
    row := given;
    for i := 0 to |header|
      invariant row == Padded(given, header[..i])
    {
      assert header[..i + 1][..i] == header[..i];
      row := SetDefault(row, header[i]);
    }
    assert header[..|header|] == header;
  }

  /** The branch's changed ids that main does not list, in the branch's order. */
  function Additions(order: seq<string>, listed: set<string>, changed: set<string>): (r: seq<string>)
    ensures forall id :: id in r <==> id in order && id !in listed && id in changed
  {
    if order == [] then [] else
      var n := |order| - 1;
      assert forall id :: id in order <==> id in order[..n] || id == order[n];
      Additions(order[..n], listed, changed) + if order[n] !in listed && order[n] in changed then [order[n]] else []
  }

  ghost predicate Mergeable(main: Keyed, head: Keyed, changed: set<string>) {
    Coherent(main) && Coherent(head) && changed <= head.rows.Keys
  }

  /** The branch's row if it changed it, main's otherwise; the merge asks it of no other id. */
  function Chosen(main: Keyed, head: Keyed, changed: set<string>, id: string): Row {
    if id in changed && id in head.rows then head.rows[id]
    else if id in main.rows then main.rows[id]
    else map[]
  }

  function RowsFor(main: Keyed, head: Keyed, changed: set<string>, header: seq<string>, ids: seq<string>): seq<Row> {
    seq(|ids|, i requires 0 <= i < |ids| => Padded(Chosen(main, head, changed, ids[i]), header))
  }

  lemma RowsPush(main: Keyed, head: Keyed, changed: set<string>, header: seq<string>, ids: seq<string>, id: string)
    ensures RowsFor(main, head, changed, header, ids + [id])
            == RowsFor(main, head, changed, header, ids) + [Padded(Chosen(main, head, changed, id), header)]
  {
  }

  lemma RowsPushAfter(main: Keyed, head: Keyed, changed: set<string>, header: seq<string>, added: seq<string>,
                      id: string)
    ensures RowsFor(main, head, changed, header, main.order + (added + [id]))
            == RowsFor(main, head, changed, header, main.order + added)
               + [Padded(Chosen(main, head, changed, id), header)]
  {
    RowsPush(main, head, changed, header, main.order + added, id);
    assert main.order + (added + [id]) == main.order + added + [id];
  }

  function MergedIds(main: Keyed, head: Keyed, changed: set<string>): seq<string> {
    main.order + Additions(head.order, main.rows.Keys, changed)
  }

  ghost function MergedTable(mainHeader: seq<string>, main: Keyed, headHeader: seq<string>, head: Keyed,
                             changed: set<string>): Table
    requires Mergeable(main, head, changed)
  {
    var header := MergedHeader(mainHeader, headHeader);
    Table(header, RowsFor(main, head, changed, header, MergedIds(main, head, changed)))
  }

  /** The first loop of build_merged_csv: main's rows in main's order. */
  method RowsOfMain(main: Keyed, head: Keyed, changed: set<string>, header: seq<string>) returns (out: seq<Row>)
    requires Mergeable(main, head, changed)
    ensures out == RowsFor(main, head, changed, header, main.order)
  {
    out := [];
    var i := 0;
    while i < |main.order|
      invariant 0 <= i <= |main.order|
      invariant out == RowsFor(main, head, changed, header, main.order[..i])
    {
      var id := main.order[i];
      assert id in main.order;
      var row := main.rows[id];
      if id in changed {
        row := head.rows[id];
      }
      var padded := Pad(row, header);
      out := out + [padded];
      assert main.order[..i + 1] == main.order[..i] + [id];
      RowsPush(main, head, changed, header, main.order[..i], id);
      i := i + 1;
    }
    assert main.order[..i] == main.order;
  }

  /** build_merged_csv: main's rows, then its second loop over what only the branch has. */
  method BuildMergedTable(
      mainHeader: seq<string>, main: Keyed, headHeader: seq<string>, head: Keyed, changed: set<string>)
    returns (t: Table)
    requires Mergeable(main, head, changed)
    ensures t == MergedTable(mainHeader, main, headHeader, head, changed)
  {
    var header := MergedHeader(mainHeader, headHeader);
    var out := RowsOfMain(main, head, changed, header);
    var seen := main.rows.Keys;
    ghost var added: seq<string> := [];
    assert main.order + added == main.order;
    var i := 0;
    while i < |head.order|
      invariant 0 <= i <= |head.order|
      invariant added == Additions(head.order[..i], seen, changed)
      invariant out == RowsFor(main, head, changed, header, main.order + added)
    {
      var id := head.order[i];
      AdditionsPush(head.order, i, seen, changed);
      if id !in seen && id in changed {
        var padded := Pad(head.rows[id], header);
        out := out + [padded];
        RowsPushAfter(main, head, changed, header, added, id);
        added := added + [id];
      }
      i := i + 1;
    }
    assert head.order[..i] == head.order;
    t := Table(header, out);
  }

  lemma AdditionsPush(order: seq<string>, i: nat, listed: set<string>, changed: set<string>)
    requires i < |order|
    ensures var added := Additions(order[..i], listed, changed);
            Additions(order[..i + 1], listed, changed)
            == if order[i] !in listed && order[i] in changed then added + [order[i]] else added
  {
    assert order[..i + 1][..i] == order[..i];
  }

  // ------------------------------------------------------------------ the whole reconciliation

  /** What stands in the file afterwards; main's own table when the branch changed no row. */
  ghost function Reconciled(base: Table, head: Table, main: Table): Result<Table, Refusal> {
    match Index(base.records)
    case Err(refusal) => Err(refusal)
    case Ok(b) =>
      match Index(head.records)
      case Err(refusal) => Err(refusal)
      case Ok(h) =>
        match Index(main.records)
        case Err(refusal) => Err(refusal)
        case Ok(m) =>
          match Preflight(b, h, m)
          case Err(refusal) => Err(refusal)
          case Ok(changed) =>
            IndexDecides(head.records);
            IndexDecides(main.records);
            if changed == {} then Ok(main) else Ok(MergedTable(main.header, m, head.header, h, changed))
  }

  function RowAt(k: Keyed, id: string): Option<Row> {
    if id in k.rows then Some(k.rows[id]) else None
  }

  datatype Merge = Clean(row: Option<Row>) | Conflict

  /** The textbook merge of one row from its three versions; an absent row is a version too. */
  function ThreeWay(base: Option<Row>, head: Option<Row>, main: Option<Row>): Merge {
    if head == base then Clean(main)
    else if main == base || main == head then Clean(head)
    else Conflict
  }

  ghost predicate Conflicts(b: Keyed, h: Keyed, m: Keyed, id: string) {
    ThreeWay(RowAt(b, id), RowAt(h, id), RowAt(m, id)).Conflict?
  }

  /**
   * The preflight lets a run through exactly when the branch keeps every row it started from and
   * each row in conflict is one that both sides added or that main deleted.
   */
  lemma PreflightDecides(b: Keyed, h: Keyed, m: Keyed)
    ensures Preflight(b, h, m).Ok?
            <==> (forall id :: id in b.rows ==> id in h.rows)
                 && forall id :: Conflicts(b, h, m, id) ==> id !in b.rows || id !in m.rows
  {
    if Preflight(b, h, m).Ok? {
      forall id | id in b.rows ensures id in h.rows { assert id !in b.rows.Keys - h.rows.Keys; }
      forall id | Conflicts(b, h, m, id) ensures id !in b.rows || id !in m.rows {
        assert id !in Overlapping(b, h, m);
      }
    } else if b.rows.Keys - h.rows.Keys != {} {
      var id :| id in b.rows.Keys - h.rows.Keys;
      assert id in b.rows;
    } else {
      var id :| id in Overlapping(b, h, m);
      assert Conflicts(b, h, m, id);
    }
  }

  /** The row the result holds for an id: the three-way merge, and the branch's version in a conflict. */
  function Outcome(b: Keyed, h: Keyed, m: Keyed, id: string): Option<Row> {
    match ThreeWay(RowAt(b, id), RowAt(h, id), RowAt(m, id))
    case Clean(row) => row
    case Conflict => RowAt(h, id)
  }

  lemma {:induction false} AdditionsAreDistinct(order: seq<string>, listed: set<string>, changed: set<string>)
    requires Distinct(order)
    ensures Distinct(Additions(order, listed, changed))
  {
    if order != [] {
      var n := |order| - 1;
      AdditionsAreDistinct(order[..n], listed, changed);
      assert order[n] !in order[..n];
    }
  }

  lemma MergedIdsAreDistinct(m: Keyed, h: Keyed, changed: set<string>)
    requires Mergeable(m, h, changed)
    ensures Distinct(MergedIds(m, h, changed))
    ensures forall id :: id in MergedIds(m, h, changed) <==> id in m.rows || id in changed
  {
    var added := Additions(h.order, m.rows.Keys, changed);
    AdditionsAreDistinct(h.order, m.rows.Keys, changed);
    var ids := MergedIds(m, h, changed);
    forall i, j | 0 <= i < j < |ids| ensures ids[i] != ids[j] {
      if i < |m.order| <= j {
        assert ids[i] in m.order && ids[j] in added;
      }
    }
  }

  /** Each rebuilt row carries the id it is listed under. */
  lemma RowsCarryTheirIds(m: Keyed, h: Keyed, changed: set<string>, header: seq<string>, ids: seq<string>)
    requires Mergeable(m, h, changed) && forall id :: id in ids ==> id in m.rows || id in changed
    ensures var rows := RowsFor(m, h, changed, header, ids);
            forall i :: 0 <= i < |ids| ==> IdOf(rows[i]) == ids[i] && ids[i] != ""
  {
    var rows := RowsFor(m, h, changed, header, ids);
    forall i | 0 <= i < |ids| ensures IdOf(rows[i]) == ids[i] && ids[i] != "" {
      assert ids[i] in ids;
      var row := Chosen(m, h, changed, ids[i]);
      assert IdOf(row) == ids[i] && "id" in row;
      assert rows[i] == Padded(row, header);
    }
  }

  lemma IndexedBy(rows: seq<Row>, ids: seq<string>)
    requires |rows| == |ids| && Distinct(ids)
    requires forall i :: 0 <= i < |ids| ==> IdOf(rows[i]) == ids[i] && ids[i] != ""
    ensures Index(rows).Ok? && Index(rows).value.order == ids
    ensures forall id :: id in Index(rows).value.rows <==> id in ids
    ensures forall i :: 0 <= i < |ids| ==> ids[i] in ids && Index(rows).value.rows[ids[i]] == rows[i]
  {
    IndexDecides(rows);
    var out := Index(rows).value;
    IdsListed(rows, out);
    assert out.order == ids;
  }

  /** The rebuilt rows are indexed by exactly the merged ids, in order, each row under its own id. */
  lemma MergedRowsAreIndexed(m: Keyed, h: Keyed, changed: set<string>, header: seq<string>)
    requires Mergeable(m, h, changed)
    ensures var ids := MergedIds(m, h, changed);
            var out := Index(RowsFor(m, h, changed, header, ids));
            out.Ok? && out.value.order == ids
            && (forall id :: id in out.value.rows <==> id in m.rows || id in changed)
            && forall id :: id in out.value.rows ==> out.value.rows[id] == Padded(Chosen(m, h, changed, id), header)
  {
    var ids := MergedIds(m, h, changed);
    var rows := RowsFor(m, h, changed, header, ids);
    MergedIdsAreDistinct(m, h, changed);
    RowsCarryTheirIds(m, h, changed, header, ids);
    IndexedBy(rows, ids);
    var out := Index(rows).value;
    forall id | id in out.rows ensures out.rows[id] == Padded(Chosen(m, h, changed, id), header) {
      var i :| 0 <= i < |ids| && ids[i] == id;
      assert out.rows[id] == rows[i];
    }
  }

  /** Where main does not list an id, the branch does, and its place is by the branch's order. */
  ghost predicate FollowsBoth(order: seq<string>, main: seq<string>, branch: seq<string>) {
    main <= order && Subsequence(order[|main|..], branch) && Distinct(order)
  }

  ghost predicate Merges(out: Keyed, b: Keyed, h: Keyed, m: Keyed, header: seq<string>) {
    (forall id :: id in out.rows <==> Outcome(b, h, m, id).Some?)
    && (forall id :: id in out.rows ==> out.rows[id] == Padded(Outcome(b, h, m, id).value, header))
    && (forall id :: id in out.order <==> id in out.rows) && FollowsBoth(out.order, m.order, h.order)
  }

  lemma {:induction false} AdditionsFollow(order: seq<string>, listed: set<string>, changed: set<string>)
    ensures Subsequence(Additions(order, listed, changed), order)
  {
    if order != [] {
      var n := |order| - 1;
      AdditionsFollow(order[..n], listed, changed);
      var before := Additions(order[..n], listed, changed);
      SubsequenceNext(before, order, Additions(order, listed, changed));
    }
  }

  lemma {:induction false} MergedIdsFollow(m: Keyed, h: Keyed, changed: set<string>)
    requires Mergeable(m, h, changed)
    ensures FollowsBoth(MergedIds(m, h, changed), m.order, h.order)
  {
    MergedIdsAreDistinct(m, h, changed);
    AdditionsFollow(h.order, m.rows.Keys, changed);
    assert MergedIds(m, h, changed)[|m.order|..] == Additions(h.order, m.rows.Keys, changed);
  }

  lemma NothingToMerge(b: Keyed, h: Keyed, m: Keyed, main: Table)
    requires Preflight(b, h, m).Ok? && Changed(b, h) == {}
    requires Rectangular(main) && Coherent(m) && Lists(main.records, m)
    ensures Merges(m, b, h, m, main.header)
  {
    forall id ensures Outcome(b, h, m, id) == RowAt(m, id) { OutcomeIsChosen(b, h, m, id); }
    forall id | id in m.rows ensures m.rows[id] == Padded(m.rows[id], main.header) {
      RowIsRectangular(main, m, id);
    }
    assert m.order[|m.order|..] == [];
  }

  lemma OutcomesFrom(b: Keyed, h: Keyed, m: Keyed, header: seq<string>, out: Keyed)
    requires Preflight(b, h, m).Ok? && FollowsBoth(out.order, m.order, h.order)
    requires forall id :: id in out.order <==> id in out.rows
    requires forall id :: id in out.rows <==> id in m.rows || id in Changed(b, h)
    requires forall id :: id in out.rows ==> out.rows[id] == Padded(Chosen(m, h, Changed(b, h), id), header)
    ensures Merges(out, b, h, m, header)
  {
    forall id
      ensures id in out.rows <==> Outcome(b, h, m, id).Some?
      ensures id in out.rows ==> out.rows[id] == Padded(Outcome(b, h, m, id).value, header)
    {
      OutcomeIsChosen(b, h, m, id);
    }
  }

  lemma MergedOutcomes(b: Keyed, h: Keyed, m: Keyed, header: seq<string>)
    requires Preflight(b, h, m).Ok? && Mergeable(m, h, Changed(b, h))
    ensures var out := Index(RowsFor(m, h, Changed(b, h), header, MergedIds(m, h, Changed(b, h))));
            out.Ok? && Merges(out.value, b, h, m, header)
  {
    MergedRowsAreIndexed(m, h, Changed(b, h), header);
    MergedIdsFollow(m, h, Changed(b, h));
    MergedIdsAreDistinct(m, h, Changed(b, h));
    OutcomesFrom(b, h, m, header, Index(RowsFor(m, h, Changed(b, h), header, MergedIds(m, h, Changed(b, h)))).value);
  }

  /**
   * The result of a run that is not refused, row by row: an id is present exactly when the merge of
   * its three versions leaves it a row, once, and its row is that one with the columns it lacks blank.
   * Main's order is kept and the branch's additions follow in the branch's.
   */
  lemma {:induction false} RowMergeIsThreeWay(base: Table, head: Table, main: Table)
    requires Reconciled(base, head, main).Ok? && Rectangular(main)
    ensures var out := Reconciled(base, head, main).value;
            Index(out.records).Ok?
            && (if Changed(Index(base.records).value, Index(head.records).value) == {} then out.header == main.header
                else Extends(out.header, main.header, head.header))
            && Merges(Index(out.records).value, Index(base.records).value, Index(head.records).value,
                      Index(main.records).value, out.header)
  {
    var b, h, m := Versions(base, head, main);
    if Changed(b, h) == {} {
      NothingToMerge(b, h, m, main);
    } else {
      MergedOutcomes(b, h, m, MergedHeader(main.header, head.header));
      MergedHeaderExtends(main.header, head.header);
    }
  }

  /** The three indexes behind a run that is not refused, and what the run comes to. */
  lemma {:induction false} Versions(base: Table, head: Table, main: Table) returns (b: Keyed, h: Keyed, m: Keyed)
    requires Reconciled(base, head, main).Ok?
    ensures Index(base.records) == Ok(b) && Index(head.records) == Ok(h) && Index(main.records) == Ok(m)
    ensures Coherent(b) && Coherent(h) && Coherent(m)
    ensures Lists(head.records, h) && Lists(main.records, m)
    ensures Preflight(b, h, m) == Ok(Changed(b, h)) && Mergeable(m, h, Changed(b, h))
    ensures Reconciled(base, head, main).value
            == if Changed(b, h) == {} then main else MergedTable(main.header, m, head.header, h, Changed(b, h))
  {
    b, h, m := Index(base.records).value, Index(head.records).value, Index(main.records).value;
    IndexDecides(base.records);
    IndexDecides(head.records);
    IndexDecides(main.records);
  }

  lemma OutcomeIsChosen(b: Keyed, h: Keyed, m: Keyed, id: string)
    requires Preflight(b, h, m).Ok?
    ensures Outcome(b, h, m, id) == if id in Changed(b, h) then RowAt(h, id) else RowAt(m, id)
  {
    assert id !in b.rows.Keys - h.rows.Keys;
  }

  /**
   * What the statement above hides in a conflict, said of the two kinds the preflight lets pass: a
   * row both sides added comes out as the branch's, and a row main deleted and the branch changed
   * comes back.
   */
  lemma ConflictsGoToTheBranch(base: Table, head: Table, main: Table, id: string)
    requires Reconciled(base, head, main).Ok?
    requires Conflicts(Index(base.records).value, Index(head.records).value, Index(main.records).value, id)
    ensures var b, h, m := Index(base.records).value, Index(head.records).value, Index(main.records).value;
            var o := Index(Reconciled(base, head, main).value.records);
            && (id !in b.rows || id !in m.rows)
            && id in h.rows && o.Ok? && id in o.value.rows
            && o.value.rows[id] == Padded(h.rows[id], Reconciled(base, head, main).value.header)
  {
    var b, h, m := Versions(base, head, main);
    PreflightDecides(b, h, m);
    OutcomeIsChosen(b, h, m, id);
    assert id in Changed(b, h);
    MergedOutcomes(b, h, m, MergedHeader(main.header, head.header));
  }

  function NoteRow(id: string, note: string): Row {
    map["id" := id, "note" := note]
  }

  /** Both conflicts do get through: a row added on both sides, and a row deleted under an edit. */
  lemma ConflictsCanPass()
    ensures var b := Keyed(["gone"], map["gone" := NoteRow("gone", "old")]);
            var h := Keyed(["gone", "added"],
                           map["gone" := NoteRow("gone", "new"), "added" := NoteRow("added", "ours")]);
            var m := Keyed(["added"], map["added" := NoteRow("added", "theirs")]);
            && Coherent(b) && Coherent(h) && Coherent(m) && Preflight(b, h, m).Ok?
            && Conflicts(b, h, m, "added") && Conflicts(b, h, m, "gone")
  {
    var b := Keyed(["gone"], map["gone" := NoteRow("gone", "old")]);
    var h := Keyed(["gone", "added"], map["gone" := NoteRow("gone", "new"), "added" := NoteRow("added", "ours")]);
    var m := Keyed(["added"], map["added" := NoteRow("added", "theirs")]);
    assert "old" != "new" && "ours" != "theirs" && "gone" != "added";
    assert NoteRow("gone", "old")["note"] != NoteRow("gone", "new")["note"];
    assert NoteRow("added", "ours")["note"] != NoteRow("added", "theirs")["note"];
    PreflightDecides(b, h, m);
  }

  // ------------------------------------------------------------------ the file

  ghost function Values(row: Row, header: seq<string>): seq<string>
    requires forall c :: c in header ==> c in row
  {
    seq(|header|, i requires 0 <= i < |header| => row[header[i]])
  }

  ghost function Lines(t: Table): seq<seq<string>>
    requires Rectangular(t)
  {
    [t.header] + seq(|t.records|, i requires 0 <= i < |t.records| => Values(t.records[i], t.header))
  }

  lemma {:induction false} ZippedValues(row: Row, header: seq<string>)
    requires forall c :: c in header ==> c in row
    ensures forall c :: c in header ==> Zipped(header, Values(row, header))[c] == row[c]
  {
    if header != [] {
      var n := |header| - 1;
      assert Values(row, header)[..n] == Values(row, header[..n]);
      ZippedValues(row, header[..n]);
    }
  }

  lemma {:induction false} ReadBack(header: seq<string>, rows: seq<Row>, lines: seq<seq<string>>)
    requires Rectangular(Table(header, rows))
    requires |lines| == |rows| && forall i :: 0 <= i < |rows| ==> lines[i] == Values(rows[i], header)
    ensures ReadRecords(header, lines) == Ok(rows)
  {
    if rows != [] {
      var n := |rows| - 1;
      ReadBack(header, rows[..n], lines[..n]);
      ZippedValues(rows[n], header);
      assert Zipped(header, lines[n]) == rows[n];
      assert rows == rows[..n] + [rows[n]];
    }
  }

  /** No row carries a column the writer does not know, so the writer refuses nothing and omits nothing. */
  lemma MergedTableIsRectangular(base: Table, head: Table, main: Table)
    requires Rectangular(head) && Rectangular(main)
    requires Reconciled(base, head, main).Ok?
    ensures Rectangular(Reconciled(base, head, main).value)
  {
    var b, h, m := Versions(base, head, main);
    var changed := Changed(b, h);
    if changed != {} {
      var header, ids := MergedHeader(main.header, head.header), MergedIds(m, h, changed);
      var rows := RowsFor(m, h, changed, header, ids);
      forall i, c | 0 <= i < |rows| ensures c in rows[i] <==> c in header {
        if ids[i] in changed {
          RowIsRectangular(head, h, ids[i]);
        } else {
          RowIsRectangular(main, m, ids[i]);
        }
        assert rows[i] == Padded(Chosen(m, h, changed, ids[i]), header);
      }
    }
  }

  lemma RowIsRectangular(t: Table, k: Keyed, id: string)
    requires Rectangular(t) && Coherent(k) && Lists(t.records, k) && id in k.rows
    ensures forall c :: c in k.rows[id] <==> c in t.header
  {
    assert id in k.order;
    var i :| 0 <= i < |k.order| && k.order[i] == id;
    assert k.rows[id] == t.records[i];
  }

  /** What the merge writes is what the matrix reader reads: the same header, the same rows, in order. */
  lemma WrittenFileReadsBack(base: Table, head: Table, main: Table)
    requires Rectangular(base) && Rectangular(head) && Rectangular(main)
    requires Reconciled(base, head, main).Ok?
    requires Changed(Index(base.records).value, Index(head.records).value) != {}
    ensures Rectangular(Reconciled(base, head, main).value)
    ensures var out := Reconciled(base, head, main).value;
            var read := Csv.Parsed(Csv.Print(Lines(out), Csv.Lf));
            read.Ok? && ReadTable(read.value) == Ok(out)
  {
    MergedTableIsRectangular(base, head, main);
    var b, h, m := Versions(base, head, main);
    var out := Reconciled(base, head, main).value;
    var id :| id in Changed(b, h);
    RowIsRectangular(head, h, id);
    assert "id" in h.rows[id] && "id" in head.header;
    assert "id" in out.header;
    TableReadsBack(out);
  }

  lemma TableReadsBack(t: Table)
    requires Rectangular(t) && t.header != []
    ensures Csv.Parsed(Csv.Print(Lines(t), Csv.Lf)) == Ok(Lines(t))
    ensures ReadTable(Lines(t)) == Ok(t)
  {
    var lines := Lines(t);
    assert forall i :: 0 <= i < |lines| ==> |lines[i]| == |t.header|;
    Csv.RoundTrip(lines, Csv.Lf);
    ReadBack(t.header, t.records, lines[1..]);
  }
}
