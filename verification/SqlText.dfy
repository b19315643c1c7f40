/**
 The SQL statement for the realtime table (src/cs_data_processor/cs_data_processor.js:248-290 and 1194-1204),
 and a reader of its row list following the string constants of PostgreSQL
 (section 4.1.2.1 of the PostgreSQL documentation).
 */
module SqlText {
  import opened Options

  /** One queued row.  The time is printed by `toISOString` and has no quote in it. */
  datatype Row = Row(tag: string, time: string, json: string)

  const QUOTE: char := '\''

  const HEADER: string :=
    "WITH ordered_values AS (  SELECT DISTINCT ON (tag) tag, time_tag, json_data FROM (VALUES "

  const UPSERT: string := ") AS t(tag, time_tag, json_data)\n"
    + "          ORDER BY tag, time_tag DESC\n"
    + "        )\n"
    + "        INSERT INTO realtime_data (tag, time_tag, json_data)\n"
    + "        SELECT tag, time_tag::timestamptz, json_data::jsonb\n"
    + "        FROM ordered_values\n"
    + "        ON CONFLICT (tag) DO UPDATE \n"
    + "        SET time_tag = EXCLUDED.time_tag,\n"
    + "            json_data = EXCLUDED.json_data;\n"
    + "    "

  const FOOTER: string := " \n" + UPSERT

  /** `replaceAll("'", "''")`. */
  function Doubled(s: string): string
    decreases |s|
  {
    if s == "" then "" else (if s[0] == QUOTE then "''" else [s[0]]) + Doubled(s[1..])
  }

  function Quoted(s: string): string {
    "'" + s + "'"
  }

  function QueueStr(r: Row): string {
    Quoted(Doubled(r.tag)) + "," + Quoted(r.time) + "," + Quoted(Doubled(r.json))
  }

  function Printed(queue: seq<string>): string
    decreases |queue|
  {
    if queue == [] then "" else "\n (" + queue[0] + ")," + Printed(queue[1..])
  }

  /** The statement, with the comma after the last row removed. */
  function StatementOf(header: string, queue: seq<string>, footer: string): string
    requires queue != []
  {
    header + Printed(queue)[..|Printed(queue)| - 1] + footer
  }

  function Statement(queue: seq<string>): string
    requires queue != []
  {
    StatementOf(HEADER, queue, FOOTER)
  }

  lemma {:induction false} PrintedAppend(a: seq<string>, b: seq<string>)
    ensures Printed(a + b) == Printed(a) + Printed(b)
    decreases |a|
  {
    if a == [] {
      assert a + b == b;
    } else {
      assert (a + b)[1..] == a[1..] + b;
      PrintedAppend(a[1..], b);
    }
  }

  lemma {:induction false} PrintedLast(header: string, done: seq<string>, sql: string)
    ensures header + Printed(done) + "\n (" + sql + ")," == header + Printed(done + [sql])
  {
    PrintedAppend(done, [sql]);
    assert Printed([sql][1..]) == "";
    assert Printed([sql]) == "\n (" + sql + "),";
  }

  class SqlWriter {
    var sqlRtDataQueue: seq<string>

    constructor ()
      ensures sqlRtDataQueue == []
    {
      sqlRtDataQueue := [];
    }

    method Enqueue(r: Row)
      modifies this
      ensures sqlRtDataQueue == old(sqlRtDataQueue) + [QueueStr(r)]
    {
      var queueStr := "'" + Doubled(r.tag) + "'";
      queueStr := queueStr + "," + ("'" + r.time + "'");
      queueStr := queueStr + "," + ("'" + Doubled(r.json) + "'");
      sqlRtDataQueue := sqlRtDataQueue + [queueStr];
    }

    /** Returns the text of the file, or nothing when there was no row and no file is written. */
    method Drain() returns (file: Option<string>)
      modifies this
      ensures sqlRtDataQueue == []
      ensures file == if old(sqlRtDataQueue) == [] then None else Some(Statement(old(sqlRtDataQueue)))
    {
      file := DrainInto(HEADER, FOOTER);
    }

    method DrainInto(header: string, footer: string) returns (file: Option<string>)
      requires header != ""
      modifies this
      ensures sqlRtDataQueue == []
      ensures file == if old(sqlRtDataQueue) == [] then None else Some(StatementOf(header, old(sqlRtDataQueue), footer))
    {
      var sqlTransaction, doInsertData := header, false;
      ghost var done: seq<string> := [];
      while sqlRtDataQueue != []
        invariant done + sqlRtDataQueue == old(sqlRtDataQueue)
        invariant sqlTransaction == header + Printed(done)
        invariant doInsertData <==> done != []
        decreases |sqlRtDataQueue|
      {
        doInsertData := true;
        var sql := sqlRtDataQueue[0];
        sqlRtDataQueue := sqlRtDataQueue[1..];
        PrintedLast(header, done, sql);
        done := done + [sql];
        sqlTransaction := sqlTransaction + "\n (" + sql + "),";
      }
      assert done == old(sqlRtDataQueue);
      if done != [] {
        TrimLast(header, Printed(done));
      }
      sqlTransaction := sqlTransaction[..|sqlTransaction| - 1];
      sqlTransaction := sqlTransaction + footer;
      file := if doInsertData then Some(sqlTransaction) else None;
    }
  }

  lemma {:induction false} TrimLast(a: string, b: string)
    requires b != ""
    ensures (a + b)[..|a + b| - 1] == a + b[..|b| - 1]
  {
  }

  // ---------------------------------------------------------------- reading the rows back

  /** The text of a string constant after its opening quote, and what follows its closing quote. */
  function Unquoted(s: string): Option<(string, string)>
    decreases |s|
  {
    if s == "" then None
    else if s[0] != QUOTE then
      match Unquoted(s[1..])
      case None => None
      case Some((text, rest)) => Some(([s[0]] + text, rest))
    else if |s| > 1 && s[1] == QUOTE then
      match Unquoted(s[2..])
      case None => None
      case Some((text, rest)) => Some(("'" + text, rest))
    else Some(("", s[1..]))
  }

  lemma {:induction false} UnquotedSuffix(s: string)
    ensures Unquoted(s).Some? ==> |Unquoted(s).value.1| < |s|
    decreases |s|
  {
    if s != "" && s[0] != QUOTE {
      UnquotedSuffix(s[1..]);
    } else if |s| > 1 && s[1] == QUOTE {
      UnquotedSuffix(s[2..]);
    }
  }

  function After(prefix: string, s: string): Option<string> {
    if prefix <= s then Some(s[|prefix|..]) else None
  }

  /** A string constant introduced by `prefix` and an opening quote. */
  function ReadField(prefix: string, s: string): Option<(string, string)> {
    match After(prefix + "'", s)
    case None => None
    case Some(body) => Unquoted(body)
  }

  function ReadRow(s: string): Option<(Row, string)> {
    var tag := ReadField("\n (", s);
    if tag.None? then None else
    var time := ReadField(",", tag.value.1);
    if time.None? then None else
    var json := ReadField(",", time.value.1);
    if json.None? then None else
    var end := After(")", json.value.1);
    if end.None? then None else Some((Row(tag.value.0, time.value.0, json.value.0), end.value))
  }

  lemma {:induction false} ReadFieldSuffix(prefix: string, s: string)
    ensures ReadField(prefix, s).Some? ==> |ReadField(prefix, s).value.1| < |s|
  {
    if After(prefix + "'", s).Some? {
      UnquotedSuffix(After(prefix + "'", s).value);
    }
  }

  lemma {:induction false} ReadRowSuffix(s: string)
    ensures ReadRow(s).Some? ==> |ReadRow(s).value.1| < |s|
  {
    if ReadRow(s).Some? {
      ReadFieldSuffix("\n (", s);
      var rest := ReadField("\n (", s).value.1;
      ReadFieldSuffix(",", rest);
      ReadFieldSuffix(",", ReadField(",", rest).value.1);
    }
  }

  /** Rows separated by commas, and the text after the last one. */
  function ReadRows(s: string): Option<(seq<Row>, string)>
    decreases |s|
  {
    var first := ReadRow(s);
    if first.None? then None
    else
      ReadRowSuffix(s);
      var rest := first.value.1;
      if rest == "" || rest[0] != ',' then Some(([first.value.0], rest))
      else
        match ReadRows(rest[1..])
        case None => None
        case Some((rows, end)) => Some(([first.value.0] + rows, end))
  }

  lemma {:induction false} UnquotedDoubled(t: string, rest: string)
    requires rest == "" || rest[0] != QUOTE
    ensures Unquoted(Doubled(t) + "'" + rest) == Some((t, rest))
    decreases |t|
  {
    var s := Doubled(t) + "'" + rest;
    if t == "" {
      assert s == "'" + rest;
    } else {
      UnquotedDoubled(t[1..], rest);
      var tail := Doubled(t[1..]) + "'" + rest;
      if t[0] == QUOTE {
        assert s == "''" + tail;
        assert s[2..] == tail;
      } else {
        assert s == [t[0]] + tail;
        assert s[1..] == tail;
      }
      assert t == [t[0]] + t[1..];
    }
  }

  lemma {:induction false} DoubledPlain(t: string)
    requires QUOTE !in t
    ensures Doubled(t) == t
    decreases |t|
  {
    if t != "" {
      DoubledPlain(t[1..]);
    }
  }

  lemma {:induction false} ReadFieldPrinted(prefix: string, t: string, rest: string)
    requires rest == "" || rest[0] != QUOTE
    ensures ReadField(prefix, prefix + (Quoted(Doubled(t)) + rest)) == Some((t, rest))
  {
    var s := prefix + (Quoted(Doubled(t)) + rest);
    assert s[|prefix + "'"|..] == Doubled(t) + "'" + rest;
    UnquotedDoubled(t, rest);
  }

  lemma {:induction false} Regroup(open: string, x: string, y: string, z: string, rest: string)
    ensures open + (x + "," + y + "," + z) + ")" + rest == open + (x + ("," + (y + ("," + (z + (")" + rest))))))
  {
  }

  lemma {:induction false} ReadRowOf(s: string, r: Row, a: string, b: string, c: string, rest: string)
    requires ReadField("\n (", s) == Some((r.tag, a)) && ReadField(",", a) == Some((r.time, b))
    requires ReadField(",", b) == Some((r.json, c)) && After(")", c) == Some(rest)
    ensures ReadRow(s) == Some((r, rest))
  {
  }

  lemma {:induction false} ReadRowPrinted(r: Row, rest: string)
    requires QUOTE !in r.time
    ensures ReadRow("\n (" + QueueStr(r) + ")" + rest) == Some((r, rest))
  {
    DoubledPlain(r.time);
    var x, y, z := Quoted(Doubled(r.tag)), Quoted(Doubled(r.time)), Quoted(Doubled(r.json));
    var c := ")" + rest;
    var b := "," + (z + c);
    var a := "," + (y + b);
    Regroup("\n (", x, y, z, rest);
    ReadFieldPrinted("\n (", r.tag, a);
    ReadFieldPrinted(",", r.time, b);
    ReadFieldPrinted(",", r.json, c);
    assert After(")", c) == Some(rest);
    ReadRowOf("\n (" + (x + a), r, a, b, c, rest);
  }

  function QueueOf(rows: seq<Row>): (queue: seq<string>)
    ensures |queue| == |rows|
  {
    seq(|rows|, i requires 0 <= i < |rows| => QueueStr(rows[i]))
  }

  /** All printed rows but for the comma after the last one, followed by `end`. */
  function RowList(rows: seq<Row>, end: string): string
    requires rows != []
    decreases |rows|
  {
    "\n (" + QueueStr(rows[0]) + ")" + if |rows| == 1 then end else "," + RowList(rows[1..], end)
  }

  /** The last comma becomes `end`. */
  lemma {:induction false} CommaReplaced(row: string, q: string, end: string)
    ensures var p := row + ")," + q;
            p[..|p| - 1] + end == row + ")" + if q == "" then end else "," + (q[..|q| - 1] + end)
  {
  }

  lemma {:induction false} PrintedIsRowList(rows: seq<Row>, end: string)
    requires rows != []
    ensures var p := Printed(QueueOf(rows));
            p != "" && p[..|p| - 1] + end == RowList(rows, end)
    decreases |rows|
  {
    var q := Printed(QueueOf(rows[1..]));
    assert QueueOf(rows)[1..] == QueueOf(rows[1..]);
    assert Printed(QueueOf(rows)) == "\n (" + QueueStr(rows[0]) + ")," + q;
    CommaReplaced("\n (" + QueueStr(rows[0]), q, end);
    if |rows| > 1 {
      PrintedIsRowList(rows[1..], end);
    }
  }

  /** One step of `ReadRows`, on a text whose first row is already read. */
  lemma {:induction false} ReadRowsStep(s: string, row: Row, rest: string)
    requires ReadRow(s) == Some((row, rest))
    ensures rest == "" || rest[0] != ',' ==> ReadRows(s) == Some(([row], rest))
    ensures rest != "" && rest[0] == ',' && ReadRows(rest[1..]).Some?
            ==> ReadRows(s) == Some(([row] + ReadRows(rest[1..]).value.0, ReadRows(rest[1..]).value.1))
  {
  }

  lemma {:induction false} ReadRowList(rows: seq<Row>, end: string)
    requires rows != [] && forall r :: r in rows ==> QUOTE !in r.time
    requires end == "" || end[0] != ','
    ensures ReadRows(RowList(rows, end)) == Some((rows, end))
    decreases |rows|
  {
    assert rows[0] in rows && forall x :: x in rows[1..] ==> x in rows;
    assert rows == [rows[0]] + rows[1..];
    assert |rows| == 1 ==> rows == [rows[0]];
    var rest := if |rows| == 1 then end else "," + RowList(rows[1..], end);
    ReadRowPrinted(rows[0], rest);
    ReadRowsStep(RowList(rows, end), rows[0], rest);
    if |rows| > 1 {
      assert rest[1..] == RowList(rows[1..], end);
      ReadRowList(rows[1..], end);
    }
  }

  lemma {:induction false} Assembled(header: string, p: string, footer: string, list: string)
    requires p != "" && p[..|p| - 1] + footer == list
    ensures header + p[..|p| - 1] + footer == header + list
  {
  }

  lemma {:induction false} PiecesAreRowList(header: string, rows: seq<Row>, footer: string)
    requires rows != []
    ensures StatementOf(header, QueueOf(rows), footer) == header + RowList(rows, footer)
  {
    PrintedIsRowList(rows, footer);
    Assembled(header, Printed(QueueOf(rows)), footer, RowList(rows, footer));
  }

  lemma {:induction false} Dropped(header: string, list: string)
    ensures header <= header + list && (header + list)[|header|..] == list
  {
  }

  lemma {:induction false} PiecesReadBack(header: string, rows: seq<Row>, footer: string)
    requires rows != [] && forall r :: r in rows ==> QUOTE !in r.time
    requires footer == "" || footer[0] != ','
    ensures var s := StatementOf(header, QueueOf(rows), footer);
            header <= s && ReadRows(s[|header|..]) == Some((rows, footer))
  {
    PiecesAreRowList(header, rows, footer);
    Dropped(header, RowList(rows, footer));
    ReadRowList(rows, footer);
  }

  /**
   Reading the emitted statement gives exactly the queued rows, in order, whatever quotes tags and documents
   contain.
   */
  lemma {:induction false} StatementReadsBack(rows: seq<Row>)
    requires rows != [] && forall r :: r in rows ==> QUOTE !in r.time
    ensures var s := Statement(QueueOf(rows));
            HEADER <= s && ReadRows(s[|HEADER|..]) == Some((rows, FOOTER))
  {
    assert FOOTER[0] == ' ';
    PiecesReadBack(HEADER, rows, FOOTER);
  }

  // ---------------------------------------------------------------- what the statement does to the table

  /** A row of the table, by tag. */
  datatype Entry = Entry(time: string, json: string)

  type Table = map<string, Entry>

  function EntryOf(r: Row): Entry {
    Entry(r.time, r.json)
  }

  function TagsOf(rows: seq<Row>): set<string> {
    set r | r in rows :: r.tag
  }

  /** Row `i` comes first among the rows of its tag when they are ordered by descending time. */
  predicate IsFirst(clock: string -> int, rows: seq<Row>, i: nat)
    requires i < |rows|
  {
    forall j :: 0 <= j < |rows| && rows[j].tag == rows[i].tag ==> clock(rows[j].time) <= clock(rows[i].time)
  }

  ghost predicate Chosen(clock: string -> int, rows: seq<Row>, tag: string, e: Entry) {
    exists i: nat :: i < |rows| && rows[i].tag == tag && IsFirst(clock, rows, i) && e == EntryOf(rows[i])
  }

  /**
   A table the statement may leave behind: one row of each tag is kept, any of those that come first
   (SELECT DISTINCT ON, SELECT in the PostgreSQL documentation), and inserted or put in place of the stored one.
   */
  ghost predicate Upserted(clock: string -> int, before: Table, rows: seq<Row>, after: Table) {
    && after.Keys == before.Keys + TagsOf(rows)
    && (forall tag :: tag in before && tag !in TagsOf(rows) ==> after[tag] == before[tag])
    && (forall tag :: tag in TagsOf(rows) ==> Chosen(clock, rows, tag, after[tag]))
  }

  /** What the queue means: its rows replace the stored ones one after the other. */
  function InOrder(before: Table, rows: seq<Row>): Table
    decreases |rows|
  {
    if rows == [] then before
    else InOrder(before, rows[..|rows| - 1])[rows[|rows| - 1].tag := EntryOf(rows[|rows| - 1])]
  }

  /** No later row has the tag of row `i`. */
  predicate IsLast(rows: seq<Row>, i: nat)
    requires i < |rows|
  {
    forall j :: i < j < |rows| ==> rows[j].tag != rows[i].tag
  }

  /** Every row is older than the last one of its tag, or says the same. */
  predicate LastIsNewest(clock: string -> int, rows: seq<Row>) {
    forall i, j :: 0 <= j < i < |rows| && rows[j].tag == rows[i].tag && IsLast(rows, i)
                   ==> clock(rows[j].time) < clock(rows[i].time) || EntryOf(rows[j]) == EntryOf(rows[i])
  }

  lemma {:induction false} LastOfTag(rows: seq<Row>, tag: string) returns (i: nat)
    requires tag in TagsOf(rows)
    ensures i < |rows| && rows[i].tag == tag && IsLast(rows, i)
    decreases |rows|
  {
    var n := |rows| - 1;
    if rows[n].tag == tag {
      i := n;
    } else {
      var r :| r in rows && r.tag == tag;
      assert r in rows[..n];
      i := LastOfTag(rows[..n], tag);
      assert rows[..n][i] == rows[i];
      assert forall j :: i < j < n ==> rows[..n][j] == rows[j];
    }
  }

  lemma {:induction false} InOrderTags(before: Table, rows: seq<Row>)
    ensures InOrder(before, rows).Keys == before.Keys + TagsOf(rows)
    ensures forall tag :: tag in before && tag !in TagsOf(rows) ==> InOrder(before, rows)[tag] == before[tag]
    decreases |rows|
  {
    if rows != [] {
      var front, last := rows[..|rows| - 1], rows[|rows| - 1];
      InOrderTags(before, front);
      assert forall r :: r in rows <==> r in front || r == last;
      assert TagsOf(rows) == TagsOf(front) + {last.tag};
    }
  }

  /** The last row of a tag is the one that stays. */
  lemma {:induction false} InOrderKeepsLast(before: Table, rows: seq<Row>, i: nat)
    requires i < |rows| && IsLast(rows, i)
    ensures rows[i].tag in InOrder(before, rows) && InOrder(before, rows)[rows[i].tag] == EntryOf(rows[i])
    decreases |rows|
  {
    var n := |rows| - 1;
    if i < n {
      assert forall j :: 0 <= j < n ==> rows[..n][j] == rows[j];
      InOrderKeepsLast(before, rows[..n], i);
    }
  }

  /** Among the rows of a tag one comes first. */
  lemma {:induction false} FirstOfTag(clock: string -> int, rows: seq<Row>, tag: string, n: nat) returns (i: nat)
    requires n <= |rows| && exists j :: 0 <= j < n && rows[j].tag == tag
    ensures i < n && rows[i].tag == tag
    ensures forall j :: 0 <= j < n && rows[j].tag == tag ==> clock(rows[j].time) <= clock(rows[i].time)
    decreases n
  {
    if exists j :: 0 <= j < n - 1 && rows[j].tag == tag {
      i := FirstOfTag(clock, rows, tag, n - 1);
      if rows[n - 1].tag == tag && clock(rows[n - 1].time) > clock(rows[i].time) {
        i := n - 1;
      }
    } else {
      i := n - 1;
    }
  }

  lemma {:induction false} SomethingIsChosen(clock: string -> int, rows: seq<Row>, tag: string)
    requires tag in TagsOf(rows)
    ensures exists e :: Chosen(clock, rows, tag, e)
  {
    var r :| r in rows && r.tag == tag;
    var k :| 0 <= k < |rows| && rows[k] == r;
    var i := FirstOfTag(clock, rows, tag, |rows|);
    assert Chosen(clock, rows, tag, EntryOf(rows[i]));
  }

  /** Any choice for one tag is part of a table that can be left behind. */
  lemma {:induction false} ChoiceIsPossible(clock: string -> int, before: Table, rows: seq<Row>, tag: string, e: Entry)
    returns (after: Table)
    requires tag in TagsOf(rows) && Chosen(clock, rows, tag, e)
    ensures Upserted(clock, before, rows, after) && tag in after && after[tag] == e
  {
    forall t | t in TagsOf(rows)
      ensures exists x :: Chosen(clock, rows, t, x)
    {
      SomethingIsChosen(clock, rows, t);
    }
    after := map t | t in before.Keys + TagsOf(rows) ::
      if t == tag then e
      else if t in TagsOf(rows) then (var x :| Chosen(clock, rows, t, x); x)
      else before[t];
  }

  lemma {:induction false} NewestIsChosen(clock: string -> int, rows: seq<Row>, i: nat, e: Entry)
    requires LastIsNewest(clock, rows) && i < |rows| && IsLast(rows, i) && Chosen(clock, rows, rows[i].tag, e)
    ensures e == EntryOf(rows[i])
  {
    var k: nat :| k < |rows| && rows[k].tag == rows[i].tag && IsFirst(clock, rows, k) && e == EntryOf(rows[k]);
    assert k <= i;
    assert clock(rows[i].time) <= clock(rows[k].time);
  }

  /** If an older row is not strictly older, something else than the last row can be chosen. */
  lemma {:induction false} OtherIsChosen(clock: string -> int, rows: seq<Row>, j: nat, i: nat) returns (e: Entry)
    requires j < i < |rows| && rows[j].tag == rows[i].tag
    requires clock(rows[j].time) >= clock(rows[i].time) && EntryOf(rows[j]) != EntryOf(rows[i])
    ensures Chosen(clock, rows, rows[i].tag, e) && e != EntryOf(rows[i])
  {
    var k := FirstOfTag(clock, rows, rows[i].tag, |rows|);
    if clock(rows[k].time) > clock(rows[i].time) {
      e := EntryOf(rows[k]);
      assert IsFirst(clock, rows, k);
    } else {
      e := EntryOf(rows[j]);
      assert IsFirst(clock, rows, j);
    }
  }

  /**
   The statement does what the queue means, whichever of the rows that come first it takes, exactly when every
   row is strictly older than the last one of its tag or says the same.
   */
  lemma {:induction false} LastRowWinsIff(clock: string -> int, before: Table, rows: seq<Row>)
    ensures (forall after :: Upserted(clock, before, rows, after) ==> after == InOrder(before, rows))
            <==> LastIsNewest(clock, rows)
  {
    if LastIsNewest(clock, rows) {
      forall after | Upserted(clock, before, rows, after)
        ensures after == InOrder(before, rows)
      {
        NewestTable(clock, before, rows, after);
      }
    } else {
      var i, j :| 0 <= j < i < |rows| && rows[j].tag == rows[i].tag && IsLast(rows, i)
                  && !(clock(rows[j].time) < clock(rows[i].time) || EntryOf(rows[j]) == EntryOf(rows[i]));
      var e := OtherIsChosen(clock, rows, j, i);
      assert rows[i] in rows;
      var after := ChoiceIsPossible(clock, before, rows, rows[i].tag, e);
      InOrderKeepsLast(before, rows, i);
      assert after != InOrder(before, rows);
    }
  }

  lemma {:induction false} NewestTable(clock: string -> int, before: Table, rows: seq<Row>, after: Table)
    requires LastIsNewest(clock, rows) && Upserted(clock, before, rows, after)
    ensures after == InOrder(before, rows)
  {
    InOrderTags(before, rows);
    forall tag | tag in after
      ensures after[tag] == InOrder(before, rows)[tag]
    {
      if tag in TagsOf(rows) {
        var i := LastOfTag(rows, tag);
        InOrderKeepsLast(before, rows, i);
        NewestIsChosen(clock, rows, i, after[tag]);
      }
    }
  }
}
