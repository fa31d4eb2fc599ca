/** The CSV exports of the client: the quoting of free-text fields, the task
    rows and the statistics rows, and a reader of one record as section 2 of
    RFC 4180 defines it, against which the rows are read back. Number and
    date rendering (`toFixed`, `toLocaleDateString`) are parameters. */
module CsvExport {
  import opened Common
  import opened Entities
  import opened ClientTypes
  import TasksService
  import UsersService

  /** `calculateTotalTime`: 0 for a missing or empty list, the sum of the
      durations otherwise. */
  function CalculateTotalTime(es: Option<seq<ClientEntry>>): (r: int)
    ensures es.None? ==> r == 0
    ensures es.Some? && NonNegativeDurations(es.value) ==> r >= 0
  {
    if es.None? || |es.value| == 0 then 0 else ReduceDurations(es.value)
  }

  /** The total is the sum with a missing list read as an empty one. */
  lemma CalculateTotalTimeIsSum(es: Option<seq<ClientEntry>>)
    ensures es.None? ==> CalculateTotalTime(es) == 0
    ensures es.Some? ==> CalculateTotalTime(es) == ReduceDurations(es.value)
  {
  }

  /** The client's total over the entries the server sent equals the
      server's `getTotalTime` sum. */
  lemma CalculateTotalTimeMatchesServer(es: seq<TimeEntry>)
    ensures CalculateTotalTime(Some(EntriesToClient(es))) == TasksService.SumDurations(es)
  {
    ClientSumMatchesServer(es);
  }

  // ---------------------------------------------------------------------
  // Fields

  /** `s.replace(/"/g, '""')`: every quote doubled. */
  function EscapeQuotes(s: string): (r: string)
    ensures |r| >= |s|
  {
    if s == [] then []
    else (if s[0] == '"' then ['"', '"'] else [s[0]]) + EscapeQuotes(s[1..])
  }

  /** A field enclosed in double quotes. */
  function Quote(s: string): (r: string)
    ensures |r| >= 2 && r[0] == '"' && r[|r| - 1] == '"'
  {
    ['"'] + EscapeQuotes(s) + ['"']
  }

  /** Reading the inside of a quoted field (section 2 rule 7 of RFC 4180): a
      doubled quote stands for one quote and a single quote closes the
      field. The field's text and what follows the closing quote, or None
      when the field is never closed. */
  function ReadQuoted(s: string): (r: Option<(string, string)>)
    ensures r.Some? ==> |r.value.1| < |s|
  {
    if s == [] then None
    else if s[0] == '"' then
      if |s| >= 2 && s[1] == '"' then
        match ReadQuoted(s[2..])
        case None => None
        case Some((text, rest)) => Some((['"'] + text, rest))
      else Some(([], s[1..]))
    else
      match ReadQuoted(s[1..])
      case None => None
      case Some((text, rest)) => Some(([s[0]] + text, rest))
  }

  /** Reading an unquoted field: up to the next comma. */
  function ReadBare(s: string): (r: (string, string))
    ensures r.0 + r.1 == s
    ensures r.1 == [] || r.1[0] == ','
    ensures forall i :: 0 <= i < |r.0| ==> r.0[i] != ','
  {
    if s == [] || s[0] == ',' then ([], s)
    else
      var (text, rest) := ReadBare(s[1..]);
      assert s == [s[0]] + s[1..];
      assert forall i :: 0 < i <= |text| ==> ([s[0]] + text)[i] == text[i - 1];
      ([s[0]] + text, rest)
  }

  /** Reading the field at the start of `s`: a quoted one when `s` opens
      with a quote, an unquoted one otherwise. */
  function ReadField(s: string): (r: Option<(string, string)>)
    ensures r.Some? ==> |r.value.1| <= |s|
  {
    if s != [] && s[0] == '"' then ReadQuoted(s[1..]) else Some(ReadBare(s))
  }

  /** Reading one record: fields separated by commas, each quoted or not. */
  function ReadRecord(s: string): (r: Option<seq<string>>)
    ensures r.Some? ==> |r.value| >= 1
    decreases |s|
  {
    match ReadField(s)
    case None => None
    case Some((text, rest)) =>
      if rest == [] then Some([text])
      else if rest[0] != ',' then None
      else
        match ReadRecord(rest[1..])
        case None => None
        case Some(more) => Some([text] + more)
  }

  /** The text of a quoted field, or None when `f` is not one. */
  function Unquote(f: string): Option<string>
  {
    if f != [] && f[0] == '"' then
      match ReadQuoted(f[1..])
      case Some((text, rest)) => if rest == [] then Some(text) else None
      case None => None
    else None
  }

  /** A quoted field is read back up to its closing quote, whatever follows
      unless that is another quote. */
  lemma {:induction false} ReadQuotedEscaped(x: string, rest: string)
    requires rest == [] || rest[0] != '"'
    ensures ReadQuoted(EscapeQuotes(x) + ['"'] + rest) == Some((x, rest))
  {
    var s := EscapeQuotes(x) + ['"'] + rest;
    if x == [] {
      assert s == ['"'] + rest;
      assert s[1..] == rest;
    } else if x[0] == '"' {
      assert s == ['"', '"'] + (EscapeQuotes(x[1..]) + ['"'] + rest);
      assert s[2..] == EscapeQuotes(x[1..]) + ['"'] + rest;
      ReadQuotedEscaped(x[1..], rest);
      assert ['"'] + x[1..] == x;
    } else {
      assert s == [x[0]] + (EscapeQuotes(x[1..]) + ['"'] + rest);
      assert s[1..] == EscapeQuotes(x[1..]) + ['"'] + rest;
      ReadQuotedEscaped(x[1..], rest);
      assert [x[0]] + x[1..] == x;
    }
  }

  /** Quoting round-trips: reading the quoted field gives back the text. */
  lemma UnquoteQuote(s: string)
    ensures Unquote(Quote(s)) == Some(s)
  {
    ReadQuotedEscaped(s, []);
    assert Quote(s)[1..] == EscapeQuotes(s) + ['"'] + [];
  }

  /** Quoting is injective: distinct texts give distinct fields. */
  lemma QuoteInjective(a: string, b: string)
    requires Quote(a) == Quote(b)
    ensures a == b
  {
    UnquoteQuote(a);
    UnquoteQuote(b);
  }

  /** A text that can stand in a record unquoted. */
  predicate Safe(s: string)
  {
    forall i :: 0 <= i < |s| ==> s[i] != ',' && s[i] != '"' && s[i] != '\n' && s[i] != '\r'
  }

  lemma {:induction false} ReadBareSafe(x: string, rest: string)
    requires Safe(x)
    requires rest == [] || rest[0] == ','
    ensures ReadBare(x + rest) == (x, rest)
  {
    if x != [] {
      assert (x + rest)[1..] == x[1..] + rest;
      ReadBareSafe(x[1..], rest);
      assert [x[0]] + x[1..] == x;
    } else {
      assert x + rest == rest;
    }
  }

  // ---------------------------------------------------------------------
  // Records

  /** A field of a row: written in quotes or as it is. */
  datatype Cell = Quoted(text: string) | Bare(text: string)

  function Render(c: Cell): string
  {
    match c
    case Quoted(s) => Quote(s)
    case Bare(s) => s
  }

  function Renders(cells: seq<Cell>): (r: seq<string>)
    ensures |r| == |cells|
    ensures forall i :: 0 <= i < |cells| ==> r[i] == Render(cells[i])
  {
    if cells == [] then [] else [Render(cells[0])] + Renders(cells[1..])
  }

  function Texts(cells: seq<Cell>): (r: seq<string>)
    ensures |r| == |cells|
    ensures forall i :: 0 <= i < |cells| ==> r[i] == cells[i].text
  {
    if cells == [] then [] else [cells[0].text] + Texts(cells[1..])
  }

  /** Every unquoted cell is safe to write unquoted. */
  predicate WellFormed(cells: seq<Cell>)
  {
    forall i :: 0 <= i < |cells| ==> cells[i].Bare? ==> Safe(cells[i].text)
  }

  /** A quoted field followed by the rest of a record is read as its text. */
  lemma ReadFirstQuoted(x: string, rest: string)
    requires rest == [] || rest[0] == ','
    ensures ReadField(Quote(x) + rest) == Some((x, rest))
  {
    var inner := EscapeQuotes(x) + ['"'] + rest;
    var s := Quote(x) + rest;
    assert s == ['"'] + inner;
    assert s[1..] == inner;
    ReadQuotedEscaped(x, rest);
  }

  /** A safe unquoted field followed by the rest of a record is read as itself. */
  lemma ReadFirstBare(x: string, rest: string)
    requires Safe(x)
    requires rest == [] || rest[0] == ','
    ensures ReadField(x + rest) == Some((x, rest))
  {
    ReadBareSafe(x, rest);
    if x != [] {
      assert (x + rest)[0] == x[0];
    } else {
      assert x + rest == rest;
    }
  }

  /** One field followed by the rest of a record is read as that field. */
  lemma ReadFirstField(c: Cell, rest: string)
    requires c.Bare? ==> Safe(c.text)
    requires rest == [] || rest[0] == ','
    ensures ReadField(Render(c) + rest) == Some((c.text, rest))
  {
    match c
    case Quoted(x) => ReadFirstQuoted(x, rest);
    case Bare(x) => ReadFirstBare(x, rest);
  }

  /** A row whose unquoted fields are safe is read back field for field. */
  lemma {:induction false} ReadRecordRow(cells: seq<Cell>)
    requires |cells| >= 1 && WellFormed(cells)
    ensures ReadRecord(Join(Renders(cells), ",")) == Some(Texts(cells))
  {
    var c := cells[0];
    if |cells| == 1 {
      ReadFirstField(c, []);
      assert Render(c) + [] == Render(c);
      assert Renders(cells) == [Render(c)];
      assert Join(Renders(cells), ",") == Render(c);
      assert Texts(cells) == [c.text];
    } else {
      var more := cells[1..];
      var tail := Join(Renders(more), ",");
      assert Renders(cells)[1..] == Renders(more);
      assert Join(Renders(cells), ",") == Render(c) + ("," + tail);
      ReadFirstField(c, "," + tail);
      assert ("," + tail)[1..] == tail;
      assert WellFormed(more) by {
        forall i | 0 <= i < |more| && more[i].Bare?
          ensures Safe(more[i].text)
        {
          assert more[i] == cells[i + 1];
        }
      }
      ReadRecordRow(more);
      assert Texts(cells) == [c.text] + Texts(more);
    }
  }

  /** Joining two non-empty lists of parts joins their joins. */
  lemma {:induction false} JoinAppend(a: seq<string>, b: seq<string>, sep: string)
    requires |a| >= 1 && |b| >= 1
    ensures Join(a + b, sep) == Join(a, sep) + sep + Join(b, sep)
  {
    if |a| == 1 {
      assert (a + b)[1..] == b;
    } else {
      assert (a + b)[1..] == a[1..] + b;
      JoinAppend(a[1..], b, sep);
    }
  }

  // ---------------------------------------------------------------------
  // The task export

  const TaskHeaders: seq<string> :=
    ["Title", "Description", "Status", "Priority", "Category", "Total Time (Hours)", "Created Date", "Completed Date"]


  /** The renderings the export leaves to the browser:
      `(seconds / 3600).toFixed(2)` and `new Date(ms).toLocaleDateString()`. */
  datatype Formatters = Formatters(hours: int -> string, date: int -> string)

  /** Both renderings produce text that needs no quoting (digits and separators). */
  ghost predicate SafeFormatters(fmt: Formatters)
  {
    (forall x :: Safe(fmt.hours(x))) && (forall x :: Safe(fmt.date(x)))
  }

  function PriorityField(p: Option<Priority>): (r: string)
    ensures p.None? ==> r == "N/A"
    ensures p.Some? ==> r == PriorityName(p.value)
  {
    if p.Some? then PriorityName(p.value) else "N/A"
  }

  /** Zero tracked seconds are written `0.00` without a call to the formatter. */
  function HoursField(seconds: int, fmt: Formatters): (r: string)
    ensures seconds == 0 ==> r == "0.00"
    ensures seconds != 0 ==> r == fmt.hours(seconds)
  {
    if seconds != 0 then fmt.hours(seconds) else "0.00"
  }

  /** `N/A` unless the task is completed and has an update time. */
  function CompletedDateField(t: ClientTask, fmt: Formatters): (r: string)
    ensures !(t.status == Completed && t.updatedAt.Some?) ==> r == "N/A"
    ensures t.status == Completed && t.updatedAt.Some? ==> r == fmt.date(t.updatedAt.value)
  {
    if t.status == Completed && t.updatedAt.Some? then fmt.date(t.updatedAt.value) else "N/A"
  }

  /** The eight values of a task's row, before quoting. */
  function TaskFields(t: ClientTask, fmt: Formatters): (r: seq<string>)
    ensures |r| == |TaskHeaders|
    ensures r[0] == t.title && r[1] == OrElse(t.description, "")
    ensures r[2] == StatusName(t.status) && r[3] == PriorityField(t.priority)
    ensures r[4] == OrElse(t.category, "N/A")
    ensures r[5] == HoursField(CalculateTotalTime(t.timeEntries), fmt)
    ensures r[6] == fmt.date(t.createdAt) && r[7] == CompletedDateField(t, fmt)
  {
    [ t.title,
      OrElse(t.description, ""),
      StatusName(t.status),
      PriorityField(t.priority),
      OrElse(t.category, "N/A"),
      HoursField(CalculateTotalTime(t.timeEntries), fmt),
      fmt.date(t.createdAt),
      CompletedDateField(t, fmt) ]
  }

  /** The row as the export writes it: title and description quoted, every
      other field as it is. */
  function TaskCellsAsWritten(t: ClientTask, fmt: Formatters): (r: seq<Cell>)
    ensures |r| == |TaskHeaders| && Texts(r) == TaskFields(t, fmt)
  {
    var f := TaskFields(t, fmt);
    [Quoted(f[0]), Quoted(f[1]), Bare(f[2]), Bare(f[3]), Bare(f[4]), Bare(f[5]), Bare(f[6]), Bare(f[7])]
  }

  /** The corrected row: the free-text category quoted as well. */
  function TaskCellsCorrected(t: ClientTask, fmt: Formatters): (r: seq<Cell>)
    ensures |r| == |TaskHeaders| && Texts(r) == TaskFields(t, fmt)
  {
    var f := TaskFields(t, fmt);
    [Quoted(f[0]), Quoted(f[1]), Bare(f[2]), Bare(f[3]), Quoted(f[4]), Bare(f[5]), Bare(f[6]), Bare(f[7])]
  }

  /** Which cells are quoted: as written only the title and the description,
      corrected the category as well. */
  lemma CellLayout(t: ClientTask, fmt: Formatters)
    ensures var a := TaskCellsAsWritten(t, fmt);
            a[0].Quoted? && a[1].Quoted? && forall i :: 2 <= i < |a| ==> a[i].Bare?
    ensures var c := TaskCellsCorrected(t, fmt);
            c[0].Quoted? && c[1].Quoted? && c[4].Quoted? && forall i :: 2 <= i < |c| && i != 4 ==> c[i].Bare?
  {
  }

  /** The corrected row as text. */
  function TaskRowCorrected(t: ClientTask, fmt: Formatters): (r: seq<string>)
    ensures |r| == |TaskHeaders|
  {
    Renders(TaskCellsCorrected(t, fmt))
  }

  /** The row array `tasks.map` returns for a task, as the export writes it. */
  function TaskRowAsWritten(t: ClientTask, fmt: Formatters): (r: seq<string>)
    ensures |r| == |TaskHeaders|
  {
    Renders(TaskCellsAsWritten(t, fmt))
  }

  lemma StatusNameSafe(s: Status)
    ensures Safe(StatusName(s))
  {
  }

  lemma PriorityFieldSafe(p: Option<Priority>)
    ensures Safe(PriorityField(p))
  {
  }

  /** The fields the export never quotes need no quoting: enum names,
      `N/A` and the formatters' output. */
  lemma TaskFieldsSafe(t: ClientTask, fmt: Formatters)
    requires SafeFormatters(fmt)
    ensures var f := TaskFields(t, fmt); Safe(f[2]) && Safe(f[3]) && Safe(f[5]) && Safe(f[6]) && Safe(f[7])
  {
    var f := TaskFields(t, fmt);
    StatusNameSafe(t.status);
    PriorityFieldSafe(t.priority);
    var secs := CalculateTotalTime(t.timeEntries);
    if secs != 0 {
      assert f[5] == fmt.hours(secs);
      assert Safe(fmt.hours(secs));
    }
    assert Safe(fmt.date(t.createdAt));
    if t.status == Completed && t.updatedAt.Some? {
      var u := t.updatedAt.value;
      assert f[7] == fmt.date(u);
      assert Safe(fmt.date(u));
    }
  }

  /** Every corrected row is read back as its eight values, whatever the
      title, description and category hold. */
  lemma TaskRowReadsBack(t: ClientTask, fmt: Formatters)
    requires SafeFormatters(fmt)
    ensures ReadRecord(Join(TaskRowCorrected(t, fmt), ",")) == Some(TaskFields(t, fmt))
  {
    var cells := TaskCellsCorrected(t, fmt);
    TaskFieldsSafe(t, fmt);
    assert WellFormed(cells);
    ReadRecordRow(cells);
  }

  /** As written, a row is read back as its values only while the category
      needs no quoting. */
  lemma TaskRowAsWrittenReadsBack(t: ClientTask, fmt: Formatters)
    requires SafeFormatters(fmt)
    requires Safe(OrElse(t.category, "N/A"))
    ensures ReadRecord(Join(TaskRowAsWritten(t, fmt), ",")) == Some(TaskFields(t, fmt))
  {
    var cells := TaskCellsAsWritten(t, fmt);
    TaskFieldsSafe(t, fmt);
    assert WellFormed(cells);
    ReadRecordRow(cells);
  }

  /** A part holding a comma joins to the same text as its two halves. */
  lemma {:induction false} JoinSplit(before: seq<string>, after: seq<string>, a: string, b: string)
    ensures Join(before + [a + "," + b] + after, ",") == Join(before + [a, b] + after, ",")
  {
    var whole, halves := before + [a + "," + b] + after, before + [a, b] + after;
    if before == [] {
      assert whole == [a + "," + b] + after;
      assert halves == [a, b] + after;
      assert halves[1..] == [b] + after;
      if after == [] {
        assert [b] + after == [b];
      } else {
        assert ([b] + after)[1..] == after;
        assert whole[1..] == after;
      }
    } else {
      JoinSplit(before[1..], after, a, b);
      assert whole[1..] == before[1..] + [a + "," + b] + after;
      assert halves[1..] == before[1..] + [a, b] + after;
    }
  }

  /** Rendering a row is rendering the cells before the k-th, the k-th and the rest. */
  lemma RendersAt(cells: seq<Cell>, k: nat)
    requires k < |cells|
    ensures Renders(cells) == Renders(cells[..k]) + [Render(cells[k])] + Renders(cells[k + 1..])
  {
    var lhs, pre, post := Renders(cells), Renders(cells[..k]), Renders(cells[k + 1..]);
    var rhs := pre + [Render(cells[k])] + post;
    forall i | 0 <= i < |cells|
      ensures lhs[i] == rhs[i]
    {
      if i < k {
        assert rhs[i] == pre[i];
      } else if i > k {
        assert rhs[i] == post[i - k - 1];
      }
    }
    assert lhs == rhs;
  }

  /** Two unquoted cells in the middle of a row render as their texts. */
  lemma RendersBarePair(before: seq<Cell>, a: string, b: string, after: seq<Cell>)
    ensures Renders(before + [Bare(a), Bare(b)] + after) == Renders(before) + [a, b] + Renders(after)
  {
    var cells := before + [Bare(a), Bare(b)] + after;
    var lhs, pre, post := Renders(cells), Renders(before), Renders(after);
    var rhs := pre + [a, b] + post;
    var k := |before|;
    forall i | 0 <= i < |cells|
      ensures lhs[i] == rhs[i]
    {
      if i < k {
        assert cells[i] == before[i] && rhs[i] == pre[i];
      } else if i == k {
        assert cells[i] == Bare(a);
      } else if i == k + 1 {
        assert cells[i] == Bare(b);
      } else {
        assert cells[i] == after[i - k - 2] && rhs[i] == post[i - k - 2];
      }
    }
    assert lhs == rhs;
  }

  /** An unquoted cell holding a comma is written exactly as two cells. */
  lemma SplitCellAtComma(cells: seq<Cell>, k: nat, a: string, b: string)
    requires k < |cells| && cells[k] == Bare(a + "," + b)
    ensures Join(Renders(cells), ",") == Join(Renders(cells[..k] + [Bare(a), Bare(b)] + cells[k + 1..]), ",")
  {
    RendersAt(cells, k);
    RendersBarePair(cells[..k], a, b, cells[k + 1..]);
    JoinSplit(Renders(cells[..k]), Renders(cells[k + 1..]), a, b);
  }

  /** Splitting a cell into two safe unquoted halves keeps the row well formed. */
  lemma SplitWellFormed(cells: seq<Cell>, k: nat, a: string, b: string)
    requires k < |cells| && Safe(a) && Safe(b)
    requires forall i :: 0 <= i < |cells| && i != k ==> cells[i].Bare? ==> Safe(cells[i].text)
    ensures WellFormed(cells[..k] + [Bare(a), Bare(b)] + cells[k + 1..])
  {
    var split := cells[..k] + [Bare(a), Bare(b)] + cells[k + 1..];
    forall i | 0 <= i < |split| && split[i].Bare?
      ensures Safe(split[i].text)
    {
      if i < k {
        assert split[i] == cells[i];
      } else if i > k + 1 {
        assert split[i] == cells[i - 1];
      }
    }
  }

  /** A row whose k-th cell is an unquoted `a,b` is read back with `a` and `b`
      as two fields where that cell was. */
  lemma SplitRowReadsBack(cells: seq<Cell>, k: nat, a: string, b: string)
    requires k < |cells| && cells[k] == Bare(a + "," + b) && Safe(a) && Safe(b)
    requires forall i :: 0 <= i < |cells| && i != k ==> cells[i].Bare? ==> Safe(cells[i].text)
    ensures var r := ReadRecord(Join(Renders(cells), ","));
            r.Some? && |r.value| == |cells| + 1 && r.value[k] == a && r.value[k + 1] == b
  {
    SplitCellAtComma(cells, k, a, b);
    var split := cells[..k] + [Bare(a), Bare(b)] + cells[k + 1..];
    SplitWellFormed(cells, k, a, b);
    ReadRecordRow(split);
    assert split[k] == Bare(a) && split[k + 1] == Bare(b);
  }

  /** As written, a category holding a comma turns the row into nine fields:
      the category is split in two and every later column shifts right. */
  lemma CategoryCommaSplitsRow(t: ClientTask, fmt: Formatters)
    requires SafeFormatters(fmt)
    requires t.category == Some("a,b")
    ensures var r := ReadRecord(Join(TaskRowAsWritten(t, fmt), ","));
            r.Some? && |r.value| == |TaskHeaders| + 1 && r.value[4] == "a" && r.value[5] == "b"
  {
    var cells := TaskCellsAsWritten(t, fmt);
    assert cells[4] == Bare("a" + "," + "b");
    TaskFieldsSafe(t, fmt);
    assert Safe("a") && Safe("b");
    SplitRowReadsBack(cells, 4, "a", "b");
  }

  /** `tasks.map(...)`: one row of fields per task, in input order, each as
      the export writes it. */
  function TaskRows(ts: seq<ClientTask>, fmt: Formatters): (r: seq<seq<string>>)
    ensures |r| == |ts|
    ensures forall i :: 0 <= i < |ts| ==> r[i] == TaskRowAsWritten(ts[i], fmt)
  {
    seq(|ts|, i requires 0 <= i < |ts| => TaskRowAsWritten(ts[i], fmt))
  }

  /** The rows of the corrected export. */
  function TaskRowsCorrected(ts: seq<ClientTask>, fmt: Formatters): (r: seq<seq<string>>)
    ensures |r| == |ts|
    ensures forall i :: 0 <= i < |ts| ==> r[i] == TaskRowCorrected(ts[i], fmt)
  {
    seq(|ts|, i requires 0 <= i < |ts| => TaskRowCorrected(ts[i], fmt))
  }

  /** `rows.map(row => row.join(','))`: each row's fields joined with commas. */
  function JoinRows(rows: seq<seq<string>>): (r: seq<string>)
    ensures |r| == |rows|
    ensures forall i :: 0 <= i < |rows| ==> r[i] == Join(rows[i], ",")
  {
    if rows == [] then [] else JoinRows(rows[..|rows| - 1]) + [Join(rows[|rows| - 1], ",")]
  }

  /** A join of parts opens with the first part, and is only that part when
      it is the only one. */
  lemma JoinStartsWithFirst(parts: seq<string>, sep: string)
    requires |parts| > 0
    ensures parts[0] <= Join(parts, sep)
    ensures |parts| == 1 ==> Join(parts, sep) == parts[0]
  {
    if |parts| > 1 {
      assert Join(parts, sep) == parts[0] + (sep + Join(parts[1..], sep));
    }
  }

  /** `[headers.join(','), ...rows.map(row => row.join(','))]`, the lines both
      exports build: the header line, then one line per row in order. */
  function CsvLines(headers: seq<string>, rows: seq<seq<string>>): (r: seq<string>)
    ensures |r| == |rows| + 1
    ensures r[0] == Join(headers, ",")
    ensures forall i :: 0 <= i < |rows| ==> r[i + 1] == Join(rows[i], ",")
  {
    [Join(headers, ",")] + JoinRows(rows)
  }

  /** The lines joined with `\n`: the content of an export. It opens with
      the header line, and is only that line when there are no rows. */
  function CsvContent(headers: seq<string>, rows: seq<seq<string>>): (r: string)
    ensures Join(headers, ",") <= r
    ensures rows == [] ==> r == Join(headers, ",")
  {
    var lines := CsvLines(headers, rows);
    JoinStartsWithFirst(lines, "\n");
    Join(lines, "\n")
  }

  /** One more row adds a newline and that row's line at the end. */
  lemma CsvContentSnoc(headers: seq<string>, rows: seq<seq<string>>, row: seq<string>)
    ensures CsvContent(headers, rows + [row]) == CsvContent(headers, rows) + "\n" + Join(row, ",")
  {
    assert (rows + [row])[..|rows|] == rows;
    var line := Join(row, ",");
    assert JoinRows(rows + [row]) == JoinRows(rows) + [line];
    assert CsvLines(headers, rows + [row]) == CsvLines(headers, rows) + [line];
    JoinSnoc(CsvLines(headers, rows), line, "\n");
  }

  /** The content of the task export, built from the rows as written. */
  function TasksCsv(ts: seq<ClientTask>, fmt: Formatters): (r: string)
    ensures Join(TaskHeaders, ",") <= r
    ensures ts == [] ==> r == Join(TaskHeaders, ",")
  {
    CsvContent(TaskHeaders, TaskRows(ts, fmt))
  }

  /** One more task adds one more line, its row as written, at the end. */
  lemma TasksCsvSnoc(ts: seq<ClientTask>, t: ClientTask, fmt: Formatters)
    ensures TasksCsv(ts + [t], fmt) == TasksCsv(ts, fmt) + "\n" + Join(TaskRowAsWritten(t, fmt), ",")
  {
    assert (ts + [t])[..|ts|] == ts;
    assert TaskRows(ts + [t], fmt) == TaskRows(ts, fmt) + [TaskRowAsWritten(t, fmt)];
    CsvContentSnoc(TaskHeaders, TaskRows(ts, fmt), TaskRowAsWritten(t, fmt));
  }

  /** Each line of the export after the header reads back as its task's
      values while that task's category needs no quoting. */
  lemma TasksCsvLineReadsBack(ts: seq<ClientTask>, fmt: Formatters, i: nat)
    requires SafeFormatters(fmt) && i < |ts| && Safe(OrElse(ts[i].category, "N/A"))
    ensures ReadRecord(CsvLines(TaskHeaders, TaskRows(ts, fmt))[i + 1]) == Some(TaskFields(ts[i], fmt))
  {
    TaskRowAsWrittenReadsBack(ts[i], fmt);
  }

  /** The line of the export for a task whose category is `a,b` reads back
      as nine fields, the category split over two columns. */
  lemma TasksCsvCategoryCommaSplits(ts: seq<ClientTask>, fmt: Formatters, i: nat)
    requires SafeFormatters(fmt) && i < |ts| && ts[i].category == Some("a,b")
    ensures var r := ReadRecord(CsvLines(TaskHeaders, TaskRows(ts, fmt))[i + 1]);
            r.Some? && |r.value| == |TaskHeaders| + 1 && r.value[4] == "a" && r.value[5] == "b"
  {
    CategoryCommaSplitsRow(ts[i], fmt);
  }

  /** The content of the corrected export. */
  function TasksCsvCorrected(ts: seq<ClientTask>, fmt: Formatters): (r: string)
    ensures Join(TaskHeaders, ",") <= r
    ensures ts == [] ==> r == Join(TaskHeaders, ",")
  {
    CsvContent(TaskHeaders, TaskRowsCorrected(ts, fmt))
  }

  /** Every line of the corrected export after the header reads back as its
      task's eight values. */
  lemma TasksCsvCorrectedLineReadsBack(ts: seq<ClientTask>, fmt: Formatters, i: nat)
    requires SafeFormatters(fmt) && i < |ts|
    ensures ReadRecord(CsvLines(TaskHeaders, TaskRowsCorrected(ts, fmt))[i + 1]) == Some(TaskFields(ts[i], fmt))
  {
    TaskRowReadsBack(ts[i], fmt);
  }

  // ---------------------------------------------------------------------
  // The statistics export

  /** The object the statistics export reads; any key may be missing. */
  datatype ProductivityStats = ProductivityStats(
    tasksCompletedToday: Option<int>,
    tasksCompletedThisWeek: Option<int>,
    totalTasksCompleted: Option<int>,
    hoursTrackedToday: Option<real>,
    hoursTrackedThisWeek: Option<real>,
    totalHoursTracked: Option<real>)

  /** `n || 0` on a count. */
  function CountOrZero(o: Option<int>): int
  {
    if o.Some? then o.value else 0
  }

  /** `(h || 0).toFixed(2)`, the rendering given as `fixed2`. */
  function HoursOrZero(o: Option<real>, fixed2: real -> string): string
  {
    fixed2(if o.Some? then o.value else 0.0)
  }

  const StatsLabels: seq<string> := [
    "Tasks Completed Today", "Tasks Completed This Week", "Total Tasks Completed",
    "Hours Tracked Today", "Hours Tracked This Week", "Total Hours Tracked"]

  /** The values of the six metric rows, in order. */
  function StatsValues(s: ProductivityStats, fixed2: real -> string): (r: seq<string>)
    ensures |r| == |StatsLabels|
  {
    [ IntToString(CountOrZero(s.tasksCompletedToday)),
      IntToString(CountOrZero(s.tasksCompletedThisWeek)),
      IntToString(CountOrZero(s.totalTasksCompleted)),
      HoursOrZero(s.hoursTrackedToday, fixed2),
      HoursOrZero(s.hoursTrackedThisWeek, fixed2),
      HoursOrZero(s.totalHoursTracked, fixed2) ]
  }

  const StatsHeaders: seq<string> := ["Metric", "Value"]

  /** The `[label, value]` rows of the statistics export, one per metric. */
  function StatsRows(s: ProductivityStats, fixed2: real -> string): (r: seq<seq<string>>)
    ensures |r| == |StatsLabels|
    ensures forall i :: 0 <= i < |StatsLabels| ==> r[i] == [StatsLabels[i], StatsValues(s, fixed2)[i]]
  {
    var v := StatsValues(s, fixed2);
    var l := StatsLabels;
    [[l[0], v[0]], [l[1], v[1]], [l[2], v[2]], [l[3], v[3]], [l[4], v[4]], [l[5], v[5]]]
  }

  /** The content of the statistics export; it opens with `Metric,Value`. */
  function StatsCsv(s: ProductivityStats, fixed2: real -> string): (r: string)
    ensures "Metric,Value" <= r
  {
    assert Join(StatsHeaders, ",") == "Metric,Value";
    CsvContent(StatsHeaders, StatsRows(s, fixed2))
  }

  /** The statistics export is `Metric,Value` and then one `label,value` line per metric. */
  lemma StatsLinesShape(s: ProductivityStats, fixed2: real -> string)
    ensures var lines := CsvLines(StatsHeaders, StatsRows(s, fixed2));
            |lines| == 1 + |StatsLabels| && lines[0] == "Metric,Value" &&
            forall i :: 0 <= i < |StatsLabels| ==> lines[i + 1] == StatsLabels[i] + "," + StatsValues(s, fixed2)[i]
  {
    var rows := StatsRows(s, fixed2);
    assert Join(StatsHeaders, ",") == "Metric,Value";
    forall i | 0 <= i < |StatsLabels|
      ensures Join(rows[i], ",") == StatsLabels[i] + "," + StatsValues(s, fixed2)[i]
    {
      assert rows[i][1..] == [StatsValues(s, fixed2)[i]];
    }
  }

  /** A missing metric is written as 0. */
  lemma MissingMetricsAreZero(fixed2: real -> string)
    ensures var v := StatsValues(ProductivityStats(None, None, None, None, None, None), fixed2);
            v == ["0", "0", "0", fixed2(0.0), fixed2(0.0), fixed2(0.0)]
  {
  }

  lemma NatToStringSafe(n: nat)
    ensures Safe(NatToString(n))
  {
  }

  lemma IntToStringSafe(i: int)
    ensures Safe(IntToString(i))
  {
    if i < 0 {
      NatToStringSafe(-i);
      assert IntToString(i) == "-" + NatToString(-i);
    } else {
      NatToStringSafe(i);
    }
  }

  /** A line of two safe texts is read back as those two fields. */
  lemma ReadPair(a: string, b: string)
    requires Safe(a) && Safe(b)
    ensures ReadRecord(a + "," + b) == Some([a, b])
  {
    var cells := [Bare(a), Bare(b)];
    assert WellFormed(cells);
    ReadRecordRow(cells);
    assert Renders(cells) == [a, b];
    assert Renders(cells)[1..] == [b];
    assert Texts(cells) == [a, b];
  }

  lemma CountLabelsSafe(i: nat)
    requires i < 3
    ensures Safe(StatsLabels[i])
  {
    if i == 0 {
      assert Safe("Tasks Completed Today");
    } else if i == 1 {
      assert Safe("Tasks Completed This Week");
    } else {
      assert Safe("Total Tasks Completed");
    }
  }

  lemma HoursLabelsSafe(i: nat)
    requires 3 <= i < 6
    ensures Safe(StatsLabels[i])
  {
    if i == 3 {
      assert Safe("Hours Tracked Today");
    } else if i == 4 {
      assert Safe("Hours Tracked This Week");
    } else {
      assert Safe("Total Hours Tracked");
    }
  }

  /** No metric label needs quoting. */
  lemma LabelsSafe(i: nat)
    requires i < |StatsLabels|
    ensures Safe(StatsLabels[i])
  {
    if i < 3 {
      CountLabelsSafe(i);
    } else {
      HoursLabelsSafe(i);
    }
  }

  /** Every metric line is read back as its label and its value. */
  lemma StatsLineReadsBack(s: ProductivityStats, fixed2: real -> string, i: nat)
    requires forall x :: Safe(fixed2(x))
    requires i < |StatsLabels|
    ensures ReadRecord(CsvLines(StatsHeaders, StatsRows(s, fixed2))[i + 1]) == Some([StatsLabels[i], StatsValues(s, fixed2)[i]])
  {
    var v := StatsValues(s, fixed2);
    StatsLinesShape(s, fixed2);
    IntToStringSafe(CountOrZero(s.tasksCompletedToday));
    IntToStringSafe(CountOrZero(s.tasksCompletedThisWeek));
    IntToStringSafe(CountOrZero(s.totalTasksCompleted));
    assert Safe(v[i]) by {
      if i >= 3 {
        assert Safe(fixed2(0.0));
      }
    }
    LabelsSafe(i);
    ReadPair(StatsLabels[i], v[i]);
  }

  /** The backend's statistics as the export would read them: of its keys
      only `tasksCompletedToday` is among the ones the export looks up. */
  function FromBackendStats(s: UsersService.Stats): (r: ProductivityStats)
    ensures r.tasksCompletedToday == Some(s.tasksCompletedToday as int)
    ensures r.tasksCompletedThisWeek.None? && r.totalTasksCompleted.None?
    ensures r.hoursTrackedToday.None? && r.hoursTrackedThisWeek.None? && r.totalHoursTracked.None?
  {
    ProductivityStats(Some(s.tasksCompletedToday as int), None, None, None, None, None)
  }

  /** Exported from the backend's object, every metric but the first is 0. */
  lemma BackendStatsExportZeroes(s: UsersService.Stats, fixed2: real -> string)
    ensures StatsValues(FromBackendStats(s), fixed2)[1..] == ["0", "0", fixed2(0.0), fixed2(0.0), fixed2(0.0)]
  {
  }
}
