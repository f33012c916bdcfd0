/** The export function (supabase/functions/admin-export/index.ts): the
    CSV writer with every field quoted as in rules 5-7 of RFC 4180 section 2,
    a reader for what it writes, the plain-text report, and the format and
    filter selection of the handler. Dates and number formatting are
    locale- and engine-dependent and enter as parameters. */
module AdminExport {
  import opened Wrappers
  import opened Types
  import opened AdminTypes
  import Strings
  import Sorting

  /** How the runtime renders a date (`toLocaleDateString`) and a number
      (`String(n)`). */
  datatype Formatting = Formatting(date: string -> string, number: real -> string)

  const Headers: seq<string> := [
    "ID", "Name", "Email", "Role", "Experience", "Status", "Score", "Applied Date",
    "Technologies/Tools", "Project Description", "Availability"]

  const NameKeys: seq<string> := ["name"]
  const EmailKeys: seq<string> := ["email"]
  const ExperienceKeys: seq<string> := ["experience"]
  const AvailabilityKeys: seq<string> := ["availability"]
  const ToolsKeys: seq<string> := ["technologies", "design_tools"]
  const ProjectKeys: seq<string> := ["project", "design_process", "challenging_project"]

  /** `app.score || fallback`: a missing or zero score gives the fallback. */
  function ScoreText(app: AdminApplication, fmt: Formatting, fallback: string): (r: string)
    ensures app.score.None? || app.score.value == 0.0 ==> r == fallback
    ensures app.score.Some? && app.score.value != 0.0 ==> r == fmt.number(app.score.value)
  {
    if app.score.Some? && app.score.value != 0.0 then fmt.number(app.score.value) else fallback
  }

  /** One data row: eleven fields, in the order of the header. */
  function Row(app: AdminApplication, fmt: Formatting): (r: seq<string>)
    ensures |r| == 11
  {
    RowOf(app, Flatten(app.answers), fmt)
  }

  /** The row's columns: the id, the role, the status (`pending` when
      unset), and the first truthy answer among the tools keys and among
      the project keys. */
  lemma RowColumns(app: AdminApplication, fmt: Formatting)
    ensures var r := Row(app, fmt);
            && r[0] == app.id && r[3] == app.role && r[5] == StatusOrPending(app)
            && r[8] == FirstTruthy(Flatten(app.answers), ToolsKeys, "")
            && r[9] == FirstTruthy(Flatten(app.answers), ProjectKeys, "")
  {
  }

  /** The tools column: the technologies answer when truthy, else the
      design tools answer when truthy, else empty. */
  lemma ToolsColumnFallsBack(app: AdminApplication, fmt: Formatting)
    ensures var m := Flatten(app.answers);
            var tools := Row(app, fmt)[8];
            && ("technologies" in m && !IsFalsy(m["technologies"]) ==> tools == ValueText(m["technologies"]))
            && (!("technologies" in m && !IsFalsy(m["technologies"])) && "design_tools" in m && !IsFalsy(m["design_tools"]) ==>
                  tools == ValueText(m["design_tools"]))
            && (!("technologies" in m && !IsFalsy(m["technologies"])) && !("design_tools" in m && !IsFalsy(m["design_tools"])) ==>
                  tools == "")
  {
    RowColumns(app, fmt);
    assert ToolsKeys[0] == "technologies" && ToolsKeys[1] == "design_tools";
  }

  /** The row of `app` whose answers, flattened, are `m`. */
  function RowOf(app: AdminApplication, m: map<string, Value>, fmt: Formatting): (r: seq<string>)
    ensures |r| == 11
    ensures r[0] == app.id && r[3] == app.role && r[5] == StatusOrPending(app)
    ensures r[8] == FirstTruthy(m, ToolsKeys, "") && r[9] == FirstTruthy(m, ProjectKeys, "")
  {
    [app.id, FirstTruthy(m, NameKeys, ""), FirstTruthy(m, EmailKeys, ""), app.role, FirstTruthy(m, ExperienceKeys, "")]
    + [StatusOrPending(app), ScoreText(app, fmt, ""), fmt.date(app.createdAt)]
    + [FirstTruthy(m, ToolsKeys, ""), FirstTruthy(m, ProjectKeys, ""), FirstTruthy(m, AvailabilityKeys, "")]
  }

  // ----- Writing -----

  /** Every double quote doubled. */
  function Escape(f: string): (r: string)
    ensures |r| >= |f|
  {
    if |f| == 0 then ""
    else (if f[0] == '"' then "\"\"" else [f[0]]) + Escape(f[1..])
  }

  function Quote(f: string): string {
    "\"" + Escape(f) + "\""
  }

  /** A record: its quoted fields joined by commas. */
  function Line(fields: seq<string>): string {
    Strings.Join(seq(|fields|, i requires 0 <= i < |fields| => Quote(fields[i])), ",")
  }

  /** The records joined by line feeds, with no trailing line feed. */
  function Document(records: seq<seq<string>>): string {
    Strings.Join(seq(|records|, i requires 0 <= i < |records| => Line(records[i])), "\n")
  }

  /** The header record followed by one record per application, in input
      order. */
  function Records(apps: seq<AdminApplication>, fmt: Formatting): (rs: seq<seq<string>>)
    ensures |rs| == |apps| + 1 && rs[0] == Headers
    ensures forall i :: 0 <= i < |apps| ==> rs[i + 1] == Row(apps[i], fmt)
  {
    [Headers] + Sorting.Map(apps, (a: AdminApplication) => Row(a, fmt))
  }

  /** Every record, the header included, has eleven fields. */
  lemma RecordsWidth(apps: seq<AdminApplication>, fmt: Formatting)
    ensures forall i :: 0 <= i < |Records(apps, fmt)| ==> |Records(apps, fmt)[i]| == 11
  {
    var rs := Records(apps, fmt);
    forall i | 0 <= i < |rs| ensures |rs[i]| == 11 {
      if i == 0 {
        assert rs[0] == Headers;
      } else {
        assert rs[i] == Row(apps[i - 1], fmt);
      }
    }
  }

  /** `generateCSV`. */
  function Csv(apps: seq<AdminApplication>, fmt: Formatting): string {
    Document(Records(apps, fmt))
  }

  // ----- Reading -----

  /** Reads the rest of a quoted field, starting after its opening quote:
      a doubled quote stands for one quote and a single quote closes the
      field. Returns the content and what follows the closing quote. */
  function ParseQuotedBody(s: string): (r: Option<(string, string)>)
    ensures r.Some? ==> |r.value.1| < |s|
  {
    if |s| == 0 then None
    else if s[0] == '"' then
      if |s| >= 2 && s[1] == '"' then
        match ParseQuotedBody(s[2..])
        case None => None
        case Some((f, rest)) => Some(("\"" + f, rest))
      else Some(("", s[1..]))
    else
      match ParseQuotedBody(s[1..])
      case None => None
      case Some((f, rest)) => Some(([s[0]] + f, rest))
  }

  /** Reads comma-separated quoted fields up to the end of a record. */
  function ParseLine(s: string): (r: Option<(seq<string>, string)>)
    ensures r.Some? ==> |r.value.1| < |s| && |r.value.0| > 0
    decreases |s|
  {
    if |s| == 0 || s[0] != '"' then None
    else
      match ParseQuotedBody(s[1..])
      case None => None
      case Some((f, rest)) =>
        if |rest| > 0 && rest[0] == ',' then
          match ParseLine(rest[1..])
          case None => None
          case Some((fs, rest')) => Some(([f] + fs, rest'))
        else Some(([f], rest))
  }

  /** Reads line-feed-separated records to the end of the text. */
  function ParseDocument(s: string): (r: Option<seq<seq<string>>>)
    decreases |s|
  {
    match ParseLine(s)
    case None => None
    case Some((fields, rest)) =>
      if |rest| == 0 then Some([fields])
      else if rest[0] == '\n' then
        match ParseDocument(rest[1..])
        case None => None
        case Some(more) => Some([fields] + more)
      else None
  }

  // ----- Round trip -----

  /** Reading an escaped field up to its closing quote gives the field back,
      whatever follows the quote (unless it is another quote). */
  lemma {:induction false} QuotedBodyRoundTrip(f: string, rest: string)
    requires |rest| == 0 || rest[0] != '"'
    ensures ParseQuotedBody(Escape(f) + "\"" + rest) == Some((f, rest))
    decreases |f|
  {
    var s := Escape(f) + "\"" + rest;
    if |f| == 0 {
      assert s == "\"" + rest;
      assert s[1..] == rest;
    } else if f[0] == '"' {
      assert s == "\"\"" + (Escape(f[1..]) + "\"" + rest);
      assert s[2..] == Escape(f[1..]) + "\"" + rest;
      QuotedBodyRoundTrip(f[1..], rest);
      assert "\"" + f[1..] == f;
    } else {
      assert s == [f[0]] + (Escape(f[1..]) + "\"" + rest);
      assert s[1..] == Escape(f[1..]) + "\"" + rest;
      QuotedBodyRoundTrip(f[1..], rest);
      assert [f[0]] + f[1..] == f;
    }
  }

  /** A record of several fields is its first quoted field, a comma, and
      the record of the others. */
  lemma LineCons(fields: seq<string>)
    requires |fields| > 1
    ensures Line(fields) == Quote(fields[0]) + "," + Line(fields[1..])
  {
    var qs := seq(|fields|, i requires 0 <= i < |fields| => Quote(fields[i]));
    var tail := fields[1..];
    assert qs[1..] == seq(|tail|, i requires 0 <= i < |tail| => Quote(tail[i]));
  }

  /** Reading a written record gives its fields back and stops at the line
      feed or the end of the text. */
  lemma {:induction false} LineRoundTrip(fields: seq<string>, rest: string)
    requires |fields| > 0
    requires |rest| == 0 || rest[0] == '\n'
    ensures ParseLine(Line(fields) + rest) == Some((fields, rest))
    decreases |fields|
  {
    if |fields| == 1 {
      var f := fields[0];
      assert Line(fields) == Quote(f);
      QuotedFieldThen(f, rest);
      assert [f] == fields;
    } else {
      LineRoundTrip(fields[1..], rest);
      LineConsRoundTrip(fields, rest);
    }
  }

  /** Reading a written record of several fields reads its first field,
      the comma, and then the record of the others. */
  lemma LineConsRoundTrip(fields: seq<string>, rest: string)
    requires |fields| > 1
    requires ParseLine(Line(fields[1..]) + rest) == Some((fields[1..], rest))
    ensures ParseLine(Line(fields) + rest) == Some((fields, rest))
  {
    var f, tail := fields[0], fields[1..];
    LineCons(fields);
    var after := "," + Line(tail) + rest;
    assert Line(fields) + rest == Quote(f) + after;
    QuotedFieldThen(f, after);
    assert after[1..] == Line(tail) + rest;
    assert [f] + tail == fields;
  }

  /** A quoted field followed by text that does not start with a quote
      reads back as the field and that text. */
  lemma QuotedFieldThen(f: string, after: string)
    requires |after| == 0 || after[0] != '"'
    ensures var s := Quote(f) + after;
            |s| > 0 && s[0] == '"' && ParseQuotedBody(s[1..]) == Some((f, after))
  {
    var s := Quote(f) + after;
    assert s == "\"" + (Escape(f) + "\"" + after);
    assert s[1..] == Escape(f) + "\"" + after;
    QuotedBodyRoundTrip(f, after);
  }

  /** Reading a written document gives every record back, in order. */
  lemma {:induction false} DocumentRoundTrip(records: seq<seq<string>>)
    requires |records| > 0
    requires forall i :: 0 <= i < |records| ==> |records[i]| > 0
    ensures ParseDocument(Document(records)) == Some(records)
    decreases |records|
  {
    var ls := seq(|records|, i requires 0 <= i < |records| => Line(records[i]));
    if |records| == 1 {
      assert Document(records) == Line(records[0]);
      LineRoundTrip(records[0], "");
      assert Line(records[0]) + "" == Line(records[0]);
      assert [records[0]] == records;
    } else {
      var tail := records[1..];
      assert ls[1..] == seq(|tail|, i requires 0 <= i < |tail| => Line(tail[i]));
      assert Document(records) == Line(records[0]) + "\n" + Document(tail);
      var after := "\n" + Document(tail);
      assert Document(records) == Line(records[0]) + after;
      LineRoundTrip(records[0], after);
      assert after[1..] == Document(tail);
      DocumentRoundTrip(tail);
      assert [records[0]] + tail == records;
    }
  }

  /** Reading the exported CSV recovers the header and, for each
      application in input order, exactly the text of each of its fields. */
  lemma CsvRoundTrip(apps: seq<AdminApplication>, fmt: Formatting)
    ensures ParseDocument(Csv(apps, fmt)) == Some(Records(apps, fmt))
  {
    RecordsWidth(apps, fmt);
    DocumentRoundTrip(Records(apps, fmt));
  }

  // ----- The text report -----

  const Rule: string := "====================================="

  /** One application's block in the report, numbered from one. */
  function Section(number: int, app: AdminApplication, fmt: Formatting): string {
    var m := Flatten(app.answers);
    "\nAPPLICATION #" + Strings.IntToString(number) + "\n" + Rule + "\n"
    + "ID: " + app.id + "\n"
    + "Name: " + FirstTruthy(m, NameKeys, "N/A") + "\n"
    + "Email: " + FirstTruthy(m, EmailKeys, "N/A") + "\n"
    + "Role: " + app.role + "\n"
    + "Experience: " + FirstTruthy(m, ExperienceKeys, "N/A") + "\n"
    + "Status: " + StatusOrPending(app) + "\n"
    + "Score: " + ScoreText(app, fmt, "Not scored") + "\n"
    + "Applied: " + fmt.date(app.createdAt) + "\n\n"
    + "Technologies/Tools: " + FirstTruthy(m, ToolsKeys, "N/A") + "\n\n"
    + "Project Description:\n" + FirstTruthy(m, ProjectKeys, "N/A") + "\n\n"
    + "Availability: " + FirstTruthy(m, AvailabilityKeys, "N/A") + "\n\n"
  }

  /** The blocks of `apps`, numbered from `first`. */
  function Sections(apps: seq<AdminApplication>, first: int, fmt: Formatting): string {
    Blocks(apps, first, SectionBlock(fmt))
  }

  function SectionBlock(fmt: Formatting): (int, AdminApplication) -> string {
    (n, a) => Section(n, a, fmt)
  }

  /** `block(first, apps[0]) + block(first + 1, apps[1]) + ...`. */
  function Blocks<T>(xs: seq<T>, first: int, block: (int, T) -> string): string
    decreases |xs|
  {
    if |xs| == 0 then "" else block(first, xs[0]) + Blocks(xs[1..], first + 1, block)
  }

  function Preamble(generated: string, total: int): string {
    "JOB APPLICATIONS REPORT\nGenerated: " + generated + "\n" + CountLine(total) + "\n"
  }

  function CountLine(total: int): string {
    "Total Applications: " + Strings.IntToString(total) + "\n"
  }

  /** `generatePDF`: the preamble with the count, then one block per
      application. */
  function Report(apps: seq<AdminApplication>, fmt: Formatting, generated: string): string {
    Preamble(generated, |apps|) + Sections(apps, 1, fmt)
  }

  /** Numbering continues across a split: the blocks of `xs + ys` are those
      of `xs` followed by those of `ys`, numbered on from `|xs|`. */
  lemma {:induction false} BlocksSplit<T>(xs: seq<T>, ys: seq<T>, first: int, block: (int, T) -> string)
    ensures Blocks(xs + ys, first, block) == Blocks(xs, first, block) + Blocks(ys, first + |xs|, block)
    decreases |xs|
  {
    if |xs| == 0 {
      assert xs + ys == ys;
    } else {
      assert (xs + ys)[0] == xs[0] && (xs + ys)[1..] == xs[1..] + ys;
      BlocksSplit(xs[1..], ys, first + 1, block);
    }
  }

  /** The i-th block (from zero) sits, numbered first + i, between the
      blocks before it and those after it. */
  lemma BlockAt<T>(xs: seq<T>, first: int, block: (int, T) -> string, i: nat)
    requires i < |xs|
    ensures Blocks(xs, first, block) ==
              Blocks(xs[..i], first, block) + block(first + i, xs[i]) + Blocks(xs[i + 1..], first + i + 1, block)
  {
    assert xs == xs[..i] + xs[i..];
    BlocksSplit(xs[..i], xs[i..], first, block);
    assert xs[i..][0] == xs[i] && xs[i..][1..] == xs[i + 1..];
  }

  /** Every block occurs in the concatenation. */
  lemma BlockIn<T>(xs: seq<T>, first: int, block: (int, T) -> string, i: nat)
    requires i < |xs|
    ensures Strings.Contains(Blocks(xs, first, block), block(first + i, xs[i]))
  {
    BlockAt(xs, first, block, i);
    Strings.ContainsMiddle(Blocks(xs[..i], first, block), block(first + i, xs[i]),
                           Blocks(xs[i + 1..], first + i + 1, block));
  }

  /** The report states the number of applications. */
  lemma ReportCounts(apps: seq<AdminApplication>, fmt: Formatting, generated: string)
    ensures Strings.Contains(Report(apps, fmt, generated), CountLine(|apps|))
  {
    var head := "JOB APPLICATIONS REPORT\nGenerated: " + generated + "\n";
    Strings.ContainsMiddle(head, CountLine(|apps|), "\n");
    Strings.ContainsBefore(Preamble(generated, |apps|), Sections(apps, 1, fmt), CountLine(|apps|));
  }

  /** The report holds the block of the i-th application (counting from
      zero) under number i + 1. */
  lemma ReportHasSection(apps: seq<AdminApplication>, fmt: Formatting, generated: string, i: nat)
    requires i < |apps|
    ensures Strings.Contains(Report(apps, fmt, generated), Section(i + 1, apps[i], fmt))
  {
    BlockIn(apps, 1, SectionBlock(fmt), i);
    Strings.ContainsAfter(Preamble(generated, |apps|), Sections(apps, 1, fmt), SectionBlock(fmt)(1 + i, apps[i]));
  }

  // ----- The handler -----

  /** The query string: `format`, `role` and `status`, each possibly
      absent. */
  datatype Query = Query(format: Option<string>, role: Option<string>, status: Option<string>)

  /** `.eq('role', role)` when `role` is given and non-empty, likewise for
      `status`; a stored missing status never equals a requested one. */
  predicate Selected(q: Query, app: AdminApplication) {
    && (q.role.None? || q.role.value == "" || app.role == q.role.value)
    && (q.status.None? || q.status.value == "" || app.status == Some(q.status.value))
  }

  function Select(q: Query, apps: seq<AdminApplication>): (r: seq<AdminApplication>)
    ensures |r| <= |apps|
    ensures forall a :: a in r <==> a in apps && Selected(q, a)
    ensures forall a :: multiset(r)[a] == if Selected(q, a) then multiset(apps)[a] else 0
  {
    if |apps| == 0 then []
    else
      assert apps == [apps[0]] + apps[1..];
      (if Selected(q, apps[0]) then [apps[0]] else []) + Select(q, apps[1..])
  }

  datatype Download = Download(content: string, contentType: string, filename: string)

  /** `format || 'csv'`, then `pdf` gives the text report and anything
      else the CSV; `isoDay` is the date part of the current time. */
  function Export(q: Query, apps: seq<AdminApplication>, fmt: Formatting, generated: string, isoDay: string): (d: Download)
    ensures q.format == Some("pdf") ==>
              d == Download(Report(Select(q, apps), fmt, generated), "text/plain", "applications_" + isoDay + ".txt")
    ensures q.format != Some("pdf") ==>
              d == Download(Csv(Select(q, apps), fmt), "text/csv", "applications_" + isoDay + ".csv")
  {
    var format := if q.format.Some? && q.format.value != "" then q.format.value else "csv";
    var selected := Select(q, apps);
    if format == "pdf" then
      Download(Report(selected, fmt, generated), "text/plain", "applications_" + isoDay + ".txt")
    else
      Download(Csv(selected, fmt), "text/csv", "applications_" + isoDay + ".csv")
  }

  /** A database failure is thrown and answered with 500. */
  datatype Fetched = Rows(apps: seq<AdminApplication>) | DatabaseError(message: string)

  datatype Reply = Preflight | Ok(download: Download) | Failure(status: int, error: string)

  function Handle(verb: string, q: Query, fetched: Fetched, fmt: Formatting, generated: string, isoDay: string): (rep: Reply)
    ensures rep.Preflight? <==> verb == "OPTIONS"
    ensures rep.Ok? <==> verb == "GET" && fetched.Rows?
    ensures rep.Ok? ==> rep.download == Export(q, fetched.apps, fmt, generated, isoDay)
    ensures rep.Failure? ==> rep.status == (if verb == "GET" then 500 else 405)
  {
    if verb == "OPTIONS" then Preflight
    else if verb == "GET" then
      match fetched
      case DatabaseError(m) => Failure(500, m)
      case Rows(apps) => Ok(Export(q, apps, fmt, generated, isoDay))
    else Failure(405, "Method not allowed")
  }
}
