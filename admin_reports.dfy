/** The reports page: the date range taken from the query, and the CSV
    export of the report. */
module AdminReports {
  import opened Common

  // ---------------------------------------------------------------------
  // Date range
  // ---------------------------------------------------------------------

  /** Matches `^\d{4}-\d{2}-\d{2}$`. */
  predicate IsDateOnly(s: string) {
    |s| == 10 && IsDigit(s[0]) && IsDigit(s[1]) && IsDigit(s[2]) && IsDigit(s[3]) && s[4] == '-' &&
    IsDigit(s[5]) && IsDigit(s[6]) && s[7] == '-' && IsDigit(s[8]) && IsDigit(s[9])
  }

  /** The position found by `FindIndex` is the only first occurrence. */
  lemma FirstOccurrence(s: string, c: char, k: int)
    requires 0 <= k < |s| && s[k] == c
    requires forall j :: 0 <= j < k ==> s[j] != c
    ensures c !in s[..k]
    ensures forall j :: 0 <= j < |s| && s[j] == c && c !in s[..j] ==> j == k
  {
    forall j | 0 <= j < |s| && s[j] == c && c !in s[..j] ensures j == k {
      assert forall i :: 0 <= i < j ==> s[..j][i] == s[i];
    }
  }

  /** `s.replace(c, d)` with a one-character pattern: the first occurrence
      only. */
  function ReplaceFirst(s: string, c: char, d: char): (r: string)
    ensures |r| == |s|
    ensures c !in s ==> r == s
    ensures forall k :: 0 <= k < |s| && s[k] == c && c !in s[..k] ==> r == s[..k] + [d] + s[k + 1..]
  {
    var k := FindIndex(s, (x: char) => x == c);
    if k < 0 then s
    else
      FirstOccurrence(s, c, k);
      s[..k] + [d] + s[k + 1..]
  }

  /** `normalizeDateTime`: a missing or blank value gives the fallback; a
      plain date becomes the start or the end of that day; a value with a
      `T` has its first `T` turned into a space, with seconds added when
      it then has minutes only; anything else is kept, trimmed. */
  function NormalizeDateTime(value: Option<string>, fallback: string, isEnd: bool): (r: string)
    ensures !Truthy(value) || Trim(value.value) == [] ==> r == fallback
    ensures Truthy(value) && IsDateOnly(Trim(value.value)) ==>
      r == Trim(value.value) + (if isEnd then " 23:59:59" else " 00:00:00")
    ensures Truthy(value) && Trim(value.value) != [] && !IsDateOnly(Trim(value.value)) && 'T' !in Trim(value.value) ==>
      r == Trim(value.value)
    ensures Truthy(value) && !IsDateOnly(Trim(value.value)) && 'T' in Trim(value.value) ==>
      var v := ReplaceFirst(Trim(value.value), 'T', ' ');
      r == if |v| == 16 then v + ":00" else v
  {
    if !Truthy(value) then fallback
    else
      var raw := Trim(value.value);
      if raw == [] then fallback
      else if IsDateOnly(raw) then raw + (if isEnd then " 23:59:59" else " 00:00:00")
      else if 'T' in raw then
        var v := ReplaceFirst(raw, 'T', ' ');
        if |v| == 16 then v + ":00" else v
      else raw
  }

  /** A date-and-minutes value from a date-time input, `YYYY-MM-DDTHH:MM`,
      becomes `YYYY-MM-DD HH:MM:00`. */
  lemma DateTimeLocalGetsSeconds(raw: string, fallback: string, isEnd: bool)
    requires |raw| == 16 && IsDateOnly(raw[..10]) && raw[10] == 'T'
    requires !IsJsSpace(raw[0]) && !IsJsSpace(raw[15])
    ensures NormalizeDateTime(Some(raw), fallback, isEnd) == raw[..10] + " " + raw[11..] + ":00"
  {
    TrimOfTrimmed(raw);
    assert 'T' !in raw[..10];
    assert raw[10] == 'T';
    assert ReplaceFirst(raw, 'T', ' ') == raw[..10] + " " + raw[11..];
  }

  /** The normalised form of a plain date is stable: normalising it again,
      whatever the fallback, gives it back. */
  lemma NormalizedDateIsStable(value: string, fallback: string, fallback2: string, isEnd: bool)
    requires IsDateOnly(Trim(value))
    ensures var r := NormalizeDateTime(Some(value), fallback, isEnd);
      NormalizeDateTime(Some(r), fallback2, isEnd) == r
  {
    var raw := Trim(value);
    var r := NormalizeDateTime(Some(value), fallback, isEnd);
    assert r == raw + (if isEnd then " 23:59:59" else " 00:00:00");
    assert !IsJsSpace(r[0]) && !IsJsSpace(r[|r| - 1]);
    TrimOfTrimmed(r);
    assert 'T' !in r by {
      forall i | 0 <= i < |r| ensures r[i] != 'T' {
        if i < 10 { assert r[i] == raw[i]; }
      }
    }
  }

  // ---------------------------------------------------------------------
  // CSV export
  // ---------------------------------------------------------------------

  /** A date as a row holds it: a date value (shown as the first ten
      characters of its ISO text) or anything else, shown as the template
      literal shows it. */
  datatype DateCell = DateValue(iso: string) | Shown(text: string)

  datatype Summary = Summary(gross: Option<real>, orders: Option<nat>, avg: Option<real>)
  datatype DayRow = DayRow(d: DateCell, orders: Option<nat>, sales: Option<real>)
  datatype StatusRow = StatusRow(status: Option<string>, orders: Option<nat>, sales: Option<real>)
  datatype TopRow = TopRow(name: Option<string>, qty: Option<nat>, sales: Option<real>)
  datatype PlanRow = PlanRow(name: Option<string>, c: Option<nat>)
  datatype SeriesRow = SeriesRow(d: DateCell, c: Option<nat>)
  datatype Membership = Membership(active: Option<nat>, expiring14: Option<nat>,
                                   byPlan: Option<seq<PlanRow>>, series: Option<seq<SeriesRow>>)

  /** What `buildCsv` is handed; a missing list is `None`. */
  datatype Report = Report(from: string, to: string, summary: Summary, byDay: Option<seq<DayRow>>,
                           byStatus: Option<seq<StatusRow>>, top: Option<seq<TopRow>>, membership: Membership)

  /** `${x || 0}` for a count. */
  function Count(n: Option<nat>): string {
    NatToString(n.GetOr(0))
  }

  /** `Number(x || 0).toFixed(2)`; the two-decimal formatting is `fixed2`. */
  function Money(x: Option<real>, fixed2: real -> string): string {
    fixed2(x.GetOr(0.0))
  }

  function DateText(d: DateCell): string {
    match d
    case DateValue(iso) => Take(iso, 10)
    case Shown(t) => t
  }

  function DayLine(r: DayRow, fixed2: real -> string): string {
    "," + DateText(r.d) + "," + Count(r.orders) + "," + Money(r.sales, fixed2)
  }

  function StatusLine(r: StatusRow, fixed2: real -> string): string {
    "," + OrDefault(r.status, "") + "," + Count(r.orders) + "," + Money(r.sales, fixed2)
  }

  function TopLine(r: TopRow, fixed2: real -> string): string {
    "," + OrDefault(r.name, "") + "," + Count(r.qty) + "," + Money(r.sales, fixed2)
  }

  function PlanLine(r: PlanRow): string {
    "," + OrDefault(r.name, "") + "," + Count(r.c)
  }

  function SeriesLine(r: SeriesRow): string {
    "," + DateText(r.d) + "," + Count(r.c)
  }

  /** One line per row, in order. */
  function DayLines(rows: seq<DayRow>, fixed2: real -> string): (r: seq<string>)
    ensures |r| == |rows|
    ensures forall i :: 0 <= i < |rows| ==> r[i] == DayLine(rows[i], fixed2)
  {
    if rows == [] then [] else DayLines(rows[..|rows| - 1], fixed2) + [DayLine(rows[|rows| - 1], fixed2)]
  }

  function StatusLines(rows: seq<StatusRow>, fixed2: real -> string): (r: seq<string>)
    ensures |r| == |rows|
    ensures forall i :: 0 <= i < |rows| ==> r[i] == StatusLine(rows[i], fixed2)
  {
    if rows == [] then [] else StatusLines(rows[..|rows| - 1], fixed2) + [StatusLine(rows[|rows| - 1], fixed2)]
  }

  function TopLines(rows: seq<TopRow>, fixed2: real -> string): (r: seq<string>)
    ensures |r| == |rows|
    ensures forall i :: 0 <= i < |rows| ==> r[i] == TopLine(rows[i], fixed2)
  {
    if rows == [] then [] else TopLines(rows[..|rows| - 1], fixed2) + [TopLine(rows[|rows| - 1], fixed2)]
  }

  function PlanLines(rows: seq<PlanRow>): (r: seq<string>)
    ensures |r| == |rows|
    ensures forall i :: 0 <= i < |rows| ==> r[i] == PlanLine(rows[i])
  {
    if rows == [] then [] else PlanLines(rows[..|rows| - 1]) + [PlanLine(rows[|rows| - 1])]
  }

  function SeriesLines(rows: seq<SeriesRow>): (r: seq<string>)
    ensures |r| == |rows|
    ensures forall i :: 0 <= i < |rows| ==> r[i] == SeriesLine(rows[i])
  {
    if rows == [] then [] else SeriesLines(rows[..|rows| - 1]) + [SeriesLine(rows[|rows| - 1])]
  }

  function SummaryLine(s: Summary, fixed2: real -> string): string {
    "," + Money(s.gross, fixed2) + "," + Count(s.orders) + "," + Money(s.avg, fixed2)
  }

  function MembershipLine(m: Membership): string {
    "," + Count(m.active) + "," + Count(m.expiring14)
  }

  const RangeHeading := "Report Range,From,To"
  const SummaryHeading := "Summary,Net Sales,Orders,Avg Order Value"
  const DayHeading := "Sales By Day,Date,Orders,Sales"
  const StatusHeading := "Sales By Status,Status,Orders,Sales"
  const TopHeading := "Top Products,Product,Qty,Sales"
  const MembershipHeading := "Membership Summary,Active Members,Expiring in 14 days"
  const PlanHeading := "Membership By Plan,Plan,Members"
  const SeriesHeading := "Membership Over Time,Date,New Members"

  /** The blank line and heading before the sales by status. */
  const StatusLead: seq<string> := ["", StatusHeading]

  /** The blank line and heading before the top products. */
  const TopLead: seq<string> := ["", TopHeading]

  /** The heading before the membership series. */
  const SeriesLead: seq<string> := [SeriesHeading]

  /** The blank line, the membership summary and the plan heading. */
  function MembershipLead(m: Membership): (r: seq<string>)
    ensures |r| == 4
  {
    ["", MembershipHeading, MembershipLine(m), PlanHeading]
  }

  /** The lines before the daily sales. */
  function Opening(rep: Report, fixed2: real -> string): (r: seq<string>)
    ensures |r| == 7
  {
    [RangeHeading, "," + rep.from + "," + rep.to, "", SummaryHeading, SummaryLine(rep.summary, fixed2), "", DayHeading]
  }

  /** The lines of the export, in the order they are pushed: the opening
      lines, the daily lines, the status heading and lines, the top
      products heading and lines, the membership summary and plan heading,
      the plan lines, the series heading and the series lines. */
  function CsvLines(rep: Report, fixed2: real -> string): seq<string> {
    Opening(rep, fixed2) + DayLines(rep.byDay.GetOr([]), fixed2) +
    StatusLead + StatusLines(rep.byStatus.GetOr([]), fixed2) +
    TopLead + TopLines(rep.top.GetOr([]), fixed2) +
    MembershipLead(rep.membership) + PlanLines(rep.membership.byPlan.GetOr([])) +
    SeriesLead + SeriesLines(rep.membership.series.GetOr([]))
  }

  /** `lines.join(sep)`. */
  function Join(lines: seq<string>, sep: string): string {
    if lines == [] then ""
    else if |lines| == 1 then lines[0]
    else Join(lines[..|lines| - 1], sep) + sep + lines[|lines| - 1]
  }

  /** `x` consists of the seven opening lines `o` and then the lists
      `dl`, `sl`, `tl`, `pl` and `ml`, separated by two, two, four and one
      fixed lines. */
  ghost predicate Sections<T>(x: seq<T>, o: seq<T>, dl: seq<T>, sl: seq<T>, tl: seq<T>, pl: seq<T>, ml: seq<T>) {
    var d, s, t, p := |dl|, |sl|, |tl|, |pl|;
    |x| == 16 + d + s + t + p + |ml| && x[..7] == o &&
    x[7..7 + d] == dl && x[9 + d..9 + d + s] == sl && x[11 + d + s..11 + d + s + t] == tl &&
    x[15 + d + s + t..15 + d + s + t + p] == pl && x[16 + d + s + t + p..] == ml
  }

  /** Where each section lies in the joined sections. */
  lemma Offsets<T>(o: seq<T>, dl: seq<T>, sh: seq<T>, sl: seq<T>, th: seq<T>, tl: seq<T>,
                   mh: seq<T>, pl: seq<T>, eh: seq<T>, ml: seq<T>)
    requires |o| == 7 && |sh| == 2 && |th| == 2 && |mh| == 4 && |eh| == 1
    ensures Sections(o + dl + sh + sl + th + tl + mh + pl + eh + ml, o, dl, sl, tl, pl, ml)
  {
    var x1 := o + dl;
    var x2 := x1 + sh + sl;
    var x3 := x2 + th + tl;
    var x4 := x3 + mh + pl;
    var x := x4 + eh + ml;
    assert x[..|x4|] == x4;
    assert x4[..|x3|] == x3;
    assert x3[..|x2|] == x2;
    assert x2[..|x1|] == x1;
    assert x[7..7 + |dl|] == x1[7..];
    assert x[9 + |dl|..9 + |dl| + |sl|] == x2[9 + |dl|..];
    assert x[11 + |dl| + |sl|..11 + |dl| + |sl| + |tl|] == x3[11 + |dl| + |sl|..];
    assert x[15 + |dl| + |sl| + |tl|..15 + |dl| + |sl| + |tl| + |pl|] == x4[15 + |dl| + |sl| + |tl|..];
  }

  /** The export has sixteen fixed lines and one line per row of each list,
      in order: the seven opening lines, the daily lines, the status lines,
      the top product lines, the plan lines and the series lines, each list
      at a fixed offset after the lists before it. */
  lemma CsvLayout(rep: Report, fixed2: real -> string)
    ensures Sections(CsvLines(rep, fixed2), Opening(rep, fixed2), DayLines(rep.byDay.GetOr([]), fixed2),
                     StatusLines(rep.byStatus.GetOr([]), fixed2), TopLines(rep.top.GetOr([]), fixed2),
                     PlanLines(rep.membership.byPlan.GetOr([])), SeriesLines(rep.membership.series.GetOr([])))
  {
    Offsets(Opening(rep, fixed2), DayLines(rep.byDay.GetOr([]), fixed2), StatusLead, StatusLines(rep.byStatus.GetOr([]), fixed2),
            TopLead, TopLines(rep.top.GetOr([]), fixed2),
            MembershipLead(rep.membership), PlanLines(rep.membership.byPlan.GetOr([])),
            SeriesLead, SeriesLines(rep.membership.series.GetOr([])));
  }

  /** The position of the last occurrence of `c`, or -1. */
  function LastIndexOf(s: string, c: char): (k: int)
    ensures -1 <= k < |s|
    ensures k >= 0 ==> s[k] == c
    ensures forall i :: k < i < |s| ==> s[i] != c
  {
    if s == [] then -1
    else if s[|s| - 1] == c then |s| - 1
    else LastIndexOf(s[..|s| - 1], c)
  }

  /** `s.split(c)` for one character. */
  function Split(s: string, c: char): (r: seq<string>)
    ensures r != []
    decreases |s|
  {
    var k := LastIndexOf(s, c);
    if k < 0 then [s] else Split(s[..k], c) + [s[k + 1..]]
  }

  /** Splitting the joined lines at line breaks gives the lines back, as
      long as none of them holds a line break itself. */
  lemma {:induction false} SplitJoin(lines: seq<string>)
    requires lines != []
    requires forall i :: 0 <= i < |lines| ==> '\n' !in lines[i]
    ensures Split(Join(lines, "\n"), '\n') == lines
    decreases |lines|
  {
    if |lines| > 1 {
      var init, last := lines[..|lines| - 1], lines[|lines| - 1];
      var j := Join(init, "\n");
      var s := j + "\n" + last;
      assert s[|j|] == '\n';
      assert s[|j| + 1..] == last;
      assert s[..|j|] == j;
      assert forall i :: |j| < i < |s| ==> s[i] == last[i - |j| - 1];
      assert LastIndexOf(s, '\n') == |j|;
      SplitJoin(init);
      assert lines == init + [last];
    }
  }

  /** The `forEach` over the daily sales: pushes one line per row. */
  method PushDayLines(lines: seq<string>, rows: seq<DayRow>, fixed2: real -> string) returns (out: seq<string>)
    ensures out == lines + DayLines(rows, fixed2)
  {
    out := lines;
    for k := 0 to |rows|
      invariant out == lines + DayLines(rows[..k], fixed2)
    {
      assert rows[..k + 1][..k] == rows[..k];
      out := out + [DayLine(rows[k], fixed2)];
    }
    assert rows[..|rows|] == rows;
  }

  /** The `forEach` over the sales by status: pushes one line per row. */
  method PushStatusLines(lines: seq<string>, rows: seq<StatusRow>, fixed2: real -> string) returns (out: seq<string>)
    ensures out == lines + StatusLines(rows, fixed2)
  {
    out := lines;
    for k := 0 to |rows|
      invariant out == lines + StatusLines(rows[..k], fixed2)
    {
      assert rows[..k + 1][..k] == rows[..k];
      out := out + [StatusLine(rows[k], fixed2)];
    }
    assert rows[..|rows|] == rows;
  }

  /** The `forEach` over the top products: pushes one line per row. */
  method PushTopLines(lines: seq<string>, rows: seq<TopRow>, fixed2: real -> string) returns (out: seq<string>)
    ensures out == lines + TopLines(rows, fixed2)
  {
    out := lines;
    for k := 0 to |rows|
      invariant out == lines + TopLines(rows[..k], fixed2)
    {
      assert rows[..k + 1][..k] == rows[..k];
      out := out + [TopLine(rows[k], fixed2)];
    }
    assert rows[..|rows|] == rows;
  }

  /** The `forEach` over the members by plan: pushes one line per row. */
  method PushPlanLines(lines: seq<string>, rows: seq<PlanRow>) returns (out: seq<string>)
    ensures out == lines + PlanLines(rows)
  {
    out := lines;
    for k := 0 to |rows|
      invariant out == lines + PlanLines(rows[..k])
    {
      assert rows[..k + 1][..k] == rows[..k];
      out := out + [PlanLine(rows[k])];
    }
    assert rows[..|rows|] == rows;
  }

  /** The `forEach` over the members over time: pushes one line per row. */
  method PushSeriesLines(lines: seq<string>, rows: seq<SeriesRow>) returns (out: seq<string>)
    ensures out == lines + SeriesLines(rows)
  {
    out := lines;
    for k := 0 to |rows|
      invariant out == lines + SeriesLines(rows[..k])
    {
      assert rows[..k + 1][..k] == rows[..k];
      out := out + [SeriesLine(rows[k])];
    }
    assert rows[..|rows|] == rows;
  }

  /** `buildCsv`: pushes the headings, the summary lines and one line per
      row of each list (a missing list adds none), then joins the lines
      with line breaks. */
  method BuildCsv(rep: Report, fixed2: real -> string) returns (csv: string)
    ensures csv == Join(CsvLines(rep, fixed2), "\n")
  {
    var lines: seq<string> := [];
    lines := lines + [RangeHeading];
    lines := lines + ["," + rep.from + "," + rep.to];
    lines := lines + [""];
    lines := lines + [SummaryHeading];
    lines := lines + [SummaryLine(rep.summary, fixed2)];
    lines := lines + [""];
    lines := lines + [DayHeading];
    assert lines == Opening(rep, fixed2);
    lines := PushDayLines(lines, rep.byDay.GetOr([]), fixed2);
    ghost var before := lines;
    lines := lines + [""];
    lines := lines + [StatusHeading];
    assert lines == before + StatusLead;
    lines := PushStatusLines(lines, rep.byStatus.GetOr([]), fixed2);
    before := lines;
    lines := lines + [""];
    lines := lines + [TopHeading];
    assert lines == before + TopLead;
    lines := PushTopLines(lines, rep.top.GetOr([]), fixed2);
    before := lines;
    lines := lines + [""];
    lines := lines + [MembershipHeading];
    lines := lines + [MembershipLine(rep.membership)];
    lines := lines + [PlanHeading];
    assert lines == before + MembershipLead(rep.membership);
    lines := PushPlanLines(lines, rep.membership.byPlan.GetOr([]));
    lines := lines + SeriesLead;
    lines := PushSeriesLines(lines, rep.membership.series.GetOr([]));
    csv := Join(lines, "\n");
  }
}
