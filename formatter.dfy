/**
 * `ResultFormatter`: the terminal, Markdown and summary texts built from a
 * `ReviewResult`, and the counting helpers over it.  Floating-point
 * formatting (`:.4f` of the cost) and `json.dumps` are parameters.
 */
module Formatter {
  import opened Wrappers
  import opened Strings
  import opened Json
  import opened OrderedMap
  import opened Counting
  import opened ReviewModels
  import Engine

  /** The `ui` settings read once by the constructor. */
  datatype Style = Style(colorOutput: bool, maxDisplayIssues: int, summaryOnly: bool)

  /** `ResultFormatter.__init__`: colour on, twenty issues and the full listing unless the `ui` section says otherwise. */
  function StyleFrom(ui: Value): (s: Style)
    ensures Field(ui, "color_output").None? ==> s.colorOutput
    ensures Field(ui, "max_display_issues").None? ==> s.maxDisplayIssues == 20
    ensures Field(ui, "summary_only").None? ==> !s.summaryOnly
  {
    Style(Truthy(FieldOr(ui, "color_output", Bool(true))),
          IntFieldOr(ui, "max_display_issues", 20),
          Truthy(FieldOr(ui, "summary_only", Bool(false))))
  }

  // ---------------------------------------------------------------------
  // Colour
  // ---------------------------------------------------------------------

  const Esc: char := '\U{1B}'

  /** The ANSI sequence `\033[<code>m`. */
  function Sgr(code: string): string {
    [Esc] + "[" + code + "m"
  }

  /** The code of a colour name; a name outside the table is white. */
  function ColorCode(color: string): (code: string)
    ensures 1 <= |code| <= 2
  {
    if color == "red" then "91"
    else if color == "green" then "92"
    else if color == "yellow" then "93"
    else if color == "blue" then "94"
    else if color == "magenta" then "95"
    else if color == "cyan" then "96"
    else if color == "reset" then "0"
    else "97"
  }

  predicate KnownColor(color: string) {
    color == "red" || color == "green" || color == "yellow" || color == "blue"
    || color == "magenta" || color == "cyan" || color == "white" || color == "reset"
  }

  /** The colour sequence, after the bold sequence `\033[1m` when bold. */
  function ColorPrefix(color: string, bold: bool): string {
    (if bold then Sgr("1") else "") + Sgr(ColorCode(color))
  }

  /** `_colorize` */
  function Colorize(style: Style, text: string, color: string, bold: bool): string {
    if !style.colorOutput then text else ColorPrefix(color, bold) + text + Sgr("0")
  }

  /**
   * Without colour the text is unchanged; with colour it is framed by the
   * colour prefix and the reset sequence, so it can be read back; an unknown
   * colour is white; bold adds `\033[1m` in front.
   */
  lemma ColorizeSpec(style: Style, text: string, color: string, bold: bool)
    ensures !style.colorOutput ==> Colorize(style, text, color, bold) == text
    ensures style.colorOutput ==>
      var r := Colorize(style, text, color, bold);
      var p := ColorPrefix(color, bold);
      && |r| == |p| + |text| + 4
      && r[..|p|] == p && r[|p|..|r| - 4] == text && r[|r| - 4..] == Sgr("0")
    ensures !KnownColor(color) ==> Colorize(style, text, color, bold) == Colorize(style, text, "white", bold)
    ensures style.colorOutput && bold ==> Colorize(style, text, color, bold)[..4] == Sgr("1")
  {
    if style.colorOutput {
      var r := Colorize(style, text, color, bold);
      var p := ColorPrefix(color, bold);
      assert r == p + text + Sgr("0");
      if bold {
        assert p == Sgr("1") + Sgr(ColorCode(color));
        assert r == Sgr("1") + (Sgr(ColorCode(color)) + text + Sgr("0"));
      }
    }
  }

  // ---------------------------------------------------------------------
  // Counters shown as badges or summary parts
  // ---------------------------------------------------------------------

  /** One counter: its value, the text after the number, and its colour. */
  datatype Tally = Tally(count: int, suffix: string, color: string)

  /** The counters greater than zero, in their order. */
  function NonZero(tallies: seq<Tally>): seq<Tally> {
    if tallies == [] then []
    else (if tallies[0].count > 0 then [tallies[0]] else []) + NonZero(tallies[1..])
  }

  /** A counter is kept exactly when it is positive; nothing is kept exactly when no counter is positive. */
  lemma {:induction false} NonZeroSpec(tallies: seq<Tally>)
    ensures forall t :: t in NonZero(tallies) <==> t in tallies && t.count > 0
    ensures NonZero(tallies) == [] <==> forall i :: 0 <= i < |tallies| ==> tallies[i].count <= 0
  {
    if tallies != [] {
      NonZeroSpec(tallies[1..]);
      assert forall t :: t in tallies <==> t == tallies[0] || t in tallies[1..];
      if forall i :: 0 <= i < |tallies[1..]| ==> tallies[1..][i].count <= 0 {
        assert forall i :: 1 <= i < |tallies| ==> tallies[i].count <= 0 by {
          forall i | 1 <= i < |tallies| ensures tallies[i].count <= 0 {
            assert tallies[i] == tallies[1..][i - 1];
          }
        }
      }
    }
  }

  /** `f"{count}{suffix}"` */
  function Label(t: Tally): string {
    IntToString(t.count) + t.suffix
  }

  function Labels(tallies: seq<Tally>): (r: seq<string>)
    ensures |r| == |tallies|
  {
    if tallies == [] then [] else [Label(tallies[0])] + Labels(tallies[1..])
  }

  /** Each counter's label in its colour. */
  function Badges(style: Style, tallies: seq<Tally>): (r: seq<string>)
    ensures |r| == |tallies|
  {
    if tallies == [] then [] else [Colorize(style, Label(tallies[0]), tallies[0].color, false)] + Badges(style, tallies[1..])
  }

  /** The counters of one file, as `_format_file_header` shows them. */
  function FileTallies(f: FileReviewResult): seq<Tally> {
    [Tally(f.errorCount, "E", "red"), Tally(f.warningCount, "W", "yellow"),
     Tally(f.infoCount, "I", "blue"), Tally(f.suggestionCount, "S", "green")]
  }

  /** The run totals, as `_format_summary_stats` and `format_summary_only` name them. */
  function RunTallies(r: ReviewResult): seq<Tally> {
    [Tally(r.totalErrors, " errors", "red"), Tally(r.totalWarnings, " warnings", "yellow"),
     Tally(r.totalInfo, " info", "blue"), Tally(r.totalSuggestions, " suggestions", "green")]
  }

  /** `_format_file_header` */
  function FileHeader(style: Style, f: FileReviewResult): string {
    var header := "📄 " + f.filename;
    var shown := NonZero(FileTallies(f));
    if f.totalIssues > 0 && shown != [] then header + " (" + Join(Badges(style, shown), " ") + ")"
    else header
  }

  /**
   * The header is the bare file name unless the file has issues and a
   * positive counter; then one badge follows per positive counter.
   */
  lemma FileHeaderSpec(style: Style, f: FileReviewResult)
    ensures FileHeader(style, f) == "📄 " + f.filename <==>
      f.totalIssues <= 0 || (f.errorCount <= 0 && f.warningCount <= 0 && f.infoCount <= 0 && f.suggestionCount <= 0)
    ensures forall t :: t in NonZero(FileTallies(f)) <==> t in FileTallies(f) && t.count > 0
  {
    var ts := FileTallies(f);
    NonZeroSpec(ts);
    assert (forall i :: 0 <= i < |ts| ==> ts[i].count <= 0)
           <==> f.errorCount <= 0 && f.warningCount <= 0 && f.infoCount <= 0 && f.suggestionCount <= 0 by {
      assert ts[0].count == f.errorCount && ts[1].count == f.warningCount;
      assert ts[2].count == f.infoCount && ts[3].count == f.suggestionCount;
    }
  }

  // ---------------------------------------------------------------------
  // Summary lines
  // ---------------------------------------------------------------------

  /** Three digits with leading zeros. */
  function Pad3(n: nat): string
    requires n < 1000
  {
    [DigitChar(n / 100), DigitChar(n / 10 % 10), DigitChar(n % 10)]
  }

  /** `f"{n:,}"`: decimal digits with a comma between groups of three. */
  function Grouped(n: nat): string {
    if n < 1000 then NatToString(n) else Grouped(n / 1000) + "," + Pad3(n % 1000)
  }

  function DropCommas(s: string): string {
    if s == [] then [] else (if s[0] == ',' then [] else [s[0]]) + DropCommas(s[1..])
  }

  lemma {:induction false} DropCommasAppend(a: string, b: string)
    ensures DropCommas(a + b) == DropCommas(a) + DropCommas(b)
  {
    if a != [] {
      assert (a + b)[1..] == a[1..] + b && (a + b)[0] == a[0];
      DropCommasAppend(a[1..], b);
    } else {
      assert a + b == b;
    }
  }

  lemma {:induction false} DropCommasDigits(s: string)
    requires forall i :: 0 <= i < |s| ==> '0' <= s[i] <= '9'
    ensures DropCommas(s) == s
  {
    if s != [] {
      DropCommasDigits(s[1..]);
    }
  }

  /** The decimal text of a number with at least four digits: the leading part, then the last three digits. */
  lemma NatToStringThousands(a: nat, b: nat)
    requires a >= 1 && b < 1000
    ensures NatToString(a * 1000 + b) == NatToString(a) + Pad3(b)
  {
    var n := a * 1000 + b;
    var m := a * 100 + b / 10;
    var k := a * 10 + b / 100;
    assert n / 10 == m && n % 10 == b % 10;
    assert m / 10 == k && m % 10 == b / 10 % 10;
    assert k / 10 == a && k % 10 == b / 100;
    assert NatToString(n) == NatToString(m) + [DigitChar(b % 10)];
    assert NatToString(m) == NatToString(k) + [DigitChar(b / 10 % 10)];
    assert NatToString(k) == NatToString(a) + [DigitChar(b / 100)];
  }

  /** Removing the separators from `f"{n:,}"` gives back `str(n)`, whose digits read as `n`. */
  lemma {:induction false} GroupedDigits(n: nat)
    ensures DropCommas(Grouped(n)) == NatToString(n)
    ensures DigitsValue(NatToString(n)) == n
  {
    DigitsValueOfNat(n);
    if n < 1000 {
      DropCommasDigits(NatToString(n));
    } else {
      var a, b := n / 1000, n % 1000;
      assert n == a * 1000 + b && a >= 1 && b < 1000;
      var head := Grouped(a);
      var p := Pad3(b);
      assert Grouped(n) == head + "," + p;
      GroupedDigits(a);
      DropCommasAppend(head + ",", p);
      DropCommasAppend(head, ",");
      DropCommasDigits(p);
      NatToStringThousands(a, b);
    }
  }

  /** The first line of `_format_summary_stats`. */
  function StatsLine(r: ReviewResult): string {
    "📊 Reviewed " + IntToString(r.totalFiles) + " files"
    + (if r.totalIssues > 0 then " • Found " + IntToString(r.totalIssues) + " issues" else "")
  }

  /** The breakdown line: the positive totals in their colours. */
  function BreakdownLines(style: Style, r: ReviewResult): seq<string> {
    var shown := NonZero(RunTallies(r));
    if r.totalIssues > 0 && shown != [] then ["   └─ " + Join(Badges(style, shown), " • ")] else []
  }

  /** The cost line, with the token count when there is one. */
  function CostLines(r: ReviewResult, costText: real -> string): seq<string> {
    if r.totalCost > 0.0 then
      ["💰 Estimated cost: $" + costText(r.totalCost)
       + (if r.totalTokens > 0 then " (" + Grouped(r.totalTokens) + " tokens)" else "")]
    else []
  }

  /** `_format_summary_stats` */
  function SummaryStats(style: Style, r: ReviewResult, costText: real -> string): string {
    Join([StatsLine(r)] + BreakdownLines(style, r) + CostLines(r, costText), "\n")
  }

  /** `_format_header` */
  function Header(style: Style): string {
    if style.colorOutput then Colorize(style, "🔍 AI Code Review Results", "blue", true) else "AI Code Review Results"
  }

  /** A run whose issue total is the sum of its four non-negative severity totals. */
  predicate Totalled(r: ReviewResult) {
    && r.totalErrors >= 0 && r.totalWarnings >= 0 && r.totalInfo >= 0 && r.totalSuggestions >= 0
    && r.totalIssues == r.totalErrors + r.totalWarnings + r.totalInfo + r.totalSuggestions
  }

  /** `_format_footer` */
  function Footer(style: Style, r: ReviewResult): string {
    if r.totalIssues > 0 then
      if r.totalErrors > 0 then Colorize(style, "❌ Push blocked due to errors", "red", true)
      else Colorize(style, "⚠️ Issues found but push can continue", "yellow", true)
    else Colorize(style, "✅ All checks passed", "green", true)
  }

  /** Colouring never merges two texts: equal results come from equal texts. */
  lemma ColorizeInjective(style: Style, t1: string, c1: string, t2: string, c2: string, bold: bool)
    requires Colorize(style, t1, c1, bold) == Colorize(style, t2, c2, bold)
    ensures t1 == t2
  {
    if style.colorOutput {
      ColorizeSpec(style, t1, c1, bold);
      ColorizeSpec(style, t2, c2, bold);
      PrefixLengthMark(c1, bold);
      PrefixLengthMark(c2, bold);
      assert |ColorPrefix(c1, bold)| == |ColorPrefix(c2, bold)|;
    }
  }

  /** The first digit of the colour code tells the length of the colour prefix: only the reset code starts with `0`. */
  lemma PrefixLengthMark(color: string, bold: bool)
    ensures var k := if bold then 4 else 0;
            var p := ColorPrefix(color, bold);
            |p| > k + 2 && (p[k + 2] == '0' <==> |p| == k + 4) && |p| <= k + 5
  {
  }

  /** When the totals agree, the footer blocks the push exactly when there is an error, and passes exactly when there is no issue. */
  lemma FooterSpec(style: Style, r: ReviewResult)
    requires Totalled(r)
    ensures Footer(style, r) == Colorize(style, "❌ Push blocked due to errors", "red", true) <==> r.totalErrors > 0
    ensures Footer(style, r) == Colorize(style, "✅ All checks passed", "green", true) <==> r.totalIssues == 0
  {
    var blocked := "❌ Push blocked due to errors";
    var passed := "✅ All checks passed";
    var cont := "⚠️ Issues found but push can continue";
    assert blocked[0] != passed[0] && blocked[0] != cont[0] && passed[0] != cont[0];
    var footer := Footer(style, r);
    if footer == Colorize(style, blocked, "red", true) {
      if r.totalIssues <= 0 {
        ColorizeInjective(style, passed, "green", blocked, "red", true);
      } else if r.totalErrors <= 0 {
        ColorizeInjective(style, cont, "yellow", blocked, "red", true);
      }
    }
    if footer == Colorize(style, passed, "green", true) && r.totalIssues > 0 {
      if r.totalErrors > 0 {
        ColorizeInjective(style, blocked, "red", passed, "green", true);
      } else {
        ColorizeInjective(style, cont, "yellow", passed, "green", true);
      }
    }
  }

  /** `format_summary_only`, line by line. */
  function SummaryOnlyLines(style: Style, r: ReviewResult, costText: real -> string): seq<string> {
    (if r.totalIssues == 0 then [Colorize(style, "✅ No issues found", "green", false)]
     else
       var summary := "Found " + IntToString(r.totalIssues) + " issues: " + Join(Labels(NonZero(RunTallies(r))), ", ");
       if r.totalErrors > 0 then [Colorize(style, "❌ " + summary, "red", false)]
       else [Colorize(style, "⚠️ " + summary, "yellow", false)])
    + (if r.totalCost > 0.0 then ["Cost: $" + costText(r.totalCost)] else [])
  }

  /** `format_summary_only` */
  function FormatSummaryOnly(style: Style, r: ReviewResult, costText: real -> string): string {
    Join(SummaryOnlyLines(style, r, costText), "\n")
  }

  /**
   * With no issue the summary says so in green; otherwise it lists the
   * positive totals only, joined by `, `, in red when there are errors and
   * in yellow otherwise.  A cost line follows only for a positive cost.
   */
  lemma SummaryOnlySpec(style: Style, r: ReviewResult, costText: real -> string)
    ensures var lines := SummaryOnlyLines(style, r, costText);
      && |lines| == (if r.totalCost > 0.0 then 2 else 1)
      && (r.totalIssues == 0 ==> lines[0] == Colorize(style, "✅ No issues found", "green", false))
      && (r.totalIssues != 0 ==>
            var summary := "Found " + IntToString(r.totalIssues) + " issues: " + Join(Labels(NonZero(RunTallies(r))), ", ");
            lines[0] == Colorize(style, (if r.totalErrors > 0 then "❌ " else "⚠️ ") + summary,
                                 if r.totalErrors > 0 then "red" else "yellow", false))
    ensures forall t :: t in NonZero(RunTallies(r)) <==> t in RunTallies(r) && t.count > 0
  {
    NonZeroSpec(RunTallies(r));
  }

  // ---------------------------------------------------------------------
  // Issues
  // ---------------------------------------------------------------------

  /** The icon and colour of a severity; any other severity is a white bullet. */
  function SeverityMark(severity: string): (string, string) {
    if severity == "error" then ("❌", "red")
    else if severity == "warning" then ("⚠️", "yellow")
    else if severity == "info" then ("ℹ️", "blue")
    else if severity == "suggestion" then ("💡", "green")
    else ("•", "white")
  }

  /** The issue line before colouring: icon, `Line n:` for a non-zero line, the upper-cased rule in brackets, and the message. */
  function IssueText(issue: ReviewIssue): string {
    Join([SeverityMark(issue.severity).0]
         + (if issue.line.Some? && issue.line.value != 0 then ["Line " + IntToString(issue.line.value) + ":"] else [])
         + ["[" + Upper(issue.rule) + "]", issue.message], " ")
  }

  /** `_format_issue` */
  function FormatIssue(style: Style, issue: ReviewIssue): string {
    var text := IssueText(issue);
    var line := "  " + (if style.colorOutput then Colorize(style, text, SeverityMark(issue.severity).1, false) else text);
    var suggestion :=
      if issue.suggestion.Some? && issue.suggestion.value != [] then
        var s := "    💡 Suggestion: " + issue.suggestion.value;
        [if style.colorOutput then Colorize(style, s, "cyan", false) else s]
      else [];
    Join([line] + suggestion, "\n")
  }

  /**
   * Every severity outside the four gets the white bullet; without colour an
   * issue is its indented line, followed by the suggestion line when there
   * is a non-empty suggestion.
   */
  lemma FormatIssueSpec(style: Style, issue: ReviewIssue)
    ensures issue.severity !in ReviewModels.Severities ==> SeverityMark(issue.severity) == ("•", "white")
    ensures !style.colorOutput && !(issue.suggestion.Some? && issue.suggestion.value != []) ==>
      FormatIssue(style, issue) == "  " + IssueText(issue)
    ensures !style.colorOutput && issue.suggestion.Some? && issue.suggestion.value != [] ==>
      FormatIssue(style, issue) == "  " + IssueText(issue) + "\n" + ("    💡 Suggestion: " + issue.suggestion.value)
  {
    var line := "  " + IssueText(issue);
    if !style.colorOutput && issue.suggestion.Some? && issue.suggestion.value != [] {
      var s := "    💡 Suggestion: " + issue.suggestion.value;
      assert ([line] + [s])[1..] == [s];
      assert FormatIssue(style, issue) == Join([line] + [s], "\n");
      assert Join([line] + [s], "\n") == line + "\n" + Join([s], "\n");
    }
  }

  // ---------------------------------------------------------------------
  // The terminal listing
  // ---------------------------------------------------------------------

  /** One entry of the terminal listing. */
  datatype Row = Text(text: string) | Head(file: FileReviewResult) | Entry(issue: ReviewIssue) | More(remaining: int)

  /** The marker printed when the listing is cut. */
  function MoreLine(remaining: int): string {
    "... and " + IntToString(remaining) + " more issues (use --all to see all)"
  }

  function RenderRow(style: Style, row: Row): string {
    match row
    case Text(s) => s
    case Head(f) => FileHeader(style, f)
    case Entry(issue) => FormatIssue(style, issue)
    case More(k) => MoreLine(k)
  }

  /** The lines of a listing. */
  function Render(style: Style, rows: seq<Row>): (r: seq<string>)
    ensures |r| == |rows|
  {
    if rows == [] then [] else [RenderRow(style, rows[0])] + Render(style, rows[1..])
  }

  /** Rendering the rows collected in two parts gives the lines of the parts, one after the other. */
  lemma {:induction false} RenderAppend(style: Style, a: seq<Row>, b: seq<Row>)
    ensures Render(style, a + b) == Render(style, a) + Render(style, b)
  {
    if a != [] {
      assert (a + b)[0] == a[0] && (a + b)[1..] == a[1..] + b;
      RenderAppend(style, a[1..], b);
      AppendAssoc([RenderRow(style, a[0])], Render(style, a[1..]), Render(style, b));
    } else {
      assert a + b == b;
    }
  }

  /** Rows of plain text. */
  function Texts(lines: seq<string>): (rows: seq<Row>)
    ensures |rows| == |lines|
  {
    if lines == [] then [] else [Text(lines[0])] + Texts(lines[1..])
  }

  /** The number of issue entries. */
  function Entries(rows: seq<Row>): nat {
    if rows == [] then 0 else (if rows[0].Entry? then 1 else 0) + Entries(rows[1..])
  }

  /** The remaining counts of the markers, in order. */
  function Announced(rows: seq<Row>): seq<int> {
    if rows == [] then [] else (if rows[0].More? then [rows[0].remaining] else []) + Announced(rows[1..])
  }

  /** Plain text renders as itself and holds no entry and no marker. */
  lemma {:induction false} TextsSpec(style: Style, lines: seq<string>)
    ensures Render(style, Texts(lines)) == lines
    ensures Entries(Texts(lines)) == 0 && Announced(Texts(lines)) == []
  {
    if lines != [] {
      TextsSpec(style, lines[1..]);
      var rows := Texts(lines);
      assert rows[0] == Text(lines[0]) && rows[1..] == Texts(lines[1..]);
      assert lines == [lines[0]] + lines[1..];
    }
  }

  lemma {:induction false} CountsAppend(a: seq<Row>, b: seq<Row>)
    ensures Entries(a + b) == Entries(a) + Entries(b)
    ensures Announced(a + b) == Announced(a) + Announced(b)
  {
    if a != [] {
      assert (a + b)[1..] == a[1..] + b && (a + b)[0] == a[0];
      CountsAppend(a[1..], b);
      AppendAssoc(if a[0].More? then [a[0].remaining] else [], Announced(a[1..]), Announced(b));
    } else {
      assert a + b == b;
    }
  }

  function Max(a: int, b: int): int { if a >= b then a else b }
  function Min(a: int, b: int): int { if a <= b then a else b }

  /** The display counter after offering `n` more issues from `displayed` against `limit`. */
  function Cap(displayed: int, n: nat, limit: int): int {
    Max(displayed, Min(displayed + n, limit))
  }

  /** Offering `a` then `b` issues is offering `a + b`, and nothing changes once the limit is reached. */
  lemma CapCompose(d: int, a: nat, b: nat, limit: int)
    ensures Cap(d, a + b, limit) == if Cap(d, a, limit) >= limit then Cap(d, a, limit) else Cap(Cap(d, a, limit), b, limit)
  {
  }

  /** The result of listing one file's issues. */
  datatype Listing = Listing(rows: seq<Row>, displayed: int, cut: bool)

  /** The inner loop of `_format_terminal`: one entry per issue until the counter reaches the limit, then the marker. */
  function IssueListing(issues: seq<ReviewIssue>, displayed: int, limit: int, total: int): Listing
    decreases |issues|
  {
    if issues == [] then Listing([], displayed, false)
    else if displayed >= limit then Listing([More(total - displayed)], displayed, true)
    else
      var rest := IssueListing(issues[1..], displayed + 1, limit, total);
      Listing([Entry(issues[0])] + rest.rows, rest.displayed, rest.cut)
  }

  /**
   * One file's listing shows issues until the counter reaches the limit, so
   * the counter ends at `Cap`; it is cut exactly when an issue is left over,
   * and then its one marker counts `total` less the final counter.
   */
  lemma {:induction false} IssueListingSpec(issues: seq<ReviewIssue>, displayed: int, limit: int, total: int)
    ensures var l := IssueListing(issues, displayed, limit, total);
      && l.displayed == Cap(displayed, |issues|, limit)
      && (l.cut <==> issues != [] && displayed + |issues| > limit)
      && Entries(l.rows) == l.displayed - displayed
      && Announced(l.rows) == if l.cut then [total - l.displayed] else []
    decreases |issues|
  {
    if issues != [] && displayed < limit {
      var rest := IssueListing(issues[1..], displayed + 1, limit, total);
      IssueListingSpec(issues[1..], displayed + 1, limit, total);
      assert ([Entry(issues[0])] + rest.rows)[0] == Entry(issues[0]);
      assert ([Entry(issues[0])] + rest.rows)[1..] == rest.rows;
    } else if issues != [] {
      assert [More(total - displayed)][1..] == [];
    }
  }

  /**
   * The marker added where a file's issues end exactly at the limit while
   * issues remain; only the corrected listing adds it.
   */
  function Boundary(l: Listing, limit: int, total: int, announce: bool): seq<Row> {
    if announce && l.displayed >= limit && !l.cut && total - l.displayed > 0 then [More(total - l.displayed)] else []
  }

  /** The rows of one file with issues: its header, its issue rows, and a blank line. */
  function FileChunk(f: FileReviewResult, l: Listing, limit: int, total: int, announce: bool): seq<Row> {
    [Head(f)] + l.rows + Boundary(l, limit, total, announce) + [Text("")]
  }

  lemma ChunkCounts(f: FileReviewResult, l: Listing, limit: int, total: int, announce: bool)
    ensures Entries(FileChunk(f, l, limit, total, announce)) == Entries(l.rows)
    ensures Announced(FileChunk(f, l, limit, total, announce)) == Announced(l.rows) + Announced(Boundary(l, limit, total, announce))
  {
    var b := Boundary(l, limit, total, announce);
    CountsAppend([Head(f)], l.rows);
    CountsAppend([Head(f)] + l.rows, b);
    CountsAppend([Head(f)] + l.rows + b, [Text("")]);
  }

  /**
   * The outer loop of `_format_terminal` from one file on: files without
   * issues are skipped, each other file gives its chunk, and the loop stops
   * once the counter reaches the limit.
   */
  function FileListing(files: Dict<string, FileReviewResult>, displayed: int, limit: int, total: int, announce: bool): seq<Row>
    decreases |files|
  {
    if files == [] then []
    else
      var f := files[0].1;
      if f.totalIssues == 0 then FileListing(files[1..], displayed, limit, total, announce)
      else
        var l := IssueListing(f.issues, displayed, limit, total);
        FileChunk(f, l, limit, total, announce)
        + (if l.displayed >= limit then [] else FileListing(files[1..], l.displayed, limit, total, announce))
  }

  /** `sum(fr.total_issues for fr in result.files.values())` */
  function TotalIssues(files: Dict<string, FileReviewResult>): int {
    if files == [] then 0 else files[0].1.totalIssues + TotalIssues(files[1..])
  }

  /** The issues the listing offers: those of every file whose total is not zero. */
  function Pending(files: Dict<string, FileReviewResult>): nat {
    if files == [] then 0
    else (if files[0].1.totalIssues == 0 then 0 else |files[0].1.issues|) + Pending(files[1..])
  }

  /** From counter `d` the listing shows `Cap(d, Pending) - d` entries. */
  lemma {:induction false} FileListingEntries(files: Dict<string, FileReviewResult>, d: int, limit: int, total: int, announce: bool)
    ensures Entries(FileListing(files, d, limit, total, announce)) == Cap(d, Pending(files), limit) - d
    decreases |files|
  {
    if files != [] {
      var f := files[0].1;
      var rest := files[1..];
      if f.totalIssues == 0 {
        FileListingEntries(rest, d, limit, total, announce);
      } else {
        var l := IssueListing(f.issues, d, limit, total);
        IssueListingSpec(f.issues, d, limit, total);
        var tail := if l.displayed >= limit then [] else FileListing(rest, l.displayed, limit, total, announce);
        FileListingEntries(rest, l.displayed, limit, total, announce);
        CapCompose(d, |f.issues|, Pending(rest), limit);
        ChunkCounts(f, l, limit, total, announce);
        CountsAppend(FileChunk(f, l, limit, total, announce), tail);
      }
    }
  }

  /** The listing prints at most one marker, counting `total` less the final counter. */
  lemma {:induction false} FileListingAnnounced(files: Dict<string, FileReviewResult>, d: int, limit: int, total: int, announce: bool)
    ensures var a := Announced(FileListing(files, d, limit, total, announce));
            a == [] || a == [total - Cap(d, Pending(files), limit)]
    decreases |files|
  {
    if files != [] {
      var f := files[0].1;
      var rest := files[1..];
      if f.totalIssues == 0 {
        FileListingAnnounced(rest, d, limit, total, announce);
      } else {
        var l := IssueListing(f.issues, d, limit, total);
        IssueListingSpec(f.issues, d, limit, total);
        var chunk := FileChunk(f, l, limit, total, announce);
        ChunkCounts(f, l, limit, total, announce);
        CapCompose(d, |f.issues|, Pending(rest), limit);
        if l.displayed >= limit {
          assert FileListing(files, d, limit, total, announce) == chunk + [];
          assert chunk + [] == chunk;
        } else {
          var tail := FileListing(rest, l.displayed, limit, total, announce);
          assert FileListing(files, d, limit, total, announce) == chunk + tail;
          assert !l.cut;
          assert Announced(chunk) == [];
          FileListingAnnounced(rest, l.displayed, limit, total, announce);
          CountsAppend(chunk, tail);
        }
      }
    }
  }

  /**
   * The corrected listing, when `total` is what remains to show, prints the
   * marker exactly when some offered issue is not shown.
   */
  lemma {:induction false} FileListingAnnouncedCorrected(files: Dict<string, FileReviewResult>, d: int, limit: int, total: int)
    requires total == d + Pending(files)
    ensures Announced(FileListing(files, d, limit, total, true))
            == if total > Max(d, limit) then [total - Max(d, limit)] else []
    decreases |files|
  {
    if files != [] {
      var f := files[0].1;
      var rest := files[1..];
      if f.totalIssues == 0 {
        FileListingAnnouncedCorrected(rest, d, limit, total);
      } else {
        var l := IssueListing(f.issues, d, limit, total);
        IssueListingSpec(f.issues, d, limit, total);
        var chunk := FileChunk(f, l, limit, total, true);
        ChunkCounts(f, l, limit, total, true);
        if l.displayed >= limit {
          assert FileListing(files, d, limit, total, true) == chunk + [];
          assert chunk + [] == chunk;
        } else {
          var tail := FileListing(rest, l.displayed, limit, total, true);
          assert FileListing(files, d, limit, total, true) == chunk + tail;
          assert Announced(chunk) == [];
          FileListingAnnouncedCorrected(rest, l.displayed, limit, total);
          CountsAppend(chunk, tail);
        }
      }
    }
  }

  /** `_format_terminal` as rows; `announce` chooses the corrected marker at a file boundary. */
  function TerminalListing(style: Style, r: ReviewResult, costText: real -> string, announce: bool): seq<Row> {
    if r.totalIssues == 0 then
      Texts([Header(style), "", Colorize(style, "✅ No issues found!", "green", false), "", SummaryStats(style, r, costText)])
    else
      var top := Texts([Header(style), "", SummaryStats(style, r, costText), ""]);
      if style.summaryOnly then top
      else top + FileListing(r.files, 0, style.maxDisplayIssues, TotalIssues(r.files), announce) + Texts([Footer(style, r)])
  }

  /** `_format_terminal` as written. */
  function TerminalRowsAsWritten(style: Style, r: ReviewResult, costText: real -> string): seq<Row> {
    TerminalListing(style, r, costText, false)
  }

  /** `_format_terminal` with the marker also printed when the limit falls at the end of a file. */
  function TerminalRows(style: Style, r: ReviewResult, costText: real -> string): seq<Row> {
    TerminalListing(style, r, costText, true)
  }

  /** Over consistent file results the total the marker uses is the number of issues offered. */
  lemma {:induction false} TotalIsPending(files: Dict<string, FileReviewResult>)
    requires Engine.AllConsistent(files)
    ensures TotalIssues(files) == Pending(files)
  {
    if files != [] {
      assert Engine.AllConsistent(files[1..]) by {
        forall i | 0 <= i < |files[1..]| ensures Consistent(files[1..][i].1) {
          assert files[1..][i] == files[i + 1];
        }
      }
      TotalIsPending(files[1..]);
      assert Consistent(files[0].1);
    }
  }

  /** The counts of a full terminal listing are those of its file part. */
  lemma TerminalCounts(style: Style, r: ReviewResult, costText: real -> string, announce: bool)
    requires r.totalIssues != 0 && !style.summaryOnly
    ensures var rows := TerminalListing(style, r, costText, announce);
            var mid := FileListing(r.files, 0, style.maxDisplayIssues, TotalIssues(r.files), announce);
            Entries(rows) == Entries(mid) && Announced(rows) == Announced(mid)
  {
    var top := [Header(style), "", SummaryStats(style, r, costText), ""];
    var mid := FileListing(r.files, 0, style.maxDisplayIssues, TotalIssues(r.files), announce);
    TextsSpec(style, top);
    TextsSpec(style, [Footer(style, r)]);
    CountsAppend(Texts(top), mid);
    CountsAppend(Texts(top) + mid, Texts([Footer(style, r)]));
  }

  /**
   * With consistent file results and the full listing on, the terminal shows
   * `min(n, limit)` issues (none for a non-positive limit), and the
   * corrected listing prints one marker, counting the `n` less shown issues,
   * exactly when some issue is not shown.
   */
  lemma TerminalSpec(style: Style, r: ReviewResult, costText: real -> string)
    requires Engine.AllConsistent(r.files) && r.totalIssues != 0 && !style.summaryOnly
    ensures var rows := TerminalRows(style, r, costText); var n := TotalIssues(r.files);
      && Entries(rows) == Max(0, Min(n, style.maxDisplayIssues))
      && Announced(rows) == if n > Max(0, style.maxDisplayIssues) then [n - Max(0, style.maxDisplayIssues)] else []
  {
    var n := TotalIssues(r.files);
    TotalIsPending(r.files);
    TerminalCounts(style, r, costText, true);
    FileListingEntries(r.files, 0, style.maxDisplayIssues, n, true);
    FileListingAnnouncedCorrected(r.files, 0, style.maxDisplayIssues, n);
  }

  /**
   * As written the listing shows the same issues, and a marker it prints
   * counts the issues not shown; but it may print none though issues remain.
   */
  lemma TerminalAsWrittenSpec(style: Style, r: ReviewResult, costText: real -> string)
    requires Engine.AllConsistent(r.files) && r.totalIssues != 0 && !style.summaryOnly
    ensures var rows := TerminalRowsAsWritten(style, r, costText); var n := TotalIssues(r.files);
      && Entries(rows) == Max(0, Min(n, style.maxDisplayIssues))
      && (Announced(rows) == [] || Announced(rows) == [n - Entries(rows)])
  {
    var n := TotalIssues(r.files);
    TotalIsPending(r.files);
    TerminalCounts(style, r, costText, false);
    FileListingEntries(r.files, 0, style.maxDisplayIssues, n, false);
    FileListingAnnounced(r.files, 0, style.maxDisplayIssues, n, false);
  }

  /**
   * Two files of one issue each with a limit of one: the written loop shows
   * the first issue, stops at the file boundary, and never mentions the
   * second; the corrected listing announces it.
   */
  lemma SilentCutAtFileBoundary(i1: ReviewIssue, i2: ReviewIssue)
    ensures var f1 := FileReviewResult("a.py", [i1], "", 1, 0, 0, 0, 0, 0, 0.0);
            var f2 := FileReviewResult("b.py", [i2], "", 1, 0, 0, 0, 0, 0, 0.0);
            var files := [("a.py", f1), ("b.py", f2)];
            && Pending(files) == 2
            && Entries(FileListing(files, 0, 1, 2, false)) == 1
            && Announced(FileListing(files, 0, 1, 2, false)) == []
            && Announced(FileListing(files, 0, 1, 2, true)) == [1]
  {
    var f1 := FileReviewResult("a.py", [i1], "", 1, 0, 0, 0, 0, 0, 0.0);
    var f2 := FileReviewResult("b.py", [i2], "", 1, 0, 0, 0, 0, 0, 0.0);
    var files := [("a.py", f1), ("b.py", f2)];
    assert files[1..][1..] == [];
    assert Pending(files[1..]) == 1;
    var l := IssueListing([i1], 0, 1, 2);
    assert [i1][1..] == [];
    assert IssueListing([], 1, 1, 2) == Listing([], 1, false);
    assert [Entry(i1)] + [] == [Entry(i1)];
    assert l.rows == [Entry(i1)] && l.displayed == 1 && !l.cut;
    assert FileListing(files, 0, 1, 2, false) == FileChunk(f1, l, 1, 2, false);
    assert FileListing(files, 0, 1, 2, true) == FileChunk(f1, l, 1, 2, true);
    ChunkCounts(f1, l, 1, 2, false);
    ChunkCounts(f1, l, 1, 2, true);
  }

  /** The inner loop of `_format_terminal`, over one file's issues, collecting rows. */
  method AppendIssueRows(rows0: seq<Row>, issues: seq<ReviewIssue>, displayed0: int, limit: int, total: int)
    returns (rows: seq<Row>, displayed: int, cut: bool)
    ensures var l := IssueListing(issues, displayed0, limit, total);
            rows == rows0 + l.rows && displayed == l.displayed && cut == l.cut
  {
    ghost var l := IssueListing(issues, displayed0, limit, total);
    rows, displayed, cut := rows0, displayed0, false;
    assert issues[0..] == issues;
    var j := 0;
    while j < |issues|
      invariant 0 <= j <= |issues|
      invariant rows + IssueListing(issues[j..], displayed, limit, total).rows == rows0 + l.rows
      invariant IssueListing(issues[j..], displayed, limit, total).displayed == l.displayed
      invariant IssueListing(issues[j..], displayed, limit, total).cut == l.cut
    {
      assert issues[j..][0] == issues[j] && issues[j..][1..] == issues[j + 1..];
      if displayed >= limit {
        rows := rows + [More(total - displayed)];
        return rows, displayed, true;
      }
      AppendAssoc(rows, [Entry(issues[j])], IssueListing(issues[j + 1..], displayed + 1, limit, total).rows);
      rows := rows + [Entry(issues[j])];
      displayed := displayed + 1;
      j := j + 1;
    }
    assert issues[j..] == [];
    assert rows + [] == rows;
  }

  /** The outer loop of `_format_terminal`: a file stops the listing once the counter reaches the limit. */
  method AppendFileRows(rows0: seq<Row>, files: Dict<string, FileReviewResult>, limit: int, total: int)
    returns (rows: seq<Row>)
    ensures rows == rows0 + FileListing(files, 0, limit, total, false)
  {
    ghost var goal := rows0 + FileListing(files, 0, limit, total, false);
    rows := rows0;
    var displayed := 0;
    var i := 0;
    assert files[0..] == files;
    while i < |files|
      invariant 0 <= i <= |files|
      invariant rows + FileListing(files[i..], displayed, limit, total, false) == goal
    {
      assert files[i..][0] == files[i] && files[i..][1..] == files[i + 1..];
      var f := files[i].1;
      if f.totalIssues != 0 {
        ghost var before := rows;
        ghost var l := IssueListing(f.issues, displayed, limit, total);
        ghost var tail := if l.displayed >= limit then [] else FileListing(files[i + 1..], l.displayed, limit, total, false);
        assert FileListing(files[i..], displayed, limit, total, false) == FileChunk(f, l, limit, total, false) + tail;
        var cut;
        rows, displayed, cut := AppendIssueRows(rows + [Head(f)], f.issues, displayed, limit, total);
        rows := rows + [Text("")];
        assert rows == before + FileChunk(f, l, limit, total, false);
        AppendAssoc(before, FileChunk(f, l, limit, total, false), tail);
        if displayed >= limit {
          assert rows + [] == rows;
          return;
        }
      }
      i := i + 1;
    }
    assert files[i..] == [];
    assert rows + [] == rows;
  }

  /** `_format_terminal`: the rows are collected, then rendered one line each. */
  method FormatTerminal(style: Style, r: ReviewResult, costText: real -> string) returns (out: string)
    ensures out == Join(Render(style, TerminalRowsAsWritten(style, r, costText)), "\n")
  {
    var rows: seq<Row>;
    if r.totalIssues == 0 {
      rows := Texts([Header(style), "", Colorize(style, "✅ No issues found!", "green", false), "", SummaryStats(style, r, costText)]);
    } else {
      rows := Texts([Header(style), "", SummaryStats(style, r, costText), ""]);
      if !style.summaryOnly {
        var total := TotalIssues(r.files);
        rows := AppendFileRows(rows, r.files, style.maxDisplayIssues, total);
        rows := rows + Texts([Footer(style, r)]);
      }
    }
    out := Join(Render(style, rows), "\n");
  }

  // ---------------------------------------------------------------------
  // Markdown
  // ---------------------------------------------------------------------

  /** `str(issue.line) if issue.line else "N/A"` */
  function LineCell(line: Option<int>): string {
    if line.Some? && line.value != 0 then IntToString(line.value) else "N/A"
  }

  /** `N/A` stands for a missing or zero line; any other line reads back as its number. */
  lemma LineCellSpec(line: Option<int>)
    ensures LineCell(line) == "N/A" <==> line.None? || line.value == 0
    ensures line.Some? && line.value != 0 ==> ParseInt(LineCell(line)) == Some(line.value)
  {
    if line.Some? && line.value != 0 {
      var v := line.value;
      var s := IntToString(v);
      assert s[0] == '-' || '0' <= s[0] <= '9' by {
        if v >= 0 {
          assert s == NatToString(v);
        }
      }
      ParseIntOfString(v);
    }
  }

  /** `message.replace('|', '\\|')` */
  function EscapePipes(s: string): (r: string)
    ensures |r| >= |s|
    ensures r != [] ==> r[0] != '|'
  {
    if s == [] then []
    else (if s[0] == '|' then ['\\', '|'] else [s[0]]) + EscapePipes(s[1..])
  }

  /** Reading an escaped message back: `\|` becomes `|`. */
  function UnescapePipes(s: string): string {
    if s == [] then []
    else if |s| >= 2 && s[0] == '\\' && s[1] == '|' then ['|'] + UnescapePipes(s[2..])
    else [s[0]] + UnescapePipes(s[1..])
  }

  /** Escaping loses nothing: unescaping gives the message back. */
  lemma {:induction false} EscapeRoundTrip(s: string)
    ensures UnescapePipes(EscapePipes(s)) == s
  {
    if s != [] {
      EscapeRoundTrip(s[1..]);
      var e := EscapePipes(s);
      var tail := EscapePipes(s[1..]);
      if s[0] == '|' {
        assert e[2..] == tail;
      } else {
        assert e[1..] == tail;
        assert |e| >= 2 ==> e[1] == tail[0];
      }
    }
  }

  /** Every pipe follows a backslash. */
  predicate PipesFollowBackslash(e: string) {
    forall i :: 0 <= i < |e| && e[i] == '|' ==> i > 0 && e[i - 1] == '\\'
  }

  /** Every pipe of an escaped message follows a backslash, so none of them ends a table cell. */
  lemma {:induction false} PipesEscaped(s: string)
    ensures PipesFollowBackslash(EscapePipes(s))
  {
    if s != [] {
      PipesEscaped(s[1..]);
      var e := EscapePipes(s);
      var tail := EscapePipes(s[1..]);
      var h := if s[0] == '|' then ['\\', '|'] else [s[0]];
      assert e == h + tail;
      forall i | 0 <= i < |e| && e[i] == '|' ensures i > 0 && e[i - 1] == '\\' {
        if i >= |h| {
          assert e[i] == tail[i - |h|];
          if i - |h| > 0 {
            assert e[i - 1] == tail[i - |h| - 1];
          }
        } else {
          assert e[i] == h[i];
          assert e[0] == h[0];
        }
      }
    }
  }

  /** One table row of `_format_markdown`. */
  function TableRow(issue: ReviewIssue): string {
    "| " + issue.severity + " | " + LineCell(issue.line) + " | " + issue.rule + " | " + EscapePipes(issue.message) + " |"
  }

  function TableRows(issues: seq<ReviewIssue>): seq<string> {
    if issues == [] then [] else TableRows(issues[..|issues| - 1]) + [TableRow(issues[|issues| - 1])]
  }

  /** The table has one row per issue, in the order of the issues. */
  lemma {:induction false} TableRowsSpec(issues: seq<ReviewIssue>)
    ensures |TableRows(issues)| == |issues|
    ensures forall k :: 0 <= k < |issues| ==> TableRows(issues)[k] == TableRow(issues[k])
  {
    if issues != [] {
      var init := issues[..|issues| - 1];
      var last := TableRow(issues[|issues| - 1]);
      var rows := TableRows(init);
      TableRowsSpec(init);
      assert TableRows(issues) == rows + [last];
      forall k | 0 <= k < |issues| ensures TableRows(issues)[k] == TableRow(issues[k]) {
        if k < |init| {
          assert (rows + [last])[k] == rows[k];
          assert issues[k] == init[k];
        } else {
          assert (rows + [last])[k] == last;
        }
      }
    }
  }

  /** The part of `_format_markdown` for one file with issues. */
  function FileSection(name: string, f: FileReviewResult): seq<string> {
    ["### " + name, "", "**Summary:** " + f.summary, ""]
    + (if f.issues != [] then ["| Severity | Line | Rule | Message |", "|----------|------|------|---------|"] + TableRows(f.issues) + [""]
       else [])
  }

  /** The sections of the files whose total is not zero, in map order. */
  function Sections(files: Dict<string, FileReviewResult>): seq<string> {
    if files == [] then []
    else
      var last := files[|files| - 1];
      Sections(files[..|files| - 1]) + (if last.1.totalIssues == 0 then [] else FileSection(last.0, last.1))
  }

  function MarkdownSummary(r: ReviewResult, costText: real -> string): seq<string> {
    ["# AI Code Review Results", "", "## Summary", "",
     "- **Files reviewed:** " + IntToString(r.totalFiles),
     "- **Total issues:** " + IntToString(r.totalIssues),
     "- **Errors:** " + IntToString(r.totalErrors),
     "- **Warnings:** " + IntToString(r.totalWarnings),
     "- **Info:** " + IntToString(r.totalInfo),
     "- **Suggestions:** " + IntToString(r.totalSuggestions),
     "- **Estimated cost:** $" + costText(r.totalCost),
     ""]
  }

  /** `_format_markdown`, line by line. */
  function MarkdownLines(r: ReviewResult, costText: real -> string): seq<string> {
    MarkdownSummary(r, costText)
    + (if r.totalIssues == 0 then ["✅ **No issues found!**"] else ["## Issues by File", ""] + Sections(r.files))
  }

  /** A file with issues has its heading, its summary, and one table row per issue, in order. */
  lemma FileSectionSpec(name: string, f: FileReviewResult)
    requires f.issues != []
    ensures var s := FileSection(name, f);
      && |s| == 7 + |f.issues| && s[0] == "### " + name && s[2] == "**Summary:** " + f.summary
      && forall k :: 0 <= k < |f.issues| ==> s[6 + k] == TableRow(f.issues[k])
  {
    TableRowsSpec(f.issues);
  }

  /** The inner loop of `_format_markdown`: one row per issue. */
  method AppendTableRows(lines0: seq<string>, issues: seq<ReviewIssue>) returns (lines: seq<string>)
    ensures lines == lines0 + TableRows(issues)
  {
    lines := lines0;
    var k := 0;
    while k < |issues|
      invariant 0 <= k <= |issues|
      invariant lines == lines0 + TableRows(issues[..k])
    {
      assert issues[..k + 1][..k] == issues[..k];
      lines := lines + [TableRow(issues[k])];
      k := k + 1;
    }
    assert issues[..k] == issues;
  }

  /** The part of `_format_markdown` for one file. */
  method AppendSection(lines0: seq<string>, name: string, f: FileReviewResult) returns (lines: seq<string>)
    ensures lines == lines0 + FileSection(name, f)
  {
    lines := lines0 + ["### " + name, "", "**Summary:** " + f.summary, ""];
    if f.issues != [] {
      lines := lines + ["| Severity | Line | Rule | Message |", "|----------|------|------|---------|"];
      lines := AppendTableRows(lines, f.issues);
      lines := lines + [""];
    }
  }

  /** `_format_markdown` */
  method FormatMarkdown(r: ReviewResult, costText: real -> string) returns (out: string)
    ensures out == Join(MarkdownLines(r, costText), "\n")
  {
    var lines := MarkdownSummary(r, costText);
    if r.totalIssues == 0 {
      lines := lines + ["✅ **No issues found!**"];
      return Join(lines, "\n");
    }
    lines := AppendSections(lines + ["## Issues by File", ""], r.files);
    AppendAssoc(MarkdownSummary(r, costText), ["## Issues by File", ""], Sections(r.files));
    out := Join(lines, "\n");
  }

  /** The outer loop of `_format_markdown`: a section for each file whose total is not zero. */
  method AppendSections(lines0: seq<string>, files: Dict<string, FileReviewResult>) returns (lines: seq<string>)
    ensures lines == lines0 + Sections(files)
  {
    lines := lines0;
    var i := 0;
    while i < |files|
      invariant 0 <= i <= |files|
      invariant lines == lines0 + Sections(files[..i])
    {
      assert files[..i + 1][..i] == files[..i];
      var (name, f) := files[i];
      if f.totalIssues != 0 {
        AppendAssoc(lines0, Sections(files[..i]), FileSection(name, f));
        lines := AppendSection(lines, name, f);
      }
      i := i + 1;
    }
    assert files[..i] == files;
  }

  /** `format_review_result`: JSON through the serialiser given, Markdown, or the terminal text for any other name. */
  method FormatReviewResult(style: Style, r: ReviewResult, formatType: string, costText: real -> string,
                            dumps: ReviewResult -> string) returns (out: string)
    ensures formatType == "json" ==> out == dumps(r)
    ensures formatType == "markdown" ==> out == Join(MarkdownLines(r, costText), "\n")
    ensures formatType != "json" && formatType != "markdown" ==>
              out == Join(Render(style, TerminalRowsAsWritten(style, r, costText)), "\n")
  {
    if formatType == "json" {
      out := dumps(r);
    } else if formatType == "markdown" {
      out := FormatMarkdown(r, costText);
    } else {
      out := FormatTerminal(style, r, costText);
    }
  }

  // ---------------------------------------------------------------------
  // Counting helpers
  // ---------------------------------------------------------------------

  /** `get_issue_counts_by_severity` */
  function IssueCountsBySeverity(r: ReviewResult): (d: Dict<string, int>)
    ensures Keys(d) == ReviewModels.Severities
  {
    [("error", r.totalErrors), ("warning", r.totalWarnings), ("info", r.totalInfo), ("suggestion", r.totalSuggestions)]
  }

  /** Each severity maps to its run total, so when the totals agree the four values add up to the issue total. */
  lemma SeverityCountsSpec(r: ReviewResult)
    ensures var d := IssueCountsBySeverity(r);
      && Get(d, "error") == Some(r.totalErrors) && Get(d, "warning") == Some(r.totalWarnings)
      && Get(d, "info") == Some(r.totalInfo) && Get(d, "suggestion") == Some(r.totalSuggestions)
      && SumValues(d) == r.totalErrors + r.totalWarnings + r.totalInfo + r.totalSuggestions
      && (Totalled(r) ==> SumValues(d) == r.totalIssues)
  {
    var d := IssueCountsBySeverity(r);
    var d1 := d[1..];
    var d2 := d1[1..];
    var d3 := d2[1..];
    assert d3[1..] == [];
    assert SumValues(d3) == r.totalSuggestions;
    assert SumValues(d2) == r.totalInfo + SumValues(d3);
    assert SumValues(d1) == r.totalWarnings + SumValues(d2);
    GetQuad("error", r.totalErrors, "warning", r.totalWarnings, "info", r.totalInfo, "suggestion", r.totalSuggestions);
  }

  /** The issues of all files, in map order. */
  function AllIssues(files: Dict<string, FileReviewResult>): seq<ReviewIssue> {
    if files == [] then [] else AllIssues(files[..|files| - 1]) + files[|files| - 1].1.issues
  }

  lemma {:induction false} AllIssuesCount(files: Dict<string, FileReviewResult>)
    ensures |AllIssues(files)| == Engine.IssueCount(files)
  {
    if files != [] {
      AllIssuesCount(files[..|files| - 1]);
    }
  }

  /** The rules of the issues, in order. */
  function Rules(issues: seq<ReviewIssue>): (rules: seq<string>)
    ensures |rules| == |issues| && forall i :: 0 <= i < |issues| ==> rules[i] == issues[i].rule
  {
    if issues == [] then [] else [issues[0].rule] + Rules(issues[1..])
  }

  /** Counting the rules of one more file continues from the counts of the files before it. */
  lemma CountFilesStep(counts: Dict<string, int>, files: Dict<string, FileReviewResult>, i: int)
    requires 0 <= i < |files|
    ensures CountKeys(counts, Rules(AllIssues(files[..i + 1])))
            == CountKeys(CountKeys(counts, Rules(AllIssues(files[..i]))), Rules(files[i].1.issues))
  {
    assert files[..i + 1][..i] == files[..i];
    var before := AllIssues(files[..i]);
    var more := files[i].1.issues;
    assert AllIssues(files[..i + 1]) == before + more;
    assert Rules(before + more) == Rules(before) + Rules(more);
    CountKeysAppend(counts, Rules(before), Rules(more));
  }

  /** `get_issue_counts_by_rule` */
  method IssueCountsByRule(r: ReviewResult) returns (counts: Dict<string, int>)
    ensures counts == CountKeys([], Rules(AllIssues(r.files)))
  {
    counts := [];
    var i := 0;
    while i < |r.files|
      invariant 0 <= i <= |r.files|
      invariant counts == CountKeys([], Rules(AllIssues(r.files[..i])))
    {
      CountFilesStep([], r.files, i);
      counts := CountInto(counts, Rules(r.files[i].1.issues));
      i := i + 1;
    }
    assert r.files[..i] == r.files;
  }

  /** Over the issues of all files, the rule counts are those of `CountKeysSpec`, and they add up to the number of issues. */
  lemma RuleCountsSpec(files: Dict<string, FileReviewResult>, rule: string)
    ensures var rules := Rules(AllIssues(files)); var n := Occurrences(rules, rule);
            Get(CountKeys([], rules), rule) == if n > 0 then Some(n) else None
    ensures SumValues(CountKeys([], Rules(AllIssues(files)))) == Engine.IssueCount(files)
  {
    CountKeysSpec(Rules(AllIssues(files)), rule);
    AllIssuesCount(files);
  }

  /** `get_files_with_issues` */
  function FilesWithIssues(files: Dict<string, FileReviewResult>): (names: seq<string>)
    ensures |names| <= |files|
  {
    if files == [] then []
    else
      var last := files[|files| - 1];
      FilesWithIssues(files[..|files| - 1]) + (if last.1.totalIssues > 0 then [last.0] else [])
  }

  /** A name is listed exactly when some file under it has a positive total. */
  lemma {:induction false} FilesWithIssuesSpec(files: Dict<string, FileReviewResult>)
    ensures forall name :: name in FilesWithIssues(files) <==>
              exists i :: 0 <= i < |files| && files[i].0 == name && files[i].1.totalIssues > 0
  {
    if files != [] {
      var init := files[..|files| - 1];
      FilesWithIssuesSpec(init);
      forall name ensures name in FilesWithIssues(files) <==>
                          exists i :: 0 <= i < |files| && files[i].0 == name && files[i].1.totalIssues > 0 {
        if exists i :: 0 <= i < |init| && init[i].0 == name && init[i].1.totalIssues > 0 {
          var i :| 0 <= i < |init| && init[i].0 == name && init[i].1.totalIssues > 0;
          assert files[i] == init[i];
        }
        if exists i :: 0 <= i < |files| && files[i].0 == name && files[i].1.totalIssues > 0 {
          var i :| 0 <= i < |files| && files[i].0 == name && files[i].1.totalIssues > 0;
          if i < |init| {
            assert init[i] == files[i];
          }
        }
      }
    }
  }

  /** The names follow map order: the files of two consecutive parts list the names of each part in turn. */
  lemma {:induction false} FilesWithIssuesAppend(a: Dict<string, FileReviewResult>, b: Dict<string, FileReviewResult>)
    ensures FilesWithIssues(a + b) == FilesWithIssues(a) + FilesWithIssues(b)
    decreases |b|
  {
    if b != [] {
      assert (a + b)[..|a + b| - 1] == a + b[..|b| - 1];
      FilesWithIssuesAppend(a, b[..|b| - 1]);
    } else {
      assert a + b == a;
    }
  }
}
