/** The whole output of `content query`: ParseSMSOutput in internal/adb/sms.go, against the printed rows. */
module SmsOutput {
  import opened Text
  import opened RowParser

  /** Panic: the parser does not return, because a row made it slice out of range. */
  datatype Output = Messages(list: seq<Sms>) | SqliteError | RowError(cause: RowResult) | Panic

  // ------------------------------------------------------------------ the parser

  /** unicode.IsSpace */
  predicate IsSpace(c: char) {
    || '\t' <= c <= '\r' || c == ' ' || c == '\U{85}' || c == '\U{A0}' || c == '\U{1680}'
    || '\U{2000}' <= c <= '\U{200A}' || c == '\U{2028}' || c == '\U{2029}' || c == '\U{202F}' || c == '\U{205F}'
    || c == '\U{3000}'
  }

  function TrimLeft(s: string): string {
    if s != [] && IsSpace(s[0]) then TrimLeft(s[1..]) else s
  }

  function TrimRight(s: string): string {
    if s != [] && IsSpace(s[|s| - 1]) then TrimRight(s[..|s| - 1]) else s
  }

  function TrimSpace(s: string): string {
    TrimRight(TrimLeft(s))
  }

  /** (?m)^Row: \d+ : where a match at i ends. */
  function HeaderAt(s: string, i: nat): (r: Option<nat>)
    ensures r.Some? ==> i < r.value <= |s|
  {
    if (i > 0 && i <= |s| && s[i - 1] != '\n') || !OccursAt(s, "Row: ", i) then None
    else
      var e := SkipDigits(s, i + 5);
      if e > i + 5 && e < |s| && s[e] == ' ' then Some(e + 1) else None
  }

  /** What lies between the headers, from the part that began at `from`. */
  function Split(s: string, from: nat, i: nat): (parts: seq<string>)
    requires from <= i <= |s|
    ensures parts != []
    decreases |s| - i
  {
    if i == |s| then [s[from..]]
    else if HeaderAt(s, i).Some? then [s[from..i]] + Split(s, HeaderAt(s, i).value, HeaderAt(s, i).value)
    else Split(s, from, i + 1)
  }

  function Trims(parts: seq<string>): (rows: seq<string>)
    ensures |rows| == |parts| && forall k :: 0 <= k < |parts| ==> rows[k] == TrimSpace(parts[k])
  {
    seq(|parts|, k requires 0 <= k < |parts| => TrimSpace(parts[k]))
  }

  /** One more trimmed part; parse reads a row. */
  function AddRow(parse: string -> RowResult, before: Output, row: string): Output {
    if !before.Messages? || row == [] then before
    else
      var r := parse(row);
      if r.Parsed? then Messages(before.list + [r.sms])
      else if r.OutOfRange? then Panic
      else RowError(r)
  }

  function ParseRows(parse: string -> RowResult, rows: seq<string>): Output {
    if rows == [] then Messages([])
    else AddRow(parse, ParseRows(parse, rows[..|rows| - 1]), rows[|rows| - 1])
  }

  function ParseOutput(raw: string): Output {
    var s := TrimSpace(raw);
    if s == [] || StartsWith(s, "No result found") then Messages([])
    else if IndexFrom(s, "SQLiteException", 0).Some? || IndexFrom(s, "Error while accessing provider", 0).Some?
    then SqliteError
    else ParseRows(ParseRow, Trims(Split(s, 0, 0)))
  }

  lemma ParsePrefix(parse: string -> RowResult, rows: seq<string>, k: nat)
    requires k < |rows|
    ensures ParseRows(parse, rows[..k + 1]) == AddRow(parse, ParseRows(parse, rows[..k]), rows[k])
  {
    assert rows[..k + 1][..k] == rows[..k];
  }

  lemma {:induction false} ErrorsStay(parse: string -> RowResult, rows: seq<string>, k: nat)
    requires k <= |rows| && !ParseRows(parse, rows[..k]).Messages?
    ensures ParseRows(parse, rows) == ParseRows(parse, rows[..k])
    decreases |rows| - k
  {
    if k == |rows| {
      assert rows[..k] == rows;
    } else {
      ParsePrefix(parse, rows, k);
      ErrorsStay(parse, rows, k + 1);
    }
  }

  ghost predicate Reads(parse: string -> RowResult, row: string) {
    row == [] || parse(row).Parsed?
  }

  /** The parser gets as far as row k. */
  ghost predicate ReadsUpTo(parse: string -> RowResult, rows: seq<string>, k: nat)
    requires k <= |rows|
  {
    forall j :: 0 <= j < k ==> Reads(parse, rows[j])
  }

  /** Row k is the first that is not read, and the slice is out of range there. */
  ghost predicate PanicsAt(parse: string -> RowResult, rows: seq<string>, k: nat)
    requires k < |rows|
  {
    ReadsUpTo(parse, rows, k) && rows[k] != [] && parse(rows[k]).OutOfRange?
  }

  /** All is read exactly when every row that is not blank is, and the first one that is not decides otherwise. */
  lemma {:induction false} ParseRowsIff(parse: string -> RowResult, rows: seq<string>)
    ensures ParseRows(parse, rows).Messages? <==> ReadsUpTo(parse, rows, |rows|)
    ensures ParseRows(parse, rows).Panic? <==> exists k :: 0 <= k < |rows| && PanicsAt(parse, rows, k)
    ensures !ParseRows(parse, rows).SqliteError?
  {
    if rows != [] {
      var front, n := rows[..|rows| - 1], |rows| - 1;
      ParseRowsIff(parse, front);
      assert forall j :: 0 <= j < n ==> front[j] == rows[j];
      assert ReadsUpTo(parse, rows, |rows|) <==> ReadsUpTo(parse, front, n) && Reads(parse, rows[n]);
      forall k | 0 <= k < n ensures PanicsAt(parse, front, k) <==> PanicsAt(parse, rows, k) {
      }
      assert ReadsUpTo(parse, rows, n) <==> ReadsUpTo(parse, front, n);
      assert PanicsAt(parse, rows, n)
             <==> ParseRows(parse, front).Messages? && rows[n] != [] && parse(rows[n]).OutOfRange?;
      if k :| 0 <= k < n && PanicsAt(parse, front, k) {
        assert PanicsAt(parse, rows, k);
      }
    }
  }

  /** ParseSMSOutput, as the loop that it is: it stops at the first row that does not parse, and does not return from
      one that makes it panic. */
  method ParseSMSOutput(raw: string) returns (out: Output)
    ensures out == ParseOutput(raw)
  {
    var s := TrimSpace(raw);
    if s == [] || StartsWith(s, "No result found") {
      return Messages([]);
    }
    if IndexFrom(s, "SQLiteException", 0).Some? || IndexFrom(s, "Error while accessing provider", 0).Some? {
      return SqliteError;
    }
    var parts := Split(s, 0, 0);
    ghost var rows := Trims(parts);
    var msgs: seq<Sms> := [];
    var i := 0;
    while i < |parts|
      invariant 0 <= i <= |parts|
      invariant ParseRows(ParseRow, rows[..i]) == Messages(msgs)
    {
      ParsePrefix(ParseRow, rows, i);
      var part := TrimSpace(parts[i]);
      i := i + 1;
      if part == [] {
        continue;
      }
      var row := ParseRow(part);
      if !row.Parsed? {
        ErrorsStay(ParseRow, rows, i);
        return if row.OutOfRange? then Panic else RowError(row);
      }
      msgs := msgs + [row.sms];
    }
    assert rows[..i] == rows;
    out := Messages(msgs);
  }

  // ------------------------------------------------------------------ the printed rows

  function RowLine(fields: string, n: nat): string {
    "Row: " + Decimal(n) + " " + fields
  }

  function Texts(rows: seq<Row>): (texts: seq<string>)
    ensures |texts| == |rows| && forall k :: 0 <= k < |rows| ==> texts[k] == Fields(rows[k])
  {
    seq(|rows|, k requires 0 <= k < |rows| => Fields(rows[k]))
  }

  function PrintLines(texts: seq<string>, n: nat): string {
    if texts == [] then "" else RowLine(texts[0], n) + "\n" + PrintLines(texts[1..], n + 1)
  }

  /** How `content query` prints rows: they are numbered, and each ends with a newline. */
  function Print(rows: seq<Row>): string {
    PrintLines(Texts(rows), 0)
  }

  /** What it prints for an inbox. */
  function InboxText(rows: seq<Row>): string {
    if rows == [] then "No result found.\n" else Print(rows)
  }

  /** The same without the last newline. */
  function Joined(texts: seq<string>, n: nat): string
    requires texts != []
  {
    if |texts| == 1 then RowLine(texts[0], n) else RowLine(texts[0], n) + "\n" + Joined(texts[1..], n + 1)
  }

  lemma {:induction false} PrintIsJoined(texts: seq<string>, n: nat)
    requires texts != []
    ensures PrintLines(texts, n) == Joined(texts, n) + "\n"
  {
    if |texts| == 1 {
      assert PrintLines(texts[1..], n + 1) == "";
      assert PrintLines(texts, n) == RowLine(texts[0], n) + "\n";
    } else {
      PrintIsJoined(texts[1..], n + 1);
      var a, b := RowLine(texts[0], n) + "\n", Joined(texts[1..], n + 1);
      assert a + (b + "\n") == (a + b) + "\n";
    }
  }

  // ------------------------------------------------------------------ row headers inside a text

  lemma HeaderChars(s: string, k: nat, x: nat)
    requires HeaderAt(s, k).Some? && k <= x < HeaderAt(s, k).value
    ensures s[x] != '\n' && s[x] != ','
  {
    var e := SkipDigits(s, k + 5);
    if x < k + 5 {
      OccursChar(s, "Row: ", k, x - k);
    } else if x < e {
      assert s[k + 5..e][x - (k + 5)] == s[x];
    }
  }

  /** Inside a line, or up to a comma, a header of the whole text is one of that piece alone. */
  lemma HeaderIsLocal(s: string, a: nat, b: nat, k: nat)
    requires a < k <= b <= |s| && (b < |s| ==> s[b] == '\n' || s[b] == ',') && HeaderAt(s, k).Some?
    ensures HeaderAt(s, k).value <= b && HeaderAt(s[a..b], k - a) == Some(HeaderAt(s, k).value - a)
  {
    var v := HeaderAt(s, k).value;
    if b < v {
      HeaderChars(s, k, b);
    }
    var f, e := s[a..b], v - 1;
    SliceOfSlice(s, a, b, k - a, k - a + 5);
    SliceOfSlice(s, a, b, k - a + 5, e - a);
    DigitsEndAt(f, k - a + 5, e - a);
  }

  lemma HeaderStays(s: string, a: nat, b: nat, k: nat)
    requires a <= b <= |s| && k > 0 && HeaderAt(s[a..b], k).Some?
    ensures k < b - a && HeaderAt(s, a + k) == Some(HeaderAt(s[a..b], k).value + a)
  {
    var f := s[a..b];
    var e := HeaderAt(f, k).value - 1;
    SliceOfSlice(s, a, b, k, k + 5);
    SliceOfSlice(s, a, b, k + 5, e);
    DigitsEndAt(s, a + k + 5, a + e);
  }

  /** No line of the text but its first starts like a row. */
  ghost predicate OneRow(text: string) {
    forall k: nat :: k > 0 ==> HeaderAt(text, k).None?
  }

  lemma NoCharJoin(a: string, b: string, c: char)
    requires NoChar(a, c) && NoChar(b, c)
    ensures NoChar(a + b, c)
  {
  }

  lemma SimHasNoNewline(sim: Sim)
    ensures NoChar(SimText(sim), '\n')
  {
    match sim
    case NoColumn =>
    case Null(standard) =>
    case Value(standard, id) =>
      NoCharJoin(ColumnName(standard), DecimalInt(id), '\n');
      NoCharJoin(ColumnName(standard) + DecimalInt(id), ", ", '\n');
  }

  lemma HeadHasNoNewline(r: Row)
    ensures NoChar(Head(r), '\n')
  {
    NoCharJoin("_id=", Decimal(r.id), '\n');
    NoCharJoin("_id=" + Decimal(r.id), ", ", '\n');
    SimHasNoNewline(r.sim);
    NoCharJoin(IdText(r.id), SimText(r.sim), '\n');
  }

  lemma NewlineInTexts(s: string, r: Row, k: nat)
    requires Laid(s, r) && k < |s| && s[k] == '\n'
    ensures AddressAt(r) <= k < TagAt(r) || BodyAt(r) <= k < SuffixAt(r)
  {
    if k < |Head(r)| {
      HeadHasNoNewline(r);
    }
  }

  lemma LaidOneRow(s: string, r: Row)
    requires Laid(s, r)
    ensures OneRow(s) <==> OneRow(r.address) && OneRow(r.body)
  {
    assert s[TagAt(r)] == s[TagAt(r)..BodyAt(r)][0] == ',';
    assert s[SuffixAt(r)] == s[SuffixAt(r)..SuffixAt(r) + 7][0] == ',';
    if k: nat :| k > 0 && HeaderAt(s, k).Some? {
      NewlineInTexts(s, r, k - 1);
      if k <= TagAt(r) {
        HeaderIsLocal(s, AddressAt(r), TagAt(r), k);
      } else {
        HeaderIsLocal(s, BodyAt(r), SuffixAt(r), k);
      }
    }
    if k: nat :| k > 0 && HeaderAt(r.address, k).Some? {
      HeaderStays(s, AddressAt(r), TagAt(r), k);
    }
    if k: nat :| k > 0 && HeaderAt(r.body, k).Some? {
      HeaderStays(s, BodyAt(r), SuffixAt(r), k);
    }
  }

  /** Only the address and the body can hold such a line. */
  lemma OneRowIff(r: Row)
    ensures OneRow(Fields(r)) <==> OneRow(r.address) && OneRow(r.body)
  {
    FieldsAreLaid(r);
    LaidOneRow(Fields(r), r);
  }

  // ------------------------------------------------------------------ trimming

  /** The text holds something other than white space. */
  ghost predicate Inked(s: string) {
    exists k :: 0 <= k < |s| && !IsSpace(s[k])
  }

  lemma {:induction false} TrimLeftInk(s: string)
    ensures Inked(TrimLeft(s)) <==> Inked(s)
  {
    if s != [] && IsSpace(s[0]) {
      TrimLeftInk(s[1..]);
      if k :| 0 <= k < |s| && !IsSpace(s[k]) {
        assert s[1..][k - 1] == s[k];
      }
      if k :| 0 <= k < |s[1..]| && !IsSpace(s[1..][k]) {
        assert s[k + 1] == s[1..][k];
      }
    }
  }

  lemma {:induction false} TrimRightInk(s: string)
    ensures TrimRight(s) != [] <==> Inked(s)
  {
    if s != [] {
      var n := |s| - 1;
      if IsSpace(s[n]) {
        TrimRightInk(s[..n]);
        if k :| 0 <= k < |s| && !IsSpace(s[k]) {
          assert s[..n][k] == s[k];
        }
      }
    }
  }

  lemma TrimInk(s: string)
    ensures TrimSpace(s) != [] <==> Inked(s)
  {
    TrimLeftInk(s);
    TrimRightInk(TrimLeft(s));
  }

  /** Only a final newline is cut off. */
  lemma TrimNewline(s: string)
    requires s != [] && !IsSpace(s[0]) && !IsSpace(s[|s| - 1])
    ensures TrimSpace(s) == s && TrimSpace(s + "\n") == s
  {
    assert (s + "\n")[..|s|] == s;
  }

  lemma {:induction false} TrimLeftNewline(s: string)
    ensures TrimLeft(s + "\n") == if TrimLeft(s) == [] then [] else TrimLeft(s) + "\n"
  {
    if s == [] {
      assert s + "\n" == ['\n'] && ['\n'][1..] == [];
    } else if IsSpace(s[0]) {
      assert (s + "\n")[1..] == s[1..] + "\n";
      TrimLeftNewline(s[1..]);
    }
  }

  /** So is that of any other text. */
  lemma NewlineTrimmed(s: string)
    ensures TrimSpace(s + "\n") == TrimSpace(s)
  {
    TrimLeftNewline(s);
    var t := TrimLeft(s);
    assert (t + "\n")[..|t|] == t;
  }

  lemma {:induction false} TrimLeftIs(lead: string, s: string)
    requires (forall k :: 0 <= k < |lead| ==> IsSpace(lead[k])) && s != [] && !IsSpace(s[0])
    ensures TrimLeft(lead + s) == s
  {
    if lead == [] {
      assert lead + s == s;
    } else {
      assert (lead + s)[1..] == lead[1..] + s;
      TrimLeftIs(lead[1..], s);
    }
  }

  lemma {:induction false} TrimRightIs(s: string, trail: string)
    requires (forall k :: 0 <= k < |trail| ==> IsSpace(trail[k])) && s != [] && !IsSpace(s[|s| - 1])
    ensures TrimRight(s + trail) == s
  {
    if trail == [] {
      assert s + trail == s;
    } else {
      var n := |trail| - 1;
      assert (s + trail)[..|s| + n] == s + trail[..n];
      TrimRightIs(s, trail[..n]);
    }
  }

  /** Trimming gives back a text that white space has been put around. */
  lemma TrimIs(lead: string, s: string, trail: string)
    requires forall k :: 0 <= k < |lead| ==> IsSpace(lead[k])
    requires forall k :: 0 <= k < |trail| ==> IsSpace(trail[k])
    requires s != [] && !IsSpace(s[0]) && !IsSpace(s[|s| - 1])
    ensures TrimSpace(lead + s + trail) == s
  {
    assert lead + s + trail == lead + (s + trail);
    TrimLeftIs(lead, s + trail);
    TrimRightIs(s, trail);
  }

  // ------------------------------------------------------------------ outputs without rows

  /** Blank output, and the text for an empty inbox, are no messages; any other output is a database error if and only
      if it holds one of the two error texts. */
  lemma OutputKinds(raw: string)
    ensures var s, out := TrimSpace(raw), ParseOutput(raw);
      if s == "" || "No result found" <= s then out == Messages([])
      else out.SqliteError? <==> Contains(s, "SQLiteException") || Contains(s, "Error while accessing provider")
  {
    var s := TrimSpace(raw);
    StartsIff(s, "No result found");
    FoundIff(s, "SQLiteException");
    FoundIff(s, "Error while accessing provider");
    NoSqliteError(ParseRow, Trims(Split(s, 0, 0)));
  }

  lemma StartsIff(s: string, p: string)
    ensures StartsWith(s, p) <==> p <= s
  {
  }

  lemma FoundIff(s: string, p: string)
    ensures IndexFrom(s, p, 0).Some? <==> Contains(s, p)
  {
  }

  lemma NoSqliteError(parse: string -> RowResult, rows: seq<string>)
    ensures !ParseRows(parse, rows).SqliteError?
  {
    ParseRowsIff(parse, rows);
  }

  /** The phone's answer for an empty inbox. */
  lemma EmptyInbox(lead: string, trail: string)
    requires forall k :: 0 <= k < |lead| ==> IsSpace(lead[k])
    requires forall k :: 0 <= k < |trail| ==> IsSpace(trail[k])
    ensures ParseOutput(lead + "No result found." + trail) == Messages([])
  {
    var s := "No result found.";
    TrimIs(lead, s, trail);
    assert s[..15] == "No result found";
    OutputKinds(lead + s + trail);
  }

  lemma FieldsEnds(r: Row)
    ensures var f := Fields(r); f != [] && f[0] == '_' && IsDigit(f[|f| - 1])
  {
    FieldsAreLaid(r);
    HeadShape(r);
    var f := Fields(r);
    assert f[0] == f[..|Head(r)|][0] == Head(r)[..|IdText(r.id)|][0] == IdText(r.id)[0];
    assert f[|f| - 1] == f[SuffixAt(r) + 7..][|Decimal(r.date)| - 1];
  }
}
