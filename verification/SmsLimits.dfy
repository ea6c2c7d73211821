/** Where reading back `content query` output ends: one message can print like two. (internal/adb/sms.go) */
module SmsLimits {
  import opened Text
  import opened RowParser
  import opened SmsOutput
  import opened SmsRoundTrip

  /** One message whose text goes on as if the row had ended and another had begun. */
  function TwoInOne(r: Row, opening: string, date: nat): Row {
    r.(body := r.body + ", date=" + Decimal(r.date) + "\nRow: 1 " + opening, date := date)
  }

  lemma FieldsOfBoth(r: Row, opening: string, date: nat)
    ensures Fields(TwoInOne(r, opening, date)) == Fields(r) + "\nRow: 1 " + (opening + ", date=" + Decimal(date))
  {
    var front := Head(r) + "address=" + r.address + ", body=";
    var tail := ", date=" + Decimal(r.date);
    var mid := "\nRow: 1 ";
    assert TwoInOne(r, opening, date).body == r.body + tail + mid + opening;
    assert Fields(r) == front + r.body + tail;
    assert Fields(TwoInOne(r, opening, date)) == front + (r.body + tail + mid + opening) + ", date=" + Decimal(date);
  }

  lemma PrintOne(f: string)
    ensures PrintLines([f], 0) == "Row: 0 " + f + "\n"
  {
    assert Decimal(0) == "0" && [f][1..] == [];
  }

  lemma PrintTwo(f: string, g: string)
    ensures PrintLines([f, g], 0) == "Row: 0 " + f + "\nRow: 1 " + g + "\n"
  {
    assert Decimal(0) == "0" && Decimal(1) == "1" && [f, g][1..] == [g] && [g][1..] == [];
    assert PrintLines([g], 1) == "Row: 1 " + g + "\n";
  }

  /** It prints like two rows. */
  lemma PrintsLikeTwo(r: Row, opening: string, date: nat)
    ensures Print([TwoInOne(r, opening, date)]) == PrintLines([Fields(r), opening + ", date=" + Decimal(date)], 0)
  {
    var one, g := TwoInOne(r, opening, date), opening + ", date=" + Decimal(date);
    assert Texts([one]) == [Fields(one)];
    FieldsOfBoth(r, opening, date);
    PrintOne(Fields(one));
    PrintTwo(Fields(r), g);
    InTwoLines("Row: 0 ", Fields(r), "\nRow: 1 ", g, "\n");
  }

  lemma InTwoLines(a: string, b: string, c: string, d: string, e: string)
    ensures a + (b + c + d) + e == a + b + c + d + e
  {
    assert a + (b + c + d) == a + b + c + d;
  }

  /** So the output does not determine the messages: no parser could tell the one from the two. */
  lemma PrintIsAmbiguous(r: Row, q: Row) returns (one: Row)
    ensures Print([one]) == Print([r, q])
  {
    var opening := Head(q) + "address=" + q.address + ", body=" + q.body;
    one := TwoInOne(r, opening, q.date);
    PrintsLikeTwo(r, opening, q.date);
    assert Texts([r, q]) == [Fields(r), Fields(q)];
  }

  // ------------------------------------------------------------------ texts at which parseRow panics

  /** How such a row begins. */
  function Opening(id: nat, text: string): string {
    "_id=" + Decimal(id) + ", body=address=" + text
  }

  function Crossed(id: nat, text: string, date: nat): string {
    Opening(id, text) + ", date=" + Decimal(date)
  }

  lemma FrontParts(s: string, d: string, rest: string)
    requires s == "_id=" + d + ", body=address=" + rest
    ensures s[0..4] == "_id=" && s[4..4 + |d|] == d && s[4 + |d|] == ','
    ensures OccursAt(s, ", body=", 4 + |d|) && OccursAt(s, "address=", 4 + |d| + 7)
  {
    var mid := ", body=address=";
    assert s[4 + |d|..4 + |d| + 15] == mid;
    SliceOfSlice(s, 4 + |d|, 4 + |d| + 15, 0, 7);
    SliceOfSlice(s, 4 + |d|, 4 + |d| + 15, 7, 15);
    assert mid[0..7] == ", body=" && mid[7..15] == "address=";
    assert s[4 + |d|] == s[4 + |d|..4 + |d| + 15][0];
  }

  lemma BackParts(s: string, front: string, d: string)
    requires s == front + ", date=" + d
    ensures var t := |front|;
      t + 7 + |d| == |s| && s[t] == ',' && s[t + 1] == ' ' && s[t + 2..t + 7] == "date=" && s[t + 7..|s|] == d
  {
    var mid, t := ", date=", |front|;
    assert s[t..t + 7] == mid;
    SliceOfSlice(s, t, t + 7, 2, 7);
    assert mid[2..7] == "date=";
    assert s[t] == s[t..t + 7][0] && s[t + 1] == s[t..t + 7][1];
  }

  lemma CrossedFront(id: nat, text: string, date: nat)
    ensures var s, d := Crossed(id, text, date), Decimal(id);
      && 4 + |d| < |s| && s[0..4] == "_id=" && s[4..4 + |d|] == d && s[4 + |d|] == ','
      && OccursAt(s, ", body=", 4 + |d|) && OccursAt(s, "address=", 4 + |d| + 7)
  {
    TextLast(Decimal(id), text, Decimal(date));
    FrontParts(Crossed(id, text, date), Decimal(id), text + (", date=" + Decimal(date)));
  }

  lemma TextLast(d: string, text: string, e: string)
    ensures "_id=" + d + ", body=address=" + text + ", date=" + e
            == "_id=" + d + ", body=address=" + (text + (", date=" + e))
  {
    var front := "_id=" + d + ", body=address=";
    assert front + text + ", date=" + e == front + (text + (", date=" + e));
  }

  lemma IdIsFound(s: string, d: string)
    requires d != [] && AllDigits(d) && 4 + |d| < |s| && s[0..4] == "_id=" && s[4..4 + |d|] == d && s[4 + |d|] == ','
    ensures FindId(s).Some?
  {
    DigitsEndAt(s, 4, 4 + |d|);
    assert IdAt(s, 0) == Some(d);
  }

  lemma DateIsFound(s: string, front: string, d: string)
    requires d != [] && AllDigits(d) && s == front + ", date=" + d
    ensures FindDate(s).Some?
  {
    var t := |front|;
    BackParts(s, front, d);
    assert SkipSpace(s, t + 1) == t + 2;
    DigitsEndAt(s, t + 7, |s|);
    assert DateAt(s, t) == Some(d);
  }

  lemma NoAddressBefore(s: string, d: nat, k: nat)
    requires 4 <= d <= |s| && s[0..4] == "_id=" && AllDigits(s[4..d]) && k < d
    ensures !OccursAt(s, "address=", k)
  {
    assert s[k] == if k < 4 then s[0..4][k] else s[4..d][k - 4];
    if OccursAt(s, "address=", k) {
      OccursChar(s, "address=", k, 0);
    }
  }

  lemma CrossedAt(s: string, d: nat)
    requires FindId(s).Some? && FindDate(s).Some?
    requires 4 <= d <= |s| && s[0..4] == "_id=" && AllDigits(s[4..d])
    requires OccursAt(s, ", body=", d) && OccursAt(s, "address=", d + 7)
    ensures TagsCrossed(s)
  {
    var at := IndexFrom(s, "address=", 0);
    if at.Some? && at.value < d {
      NoAddressBefore(s, d, at.value);
    }
  }

  lemma TagsAreCrossed(id: nat, text: string, date: nat)
    ensures TagsCrossed(Crossed(id, text, date))
  {
    CrossedFront(id, text, date);
    IdIsFound(Crossed(id, text, date), Decimal(id));
    DateIsFound(Crossed(id, text, date), Opening(id, text), Decimal(date));
    CrossedAt(Crossed(id, text, date), 4 + |Decimal(id)|);
  }

  lemma CrossedRowLike(id: nat, text: string, date: nat)
    ensures RowLike(Crossed(id, text, date))
  {
    var s, t := Crossed(id, text, date), |Opening(id, text)|;
    CrossedFront(id, text, date);
    BackParts(s, Opening(id, text), Decimal(date));
    assert s[0] == s[0..4][0] && s[|s| - 1] == s[t + 7..|s|][|Decimal(date)| - 1];
  }

  /** The parser panics at any message whose text is that of a whole row, continued in this way, unless it holds an
      error text or yet another row header. */
  lemma PanicsAtSecond(r: Row, id: nat, text: string, date: nat)
    requires OneRow(r.address) && OneRow(r.body) && OneRow(Crossed(id, text, date))
    requires MarkerFree([TwoInOne(r, Opening(id, text), date)])
    ensures ParseOutput(Print([TwoInOne(r, Opening(id, text), date)])) == Panic
  {
    var g := Crossed(id, text, date);
    var texts := [Fields(r), g];
    PrintsLikeTwo(r, Opening(id, text), date);
    FieldsEnds(r);
    OneRowIff(r);
    RowRoundTripIff(r);
    CrossedRowLike(id, text, date);
    TagsAreCrossed(id, text, date);
    PanicsIff(g);
    AllWhole(texts);
    CutRowByRow(texts);
    ParseRowsIff(ParseRow, texts);
    assert PanicsAt(ParseRow, texts, 1);
  }

  // ------------------------------------------------------------------ one of them

  lemma NoLine(s: string)
    requires NoChar(s, '\n')
    ensures OneRow(s)
  {
  }

  lemma LacksMarker(output: string)
    requires NoChar(output, 'S') && NoChar(output, 'E')
    ensures NoMarker(output)
  {
    if i: nat :| OccursAt(output, "SQLiteException", i) {
      OccursChar(output, "SQLiteException", i, 0);
    }
    if i: nat :| OccursAt(output, "Error while accessing provider", i) {
      OccursChar(output, "Error while accessing provider", i, 0);
    }
  }

  lemma PrintLacks(f: string, g: string, c: char)
    requires NoChar(f, c) && NoChar(g, c) && (c == 'S' || c == 'E')
    ensures NoChar(PrintLines([f, g], 0), c)
  {
    PrintTwo(f, g);
    NoCharJoin("Row: 0 ", f, c);
    NoCharJoin("Row: 0 " + f, "\nRow: 1 ", c);
    NoCharJoin("Row: 0 " + f + "\nRow: 1 ", g, c);
    NoCharJoin("Row: 0 " + f + "\nRow: 1 " + g, "\n", c);
  }

  const FIRST := Row(1, NoColumn, "x", "hi", 1)
  const FIRST_FIELDS := "_id=1, address=x, body=hi, date=1"
  const SECOND_FIELDS := "_id=5, body=address=x, date=2"

  lemma ExampleOpening()
    ensures Opening(5, "x") == "_id=5, body=address=x"
  {
    assert "_id=" + Decimal(5) == "_id=5";
  }

  lemma ExampleRow()
    ensures TwoInOne(FIRST, Opening(5, "x"), 2) == Row(1, NoColumn, "x", "hi, date=1\nRow: 1 _id=5, body=address=x", 2)
  {
    ExampleOpening();
    assert "hi" + ", date=" + Decimal(1) == "hi, date=1";
  }

  lemma ExampleHead()
    ensures Head(FIRST) == "_id=1, "
  {
    assert Decimal(1) == "1";
  }

  lemma ExampleFirst()
    ensures Fields(FIRST) == FIRST_FIELDS
  {
    ExampleHead();
    assert Fields(FIRST) == "_id=1, " + "address=" + "x" + ", body=" + "hi" + ", date=" + Decimal(1);
    assert Decimal(1) == "1";
  }

  lemma ExampleSecond()
    ensures Crossed(5, "x", 2) == SECOND_FIELDS
  {
    ExampleOpening();
    assert Decimal(2) == "2";
  }

  lemma ExampleLacks(c: char)
    requires c == 'S' || c == 'E' || c == '\n'
    ensures NoChar(FIRST_FIELDS, c) && NoChar(SECOND_FIELDS, c)
  {
  }

  lemma ExampleMarkerFree()
    ensures MarkerFree([TwoInOne(FIRST, Opening(5, "x"), 2)]) && OneRow(Crossed(5, "x", 2))
  {
    ExampleFirst();
    ExampleSecond();
    PrintsLikeTwo(FIRST, Opening(5, "x"), 2);
    ExampleLacks('S');
    ExampleLacks('E');
    ExampleLacks('\n');
    PrintLacks(FIRST_FIELDS, SECOND_FIELDS, 'S');
    PrintLacks(FIRST_FIELDS, SECOND_FIELDS, 'E');
    LacksMarker(PrintLines([FIRST_FIELDS, SECOND_FIELDS], 0));
    NoLine(SECOND_FIELDS);
  }

  lemma TextAtWhichItPanics() returns (row: Row)
    ensures row == Row(1, NoColumn, "x", "hi, date=1\nRow: 1 _id=5, body=address=x", 2)
    ensures ParseOutput(Print([row])) == Panic
  {
    row := TwoInOne(FIRST, Opening(5, "x"), 2);
    ExampleRow();
    ExampleMarkerFree();
    PanicsAtSecond(FIRST, 5, "x", 2);
  }
}
