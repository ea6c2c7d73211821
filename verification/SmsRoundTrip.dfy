/** ParseSMSOutput undoes the printing of rows, and exactly when it does. (internal/adb/sms.go) */
module SmsRoundTrip {
  import opened Text
  import opened RowParser
  import opened SmsOutput

  // ------------------------------------------------------------------ the lines of the output

  /** Where the fields of the n-th row begin and end when its line starts at i. */
  function From(i: nat, n: nat): nat { i + 6 + |Decimal(n)| }
  function End(i: nat, n: nat, f: string): nat { From(i, n) + |f| }

  /** The row's line starts at i. */
  ghost predicate LineAt(s: string, i: nat, n: nat, f: string) {
    && End(i, n, f) <= |s|
    && OccursAt(s, "Row: ", i) && s[i + 5..From(i, n) - 1] == Decimal(n) && s[From(i, n) - 1] == ' '
    && s[From(i, n)..End(i, n, f)] == f
    && (End(i, n, f) < |s| ==> s[End(i, n, f)] == '\n')
    && (i > 0 ==> s[i - 1] == '\n')
  }

  lemma LineLayout(line: string, d: string, f: string)
    requires line == "Row: " + d + " " + f
    ensures |line| == 6 + |d| + |f|
    ensures line[..5] == "Row: " && line[5..5 + |d|] == d && line[5 + |d|] == ' ' && line[6 + |d|..] == f
  {
  }

  lemma PartsOfLine(s: string, i: nat, d: string, f: string)
    requires i + 6 + |d| + |f| <= |s| && s[i..i + 6 + |d| + |f|] == "Row: " + d + " " + f
    ensures OccursAt(s, "Row: ", i) && s[i + 5..i + 5 + |d|] == d && s[i + 5 + |d|] == ' '
    ensures s[i + 6 + |d|..i + 6 + |d| + |f|] == f
  {
    var j := i + 6 + |d| + |f|;
    var line := s[i..j];
    LineLayout(line, d, f);
    SliceOfSlice(s, i, j, 0, 5);
    SliceOfSlice(s, i, j, 5, 5 + |d|);
    SliceOfSlice(s, i, j, 6 + |d|, j - i);
    assert s[i + 5 + |d|] == line[5 + |d|];
  }

  lemma LineParts(s: string, i: nat, n: nat, f: string)
    requires End(i, n, f) <= |s| && s[i..End(i, n, f)] == RowLine(f, n)
    ensures OccursAt(s, "Row: ", i) && s[i + 5..From(i, n) - 1] == Decimal(n) && s[From(i, n) - 1] == ' '
    ensures s[From(i, n)..End(i, n, f)] == f
  {
    PartsOfLine(s, i, Decimal(n), f);
  }

  lemma HeaderFound(s: string, i: nat, n: nat, f: string)
    requires LineAt(s, i, n, f)
    ensures HeaderAt(s, i) == Some(From(i, n))
  {
    DigitsEndAt(s, i + 5, From(i, n) - 1);
  }

  /** The rest of the text is these rows, joined. */
  ghost predicate JoinedAt(s: string, i: nat, texts: seq<string>, n: nat) {
    i <= |s| && (i > 0 ==> s[i - 1] == '\n') && texts != [] && s[i..] == Joined(texts, n)
  }

  /** The first row's line, and where the next one starts. */
  ghost predicate LineThen(s: string, i: nat, texts: seq<string>, n: nat, next: nat) {
    && texts != [] && LineAt(s, i, n, texts[0])
    && if |texts| == 1 then End(i, n, texts[0]) == |s| else next == End(i, n, texts[0]) + 1 <= |s|
  }

  lemma FirstLine(s: string, i: nat, texts: seq<string>, n: nat) returns (next: nat)
    requires JoinedAt(s, i, texts, n)
    ensures LineThen(s, i, texts, n, next)
    ensures |texts| > 1 ==> JoinedAt(s, next, texts[1..], n + 1)
  {
    var line := RowLine(texts[0], n);
    assert |line| == 6 + |Decimal(n)| + |texts[0]|;
    var t := s[i..];
    if |texts| > 1 {
      var rest := Joined(texts[1..], n + 1);
      assert t == line + "\n" + rest;
      assert t[..|line|] == line && t[|line|] == '\n' && t[|line| + 1..] == rest;
      SliceOfSlice(s, i, |s|, |line| + 1, |t|);
      assert s[i + |line|] == t[|line|];
    } else {
      assert t[..|line|] == line;
    }
    SliceOfSlice(s, i, |s|, 0, |line|);
    LineParts(s, i, n, texts[0]);
    next := End(i, n, texts[0]) + 1;
  }

  /** The text from i on is these rows, line by line. */
  ghost predicate Lines(s: string, i: nat, texts: seq<string>, n: nat)
    decreases |texts|
  {
    && texts != [] && LineAt(s, i, n, texts[0])
    && if |texts| == 1 then End(i, n, texts[0]) == |s|
       else End(i, n, texts[0]) < |s| && Lines(s, End(i, n, texts[0]) + 1, texts[1..], n + 1)
  }

  lemma LinesFrom(s: string, i: nat, texts: seq<string>, n: nat, next: nat)
    requires LineThen(s, i, texts, n, next)
    ensures |texts| == 1 || Lines(s, next, texts[1..], n + 1) ==> Lines(s, i, texts, n)
  {
  }

  lemma {:induction false} JoinedIsLines(s: string, i: nat, texts: seq<string>, n: nat)
    requires JoinedAt(s, i, texts, n)
    ensures Lines(s, i, texts, n)
    decreases |texts|
  {
    var next := FirstLine(s, i, texts, n);
    LinesFrom(s, i, texts, n, next);
    if |texts| > 1 {
      JoinedIsLines(s, next, texts[1..], n + 1);
    }
  }

  // ------------------------------------------------------------------ rows without a second row in them

  lemma {:induction false} SkipTo(s: string, from: nat, k: nat, j: nat)
    requires from <= k <= j <= |s| && forall x :: k <= x < j ==> HeaderAt(s, x).None?
    ensures Split(s, from, k) == Split(s, from, j)
    decreases j - k
  {
    if k < j {
      SkipTo(s, from, k + 1, j);
    }
  }

  /** The fields of a row begin with '_' and end with a digit. */
  ghost predicate RowLike(f: string) {
    f != [] && f[0] == '_' && IsDigit(f[|f| - 1])
  }

  /** The ends of a line's fields in the text. */
  lemma LineEnds(s: string, i: nat, n: nat, f: string)
    requires LineAt(s, i, n, f) && RowLike(f)
    ensures s[From(i, n)] == '_' && IsDigit(s[End(i, n, f) - 1])
  {
    var e, j := From(i, n), End(i, n, f);
    assert s[e] == s[e..j][0] && s[j - 1] == s[e..j][j - 1 - e];
  }

  /** A row header found in a line lies inside the fields, and belongs to them. */
  lemma HeaderInside(s: string, i: nat, n: nat, f: string, k: nat)
    requires LineAt(s, i, n, f) && RowLike(f) && From(i, n) <= k <= End(i, n, f) && HeaderAt(s, k).Some?
    ensures From(i, n) < k < End(i, n, f) && HeaderAt(s, k).value < End(i, n, f)
    ensures HeaderAt(f, k - From(i, n)).Some?
  {
    LineEnds(s, i, n, f);
    OccursChar(s, "Row: ", k, 0);
    HeaderIsLocal(s, From(i, n), End(i, n, f), k);
    assert s[HeaderAt(s, k).value - 1] == ' ';
  }

  lemma HeaderOfFields(s: string, i: nat, n: nat, f: string, k: nat)
    requires LineAt(s, i, n, f) && RowLike(f) && From(i, n) <= k <= End(i, n, f)
    requires HeaderAt(f, k - From(i, n)).Some?
    ensures HeaderAt(s, k).Some?
  {
    OccursChar(f, "Row: ", k - From(i, n), 0);
    HeaderStays(s, From(i, n), End(i, n, f), k - From(i, n));
  }

  /** The headers of a line, seen in the whole text and in the fields alone. */
  lemma HeaderInLine(s: string, i: nat, n: nat, f: string, k: nat)
    requires LineAt(s, i, n, f) && RowLike(f) && From(i, n) <= k <= End(i, n, f)
    ensures HeaderAt(s, k).Some? <==> HeaderAt(f, k - From(i, n)).Some?
    ensures HeaderAt(s, k).Some? ==>
              && k < HeaderAt(s, k).value < End(i, n, f)
              && HeaderAt(f, k - From(i, n)) == Some(HeaderAt(s, k).value - From(i, n))
  {
    if HeaderAt(s, k).Some? {
      HeaderInside(s, i, n, f, k);
      HeaderIsLocal(s, From(i, n), End(i, n, f), k);
    }
    if HeaderAt(f, k - From(i, n)).Some? {
      HeaderOfFields(s, i, n, f, k);
    }
  }

  lemma SplitAtHeader(s: string, from: nat, i: nat)
    requires from <= i <= |s| && HeaderAt(s, i).Some?
    ensures i < |s| && Split(s, from, i) == [s[from..i]] + Split(s, HeaderAt(s, i).value, HeaderAt(s, i).value)
  {
  }

  lemma SplitPast(s: string, from: nat, i: nat)
    requires from <= i < |s| && HeaderAt(s, i).None?
    ensures Split(s, from, i) == Split(s, from, i + 1)
  {
  }

  lemma SplitEnd(s: string, from: nat)
    requires from <= |s|
    ensures Split(s, from, |s|) == [s[from..]]
  {
  }

  lemma TrimsHead(part: string, parts: seq<string>)
    ensures Trims([part] + parts) == [TrimSpace(part)] + Trims(parts)
  {
  }

  // ------------------------------------------------------------------ the text is cut row by row

  /** The part that began at b ends at j, and the rows after it are these. */
  ghost predicate Closes(s: string, b: nat, j: nat, rest: seq<string>) {
    b <= j <= |s| && Trims(Split(s, b, j)) == [TrimSpace(s[b..j])] + rest
  }

  /** Wherever the part open at j has begun. */
  ghost predicate ClosesAt(s: string, j: nat, rest: seq<string>) {
    forall b: nat :: b <= j ==> Closes(s, b, j, rest)
  }

  lemma ClosesAtEnd(s: string)
    ensures ClosesAt(s, |s|, [])
  {
    forall b: nat | b <= |s| ensures Closes(s, b, |s|, []) {
      SplitEnd(s, b);
      assert s[b..] == s[b..|s|];
      TrimsHead(s[b..], []);
    }
  }

  lemma TrimsAtHeader(s: string, b: nat, k: nat, v: nat)
    requires b <= k <= |s| && HeaderAt(s, k) == Some(v)
    ensures v <= |s| && Trims(Split(s, b, k)) == [TrimSpace(s[b..k])] + Trims(Split(s, v, v))
  {
    SplitAtHeader(s, b, k);
    TrimsHead(s[b..k], Split(s, v, v));
  }

  lemma NewlineEndsLine(s: string, b: nat, j: nat)
    requires b <= j < |s| && s[j] == '\n'
    ensures TrimSpace(s[b..j + 1]) == TrimSpace(s[b..j])
  {
    assert s[b..j + 1] == s[b..j] + "\n";
    NewlineTrimmed(s[b..j]);
  }

  lemma CloseLine(s: string, b: nat, j: nat, v: nat)
    requires b <= j < |s| && s[j] == '\n' && HeaderAt(s, j).None? && HeaderAt(s, j + 1) == Some(v)
    ensures v <= |s| && Closes(s, b, j, Trims(Split(s, v, v)))
  {
    SplitPast(s, b, j);
    TrimsAtHeader(s, b, j + 1, v);
    NewlineEndsLine(s, b, j);
  }

  lemma ClosesAtHeader(s: string, j: nat, v: nat)
    requires j < |s| && s[j] == '\n' && HeaderAt(s, j + 1) == Some(v)
    ensures v <= |s| && ClosesAt(s, j, Trims(Split(s, v, v)))
  {
    if HeaderAt(s, j).Some? {
      OccursChar(s, "Row: ", j, 0);
    }
    assert v <= |s|;
    forall b: nat | b <= j ensures Closes(s, b, j, Trims(Split(s, v, v))) {
      CloseLine(s, b, j, v);
    }
  }

  /** From k on, s is cut like f from k' on, and the rest follows; the open parts began at b and at b'. */
  ghost predicate CutAlike(s: string, b: nat, k: nat, f: string, b': nat, k': nat, rest: seq<string>) {
    && b <= k <= |s| && b' <= k' <= |f|
    && Trims(Split(s, b, k)) == Trims(Split(f, b', k')) + rest
  }

  lemma ConsAppend(row: string, rows: seq<string>, rest: seq<string>)
    ensures [row] + (rows + rest) == ([row] + rows) + rest
  {
  }

  /** At e, s holds f, with the same headers. */
  ghost predicate HoldsAt(s: string, e: nat, f: string) {
    && e + |f| <= |s| && s[e..e + |f|] == f
    && forall k: nat :: k <= |f| ==> HeaderMoved(HeaderAt(s, e + k), HeaderAt(f, k), e)
  }

  ghost predicate HeaderMoved(h: Option<nat>, h': Option<nat>, d: nat) {
    (h.None? && h'.None?) || (h.Some? && h'.Some? && h.value == d + h'.value)
  }

  lemma LineHolds(s: string, i: nat, n: nat, f: string)
    requires LineAt(s, i, n, f) && RowLike(f)
    ensures HoldsAt(s, From(i, n), f)
  {
    forall k: nat | k <= |f| ensures HeaderMoved(HeaderAt(s, From(i, n) + k), HeaderAt(f, k), From(i, n)) {
      HeaderInLine(s, i, n, f, From(i, n) + k);
    }
  }

  lemma CutBoth(s: string, b: nat, k: nat, v: nat, f: string, b': nat, k': nat, v': nat, rest: seq<string>)
    requires b <= k <= |s| && HeaderAt(s, k) == Some(v) && b' <= k' <= |f| && HeaderAt(f, k') == Some(v')
    requires s[b..k] == f[b'..k'] && CutAlike(s, v, v, f, v', v', rest)
    ensures CutAlike(s, b, k, f, b', k', rest)
  {
    TrimsAtHeader(s, b, k, v);
    TrimsAtHeader(f, b', k', v');
    ConsAppend(TrimSpace(s[b..k]), Trims(Split(f, v', v')), rest);
  }

  lemma CutAtHeader(s: string, e: nat, f: string, rest: seq<string>, b: nat, k: nat, v: nat)
    requires HoldsAt(s, e, f) && b <= k <= |f| && HeaderAt(f, k) == Some(v) && v <= |f|
    requires CutAlike(s, e + v, e + v, f, v, v, rest)
    ensures CutAlike(s, e + b, e + k, f, b, k, rest)
  {
    assert HeaderMoved(HeaderAt(s, e + k), HeaderAt(f, k), e);
    SliceOfSlice(s, e, e + |f|, b, k);
    CutBoth(s, e + b, e + k, e + v, f, b, k, v, rest);
  }

  lemma CutPast(s: string, e: nat, f: string, rest: seq<string>, b: nat, k: nat)
    requires HoldsAt(s, e, f) && b <= k < |f| && HeaderAt(f, k).None?
    requires CutAlike(s, e + b, e + k + 1, f, b, k + 1, rest)
    ensures CutAlike(s, e + b, e + k, f, b, k, rest)
  {
    assert HeaderMoved(HeaderAt(s, e + k), HeaderAt(f, k), e);
    SplitPast(s, e + b, e + k);
    SplitPast(f, b, k);
  }

  lemma CutAtEnd(s: string, e: nat, f: string, rest: seq<string>, b: nat)
    requires HoldsAt(s, e, f) && ClosesAt(s, e + |f|, rest) && b <= |f|
    ensures CutAlike(s, e + b, e + |f|, f, b, |f|, rest)
  {
    SliceOfSlice(s, e, e + |f|, b, |f|);
    assert f[b..] == f[b..|f|];
    assert Closes(s, e + b, e + |f|, rest);
    SplitEnd(f, b);
    TrimsHead(f[b..], []);
  }

  /** From k on, the rest of a line is cut like the fields alone. */
  lemma {:induction false} LineIsCut(s: string, e: nat, f: string, rest: seq<string>, b: nat, k: nat)
    requires HoldsAt(s, e, f) && ClosesAt(s, e + |f|, rest) && b <= k <= |f|
    ensures CutAlike(s, e + b, e + k, f, b, k, rest)
    decreases |f| - k
  {
    if k == |f| {
      CutAtEnd(s, e, f, rest, b);
    } else if HeaderAt(f, k).Some? {
      var v := HeaderAt(f, k).value;
      LineIsCut(s, e, f, rest, v, v);
      CutAtHeader(s, e, f, rest, b, k, v);
    } else {
      LineIsCut(s, e, f, rest, b, k + 1);
      CutPast(s, e, f, rest, b, k);
    }
  }

  /** The rows that the parser sees in one row's fields. */
  function Pieces(f: string): (pieces: seq<string>)
    ensures pieces != []
  {
    Trims(Split(f, 0, 0))
  }

  function AllPieces(texts: seq<string>): seq<string> {
    if texts == [] then [] else Pieces(texts[0]) + AllPieces(texts[1..])
  }

  /** A part begins at i, and from there on the text is cut into these rows. */
  ghost predicate CutInto(s: string, i: nat, rows: seq<string>) {
    i <= |s| && Trims(Split(s, i, i)) == rows
  }

  lemma OneLineIsCut(s: string, i: nat, n: nat, f: string, rest: seq<string>)
    requires LineAt(s, i, n, f) && RowLike(f) && ClosesAt(s, End(i, n, f), rest)
    ensures CutInto(s, From(i, n), Pieces(f) + rest)
  {
    LineHolds(s, i, n, f);
    LineIsCut(s, From(i, n), f, rest, 0, 0);
  }

  lemma NextCloses(s: string, j: nat, n: nat, f: string, rows: seq<string>)
    requires j < |s| && s[j] == '\n' && LineAt(s, j + 1, n, f) && CutInto(s, From(j + 1, n), rows)
    ensures ClosesAt(s, j, rows)
  {
    HeaderFound(s, j + 1, n, f);
    ClosesAtHeader(s, j, From(j + 1, n));
  }

  lemma {:induction false} LinesAreCut(s: string, i: nat, texts: seq<string>, n: nat)
    requires Lines(s, i, texts, n) && AllRowLike(texts)
    ensures CutInto(s, From(i, n), AllPieces(texts))
    decreases |texts|
  {
    var f, j := texts[0], End(i, n, texts[0]);
    assert f in texts;
    if |texts| == 1 {
      ClosesAtEnd(s);
      OneLineIsCut(s, i, n, f, AllPieces(texts[1..]));
    } else {
      LinesAreCut(s, j + 1, texts[1..], n + 1);
      NextCloses(s, j, n + 1, texts[1], AllPieces(texts[1..]));
      OneLineIsCut(s, i, n, f, AllPieces(texts[1..]));
    }
  }

  // ------------------------------------------------------------------ how many rows that makes

  lemma WholeRow(f: string)
    requires RowLike(f) && OneRow(f)
    ensures Pieces(f) == [f]
  {
    forall x: nat | x < |f| ensures HeaderAt(f, x).None? {
      if HeaderAt(f, x).Some? {
        OccursChar(f, "Row: ", x, 0);
      }
    }
    SkipTo(f, 0, 0, |f|);
    SplitEnd(f, 0);
    TrimNewline(f);
    assert f[0..] == f;
  }

  function Inks(rows: seq<string>): nat {
    if rows == [] then 0 else (if rows[0] != [] then 1 else 0) + Inks(rows[1..])
  }

  lemma {:induction false} InksJoin(rows: seq<string>, more: seq<string>)
    ensures Inks(rows + more) == Inks(rows) + Inks(more)
  {
    if rows == [] {
      assert rows + more == more;
    } else {
      assert (rows + more)[1..] == rows[1..] + more;
      InksJoin(rows[1..], more);
    }
  }

  lemma InksHead(row: string, rows: seq<string>)
    ensures Inks([row] + rows) == (if row != [] then 1 else 0) + Inks(rows)
  {
    assert ([row] + rows)[1..] == rows;
  }

  /** Every row that is not blank makes one message. */
  lemma {:induction false} OneMessagePerRow(parse: string -> RowResult, rows: seq<string>)
    requires ParseRows(parse, rows).Messages?
    ensures |ParseRows(parse, rows).list| == Inks(rows)
  {
    if rows != [] {
      var front, last := rows[..|rows| - 1], rows[|rows| - 1];
      OneMessagePerRow(parse, front);
      InksJoin(front, [last]);
      InksHead(last, []);
      assert rows == front + [last];
    }
  }

  lemma InkIn(s: string, a: nat, b: nat, k: nat)
    requires a <= k < b <= |s| && !IsSpace(s[k])
    ensures TrimSpace(s[a..b]) != []
  {
    assert s[a..b][k - a] == s[k];
    TrimInk(s[a..b]);
  }

  lemma InksAtHeader(f: string, b: nat, k: nat, v: nat)
    requires b <= k <= |f| && HeaderAt(f, k) == Some(v)
    ensures v <= |f|
    ensures Inks(Trims(Split(f, b, k))) == (if TrimSpace(f[b..k]) != [] then 1 else 0) + Inks(Trims(Split(f, v, v)))
  {
    TrimsAtHeader(f, b, k, v);
    InksHead(TrimSpace(f[b..k]), Trims(Split(f, v, v)));
  }

  lemma InksAtEnd(f: string, b: nat)
    requires RowLike(f) && b < |f|
    ensures Inks(Trims(Split(f, b, |f|))) == 1
  {
    SplitEnd(f, b);
    TrimsHead(f[b..], []);
    InksHead(TrimSpace(f[b..]), []);
    InkIn(f, b, |f|, |f| - 1);
    assert f[b..] == f[b..|f|];
  }

  /** The end of the fields belongs to a row that is not blank. */
  lemma {:induction false} LastIsInked(f: string, b: nat, k: nat)
    requires RowLike(f) && b <= k <= |f| && b < |f|
    ensures Inks(Trims(Split(f, b, k))) >= 1
    decreases |f| - k
  {
    if k == |f| {
      InksAtEnd(f, b);
    } else if HeaderAt(f, k).Some? {
      var v := HeaderAt(f, k).value;
      assert f[v - 1] == ' ';
      LastIsInked(f, v, v);
      InksAtHeader(f, b, k, v);
    } else {
      SplitPast(f, b, k);
      LastIsInked(f, b, k + 1);
    }
  }

  /** With a row header inside, so does the beginning, to another one. */
  lemma {:induction false} TwoAreInked(f: string, k: nat, h: nat)
    requires RowLike(f) && k <= h <= |f| && HeaderAt(f, h).Some?
    ensures Inks(Trims(Split(f, 0, k))) >= 2
    decreases h - k
  {
    if HeaderAt(f, k).Some? {
      OccursChar(f, "Row: ", k, 0);
      var v := HeaderAt(f, k).value;
      assert f[v - 1] == ' ';
      LastIsInked(f, v, v);
      InkIn(f, 0, k, 0);
      InksAtHeader(f, 0, k, v);
    } else {
      SplitPast(f, 0, k);
      TwoAreInked(f, k + 1, h);
    }
  }

  ghost predicate AllOneRow(texts: seq<string>) {
    forall f :: f in texts ==> OneRow(f)
  }

  ghost predicate AllRowLike(texts: seq<string>) {
    forall f :: f in texts ==> RowLike(f)
  }

  lemma PiecesInked(f: string)
    requires RowLike(f)
    ensures Inks(Pieces(f)) >= if OneRow(f) then 1 else 2
  {
    if OneRow(f) {
      LastIsInked(f, 0, 0);
    } else {
      var k: nat :| k > 0 && HeaderAt(f, k).Some?;
      TwoAreInked(f, 0, k);
    }
  }

  /** At least one message for each line, and one more if some line is broken. */
  lemma {:induction false} AllInked(texts: seq<string>)
    requires AllRowLike(texts)
    ensures Inks(AllPieces(texts)) >= |texts| && (!AllOneRow(texts) ==> Inks(AllPieces(texts)) > |texts|)
  {
    if texts != [] {
      assert texts == [texts[0]] + texts[1..];
      AllInked(texts[1..]);
      PiecesInked(texts[0]);
      InksJoin(Pieces(texts[0]), AllPieces(texts[1..]));
    }
  }

  lemma {:induction false} AllWhole(texts: seq<string>)
    requires AllRowLike(texts) && AllOneRow(texts)
    ensures AllPieces(texts) == texts
  {
    if texts != [] {
      assert texts == [texts[0]] + texts[1..];
      AllWhole(texts[1..]);
      WholeRow(texts[0]);
    }
  }

  // ------------------------------------------------------------------ the whole output

  lemma {:induction false} LinesEnd(s: string, i: nat, texts: seq<string>, n: nat)
    requires Lines(s, i, texts, n) && AllRowLike(texts)
    ensures i < |s| && s[i] == 'R' && IsDigit(s[|s| - 1])
    decreases |texts|
  {
    assert texts[0] in texts;
    OccursChar(s, "Row: ", i, 0);
    if |texts| == 1 {
      LineEnds(s, i, n, texts[0]);
    } else {
      LinesEnd(s, End(i, n, texts[0]) + 1, texts[1..], n + 1);
    }
  }

  lemma MarkerStays(t: string, p: string)
    requires p != [] && p[|p| - 1] != '\n'
    ensures Contains(t + "\n", p) <==> IndexFrom(t, p, 0).Some?
  {
    var raw := t + "\n";
    if i: nat :| OccursAt(raw, p, i) {
      OccursChar(raw, p, i, |p| - 1);
      assert i + |p| <= |t|;
      assert t[i..i + |p|] == raw[i..i + |p|];
      assert OccursAt(t, p, i);
    }
    if IndexFrom(t, p, 0).Some? {
      var i := IndexFrom(t, p, 0).value;
      assert t[i..i + |p|] == raw[i..i + |p|];
      assert OccursAt(raw, p, i);
    }
  }

  ghost predicate NoMarker(output: string) {
    !Contains(output, "SQLiteException") && !Contains(output, "Error while accessing provider")
  }

  /** The output holds neither text that the parser takes for a database error. */
  ghost predicate MarkerFree(rows: seq<Row>) {
    NoMarker(Print(rows))
  }

  lemma TextsRowLike(rows: seq<Row>)
    ensures AllRowLike(Texts(rows))
  {
    forall f | f in Texts(rows) ensures RowLike(f) {
      var k :| 0 <= k < |rows| && Texts(rows)[k] == f;
      FieldsEnds(rows[k]);
    }
  }

  lemma {:induction false} BlankFirst(parse: string -> RowResult, rows: seq<string>)
    ensures ParseRows(parse, [""] + rows) == ParseRows(parse, rows)
  {
    var all := [""] + rows;
    if rows == [] {
      assert all[..0] == [];
    } else {
      var n := |rows| - 1;
      assert all[..n + 1] == [""] + rows[..n];
      BlankFirst(parse, rows[..n]);
    }
  }

  /** What is left after trimming. */
  lemma Trimmed(texts: seq<string>) returns (t: string)
    requires texts != [] && AllRowLike(texts)
    ensures t == TrimSpace(PrintLines(texts, 0)) && Lines(t, 0, texts, 0)
    ensures t != [] && !StartsWith(t, "No result found")
    ensures NoMarker(PrintLines(texts, 0)) <==>
              IndexFrom(t, "SQLiteException", 0).None? && IndexFrom(t, "Error while accessing provider", 0).None?
  {
    t := Joined(texts, 0);
    assert t[0..] == t;
    JoinedIsLines(t, 0, texts, 0);
    LinesEnd(t, 0, texts, 0);
    PrintIsJoined(texts, 0);
    TrimNewline(t);
    DiffersAt(t, "No result found", 0);
    MarkerStays(t, "SQLiteException");
    MarkerStays(t, "Error while accessing provider");
  }

  /** The output is cut row by row: what the parser makes of each row's fields does not depend on the rows around it. */
  lemma CutRowByRow(texts: seq<string>)
    requires texts != [] && AllRowLike(texts)
    ensures ParseOutput(PrintLines(texts, 0))
            == if NoMarker(PrintLines(texts, 0)) then ParseRows(ParseRow, AllPieces(texts)) else SqliteError
  {
    var t := Trimmed(texts);
    LinesAreCut(t, 0, texts, 0);
    HeaderFound(t, 0, 0, texts[0]);
    SplitAtHeader(t, 0, 0);
    var e := From(0, 0);
    TrimsHead(t[0..0], Split(t, e, e));
    assert TrimSpace(t[0..0]) == "";
    BlankFirst(ParseRow, AllPieces(texts));
  }

  /** The message that a row's fields make. */
  function Read(r: Row): Sms {
    if ParseRow(Fields(r)).Parsed? then ParseRow(Fields(r)).sms else Expected(r)
  }

  function ReadAll(rows: seq<Row>): (list: seq<Sms>)
    ensures |list| == |rows| && forall k :: 0 <= k < |rows| ==> list[k] == Read(rows[k])
  {
    seq(|rows|, k requires 0 <= k < |rows| => Read(rows[k]))
  }

  function ExpectedAll(rows: seq<Row>): (list: seq<Sms>)
    ensures |list| == |rows| && forall k :: 0 <= k < |rows| ==> list[k] == Expected(rows[k])
  {
    seq(|rows|, k requires 0 <= k < |rows| => Expected(rows[k]))
  }

  lemma {:induction false} ParseEach(parse: string -> RowResult, texts: seq<string>, list: seq<Sms>)
    requires |texts| == |list|
    requires forall k :: 0 <= k < |texts| ==> texts[k] != [] && parse(texts[k]) == Parsed(list[k])
    ensures ParseRows(parse, texts) == Messages(list)
  {
    if texts != [] {
      var n := |texts| - 1;
      ParseEach(parse, texts[..n], list[..n]);
      assert list == list[..n] + [list[n]];
    }
  }

  lemma WholeRows(rows: seq<Row>)
    requires rows != [] && MarkerFree(rows) && AllOneRow(Texts(rows))
    ensures ParseOutput(Print(rows)) == Messages(ReadAll(rows))
  {
    var texts := Texts(rows);
    TextsRowLike(rows);
    CutRowByRow(texts);
    AllWhole(texts);
    forall k | 0 <= k < |rows| ensures texts[k] != [] && ParseRow(texts[k]) == Parsed(ReadAll(rows)[k]) {
      RowRoundTripIff(rows[k]);
      assert RowLike(texts[k]);
    }
    ParseEach(ParseRow, texts, ReadAll(rows));
  }

  /** The rows that the parser sees in the printed ones. */
  function Seen(rows: seq<Row>): seq<string> {
    AllPieces(Texts(rows))
  }

  /** What becomes of printed output, by the rows that the parser sees in it. It panics exactly when the first of them
      that cannot be read has its tags crossed. */
  lemma PrintedOutcome(rows: seq<Row>)
    requires rows != []
    ensures var out := ParseOutput(Print(rows));
      && (out.SqliteError? <==> !MarkerFree(rows))
      && (out.Messages? <==> MarkerFree(rows) && ReadsUpTo(ParseRow, Seen(rows), |Seen(rows)|))
      && (out.Panic? <==>
            && MarkerFree(rows)
            && exists k :: 0 <= k < |Seen(rows)| && ReadsUpTo(ParseRow, Seen(rows), k) && TagsCrossed(Seen(rows)[k]))
  {
    TextsRowLike(rows);
    CutRowByRow(Texts(rows));
    ParseRowsIff(ParseRow, Seen(rows));
    forall k | 0 <= k < |Seen(rows)|
      ensures PanicsAt(ParseRow, Seen(rows), k) <==> ReadsUpTo(ParseRow, Seen(rows), k) && TagsCrossed(Seen(rows)[k])
    {
      PanicsIff(Seen(rows)[k]);
    }
  }

  /** With a row-like line there are more messages than rows, or no messages at all. */
  lemma BrokenRows(rows: seq<Row>)
    requires rows != [] && !AllOneRow(Texts(rows))
    ensures |Seen(rows)| > |rows|
    ensures ParseOutput(Print(rows)).Messages? ==> |ParseOutput(Print(rows)).list| > |rows|
  {
    TextsRowLike(rows);
    AllInked(Texts(rows));
    InksBound(Seen(rows));
    CutRowByRow(Texts(rows));
    if ParseOutput(Print(rows)).Messages? {
      OneMessagePerRow(ParseRow, Seen(rows));
    }
  }

  lemma {:induction false} InksBound(rows: seq<string>)
    ensures Inks(rows) <= |rows|
  {
    if rows != [] {
      InksBound(rows[1..]);
    }
  }

  lemma AllOneRowIff(rows: seq<Row>)
    ensures AllOneRow(Texts(rows)) <==> forall k :: 0 <= k < |rows| ==> OneRow(rows[k].address) && OneRow(rows[k].body)
  {
    forall k | 0 <= k < |rows|
      ensures OneRow(Texts(rows)[k]) <==> OneRow(rows[k].address) && OneRow(rows[k].body)
    {
      OneRowIff(rows[k]);
    }
    assert forall k :: 0 <= k < |rows| ==> Texts(rows)[k] in Texts(rows);
  }

  lemma ReadsBackIff(rows: seq<Row>)
    ensures ReadAll(rows) == ExpectedAll(rows) <==> forall k :: 0 <= k < |rows| ==> Readable(rows[k])
  {
    forall k | 0 <= k < |rows| ensures ReadAll(rows)[k] == ExpectedAll(rows)[k] <==> Readable(rows[k]) {
      RowRoundTripIff(rows[k]);
    }
  }

  lemma NothingFound()
    ensures ParseOutput("No result found.\n") == Messages([])
  {
    assert [] + "No result found." + "\n" == "No result found.\n";
    EmptyInbox([], "\n");
  }

  /** The parser gives back the printed rows, in order and with every body unchanged, exactly when the output holds
      no error text, every row is readable, and no line of an address or body after its first starts like a row. */
  lemma RoundTripIff(rows: seq<Row>)
    ensures ParseOutput(InboxText(rows)) == Messages(ExpectedAll(rows))
            <==> MarkerFree(rows)
                 && forall k :: 0 <= k < |rows| ==>
                      Readable(rows[k]) && OneRow(rows[k].address) && OneRow(rows[k].body)
  {
    if rows == [] {
      NothingFound();
      assert ExpectedAll(rows) == [] && Texts(rows) == [] && Print(rows) == "";
    } else {
      AllOneRowIff(rows);
      ReadsBackIff(rows);
      PrintedOutcome(rows);
      if MarkerFree(rows) && AllOneRow(Texts(rows)) {
        WholeRows(rows);
      } else if MarkerFree(rows) {
        BrokenRows(rows);
      }
    }
  }
}
