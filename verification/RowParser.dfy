/** One row of `content query` output: parseRow in internal/adb/sms.go, against the format that it undoes. */
module RowParser {
  import opened Text

  /** The fields that parseRow fills; receivedAt in milliseconds. */
  datatype Sms = Sms(androidId: string, subscriptionId: string, address: string, body: string, receivedAt: int)

  /** OutOfRange: a slice whose bounds are out of order, at which the original panics. */
  datatype RowResult = Parsed(sms: Sms) | NoId | NoDate | NoFields | OutOfRange

  const MAX_INT64: nat := 0x7fff_ffff_ffff_ffff

  // ------------------------------------------------------------------ searching

  /** Where p first occurs at or after i. */
  function IndexFrom(s: string, p: string, i: nat): (r: Option<nat>)
    requires i <= |s|
    ensures r.Some? ==> i <= r.value && OccursAt(s, p, r.value)
    ensures r.Some? ==> forall k: nat :: i <= k < r.value ==> !OccursAt(s, p, k)
    ensures r.None? ==> forall k: nat :: i <= k ==> !OccursAt(s, p, k)
    decreases |s| - i
  {
    if OccursAt(s, p, i) then Some(i)
    else if i == |s| then None
    else IndexFrom(s, p, i + 1)
  }

  datatype Found = Found(at: nat, text: string)

  /** The leftmost match of a pattern with one group: m gives the group's text for a match at a position. */
  function Leftmost(m: nat -> Option<string>, i: nat, n: nat): (r: Option<Found>)
    requires i <= n
    ensures r.Some? ==> i <= r.value.at <= n && m(r.value.at) == Some(r.value.text)
                        && forall k: nat :: i <= k < r.value.at ==> m(k).None?
    ensures r.None? ==> forall k: nat :: i <= k <= n ==> m(k).None?
    decreases n - i
  {
    if m(i).Some? then Some(Found(i, m(i).value))
    else if i == n then None
    else Leftmost(m, i + 1, n)
  }

  /** _id=(\d+) */
  function IdAt(s: string, i: nat): Option<string> {
    if !OccursAt(s, "_id=", i) then None
    else
      var e := SkipDigits(s, i + 4);
      if e > i + 4 then Some(s[i + 4..e]) else None
  }

  /** (-?\d+) */
  function IntAt(s: string, i: nat): Option<string>
    requires i <= |s|
  {
    var m := if i < |s| && s[i] == '-' then i + 1 else i;
    var e := SkipDigits(s, m);
    if e > m then Some(s[i..e]) else None
  }

  /** (?:subscription_id|sub_id)=(-?\d+) */
  function SimAt(s: string, i: nat): Option<string> {
    if OccursAt(s, "subscription_id=", i) then IntAt(s, i + 16)
    else if OccursAt(s, "sub_id=", i) then IntAt(s, i + 7)
    else None
  }

  /** ,\s*date=(\d+)\s*$ */
  function DateAt(s: string, i: nat): Option<string> {
    if i >= |s| || s[i] != ',' then None
    else
      var a := SkipSpace(s, i + 1);
      if !OccursAt(s, "date=", a) then None
      else
        var e := SkipDigits(s, a + 5);
        if e > a + 5 && SkipSpace(s, e) == |s| then Some(s[a + 5..e]) else None
  }

  function FindId(s: string): (r: Option<Found>)
    ensures r.Some? ==> r.value.at <= |s| && IdAt(s, r.value.at) == Some(r.value.text)
    ensures r.Some? ==> forall k: nat :: k < r.value.at ==> IdAt(s, k).None?
    ensures r.None? ==> forall k: nat :: k <= |s| ==> IdAt(s, k).None?
  {
    var m := (i: nat) => IdAt(s, i);
    assert forall k: nat :: m(k) == IdAt(s, k);
    Leftmost(m, 0, |s|)
  }

  function FindSim(s: string): (r: Option<Found>)
    ensures r.Some? ==> r.value.at <= |s| && SimAt(s, r.value.at) == Some(r.value.text)
    ensures r.Some? ==> forall k: nat :: k < r.value.at ==> SimAt(s, k).None?
    ensures r.None? ==> forall k: nat :: k <= |s| ==> SimAt(s, k).None?
  {
    var m := (i: nat) => SimAt(s, i);
    assert forall k: nat :: m(k) == SimAt(s, k);
    Leftmost(m, 0, |s|)
  }

  function FindDate(s: string): (r: Option<Found>)
    ensures r.Some? ==> r.value.at <= |s| && DateAt(s, r.value.at) == Some(r.value.text)
    ensures r.Some? ==> forall k: nat :: k < r.value.at ==> DateAt(s, k).None?
    ensures r.None? ==> forall k: nat :: k <= |s| ==> DateAt(s, k).None?
  {
    var m := (i: nat) => DateAt(s, i);
    assert forall k: nat :: m(k) == DateAt(s, k);
    Leftmost(m, 0, |s|)
  }

  /** strconv.ParseInt with its error ignored, for text without a sign: the largest value on overflow. */
  function ParseInt64(text: string): int {
    if text == [] || !AllDigits(text) then 0
    else if NatValue(text) > MAX_INT64 then MAX_INT64
    else NatValue(text)
  }

  /** The message, from what the searches found. */
  function Assemble(row: string, id: Option<Found>, date: Option<Found>, addr: Option<nat>, tag: Option<nat>,
                    sim: Option<Found>): RowResult {
    if id.None? then NoId
    else if date.None? then NoDate
    else if addr.None? || tag.None? then NoFields
    else if !(addr.value + 8 <= tag.value <= |row|) || !(tag.value + 7 <= date.value.at <= |row|) then OutOfRange
    else Parsed(Sms(id.value.text, if sim.Some? then sim.value.text else "",
                    row[addr.value + 8..tag.value], row[tag.value + 7..date.value.at], ParseInt64(date.value.text)))
  }

  function ParseRow(row: string): RowResult {
    Assemble(row, FindId(row), FindDate(row), IndexFrom(row, "address=", 0), IndexFrom(row, ", body=", 0), FindSim(row))
  }

  // ------------------------------------------------------------------ the date suffix

  /** The date suffix always starts at the row's last comma. */
  lemma DateIsLastComma(s: string, i: nat)
    requires DateAt(s, i).Some?
    ensures i < |s| && s[i] == ',' && forall k :: i < k < |s| ==> s[k] != ','
  {
    var a := SkipSpace(s, i + 1);
    var e := SkipDigits(s, a + 5);
    assert SkipSpace(s, e) == |s|;
    forall k | i < k < |s| ensures s[k] != ',' {
      if k < a || e <= k {
        assert IsRegexSpace(s[k]);
      } else if k < a + 5 {
        OccursChar(s, "date=", a, k - a);
      } else {
        assert s[k] == s[a + 5..e][k - (a + 5)];
      }
    }
  }

  /** Hence at most one position matches, wherever the search starts. */
  lemma DateIsUnique(s: string, i: nat, j: nat)
    requires DateAt(s, i).Some? && DateAt(s, j).Some?
    ensures i == j
  {
    DateIsLastComma(s, i);
    DateIsLastComma(s, j);
  }

  lemma BodyStartsBeforeDate(s: string, tag: nat, i: nat)
    requires OccursAt(s, ", body=", tag) && DateAt(s, i).Some?
    ensures tag + 7 <= i
  {
    DateIsLastComma(s, i);
    var p := s[tag..tag + 7];
    assert s[tag] == p[0] && s[tag + 1] == p[1] && s[tag + 2] == p[2] && s[tag + 3] == p[3]
           && s[tag + 4] == p[4] && s[tag + 5] == p[5] && s[tag + 6] == p[6];
  }

  /** The row has an id, a date and both tags, but the first body tag starts before the first address tag ends. */
  ghost predicate TagsCrossed(row: string) {
    && FindId(row).Some? && FindDate(row).Some?
    && IndexFrom(row, "address=", 0).Some? && IndexFrom(row, ", body=", 0).Some?
    && IndexFrom(row, ", body=", 0).value < IndexFrom(row, "address=", 0).value + 8
  }

  /** parseRow panics exactly on these rows: the body's own slice is always in range. */
  lemma PanicsIff(row: string)
    ensures ParseRow(row).OutOfRange? <==> TagsCrossed(row)
  {
    if IndexFrom(row, ", body=", 0).Some? && FindDate(row).Some? {
      BodyStartsBeforeDate(row, IndexFrom(row, ", body=", 0).value, FindDate(row).value.at);
    }
  }

  // ------------------------------------------------------------------ the printed row

  /** The SIM column of a row: absent, NULL or an integer, under one of two names. */
  datatype Sim = NoColumn | Null(standard: bool) | Value(standard: bool, id: int)

  datatype Row = Row(id: nat, sim: Sim, address: string, body: string, date: nat)

  function ColumnName(standard: bool): string {
    if standard then "subscription_id=" else "sub_id="
  }

  function SimText(sim: Sim): string {
    match sim
    case NoColumn => ""
    case Null(standard) => ColumnName(standard) + "NULL, "
    case Value(standard, id) => ColumnName(standard) + DecimalInt(id) + ", "
  }

  function IdText(id: nat): string {
    "_id=" + Decimal(id) + ", "
  }

  function Head(r: Row): string {
    IdText(r.id) + SimText(r.sim)
  }

  function Fields(r: Row): string {
    Head(r) + "address=" + r.address + ", body=" + r.body + ", date=" + Decimal(r.date)
  }

  /** Where the parts of a printed row lie. */
  function AddressAt(r: Row): nat { |Head(r)| + 8 }
  function TagAt(r: Row): nat { AddressAt(r) + |r.address| }
  function BodyAt(r: Row): nat { TagAt(r) + 7 }
  function SuffixAt(r: Row): nat { BodyAt(r) + |r.body| }

  ghost predicate Laid(s: string, r: Row) {
    && |s| == SuffixAt(r) + 7 + |Decimal(r.date)|
    && s[..|Head(r)|] == Head(r)
    && s[|Head(r)|..AddressAt(r)] == "address="
    && s[AddressAt(r)..TagAt(r)] == r.address
    && s[TagAt(r)..BodyAt(r)] == ", body="
    && s[BodyAt(r)..SuffixAt(r)] == r.body
    && s[SuffixAt(r)..SuffixAt(r) + 7] == ", date="
    && s[SuffixAt(r) + 7..] == Decimal(r.date)
  }

  lemma FieldsAreLaid(r: Row)
    ensures Laid(Fields(r), r)
  {
    var a := Head(r);
    var b := a + "address=";
    var c := b + r.address;
    var d := c + ", body=";
    var e := d + r.body;
    var f := e + ", date=";
    var s := f + Decimal(r.date);
    assert s == Fields(r);
    assert s[..|f|] == f && f[..|e|] == e && e[..|d|] == d && d[..|c|] == c && c[..|b|] == b && b[..|a|] == a;
  }

  // ------------------------------------------------------------------ each field is found where it was printed

  lemma HeadShape(r: Row)
    ensures Head(r)[..|IdText(r.id)|] == IdText(r.id) && Head(r)[|IdText(r.id)|..] == SimText(r.sim)
  {
  }

  /** Neither text has an 'a', and a comma only before its last character. */
  ghost predicate HeadLike(text: string) {
    forall k :: 0 <= k < |text| ==> text[k] != 'a' && (text[k] == ',' ==> k == |text| - 2)
  }

  lemma IdHeadLike(id: nat)
    ensures HeadLike(IdText(id))
  {
    var d := Decimal(id);
    assert IdText(id) == "_id=" + d + ", ";
    forall k | 0 <= k < |IdText(id)| ensures IdText(id)[k] != 'a' && (IdText(id)[k] == ',' ==> k == |IdText(id)| - 2) {
      if 4 <= k < 4 + |d| {
        assert IdText(id)[k] == d[k - 4];
      }
    }
  }

  lemma SimHeadLike(sim: Sim)
    ensures HeadLike(SimText(sim))
  {
    match sim
    case NoColumn =>
    case Null(standard) =>
    case Value(standard, id) =>
      var n, d := ColumnName(standard), DecimalInt(id);
      var text := SimText(sim);
      assert text == n + d + ", ";
      forall k | 0 <= k < |text| ensures text[k] != 'a' && (text[k] == ',' ==> k == |text| - 2) {
        if |n| <= k < |n| + |d| {
          assert text[k] == d[k - |n|];
        } else if k < |n| {
          assert text[k] == n[k];
        }
      }
  }

  lemma HeadEnds(r: Row, s: string)
    requires Laid(s, r)
    ensures s[|IdText(r.id)|] == 's' || s[|IdText(r.id)|] == 'a'
    ensures s[|Head(r)|] == 'a'
  {
    HeadShape(r);
    assert s[|Head(r)|] == s[|Head(r)|..AddressAt(r)][0];
    if !r.sim.NoColumn? {
      assert s[|IdText(r.id)|] == Head(r)[|IdText(r.id)|] == SimText(r.sim)[0];
    }
  }

  lemma HeadChar(r: Row, k: nat)
    requires k < |Head(r)|
    ensures Head(r)[k] != 'a'
    ensures Head(r)[k] == ',' ==> k + 2 == |IdText(r.id)| || k + 2 == |Head(r)|
  {
    IdHeadLike(r.id);
    SimHeadLike(r.sim);
    var a, b := IdText(r.id), SimText(r.sim);
    assert Head(r) == a + b;
    assert (a + b)[k] == if k < |a| then a[k] else b[k - |a|];
  }

  /** There is no 'a' before the address, and 's' or 'a' is two behind each comma there. */
  lemma HeadChars(r: Row, s: string, k: nat)
    requires Laid(s, r) && k < |Head(r)|
    ensures s[k] != 'a'
    ensures s[k] == ',' ==> s[k + 2] == 's' || s[k + 2] == 'a'
  {
    HeadEnds(r, s);
    HeadChar(r, k);
    assert s[k] == s[..|Head(r)|][k];
  }

  lemma IndexIs(s: string, p: string, i: nat)
    requires OccursAt(s, p, i) && forall k: nat :: k < i ==> !OccursAt(s, p, k)
    ensures IndexFrom(s, p, 0) == Some(i)
  {
  }

  /** The address is found where it is. */
  lemma AddressFound(s: string, r: Row)
    requires Laid(s, r)
    ensures IndexFrom(s, "address=", 0) == Some(|Head(r)|)
  {
    forall k: nat | k < |Head(r)| ensures !OccursAt(s, "address=", k) {
      HeadChars(r, s, k);
      if OccursAt(s, "address=", k) {
        OccursChar(s, "address=", k, 0);
      }
    }
    IndexIs(s, "address=", |Head(r)|);
  }

  lemma NoTagInHead(s: string, r: Row, k: nat)
    requires Laid(s, r) && k < AddressAt(r)
    ensures !OccursAt(s, ", body=", k)
  {
    if k < |Head(r)| {
      HeadChars(r, s, k);
    } else {
      assert s[k] == s[|Head(r)|..AddressAt(r)][k - |Head(r)|];
    }
    if OccursAt(s, ", body=", k) {
      OccursChar(s, ", body=", k, 0);
      OccursChar(s, ", body=", k, 2);
    }
  }

  /** An occurrence that starts in the address lies in the address: the tag does not overlap itself. */
  lemma TagInAddress(s: string, r: Row, k: nat)
    requires Laid(s, r) && AddressAt(r) <= k < TagAt(r)
    ensures OccursAt(s, ", body=", k) <==> OccursAt(r.address, ", body=", k - AddressAt(r))
  {
    var j := k - AddressAt(r);
    assert s[TagAt(r)] == s[TagAt(r)..BodyAt(r)][0];
    if OccursAt(s, ", body=", k) && k + 7 > TagAt(r) {
      var d := TagAt(r) - k;
      OccursChar(s, ", body=", k, d);
      assert false;
    }
    if j + 7 <= |r.address| {
      SliceOfSlice(s, AddressAt(r), TagAt(r), j, j + 7);
    }
  }

  /** So is the body's tag, unless the address holds one. */
  lemma TagFound(s: string, r: Row)
    requires Laid(s, r)
    ensures IndexFrom(s, ", body=", 0).Some?
    ensures var at := IndexFrom(s, ", body=", 0).value;
      AddressAt(r) <= at <= TagAt(r) && (at == TagAt(r) <==> !Contains(r.address, ", body="))
  {
    assert OccursAt(s, ", body=", TagAt(r));
    var at := IndexFrom(s, ", body=", 0).value;
    if at < AddressAt(r) {
      NoTagInHead(s, r, at);
    }
    if at < TagAt(r) {
      TagInAddress(s, r, at);
      assert OccursAt(r.address, ", body=", at - AddressAt(r));
    } else if j: nat :| OccursAt(r.address, ", body=", j) {
      TagInAddress(s, r, AddressAt(r) + j);
    }
  }

  /** The id is at the start. */
  lemma IdFound(s: string, r: Row)
    requires Laid(s, r)
    ensures FindId(s) == Some(Found(0, Decimal(r.id)))
  {
    HeadShape(r);
    var d := Decimal(r.id);
    var text := IdText(r.id);
    assert text == "_id=" + d + ", ";
    assert text[..4] == "_id=" && text[4..4 + |d|] == d && text[4 + |d|] == ',';
    assert s[..|text|] == Head(r)[..|text|];
    assert s[0..0 + 4] == text[..4] && s[4..4 + |d|] == text[4..4 + |d|] && s[4 + |d|] == text[4 + |d|];
    DigitsEndAt(s, 4, 4 + |d|);
    assert IdAt(s, 0) == Some(d);
  }

  /** The date is behind the last comma. */
  lemma DateFound(s: string, r: Row)
    requires Laid(s, r)
    ensures FindDate(s) == Some(Found(SuffixAt(r), Decimal(r.date)))
  {
    var i, d := SuffixAt(r), Decimal(r.date);
    var suffix := s[i..i + 7];
    assert suffix == ", date=";
    assert s[i] == suffix[0] && s[i + 1] == suffix[1] && s[i + 2] == suffix[2];
    assert SkipSpace(s, i + 1) == i + 2;
    assert s[i + 2..i + 7] == suffix[2..] == "date=";
    assert s[i + 7..|s|] == s[i + 7..] == d;
    DigitsEndAt(s, i + 7, |s|);
    assert DateAt(s, i) == Some(d);
    DateIsUnique(s, i, FindDate(s).value.at);
  }

  // ------------------------------------------------------------------ the SIM

  lemma NoSimBefore(s: string, r: Row, k: nat)
    requires Laid(s, r) && k < |IdText(r.id)|
    ensures SimAt(s, k).None?
  {
    HeadShape(r);
    var d := Decimal(r.id);
    assert IdText(r.id) == "_id=" + d + ", ";
    assert s[k] == Head(r)[k] == IdText(r.id)[k];
    assert 4 <= k < 4 + |d| ==> s[k] == d[k - 4];
    if OccursAt(s, "subscription_id=", k) {
      OccursChar(s, "subscription_id=", k, 0);
    }
    if OccursAt(s, "sub_id=", k) {
      OccursChar(s, "sub_id=", k, 0);
    }
  }

  lemma ColumnText(s: string, r: Row, name: string)
    requires Laid(s, r) && r.sim.Value? && name == ColumnName(r.sim.standard)
    ensures var n, d := |IdText(r.id)| + |name|, DecimalInt(r.sim.id);
      && OccursAt(s, name, |IdText(r.id)|)
      && n + |d| < |s| && s[n..n + |d|] == d && s[n + |d|] == ','
  {
    HeadShape(r);
    var i, d, text := |IdText(r.id)|, DecimalInt(r.sim.id), SimText(r.sim);
    assert text == name + d + ", ";
    assert text[..|name|] == name && text[|name|..|name| + |d|] == d && text[|name| + |d|] == ',';
    assert s[i..i + |text|] == Head(r)[i..] == text;
    SliceOfSlice(s, i, i + |text|, 0, |name|);
    SliceOfSlice(s, i, i + |text|, |name|, |name| + |d|);
    assert s[i + |name| + |d|] == s[i..i + |text|][|name| + |d|];
  }

  lemma IntText(s: string, i: nat, v: int)
    requires var d := DecimalInt(v); i + |d| < |s| && s[i..i + |d|] == d && !IsDigit(s[i + |d|])
    ensures IntAt(s, i) == Some(DecimalInt(v))
  {
    var d := DecimalInt(v);
    var e := i + |d|;
    ValueOfDecimalInt(v);
    assert s[i] == d[0];
    if v < 0 {
      assert s[i + 1..e] == d[1..];
      DigitsEndAt(s, i + 1, e);
    } else {
      DigitsEndAt(s, i, e);
    }
  }

  lemma SimAtColumn(s: string, r: Row)
    requires Laid(s, r) && r.sim.Value?
    ensures SimAt(s, |IdText(r.id)|) == Some(DecimalInt(r.sim.id))
  {
    var i, name := |IdText(r.id)|, ColumnName(r.sim.standard);
    ColumnText(s, r, name);
    IntText(s, i + |name|, r.sim.id);
    if !r.sim.standard && OccursAt(s, "subscription_id=", i) {
      OccursChar(s, "subscription_id=", i, 3);
      OccursChar(s, "sub_id=", i, 3);
    }
  }

  lemma FindSimIs(s: string, i: nat)
    requires i <= |s| && SimAt(s, i).Some? && forall k: nat :: k < i ==> SimAt(s, k).None?
    ensures FindSim(s) == Some(Found(i, SimAt(s, i).value))
  {
  }

  /** An integer SIM column is found before anything else that looks like one. */
  lemma SimFound(s: string, r: Row)
    requires Laid(s, r) && r.sim.Value?
    ensures FindSim(s) == Some(Found(|IdText(r.id)|, DecimalInt(r.sim.id)))
  {
    SimAtColumn(s, r);
    forall k: nat | k < |IdText(r.id)| ensures SimAt(s, k).None? {
      NoSimBefore(s, r, k);
    }
    FindSimIs(s, |IdText(r.id)|);
  }

  // ------------------------------------------------------------------ the round trip of a row

  function Expected(r: Row): Sms {
    Sms(Decimal(r.id), if r.sim.Value? then DecimalInt(r.sim.id) else "", r.address, r.body, r.date)
  }

  lemma AssembleAt(s: string, id: Found, date: Found, addr: nat, tag: nat, sim: Option<Found>, at: int)
    requires addr + 8 <= tag && tag + 7 <= date.at <= |s| && ParseInt64(date.text) == at
    ensures Assemble(s, Some(id), Some(date), Some(addr), Some(tag), sim)
            == Parsed(Sms(id.text, if sim.Some? then sim.value.text else "", s[addr + 8..tag], s[tag + 7..date.at], at))
  {
  }

  lemma ParseRowIs(s: string, id: Option<Found>, date: Option<Found>, addr: Option<nat>, tag: Option<nat>)
    requires FindId(s) == id && FindDate(s) == date
    requires IndexFrom(s, "address=", 0) == addr && IndexFrom(s, ", body=", 0) == tag
    ensures ParseRow(s) == Assemble(s, id, date, addr, tag, FindSim(s))
  {
  }

  lemma LaidBounds(s: string, r: Row)
    requires Laid(s, r)
    ensures TagAt(r) + 7 <= SuffixAt(r) < |s|
  {
  }

  lemma LaidIsFound(s: string, r: Row, tag: nat)
    requires Laid(s, r) && IndexFrom(s, ", body=", 0) == Some(tag)
    ensures ParseRow(s) == Assemble(s, Some(Found(0, Decimal(r.id))), Some(Found(SuffixAt(r), Decimal(r.date))),
                                    Some(|Head(r)|), Some(tag), FindSim(s))
  {
    IdFound(s, r);
    DateFound(s, r);
    AddressFound(s, r);
    ParseRowIs(s, Some(Found(0, Decimal(r.id))), Some(Found(SuffixAt(r), Decimal(r.date))), Some(|Head(r)|), Some(tag));
  }

  lemma AssembleRow(s: string, r: Row, tag: nat, sim: Option<Found>, at: int)
    requires AddressAt(r) <= tag && tag + 7 <= SuffixAt(r) < |s| && ParseInt64(Decimal(r.date)) == at
    ensures Assemble(s, Some(Found(0, Decimal(r.id))), Some(Found(SuffixAt(r), Decimal(r.date))), Some(|Head(r)|),
                     Some(tag), sim)
            == Parsed(Sms(Decimal(r.id), if sim.Some? then sim.value.text else "", s[AddressAt(r)..tag],
                          s[tag + 7..SuffixAt(r)], at))
  {
    AssembleAt(s, Found(0, Decimal(r.id)), Found(SuffixAt(r), Decimal(r.date)), |Head(r)|, tag, sim, at);
  }

  /** What parseRow makes of a printed row, wherever it finds the first body tag. */
  lemma ParsedFields(s: string, r: Row, tag: nat, at: int)
    requires Laid(s, r) && IndexFrom(s, ", body=", 0) == Some(tag) && AddressAt(r) <= tag <= TagAt(r)
    requires ParseInt64(Decimal(r.date)) == at
    ensures tag + 7 <= SuffixAt(r) < |s|
    ensures ParseRow(s) == Parsed(Sms(Decimal(r.id), if FindSim(s).Some? then FindSim(s).value.text else "",
                                      s[AddressAt(r)..tag], s[tag + 7..SuffixAt(r)], at))
  {
    LaidBounds(s, r);
    LaidIsFound(s, r, tag);
    AssembleRow(s, r, tag, FindSim(s), at);
  }

  /** The address holds no body tag, the time fits 64 bits, and without an integer SIM column nothing in the row
      reads like one. */
  ghost predicate ReadableIn(s: string, r: Row) {
    !Contains(r.address, ", body=") && r.date <= MAX_INT64 && (!r.sim.Value? ==> FindSim(s).None?)
  }

  ghost predicate Readable(r: Row) {
    ReadableIn(Fields(r), r)
  }

  lemma TimeReadIff(n: nat)
    ensures ParseInt64(Decimal(n)) == n <==> n <= MAX_INT64
  {
    ValueOfDecimal(n);
  }

  lemma LaidRoundTrip(s: string, r: Row)
    requires Laid(s, r)
    ensures ParseRow(s).Parsed? && (ParseRow(s) == Parsed(Expected(r)) <==> ReadableIn(s, r))
  {
    TagFound(s, r);
    var tag := IndexFrom(s, ", body=", 0).value;
    ParsedFields(s, r, tag, ParseInt64(Decimal(r.date)));
    TimeReadIff(r.date);
    SimReadIff(s, r);
    TextsReadIff(s, r, tag);
  }

  lemma TextsReadIff(s: string, r: Row, tag: nat)
    requires Laid(s, r) && AddressAt(r) <= tag <= TagAt(r)
    ensures tag + 7 <= SuffixAt(r) <= |s|
    ensures s[AddressAt(r)..tag] == r.address && s[tag + 7..SuffixAt(r)] == r.body <==> tag == TagAt(r)
  {
    assert |s[AddressAt(r)..tag]| == |r.address| <==> tag == TagAt(r);
  }

  lemma SimReadIff(s: string, r: Row)
    requires Laid(s, r)
    ensures (if FindSim(s).Some? then FindSim(s).value.text else "") == Expected(r).subscriptionId
            <==> (!r.sim.Value? ==> FindSim(s).None?)
  {
    if r.sim.Value? {
      SimFound(s, r);
    } else if FindSim(s).Some? {
      SimTextIsLong(s, FindSim(s).value.at);
    }
  }

  /** A printed row is read back exactly when it is readable. */
  lemma RowRoundTripIff(r: Row)
    ensures ParseRow(Fields(r)).Parsed? && (ParseRow(Fields(r)) == Parsed(Expected(r)) <==> Readable(r))
  {
    FieldsAreLaid(r);
    LaidRoundTrip(Fields(r), r);
  }

  lemma SimTextIsLong(s: string, i: nat)
    requires SimAt(s, i).Some?
    ensures SimAt(s, i).value != ""
  {
  }
}
