/** Telegram HTML: escaping, then wrapping digit runs (WrapDigits in internal/sender/telegram.go). */
module WrapDigits {
  import opened Text

  /** html.EscapeString, for one character. */
  function Entity(c: char): (e: string)
    ensures |e| >= 1
  {
    match c
    case '&' => "&amp;"
    case '\'' => "&#39;"
    case '<' => "&lt;"
    case '>' => "&gt;"
    case '"' => "&#34;"
    case _ => [c]
  }

  function Escape(t: string): string {
    if t == [] then [] else Entity(t[0]) + Escape(t[1..])
  }

  /** Length of the digit run at the start. */
  function RunLength(s: string): (n: nat)
    ensures n <= |s| && AllDigits(s[..n]) && (n < |s| ==> !IsDigit(s[n]))
  {
    if s == [] || !IsDigit(s[0]) then 0 else
      assert forall i :: 1 <= i < |s| ==> s[i] == s[1..][i - 1];
      1 + RunLength(s[1..])
  }

  const OPEN := "<code>"
  const CLOSE := "</code>"

  function Code(run: string): string {
    OPEN + run + CLOSE
  }

  /** ReplaceAllString of \d{3,}: the leftmost match, as long as possible, then on behind it. */
  function WrapRuns(s: string): string {
    if s == [] then []
    else if RunLength(s) >= 3 then Code(s[..RunLength(s)]) + WrapRuns(s[RunLength(s)..])
    else [s[0]] + WrapRuns(s[1..])
  }

  function WrapDigits(text: string): string {
    WrapRuns(Escape(text))
  }

  // ------------------------------------------------------------------ undoing it

  function StripTags(s: string): string
    decreases |s|
  {
    if s == [] then []
    else if StartsWith(s, OPEN) then StripTags(s[|OPEN|..])
    else if StartsWith(s, CLOSE) then StripTags(s[|CLOSE|..])
    else [s[0]] + StripTags(s[1..])
  }

  function Unescape(s: string): string
    decreases |s|
  {
    if s == [] then []
    else if StartsWith(s, "&amp;") then "&" + Unescape(s[5..])
    else if StartsWith(s, "&#39;") then "'" + Unescape(s[5..])
    else if StartsWith(s, "&lt;") then "<" + Unescape(s[4..])
    else if StartsWith(s, "&gt;") then ">" + Unescape(s[4..])
    else if StartsWith(s, "&#34;") then "\"" + Unescape(s[5..])
    else [s[0]] + Unescape(s[1..])
  }

  lemma HeadFirst(s: string, rest: string)
    requires s != []
    ensures s + rest == [s[0]] + (s[1..] + rest)
  {
  }

  lemma StripStep(c: char, rest: string)
    requires c != '<'
    ensures StripTags([c] + rest) == [c] + StripTags(rest)
  {
    var s := [c] + rest;
    DiffersAt(s, OPEN, 0);
    DiffersAt(s, CLOSE, 0);
    assert s[1..] == rest;
  }

  lemma {:induction false} StripPlain(p: string, rest: string)
    requires NoChar(p, '<')
    ensures StripTags(p + rest) == p + StripTags(rest)
  {
    if p == [] {
      assert p + rest == rest;
    } else {
      HeadFirst(p, rest);
      StripStep(p[0], p[1..] + rest);
      StripPlain(p[1..], rest);
      HeadFirst(p, StripTags(rest));
    }
  }

  lemma StripTag(tag: string, rest: string)
    requires tag == OPEN || tag == CLOSE
    ensures StripTags(tag + rest) == StripTags(rest)
  {
    var s := tag + rest;
    assert s[..|tag|] == tag && s[|tag|..] == rest;
    assert tag == CLOSE ==> s[1] == '/';
    assert StartsWith(s, OPEN) ==> s[..|OPEN|][1] == 'c';
  }

  lemma Around(a: string, b: string, c: string, d: string)
    ensures a + b + c + d == a + (b + (c + d))
  {
  }

  lemma StripCode(run: string, rest: string)
    requires NoChar(run, '<')
    ensures StripTags(Code(run) + rest) == run + StripTags(rest)
  {
    StripTag(CLOSE, rest);
    StripPlain(run, CLOSE + rest);
    StripTag(OPEN, run + (CLOSE + rest));
    Around(OPEN, run, CLOSE, rest);
  }

  lemma WrapLong(s: string, n: nat)
    requires RunLength(s) == n >= 3
    ensures WrapRuns(s) == Code(s[..n]) + WrapRuns(s[n..])
  {
  }

  lemma WrapNext(s: string)
    requires s != [] && RunLength(s) < 3
    ensures WrapRuns(s) == [s[0]] + WrapRuns(s[1..])
  {
  }

  lemma StripsLong(s: string, n: nat)
    requires NoChar(s, '<') && RunLength(s) == n >= 3 && StripTags(WrapRuns(s[n..])) == s[n..]
    ensures StripTags(WrapRuns(s)) == s
  {
    WrapLong(s, n);
    StripCode(s[..n], WrapRuns(s[n..]));
    assert s == s[..n] + s[n..];
  }

  lemma StripsNext(s: string)
    requires s != [] && s[0] != '<' && RunLength(s) < 3 && StripTags(WrapRuns(s[1..])) == s[1..]
    ensures StripTags(WrapRuns(s)) == s
  {
    WrapNext(s);
    StripPlain([s[0]], WrapRuns(s[1..]));
    assert s == [s[0]] + s[1..];
  }

  lemma {:induction false} StripUndoesWrap(s: string)
    requires NoChar(s, '<')
    ensures StripTags(WrapRuns(s)) == s
    decreases |s|
  {
    if s != [] {
      var n := RunLength(s);
      if n >= 3 {
        StripUndoesWrap(s[n..]);
        StripsLong(s, n);
      } else {
        StripUndoesWrap(s[1..]);
        StripsNext(s);
      }
    }
  }

  lemma {:induction false} EscapeHasNoTag(t: string)
    ensures NoChar(Escape(t), '<')
  {
    if t != [] {
      EscapeHasNoTag(t[1..]);
    }
  }

  lemma PlainStays(c: char, rest: string)
    requires c != '&'
    ensures Unescape([c] + rest) == [c] + Unescape(rest)
  {
    var s := [c] + rest;
    DiffersAt(s, "&amp;", 0);
    DiffersAt(s, "&#39;", 0);
    DiffersAt(s, "&lt;", 0);
    DiffersAt(s, "&gt;", 0);
    DiffersAt(s, "&#34;", 0);
    assert s[1..] == rest;
  }

  lemma UnescapeEntity(c: char, rest: string)
    ensures Unescape(Entity(c) + rest) == [c] + Unescape(rest)
  {
    var e := Entity(c);
    var s := e + rest;
    if |e| == 1 {
      PlainStays(c, rest);
    } else {
      assert s[..|e|] == e && s[|e|..] == rest;
      assert s[1] == e[1] && s[3] == e[3];
      if c != '&' {
        DiffersAt(s, "&amp;", 1);
        if c == '"' {
          DiffersAt(s, "&#39;", 3);
        } else if c != '\'' {
          DiffersAt(s, "&#39;", 1);
        }
        if c == '>' || c == '"' {
          DiffersAt(s, "&lt;", 1);
        }
        if c == '"' {
          DiffersAt(s, "&gt;", 1);
        }
      }
    }
  }

  lemma {:induction false} UnescapeUndoesEscape(t: string)
    ensures Unescape(Escape(t)) == t
  {
    if t != [] {
      UnescapeUndoesEscape(t[1..]);
      UnescapeEntity(t[0], Escape(t[1..]));
    }
  }

  /** Nothing of the text is lost or changed: removing the tags and then decoding the entities gives it back. */
  lemma Undone(text: string)
    ensures Unescape(StripTags(WrapDigits(text))) == text
  {
    EscapeHasNoTag(text);
    StripUndoesWrap(Escape(text));
    UnescapeUndoesEscape(text);
  }

  // ------------------------------------------------------------------ what is wrapped

  /** t[i..j] is a run of at least three digits that cannot be extended. */
  ghost predicate LongRun(t: string, i: nat, j: nat) {
    && i + 3 <= j <= |t| && AllDigits(t[i..j])
    && (i > 0 ==> !IsDigit(t[i - 1])) && (j < |t| ==> !IsDigit(t[j]))
  }

  ghost predicate Opens(t: string, i: nat) {
    exists j: nat :: LongRun(t, i, j)
  }

  ghost predicate Closes(t: string, j: nat) {
    exists i: nat :: LongRun(t, i, j)
  }

  /** What becomes of the i-th character. */
  ghost function Piece(t: string, i: nat): string
    requires i < |t|
  {
    (if Opens(t, i) then OPEN else []) + Entity(t[i]) + (if Closes(t, i + 1) then CLOSE else [])
  }

  /** What becomes of each character. */
  ghost predicate ArePieces(t: string, ps: seq<string>) {
    |ps| == |t| && forall i :: 0 <= i < |t| ==> ps[i] == Piece(t, i)
  }

  ghost function Pieces(t: string): (ps: seq<string>)
    ensures ArePieces(t, ps)
  {
    seq(|t|, i requires 0 <= i < |t| => Piece(t, i))
  }

  function JoinFrom(ps: seq<string>, i: nat): string
    requires i <= |ps|
    decreases |ps| - i
  {
    if i == |ps| then [] else ps[i] + JoinFrom(ps, i + 1)
  }

  /** i is not inside a long run. */
  ghost predicate Between(t: string, i: nat) {
    forall h: nat, j: nat :: LongRun(t, h, j) ==> !(h < i < j)
  }

  lemma EscapeStep(c: char, rest: string)
    ensures Escape([c] + rest) == Entity(c) + Escape(rest)
  {
    assert ([c] + rest)[1..] == rest;
  }

  lemma DigitEntity(c: char)
    requires IsDigit(c)
    ensures Entity(c) == [c]
  {
  }

  lemma {:induction false} EscapeDigits(digits: string, rest: string)
    requires AllDigits(digits)
    ensures Escape(digits + rest) == digits + Escape(rest)
  {
    if digits == [] {
      assert digits + rest == rest;
    } else {
      HeadFirst(digits, rest);
      EscapeStep(digits[0], digits[1..] + rest);
      DigitEntity(digits[0]);
      EscapeDigits(digits[1..], rest);
      HeadFirst(digits, Escape(rest));
    }
  }

  lemma {:induction false} RunThrough(digits: string, rest: string)
    requires AllDigits(digits) && (rest != [] ==> !IsDigit(rest[0]))
    ensures RunLength(digits + rest) == |digits|
  {
    if digits == [] {
      assert digits + rest == rest;
    } else {
      assert (digits + rest)[1..] == digits[1..] + rest;
      RunThrough(digits[1..], rest);
    }
  }

  lemma EscapeOfRun(digits: string, rest: string)
    requires AllDigits(digits) && (rest != [] ==> !IsDigit(rest[0]))
    ensures Escape(digits + rest) == digits + Escape(rest) && RunLength(digits + Escape(rest)) == |digits|
  {
    EscapeDigits(digits, rest);
    EscapeKeepsEnd(rest);
    RunThrough(digits, Escape(rest));
  }

  lemma EscapeKeepsRun(u: string)
    ensures RunLength(Escape(u)) == RunLength(u)
  {
    var n := RunLength(u);
    var digits, rest := u[..n], u[n..];
    assert u == digits + rest;
    EscapeOfRun(digits, rest);
  }

  lemma EscapeKeepsEnd(rest: string)
    requires rest != [] ==> !IsDigit(rest[0])
    ensures Escape(rest) != [] ==> !IsDigit(Escape(rest)[0])
  {
    if rest != [] {
      assert Escape(rest)[0] == Entity(rest[0])[0];
    }
  }

  /** One of the characters k, k + 1 and k + 2 is there and is no digit. */
  predicate BreaksSoon(p: string, k: nat) {
    || (k < |p| && !IsDigit(p[k]))
    || (k + 1 < |p| && !IsDigit(p[k + 1]))
    || (k + 2 < |p| && !IsDigit(p[k + 2]))
  }

  lemma {:induction false} ShortRun(s: string, k: nat)
    requires k < |s| && !IsDigit(s[k])
    ensures RunLength(s) <= k
  {
    if k > 0 {
      ShortRun(s[1..], k - 1);
    }
  }

  lemma WrapStep(c: char, rest: string)
    requires RunLength([c] + rest) < 3
    ensures WrapRuns([c] + rest) == [c] + WrapRuns(rest)
  {
    assert ([c] + rest)[1..] == rest;
  }

  lemma BreaksRun(p: string, rest: string)
    requires BreaksSoon(p, 0)
    ensures RunLength(p + rest) < 3
  {
    ShortRun(p + rest, if !IsDigit(p[0]) then 0 else if |p| > 1 && !IsDigit(p[1]) then 1 else 2);
  }

  /** Nothing is wrapped in a stretch that ends with a non-digit and has one in every three characters. */
  lemma {:induction false} ShortRunsStay(p: string, rest: string)
    requires forall k :: 0 <= k < |p| ==> BreaksSoon(p, k)
    ensures WrapRuns(p + rest) == p + WrapRuns(rest)
  {
    if p == [] {
      assert p + rest == rest;
    } else {
      assert BreaksSoon(p, 0);
      BreaksRun(p, rest);
      forall k | 0 <= k < |p[1..]| ensures BreaksSoon(p[1..], k) {
        assert BreaksSoon(p, k + 1);
      }
      ShortRunsStay(p[1..], rest);
      HeadFirst(p, rest);
      WrapStep(p[0], p[1..] + rest);
      HeadFirst(p, WrapRuns(rest));
    }
  }

  lemma EntityStays(c: char, rest: string)
    requires !IsDigit(c)
    ensures WrapRuns(Entity(c) + rest) == Entity(c) + WrapRuns(rest)
  {
    var e := Entity(c);
    forall k | 0 <= k < |e| ensures BreaksSoon(e, k) {
    }
    ShortRunsStay(e, rest);
  }

  lemma RunIsLong(t: string, i: nat) returns (j: nat)
    requires i < |t| && Between(t, i) && RunLength(t[i..]) >= 3
    ensures i < j <= |t| && RunLength(t[i..]) == j - i && LongRun(t, i, j)
  {
    j := i + RunLength(t[i..]);
    assert t[i..j] == t[i..][..j - i];
    if i > 0 && IsDigit(t[i - 1]) {
      var h := RunReaching(t, i);
    }
  }

  /** The whole run of which a long run at i is the end. */
  lemma RunReaching(t: string, i: nat) returns (h: nat)
    requires 0 < i < |t| && IsDigit(t[i - 1]) && RunLength(t[i..]) >= 3
    ensures h < i && LongRun(t, h, i + RunLength(t[i..]))
  {
    var j := i + RunLength(t[i..]);
    h := RunStart(t, i);
    assert t[i..j] == t[i..][..j - i];
    assert forall k :: i <= k < j ==> t[k] == t[i..j][k - i];
  }

  /** Where the run that reaches i begins. */
  lemma {:induction false} RunStart(t: string, i: nat) returns (h: nat)
    requires 0 < i < |t| && IsDigit(t[i - 1])
    ensures h < i && (forall k :: h <= k < i ==> IsDigit(t[k])) && (h > 0 ==> !IsDigit(t[h - 1]))
  {
    if i == 1 || !IsDigit(t[i - 2]) {
      h := i - 1;
    } else {
      h := RunStart(t, i - 1);
    }
  }

  lemma LongRunAt(t: string, i: nat, j: nat, h: nat, k: nat)
    requires LongRun(t, i, j) && LongRun(t, h, k)
    ensures (i == h && j == k) || j < h || k < i
  {
    assert forall x :: i <= x < j ==> t[x] == t[i..j][x - i];
    assert forall x :: h <= x < k ==> t[x] == t[h..k][x - h];
  }

  lemma PieceInRun(t: string, i: nat, j: nat, k: nat)
    requires LongRun(t, i, j) && i <= k < j
    ensures Piece(t, k) == (if k == i then OPEN else []) + [t[k]] + (if k + 1 == j then CLOSE else [])
  {
    assert t[k] == t[i..j][k - i];
    if x: nat :| LongRun(t, k, x) { LongRunAt(t, i, j, k, x); }
    if Closes(t, k + 1) {
      var x: nat :| LongRun(t, x, k + 1);
      LongRunAt(t, i, j, x, k + 1);
    }
    assert Opens(t, i) && Closes(t, j);
  }

  lemma JoinNext(ps: seq<string>, i: nat, piece: string)
    requires i < |ps| && ps[i] == piece
    ensures JoinFrom(ps, i) == piece + JoinFrom(ps, i + 1)
  {
  }

  /** Pieces that hold a run, the last with the closing tag. */
  lemma {:induction false} JoinRun(ps: seq<string>, run: string, i: nat, k: nat)
    requires k < |run| && i + |run| <= |ps|
    requires forall m :: k <= m < |run| ==> ps[i + m] == [run[m]] + (if m + 1 == |run| then CLOSE else [])
    ensures JoinFrom(ps, i + k) == run[k..] + (CLOSE + JoinFrom(ps, i + |run|))
    decreases |run| - k
  {
    var rest := JoinFrom(ps, i + |run|);
    assert ps[i + k] == [run[k]] + (if k + 1 == |run| then CLOSE else []);
    if k + 1 < |run| {
      JoinRun(ps, run, i, k + 1);
      JoinNext(ps, i + k, [run[k]]);
      HeadFirst(run[k..], CLOSE + rest);
      assert run[k..][1..] == run[k + 1..];
    } else {
      JoinNext(ps, i + k, [run[k]] + CLOSE);
      assert run[k..] == [run[k]];
      Regroup([run[k]], [], CLOSE, rest);
      assert [] + (CLOSE + rest) == CLOSE + rest;
    }
  }

  lemma RunIsTagged(t: string, ps: seq<string>, i: nat, j: nat, m: nat)
    requires ArePieces(t, ps) && LongRun(t, i, j) && m < j - i
    ensures TaggedAt(ps, t[i..j], i, m)
  {
    PieceInRun(t, i, j, i + m);
  }

  lemma AllTagged(t: string, ps: seq<string>, i: nat, j: nat)
    requires ArePieces(t, ps) && LongRun(t, i, j)
    ensures i + 3 <= j <= |ps| && |t[i..j]| == j - i && forall m :: 0 <= m < j - i ==> TaggedAt(ps, t[i..j], i, m)
  {
    forall m | 0 <= m < j - i ensures TaggedAt(ps, t[i..j], i, m) {
      RunIsTagged(t, ps, i, j, m);
    }
  }

  lemma JoinWholeRun(t: string, ps: seq<string>, i: nat, j: nat)
    requires ArePieces(t, ps) && LongRun(t, i, j)
    ensures JoinFrom(ps, i) == Code(t[i..j]) + JoinFrom(ps, j)
  {
    AllTagged(t, ps, i, j);
    JoinTagged(ps, t[i..j], i);
  }

  /** The m-th character of the run, with the tags before the first and behind the last. */
  ghost predicate TaggedAt(ps: seq<string>, run: string, i: nat, m: nat)
    requires m < |run| && i + |run| <= |ps|
  {
    ps[i + m] == (if m == 0 then OPEN else []) + [run[m]] + (if m + 1 == |run| then CLOSE else [])
  }

  lemma JoinTagged(ps: seq<string>, run: string, i: nat)
    requires |run| >= 3 && i + |run| <= |ps|
    requires forall m :: 0 <= m < |run| ==> TaggedAt(ps, run, i, m)
    ensures JoinFrom(ps, i) == Code(run) + JoinFrom(ps, i + |run|)
  {
    forall m | 1 <= m < |run| ensures ps[i + m] == [run[m]] + (if m + 1 == |run| then CLOSE else []) {
      assert TaggedAt(ps, run, i, m);
    }
    JoinRun(ps, run, i, 1);
    assert TaggedAt(ps, run, i, 0) && ps[i + 0] == OPEN + [run[0]];
    CodeAndRest(run, JoinFrom(ps, i + |run|));
  }

  lemma CodeAndRest(run: string, rest: string)
    requires run != []
    ensures Code(run) + rest == (OPEN + [run[0]]) + (run[1..] + (CLOSE + rest))
  {
    assert run == [run[0]] + run[1..];
    assert OPEN + run == (OPEN + [run[0]]) + run[1..];
    Regroup(OPEN + [run[0]], run[1..], CLOSE, rest);
  }

  lemma Regroup(a: string, b: string, c: string, d: string)
    ensures a + (b + (c + d)) == (a + b) + c + d
  {
  }

  /** From i on, the pieces make what is wrapped. */
  ghost predicate MarkedFrom(t: string, ps: seq<string>, i: nat) {
    i <= |t| && i <= |ps| && WrapRuns(Escape(t[i..])) == JoinFrom(ps, i)
  }

  lemma MarkedAtRun(t: string, ps: seq<string>, i: nat, j: nat)
    requires i < j <= |t| && j <= |ps| && RunLength(t[i..]) == j - i >= 3
    requires JoinFrom(ps, i) == Code(t[i..j]) + JoinFrom(ps, j) && MarkedFrom(t, ps, j)
    ensures MarkedFrom(t, ps, i)
  {
    WrapAtRun(t, i, j);
  }

  lemma MarkedAtChar(t: string, ps: seq<string>, i: nat)
    requires ArePieces(t, ps) && i < |t| && RunLength(t[i..]) < 3 && !Opens(t, i) && !Closes(t, i + 1)
    requires MarkedFrom(t, ps, i + 1)
    ensures MarkedFrom(t, ps, i)
  {
    WrapOne(t, i);
    UntaggedPiece(t, ps, i);
  }

  lemma MarkedAtEnd(t: string, ps: seq<string>)
    requires ArePieces(t, ps)
    ensures MarkedFrom(t, ps, |t|)
  {
  }

  lemma RunIsMarked(t: string, ps: seq<string>, i: nat, j: nat)
    requires ArePieces(t, ps) && i < j <= |t| && RunLength(t[i..]) == j - i >= 3 && LongRun(t, i, j)
    requires MarkedFrom(t, ps, j)
    ensures MarkedFrom(t, ps, i)
  {
    JoinWholeRun(t, ps, i, j);
    MarkedAtRun(t, ps, i, j);
  }

  lemma {:induction false} WrapIsMarked(t: string, ps: seq<string>, i: nat)
    requires ArePieces(t, ps) && i <= |t| && Between(t, i)
    ensures MarkedFrom(t, ps, i)
    decreases |t| - i
  {
    if i == |t| {
      MarkedAtEnd(t, ps);
    } else if RunLength(t[i..]) >= 3 {
      var j := RunIsLong(t, i);
      BetweenAfter(t, i, j);
      WrapIsMarked(t, ps, j);
      RunIsMarked(t, ps, i, j);
    } else {
      NoTagAt(t, i);
      WrapIsMarked(t, ps, i + 1);
      MarkedAtChar(t, ps, i);
    }
  }

  lemma UntaggedPiece(t: string, ps: seq<string>, i: nat)
    requires ArePieces(t, ps) && i < |t| && !Opens(t, i) && !Closes(t, i + 1)
    ensures JoinFrom(ps, i) == Entity(t[i]) + JoinFrom(ps, i + 1)
  {
    assert Piece(t, i) == Entity(t[i]);
  }

  lemma WrapOne(t: string, i: nat)
    requires i < |t| && RunLength(t[i..]) < 3
    ensures WrapRuns(Escape(t[i..])) == Entity(t[i]) + WrapRuns(Escape(t[i + 1..]))
  {
    var rest := t[i + 1..];
    assert t[i..] == [t[i]] + rest;
    EscapeStep(t[i], rest);
    EscapeKeepsRun(t[i..]);
    if IsDigit(t[i]) {
      DigitEntity(t[i]);
      WrapStep(t[i], Escape(rest));
    } else {
      EntityStays(t[i], Escape(rest));
    }
  }

  lemma WrapWhole(digits: string, rest: string)
    requires RunLength(digits + rest) == |digits| >= 3
    ensures WrapRuns(digits + rest) == Code(digits) + WrapRuns(rest)
  {
    WrapLong(digits + rest, |digits|);
    assert (digits + rest)[..|digits|] == digits && (digits + rest)[|digits|..] == rest;
  }

  lemma RunParts(t: string, i: nat, j: nat)
    requires i <= j <= |t| && RunLength(t[i..]) == j - i
    ensures AllDigits(t[i..j]) && (t[j..] != [] ==> !IsDigit(t[j..][0]))
    ensures t[i..] == t[i..j] + t[j..]
  {
    assert t[i..j] == t[i..][..j - i];
    assert j < |t| ==> t[j..][0] == t[i..][j - i];
  }

  lemma WrapAtRun(t: string, i: nat, j: nat)
    requires i <= j <= |t| && RunLength(t[i..]) == j - i >= 3
    ensures WrapRuns(Escape(t[i..])) == Code(t[i..j]) + WrapRuns(Escape(t[j..]))
  {
    RunParts(t, i, j);
    WrapAround(t[i..], t[i..j], t[j..]);
  }

  lemma WrapAround(u: string, digits: string, rest: string)
    requires u == digits + rest && |digits| >= 3 && AllDigits(digits) && (rest != [] ==> !IsDigit(rest[0]))
    ensures WrapRuns(Escape(u)) == Code(digits) + WrapRuns(Escape(rest))
  {
    EscapeOfRun(digits, rest);
    WrapWhole(digits, Escape(rest));
  }

  lemma BetweenAfter(t: string, i: nat, j: nat)
    requires LongRun(t, i, j)
    ensures Between(t, j)
  {
    forall h: nat, k: nat | LongRun(t, h, k) ensures !(h < j < k) {
      LongRunAt(t, i, j, h, k);
    }
  }

  lemma NoTagAt(t: string, i: nat)
    requires i < |t| && Between(t, i) && RunLength(t[i..]) < 3
    ensures !Opens(t, i) && !Closes(t, i + 1) && Between(t, i + 1)
  {
    var n := RunLength(t[i..]);
    assert i + n < |t| ==> !IsDigit(t[i + n]);
    forall h: nat, j: nat | LongRun(t, h, j) ensures h != i && j != i + 1 && !(h < i + 1 < j) {
      assert forall k :: h <= k < j ==> t[k] == t[h..j][k - h];
      assert !(h < i < j);
    }
  }

  /** What is wrapped: exactly the maximal runs of three or more digits of the text itself. The digits of the
      entities &#34; and &#39; never are, and never join a run. */
  lemma WrappedExactly(text: string)
    ensures WrapDigits(text) == JoinFrom(Pieces(text), 0)
  {
    assert text[0..] == text;
    WrapIsMarked(text, Pieces(text), 0);
  }
}
