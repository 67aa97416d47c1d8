/** The splitter for rows of the `winget upgrade` table: cells are separated by runs
    of two or more spaces. */
module Winget {

  /** White space as Go's `strings.TrimSpace` sees it. */
  predicate IsSpace(c: char) {
    || c in {'\t', '\n', '\U{0B}', '\U{0C}', '\r', ' ', '\U{85}', '\U{A0}', '\U{1680}'}
    || '\U{2000}' <= c <= '\U{200A}'
    || c in {'\U{2028}', '\U{2029}', '\U{202F}', '\U{205F}', '\U{3000}'}
  }

  function TrimLeft(s: string): string {
    if s != "" && IsSpace(s[0]) then TrimLeft(s[1..]) else s
  }

  function TrimRight(s: string): string {
    if s != "" && IsSpace(s[|s| - 1]) then TrimRight(s[..|s| - 1]) else s
  }

  function Trim(s: string): string {
    TrimRight(TrimLeft(s))
  }

  /** The fields the scan still appends from position `i` on. */
  function Scan(line: string, i: nat, start: nat, inGap: bool): seq<string>
    requires start <= i <= |line|
    decreases |line| - i
  {
    if i == |line| then
      if start < |line| then [Trim(line[start..])] else []
    else if line[i] == ' ' then
      if !inGap && i + 1 < |line| && line[i + 1] == ' ' then
        [Trim(line[start..i])] + Scan(line, i + 1, start, true)
      else Scan(line, i + 1, start, inGap)
    else if inGap then Scan(line, i + 1, i, false)
    else Scan(line, i + 1, start, false)
  }

  method SplitLine(line: string) returns (fields: seq<string>)
    ensures fields == Scan(line, 0, 0, false)
  {
    fields := [];
    var start := 0;
    var inGap := false;
    for i := 0 to |line|
      invariant start <= i
      invariant fields + Scan(line, i, start, inGap) == Scan(line, 0, 0, false)
    {
      if line[i] == ' ' {
        if !inGap && i + 1 < |line| && line[i + 1] == ' ' {
          fields := fields + [Trim(line[start..i])];
          inGap := true;
        }
      } else if inGap {
        start := i;
        inGap := false;
      }
    }
    if start < |line| {
      fields := fields + [Trim(line[start..])];
    }
  }

  // -------------------------------------------------------------- table rows

  /** A stretch of a line between gaps: no space at its ends and no double space inside. */
  predicate IsPiece(c: string) {
    && c != "" && c[0] != ' ' && c[|c| - 1] != ' '
    && forall i :: 0 <= i < |c| - 1 ==> !(c[i] == ' ' && c[i + 1] == ' ')
  }

  /** A cell as winget prints it: no other white space at its ends either. */
  predicate IsCell(c: string) {
    IsPiece(c) && !IsSpace(c[0]) && !IsSpace(c[|c| - 1])
  }

  function Spaces(n: nat): (s: string)
    ensures |s| == n && forall i :: 0 <= i < n ==> s[i] == ' '
  {
    seq(n, _ => ' ')
  }

  /** The pieces with a gap of `gaps[i]` spaces after piece `i`; the last gap trails. */
  function Row(pieces: seq<string>, gaps: seq<nat>): string
    requires |pieces| == |gaps|
  {
    if pieces == [] then "" else pieces[0] + Spaces(gaps[0]) + Row(pieces[1..], gaps[1..])
  }

  ghost predicate IsRow(pieces: seq<string>, gaps: seq<nat>) {
    && |pieces| == |gaps| && pieces != []
    && (forall i :: 0 <= i < |pieces| ==> IsPiece(pieces[i]))
    && (forall i :: 0 <= i < |gaps| - 1 ==> gaps[i] >= 2)
  }

  function Trimmed(pieces: seq<string>): (cells: seq<string>)
    ensures |cells| == |pieces| && forall i :: 0 <= i < |pieces| ==> cells[i] == Trim(pieces[i])
  {
    seq(|pieces|, i requires 0 <= i < |pieces| => Trim(pieces[i]))
  }

  /** The last piece once more iff two or more spaces trail. */
  function Again(pieces: seq<string>, gaps: seq<nat>): seq<string>
    requires |pieces| == |gaps| && pieces != []
  {
    if gaps[|gaps| - 1] >= 2 then [Trim(pieces[|pieces| - 1])] else []
  }

  lemma {:induction false} TrimmedTail(pieces: seq<string>, gaps: seq<nat>)
    requires IsRow(pieces, gaps) && |pieces| > 1
    ensures IsRow(pieces[1..], gaps[1..]) && Again(pieces[1..], gaps[1..]) == Again(pieces, gaps)
    ensures Trimmed(pieces) == [Trim(pieces[0])] + Trimmed(pieces[1..])
  {
  }

  // ------------------------------------------------------------------ trimming

  lemma {:induction false} TrimRightSpaces(s: string, k: nat)
    ensures TrimRight(s + Spaces(k)) == TrimRight(s)
    decreases k
  {
    var text := s + Spaces(k);
    if k == 0 {
      assert text == s;
    } else {
      assert text[..|text| - 1] == s + Spaces(k - 1);
      TrimRightSpaces(s, k - 1);
    }
  }

  lemma {:induction false} TrimAfterSpaces(k: nat, s: string)
    ensures TrimLeft(Spaces(k) + s) == TrimLeft(s)
  {
    var text := Spaces(k) + s;
    if k == 0 {
      assert text == s;
    } else {
      assert text[1..] == Spaces(k - 1) + s;
      TrimAfterSpaces(k - 1, s);
    }
  }

  lemma {:induction false} TrimBeforeSpaces(s: string, k: nat)
    ensures Trim(s + Spaces(k)) == Trim(s)
  {
    if s == "" {
      assert s + Spaces(k) == Spaces(k) + "";
      TrimAfterSpaces(k, "");
    } else if IsSpace(s[0]) {
      assert (s + Spaces(k))[1..] == s[1..] + Spaces(k);
      TrimBeforeSpaces(s[1..], k);
    } else {
      TrimRightSpaces(s, k);
    }
  }

  /** Spaces around a piece do not matter. */
  lemma {:induction false} TrimPadded(a: nat, c: string, k: nat)
    ensures Trim(Spaces(a) + c + Spaces(k)) == Trim(c)
  {
    assert Spaces(a) + c + Spaces(k) == Spaces(a) + (c + Spaces(k));
    TrimAfterSpaces(a, c + Spaces(k));
    TrimBeforeSpaces(c, k);
  }

  lemma {:induction false} TrimKeepsCell(c: string)
    requires IsCell(c)
    ensures Trim(c) == c
  {
  }

  // ------------------------------------------------------------------ scanning

  /** Inside a piece nothing is appended. */
  lemma {:induction false} ScanPiece(line: string, start: nat, b: nat, i: nat, end: nat)
    requires start <= b <= i <= end <= |line| && IsPiece(line[b..end])
    ensures Scan(line, i, start, false) == Scan(line, end, start, false)
    decreases end - i
  {
    if i < end {
      var c := line[b..end];
      assert c[i - b] == line[i];
      if i + 1 < end {
        assert c[i + 1 - b] == line[i + 1];
      }
      ScanPiece(line, start, b, i + 1, end);
    }
  }

  /** Inside a gap nothing is appended either. */
  lemma {:induction false} ScanGap(line: string, start: nat, i: nat, end: nat)
    requires start <= i <= end <= |line| && forall j :: i <= j < end ==> line[j] == ' '
    ensures Scan(line, i, start, true) == Scan(line, end, start, true)
    decreases end - i
  {
    if i < end {
      ScanGap(line, start, i + 1, end);
    }
  }

  /** The text that is trimmed for a piece: it may have spaces before and after it. */
  lemma {:induction false} TrimSlice(line: string, start: nat, b: nat, c: string, end: nat)
    requires start <= b && b + |c| <= end <= |line| && line[b..b + |c|] == c
    requires forall j :: start <= j < b || b + |c| <= j < end ==> line[j] == ' '
    ensures Trim(line[start..end]) == Trim(c)
  {
    var k := end - (b + |c|);
    assert line[start..end] == line[start..b] + line[b..b + |c|] + line[b + |c|..end];
    assert line[start..b] == Spaces(b - start) && line[b + |c|..end] == Spaces(k);
    TrimPadded(b - start, c, k);
  }

  lemma {:induction false} ScanLastPiece(line: string, start: nat, b: nat, c: string, k: nat)
    requires start <= b <= |line| && IsPiece(c) && line[b..] == c + Spaces(k)
    requires forall j :: start <= j < b ==> line[j] == ' '
    ensures Scan(line, b, start, false) == if k >= 2 then [Trim(c), Trim(c)] else [Trim(c)]
  {
    var end := b + |c|;
    assert |line| == end + k;
    assert line[b..end] == line[b..][..|c|] == c;
    assert forall j :: end <= j < |line| ==> line[j] == line[b..][j - b];
    ScanPiece(line, start, b, b, end);
    TrimSlice(line, start, b, c, end);
    TrimSlice(line, start, b, c, |line|);
    assert line[start..] == line[start..|line|];
    if k >= 2 {
      ScanGap(line, start, end + 1, |line|);
    }
  }

  lemma {:induction false} ScanInnerPiece(line: string, start: nat, b: nat, c: string, k: nat)
    requires start <= b && IsPiece(c) && k >= 2 && b + |c| + k < |line|
    requires line[b..b + |c|] == c
    requires forall j :: start <= j < b || b + |c| <= j < b + |c| + k ==> line[j] == ' '
    requires line[b + |c| + k] != ' '
    ensures Scan(line, b, start, false) == [Trim(c)] + Scan(line, b + |c| + k, b + |c| + k, false)
  {
    var end := b + |c|;
    ScanPiece(line, start, b, b, end);
    TrimSlice(line, start, b, c, end);
    ScanGap(line, start, end + 1, end + k);
  }

  /** The line reads as the row from position `b` on; before it, from `start`, are spaces. */
  ghost predicate ReadsFrom(line: string, start: nat, b: nat, pieces: seq<string>, gaps: seq<nat>) {
    && IsRow(pieces, gaps) && start <= b <= |line| && line[b..] == Row(pieces, gaps)
    && forall j :: start <= j < b ==> line[j] == ' '
  }

  lemma {:induction false} ScanFirst(line: string, start: nat, b: nat, pieces: seq<string>, gaps: seq<nat>)
    requires ReadsFrom(line, start, b, pieces, gaps) && |pieces| > 1
    ensures var next := b + |pieces[0]| + gaps[0];
            && ReadsFrom(line, next, next, pieces[1..], gaps[1..])
            && Scan(line, b, start, false) == [Trim(pieces[0])] + Scan(line, next, next, false)
  {
    TrimmedTail(pieces, gaps);
    NextPiece(line, b, pieces[0], gaps[0], pieces[1..], gaps[1..]);
    ScanInnerPiece(line, start, b, pieces[0], gaps[0]);
  }

  lemma {:induction false} ScanOnly(line: string, start: nat, b: nat, pieces: seq<string>, gaps: seq<nat>)
    requires ReadsFrom(line, start, b, pieces, gaps) && |pieces| == 1
    ensures Scan(line, b, start, false) == Trimmed(pieces) + Again(pieces, gaps)
  {
    var c, k := pieces[0], gaps[0];
    assert Row(pieces, gaps) == c + Spaces(k) + "" == c + Spaces(k);
    ScanLastPiece(line, start, b, c, k);
    assert Trimmed(pieces) == [Trim(c)];
  }

  lemma {:induction false} ScanRow(line: string, start: nat, b: nat, pieces: seq<string>, gaps: seq<nat>)
    requires ReadsFrom(line, start, b, pieces, gaps)
    ensures Scan(line, b, start, false) == Trimmed(pieces) + Again(pieces, gaps)
    decreases |pieces|
  {
    if |pieces| == 1 {
      ScanOnly(line, start, b, pieces, gaps);
    } else {
      var next := b + |pieces[0]| + gaps[0];
      ScanFirst(line, start, b, pieces, gaps);
      ScanRow(line, next, next, pieces[1..], gaps[1..]);
      TrimmedTail(pieces, gaps);
    }
  }

  lemma {:induction false} NextPiece(line: string, b: nat, c: string, k: nat, pieces: seq<string>, gaps: seq<nat>)
    requires b <= |line| && IsRow(pieces, gaps) && line[b..] == c + Spaces(k) + Row(pieces, gaps)
    ensures b + |c| + k < |line| && line[b..b + |c|] == c && line[b + |c| + k..] == Row(pieces, gaps)
    ensures forall j :: b + |c| <= j < b + |c| + k ==> line[j] == ' '
    ensures line[b + |c| + k] != ' '
  {
    var tail, rest := line[b..], Row(pieces, gaps);
    assert IsPiece(pieces[0]) && rest[0] == pieces[0][0];
    assert forall j :: 0 <= j < |tail| ==> tail[j] == line[b + j];
    assert line[b..b + |c|] == tail[..|c|] == c;
    assert line[b + |c| + k..] == tail[|c| + k..] == rest;
    forall j | b + |c| <= j < b + |c| + k ensures line[j] == ' ' {
      assert line[j] == tail[j - b] == Spaces(k)[j - b - |c|];
    }
  }

  // ---------------------------------------------------------------- every line

  /** A line of pieces, indented by `lead` spaces: the pieces, trimmed; an empty field
      before them iff the indentation is two or more; and the last one again iff two or
      more spaces trail. */
  lemma {:induction false} LineSplits(lead: nat, pieces: seq<string>, gaps: seq<nat>)
    requires IsRow(pieces, gaps)
    ensures Scan(Spaces(lead) + Row(pieces, gaps), 0, 0, false) ==
            (if lead >= 2 then [""] else []) + Trimmed(pieces) + Again(pieces, gaps)
  {
    var row := Row(pieces, gaps);
    var line := Spaces(lead) + row;
    assert IsPiece(pieces[0]) && row[0] == pieces[0][0];
    assert line[lead..] == row && line[lead] == row[0];
    assert forall j :: 0 <= j < lead ==> line[j] == ' ';
    if lead < 2 {
      ScanRow(line, 0, lead, pieces, gaps);
    } else {
      assert line[0..0] == "" && Trim("") == "";
      ScanGap(line, 0, 1, lead);
      ScanRow(line, lead, lead, pieces, gaps);
    }
  }

  /** A line of nothing but spaces. */
  lemma {:induction false} BlankLineSplits(n: nat)
    ensures Scan(Spaces(n), 0, 0, false) == if n == 0 then [] else if n == 1 then [""] else ["", ""]
  {
    var line := Spaces(n);
    assert line == Spaces(n) + "";
    TrimAfterSpaces(n, "");
    assert line[0..] == line && Trim(line) == "";
    if n >= 2 {
      assert line[0..0] == "" && Trim("") == "";
      ScanGap(line, 0, 1, n);
    }
  }

  lemma {:induction false} Indentation(s: string) returns (n: nat)
    ensures n <= |s| && s == Spaces(n) + s[n..] && (n == |s| || s[n] != ' ')
  {
    if s == "" || s[0] != ' ' {
      n := 0;
    } else {
      n := Indentation(s[1..]);
      n := n + 1;
      assert s == [' '] + s[1..];
      assert Spaces(n) == [' '] + Spaces(n - 1);
      assert s[n..] == s[1..][n - 1..];
    }
  }

  lemma {:induction false} Pieces(s: string) returns (pieces: seq<string>, gaps: seq<nat>)
    requires s != "" && s[0] != ' '
    ensures IsRow(pieces, gaps) && Row(pieces, gaps) == s
    decreases |s|
  {
    var x, t := s[..1], s[1..];
    assert s == x + t && IsPiece(x);
    var n := Indentation(t);
    var u := t[n..];
    if u == "" {
      pieces, gaps := [x], [n];
      assert Row(pieces, gaps) == x + Spaces(n) + "";
    } else {
      pieces, gaps := Pieces(u);
      if n >= 2 {
        pieces, gaps := AddPiece(x, n, pieces, gaps);
      } else {
        pieces := GrowPiece(x, n, pieces, gaps);
      }
      assert s == x + Spaces(n) + u;
    }
  }

  lemma {:induction false} AddPiece(x: string, n: nat, pieces: seq<string>, gaps: seq<nat>) returns (pieces': seq<string>, gaps': seq<nat>)
    requires IsRow(pieces, gaps) && IsPiece(x) && n >= 2
    ensures IsRow(pieces', gaps') && Row(pieces', gaps') == x + Spaces(n) + Row(pieces, gaps)
  {
    pieces', gaps' := [x] + pieces, [n] + gaps;
    assert pieces'[1..] == pieces && gaps'[1..] == gaps;
  }

  /** With no gap of two spaces the first piece starts earlier. */
  lemma {:induction false} GrowPiece(x: string, n: nat, pieces: seq<string>, gaps: seq<nat>) returns (pieces': seq<string>)
    requires IsRow(pieces, gaps) && |x| == 1 && x[0] != ' ' && n < 2
    ensures IsRow(pieces', gaps) && Row(pieces', gaps) == x + Spaces(n) + Row(pieces, gaps)
  {
    var c := x + Spaces(n) + pieces[0];
    assert IsPiece(pieces[0]);
    forall i | 0 <= i < |c| - 1 ensures !(c[i] == ' ' && c[i + 1] == ' ') {
      if i > n {
        assert c[i] == pieces[0][i - 1 - n] && c[i + 1] == pieces[0][i - n];
      } else if i == n {
        assert c[i + 1] == pieces[0][0];
      }
    }
    assert c[|c| - 1] == pieces[0][|pieces[0]| - 1];
    pieces' := [c] + pieces[1..];
    assert pieces'[1..] == pieces[1..];
  }

  /** Every line is blank or an indented row of pieces, so the laws above say how every
      line is split. */
  lemma {:induction false} EveryLineIsCovered(line: string) returns (lead: nat, pieces: seq<string>, gaps: seq<nat>)
    ensures line == Spaces(lead) || (IsRow(pieces, gaps) && line == Spaces(lead) + Row(pieces, gaps))
  {
    lead := Indentation(line);
    pieces, gaps := [], [];
    if lead < |line| {
      pieces, gaps := Pieces(line[lead..]);
    } else {
      assert line[lead..] == "";
    }
  }

  /** A table row of trimmed cells is split into exactly its cells; when it ends in a gap
      of two or more spaces, and only then, the last cell is reported twice. */
  lemma {:induction false} RowRoundTrip(cells: seq<string>, gaps: seq<nat>)
    requires IsRow(cells, gaps) && forall i :: 0 <= i < |cells| ==> IsCell(cells[i])
    ensures Scan(Row(cells, gaps), 0, 0, false) ==
            cells + if gaps[|gaps| - 1] >= 2 then [cells[|cells| - 1]] else []
  {
    forall i | 0 <= i < |cells| ensures Trim(cells[i]) == cells[i] { TrimKeepsCell(cells[i]); }
    assert Trimmed(cells) == cells;
    ScanRow(Row(cells, gaps), 0, 0, cells, gaps);
  }
}
