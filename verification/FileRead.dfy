/** The file_read tool: a paginating, line-numbering printer, and how to read its
    output back. */
module FileRead {
  import opened Text

  /* ---------- scanning lines ---------- */

  /** The longest line, newline included, that fits the scanner's buffer. */
  const MAX_TOKEN := 65536

  const DEFAULT_LIMIT := 2000

  const SENTINEL := "(empty file or offset beyond end)"

  function DropCR(line: string): string {
    if |line| > 0 && line[|line| - 1] == '\r' then line[..|line| - 1] else line
  }

  /** The text behind the first line. */
  function Rest(s: string): string {
    var k := Find(s, '\n');
    if k < |s| then s[k + 1..] else ""
  }

  /** The lines as they stand in the file. */
  function RawLines(s: string): seq<string>
    decreases |s|
  {
    if |s| == 0 then [] else [s[..Find(s, '\n')]] + RawLines(Rest(s))
  }

  datatype Token = Line(text: string) | TooLong

  /** What the scanner delivers, one token per call; a line that does not fit ends
      the scan with an error. */
  function Tokens(s: string): seq<Token>
    decreases |s|
  {
    if |s| == 0 then []
    else if Find(s, '\n') >= MAX_TOKEN then [TooLong]
    else [Line(DropCR(s[..Find(s, '\n')]))] + Tokens(Rest(s))
  }

  /** The lines before an over-long one. */
  function Lines(ts: seq<Token>): seq<string> {
    if |ts| == 0 || ts[0].TooLong? then [] else [ts[0].text] + Lines(ts[1..])
  }

  ghost predicate Overflows(ts: seq<Token>) {
    exists i :: 0 <= i < |ts| && ts[i].TooLong?
  }

  /* ---------- the tool ---------- */

  datatype ReadInput = ReadInput(path: string, offset: int, limit: int)

  datatype ReadResult =
    | PathRequired
    | CannotOpen
    | ReadError
    | Content(text: string)

  function Digit(d: nat): char
    requires d < 10
  {
    ('0' as int + d) as char
  }

  function Decimal(n: nat): (s: string)
    ensures |s| > 0 && forall c :: c in s ==> '0' <= c <= '9'
  {
    if n < 10 then [Digit(n)] else Decimal(n / 10) + [Digit(n % 10)]
  }

  /** One row of output; `n` is the line number, counted from 1. */
  function Row(n: nat, line: string): string { Decimal(n) + "\t" + line }

  /** The rows of lines `lo` to `hi`. */
  function Rows(lines: seq<string>, lo: nat, hi: nat): seq<string>
    requires lo <= hi <= |lines|
  {
    if lo == hi then [] else Rows(lines, lo, hi - 1) + [Row(hi, lines[hi - 1])]
  }

  function Join(rows: seq<string>): string {
    if |rows| == 0 then "" else if |rows| == 1 then rows[0] else rows[0] + "\n" + Join(rows[1..])
  }

  function Clamp(i: int, n: nat): nat { if i < 0 then 0 else if i > n then n else i }

  function Limit(limit: int): nat {
    if limit == 0 then DEFAULT_LIMIT else if limit < 0 then 0 else limit
  }

  function First(offset: int): nat { if offset < 0 then 0 else offset }

  /** The first line of the page, and the one behind its last. */
  function Low(n: nat, offset: int): nat { Clamp(offset, n) }

  function High(n: nat, offset: int, limit: nat): (hi: nat)
    ensures Low(n, offset) <= hi <= n
  {
    Clamp(First(offset) + limit, n)
  }

  function Show(rows: seq<string>): string {
    if |rows| == 0 then SENTINEL else Join(rows)
  }

  /** The page of these tokens, unless an over-long line is met before the page is
      known to be complete. */
  ghost function PageOf(ts: seq<Token>, offset: int, limit: nat): ReadResult {
    var lines := Lines(ts);
    if Overflows(ts) && |lines| <= First(offset) + limit then ReadError
    else Content(Show(Rows(lines, Low(|lines|, offset), High(|lines|, offset, limit))))
  }

  /** What the tool promises. */
  ghost function Promised(files: map<string, string>, input: ReadInput): ReadResult {
    if input.path == "" then PathRequired
    else if input.path !in files then CannotOpen
    else PageOf(Tokens(files[input.path]), input.offset, Limit(input.limit))
  }

  lemma {:induction false} LinesOf(ts: seq<Token>)
    requires forall i :: 0 <= i < |ts| - 1 ==> ts[i].Line?
    ensures |Lines(ts)| == if Overflows(ts) then |ts| - 1 else |ts|
    ensures forall i :: 0 <= i < |Lines(ts)| ==> ts[i].Line? && Lines(ts)[i] == ts[i].text
  {
    if |ts| > 0 && ts[0].Line? {
      LinesOf(ts[1..]);
      assert Overflows(ts) <==> Overflows(ts[1..]) by {
        if i :| 0 <= i < |ts| && ts[i].TooLong? { assert ts[1..][i - 1].TooLong?; }
        if i :| 0 <= i < |ts[1..]| && ts[1..][i].TooLong? { assert ts[i + 1].TooLong?; }
      }
    } else if |ts| > 0 {
      assert |ts| == 1;
    }
  }

  lemma {:induction false} TokensEndAtOverflow(s: string)
    ensures forall i :: 0 <= i < |Tokens(s)| - 1 ==> Tokens(s)[i].Line?
    decreases |s|
  {
    if |s| > 0 && Find(s, '\n') < MAX_TOKEN {
      TokensEndAtOverflow(Rest(s));
    }
  }

  lemma {:induction false} RowsLength(lines: seq<string>, lo: nat, hi: nat)
    requires lo <= hi <= |lines|
    ensures |Rows(lines, lo, hi)| == hi - lo
    ensures forall k :: lo <= k < hi ==> Rows(lines, lo, hi)[k - lo] == Row(k + 1, lines[k])
  {
    if lo < hi {
      RowsLength(lines, lo, hi - 1);
    }
  }

  /** The rows collected from the first `n` lines. */
  function Taken(lines: seq<string>, first: nat, n: nat): seq<string>
    requires n <= |lines|
  {
    if n <= first then [] else Rows(lines, first, n)
  }

  lemma TakenSkips(lines: seq<string>, first: nat, n: nat)
    requires n < |lines| && n < first
    ensures Taken(lines, first, n + 1) == Taken(lines, first, n)
  {
  }

  lemma TakenGrows(lines: seq<string>, first: nat, n: nat, rows: seq<string>, text: string)
    requires first <= n < |lines| && rows == Taken(lines, first, n) && text == lines[n]
    ensures |rows| == n - first && Taken(lines, first, n + 1) == rows + [Row(n + 1, text)]
  {
    if first < n { RowsLength(lines, first, n); }
    assert Rows(lines, first, first) == [];
  }

  /** There is a line behind the page. */
  lemma PageWhenFull(ts: seq<Token>, offset: int, max: nat)
    requires First(offset) + max < |Lines(ts)|
    ensures PageOf(ts, offset, max) == Content(Show(Taken(Lines(ts), First(offset), First(offset) + max)))
  {
    assert Rows(Lines(ts), First(offset), First(offset)) == [];
  }

  /** The lines end in the page or before it. */
  lemma PageAtEnd(ts: seq<Token>, offset: int, max: nat)
    requires |Lines(ts)| <= First(offset) + max
    ensures PageOf(ts, offset, max) ==
      if Overflows(ts) then ReadError else Content(Show(Taken(Lines(ts), First(offset), |Lines(ts)|)))
  {
    assert Rows(Lines(ts), |Lines(ts)|, |Lines(ts)|) == [];
  }

  lemma LineAt(ts: seq<Token>, n: nat)
    requires forall i :: 0 <= i < |ts| - 1 ==> ts[i].Line?
    requires n < |ts| && ts[n].Line?
    ensures n < |Lines(ts)| && Lines(ts)[n] == ts[n].text
  {
    LinesOf(ts);
    if Overflows(ts) {
      var i :| 0 <= i < |ts| && ts[i].TooLong?;
      assert i == |ts| - 1;
    }
  }

  lemma EndAt(ts: seq<Token>, n: nat)
    requires forall i :: 0 <= i < |ts| - 1 ==> ts[i].Line?
    requires n <= |Lines(ts)| && (n < |ts| ==> ts[n].TooLong?)
    ensures n == |Lines(ts)| && (Overflows(ts) <==> n < |ts|)
  {
    LinesOf(ts);
  }

  /** The scan loop of Execute. `lineNum` lines have been scanned; meeting a TooLong
      token is the scanner stopping with an error. */
  method Collect(ts: seq<Token>, offset: int, limit: int, ghost max: nat) returns (lines: seq<string>, failed: bool)
    requires forall i :: 0 <= i < |ts| - 1 ==> ts[i].Line?
    requires max == if limit < 0 then 0 else limit
    ensures PageOf(ts, offset, max) == if failed then ReadError else Content(Show(lines))
  {
    ghost var all, first := Lines(ts), First(offset);
    lines := [];
    failed := false;
    var lineNum := 0;
    while lineNum < |ts| && ts[lineNum].Line?
      invariant 0 <= lineNum <= |all| && lineNum <= first + max
      invariant lines == Taken(all, first, lineNum)
    {
      LineAt(ts, lineNum);
      var text := ts[lineNum].text;
      lineNum := lineNum + 1;
      if lineNum <= offset {
        TakenSkips(all, first, lineNum - 1);
        continue;
      }
      TakenGrows(all, first, lineNum - 1, lines, text);
      if |lines| >= limit {
        PageWhenFull(ts, offset, max);
        return;
      }
      lines := lines + [Row(lineNum, text)];
    }
    EndAt(ts, lineNum);
    PageAtEnd(ts, offset, max);
    failed := lineNum < |ts|;
  }

  /* ---------- pages ---------- */

  /** The rows of the pages at offsets 0, limit, 2 limit, ... put together. */
  function Pages(lines: seq<string>, limit: nat, m: nat): seq<string> {
    if m == 0 then []
    else
      var offset := (m - 1) * limit;
      Pages(lines, limit, m - 1) + Rows(lines, Low(|lines|, offset), High(|lines|, offset, limit))
  }

  lemma {:induction false} RowsSplit(lines: seq<string>, lo: nat, mid: nat, hi: nat)
    requires lo <= mid <= hi <= |lines|
    ensures Rows(lines, lo, mid) + Rows(lines, mid, hi) == Rows(lines, lo, hi)
  {
    if mid < hi {
      RowsSplit(lines, lo, mid, hi - 1);
    }
  }

  lemma PageRange(n: nat, offset: nat, limit: nat)
    ensures Low(n, offset) == Clamp(offset, n) <= Clamp(offset + limit, n) == High(n, offset, limit) <= n
  {
  }

  lemma PageExtends(lines: seq<string>, offset: nat, limit: nat)
    ensures var n := |lines|;
      Rows(lines, 0, Clamp(offset, n)) + Rows(lines, Low(n, offset), High(n, offset, limit))
        == Rows(lines, 0, Clamp(offset + limit, n))
  {
    PageRange(|lines|, offset, limit);
    RowsSplit(lines, 0, Low(|lines|, offset), High(|lines|, offset, limit));
  }

  lemma NextOffset(limit: nat, m: nat)
    requires m > 0
    ensures 0 <= (m - 1) * limit && (m - 1) * limit + limit == m * limit
  {
  }

  lemma LastPage(lines: seq<string>, limit: nat, m: nat, offset: nat)
    requires m > 0 && offset == (m - 1) * limit
    requires Pages(lines, limit, m - 1) == Rows(lines, 0, Clamp(offset, |lines|))
    ensures Pages(lines, limit, m) == Rows(lines, 0, Clamp(offset + limit, |lines|))
  {
    PageExtends(lines, offset, limit);
  }

  /** Consecutive pages concatenate to the numbered file, nothing lost or repeated. */
  lemma {:induction false} PagesConcatenate(lines: seq<string>, limit: nat, m: nat)
    ensures Pages(lines, limit, m) == Rows(lines, 0, Clamp(m * limit, |lines|))
  {
    if m == 0 {
      assert 0 * limit == 0;
    } else {
      NextOffset(limit, m);
      PagesConcatenate(lines, limit, m - 1);
      LastPage(lines, limit, m, (m - 1) * limit);
    }
  }

  /* ---------- reading the output back ---------- */

  function Split(s: string): seq<string>
    decreases |s|
  {
    var k := Find(s, '\n');
    if k == |s| then [s] else [s[..k]] + Split(s[k + 1..])
  }

  function Number(s: string): int {
    if |s| == 0 then 0 else 10 * Number(s[..|s| - 1]) + (s[|s| - 1] as int - '0' as int)
  }

  /** A row, split at its first tab. */
  function ParseRow(row: string): (int, string) {
    var k := Find(row, '\t');
    (Number(row[..k]), if k < |row| then row[k + 1..] else "")
  }

  function ParseRows(rows: seq<string>): seq<(int, string)> {
    if |rows| == 0 then [] else ParseRows(rows[..|rows| - 1]) + [ParseRow(rows[|rows| - 1])]
  }

  function Parse(content: string): seq<(int, string)> {
    ParseRows(Split(content))
  }

  /** The lines `lo` to `hi` with their numbers, counted from 1. */
  function NumberedLines(lines: seq<string>, lo: nat, hi: nat): seq<(int, string)>
    requires lo <= hi <= |lines|
  {
    if lo == hi then [] else NumberedLines(lines, lo, hi - 1) + [(hi, lines[hi - 1])]
  }

  lemma {:induction false} NumberOfDecimal(n: nat)
    ensures Number(Decimal(n)) == n
  {
    if n < 10 {
      assert Number([Digit(n)][..0]) == 0;
    } else {
      NumberOfDecimal(n / 10);
      assert Decimal(n)[..|Decimal(n)| - 1] == Decimal(n / 10);
    }
  }

  lemma FindBehind(a: string, c: char, b: string)
    requires c !in a
    ensures Find(a + [c] + b, c) == |a|
  {
    FindIs(a + [c] + b, c, |a|);
  }

  lemma FindNone(a: string, c: char)
    requires c !in a
    ensures Find(a, c) == |a|
  {
    FindIs(a, c, |a|);
  }

  lemma ParseRowOfRow(n: nat, line: string)
    ensures ParseRow(Row(n, line)) == (n, line)
  {
    FindBehind(Decimal(n), '\t', line);
    NumberOfDecimal(n);
    assert Row(n, line) == Decimal(n) + ['\t'] + line;
    assert Row(n, line)[..|Decimal(n)|] == Decimal(n);
    assert Row(n, line)[|Decimal(n)| + 1..] == line;
  }

  lemma {:induction false} SplitOfJoin(rows: seq<string>)
    requires |rows| > 0 && forall i :: 0 <= i < |rows| ==> '\n' !in rows[i]
    ensures Split(Join(rows)) == rows
  {
    if |rows| == 1 {
      FindNone(rows[0], '\n');
    } else {
      SplitOfJoin(rows[1..]);
      SplitHead(rows[0], Join(rows[1..]));
      assert Join(rows) == rows[0] + ['\n'] + Join(rows[1..]);
    }
  }

  lemma SplitHead(head: string, rest: string)
    requires '\n' !in head
    ensures Split(head + ['\n'] + rest) == [head] + Split(rest)
  {
    var s := head + ['\n'] + rest;
    FindBehind(head, '\n', rest);
    assert s[..|head|] == head && s[|head| + 1..] == rest;
  }

  lemma {:induction false} LinesHaveNoNewline(s: string)
    ensures forall i :: 0 <= i < |Lines(Tokens(s))| ==> '\n' !in Lines(Tokens(s))[i]
    decreases |s|
  {
    if |s| > 0 && Find(s, '\n') < MAX_TOKEN {
      LinesHaveNoNewline(Rest(s));
      assert Tokens(s)[1..] == Tokens(Rest(s));
      assert '\n' !in s[..Find(s, '\n')];
    }
  }

  lemma RowHasNoNewline(n: nat, line: string)
    requires '\n' !in line
    ensures '\n' !in Row(n, line)
  {
  }

  lemma {:induction false} RowsParse(lines: seq<string>, lo: nat, hi: nat)
    requires lo <= hi <= |lines|
    ensures ParseRows(Rows(lines, lo, hi)) == NumberedLines(lines, lo, hi)
  {
    if lo < hi {
      RowsParse(lines, lo, hi - 1);
      ParseRowOfRow(hi, lines[hi - 1]);
      var rows := Rows(lines, lo, hi);
      assert rows[..|rows| - 1] == Rows(lines, lo, hi - 1);
    }
  }

  lemma {:induction false} RowsHaveNoNewline(lines: seq<string>, lo: nat, hi: nat)
    requires lo <= hi <= |lines|
    requires forall i :: 0 <= i < |lines| ==> '\n' !in lines[i]
    ensures forall i :: 0 <= i < |Rows(lines, lo, hi)| ==> '\n' !in Rows(lines, lo, hi)[i]
  {
    if lo < hi {
      RowsHaveNoNewline(lines, lo, hi - 1);
      RowHasNoNewline(hi, lines[hi - 1]);
    }
  }

  /** Numbering round trip: splitting a non-empty page at newlines, and each row at
      its first tab, gives back the line numbers and the lines. */
  lemma PageParsesBack(s: string, offset: int, limit: nat)
    requires var n := |Lines(Tokens(s))|; Low(n, offset) < High(n, offset, limit)
    ensures var lines := Lines(Tokens(s));
      var lo, hi := Low(|lines|, offset), High(|lines|, offset, limit);
      Parse(Show(Rows(lines, lo, hi))) == NumberedLines(lines, lo, hi)
  {
    var lines := Lines(Tokens(s));
    var lo, hi := Low(|lines|, offset), High(|lines|, offset, limit);
    LinesHaveNoNewline(s);
    RowsParse(lines, lo, hi);
    RowsHaveNoNewline(lines, lo, hi);
    RowsLength(lines, lo, hi);
    SplitOfJoin(Rows(lines, lo, hi));
  }

  /** The "empty" message is never a page: it appears exactly when the page has no rows. */
  lemma SentinelIffNoRows(lines: seq<string>, lo: nat, hi: nat)
    requires lo <= hi <= |lines|
    ensures Show(Rows(lines, lo, hi)) == SENTINEL <==> lo == hi
  {
    RowsLength(lines, lo, hi);
    if lo < hi {
      var rows := Rows(lines, lo, hi);
      assert rows[lo - lo] == Row(lo + 1, lines[lo]);
      assert Join(rows)[0] == Decimal(lo + 1)[0];
      assert Decimal(lo + 1)[0] in Decimal(lo + 1);
    }
  }

  /* ---------- what reading loses ---------- */

  function EndsWithNewline(s: string): string {
    if |s| > 0 && s[|s| - 1] == '\n' then "\n" else ""
  }

  lemma CutAt(s: string, k: nat, rest: string)
    requires |s| > 0 && k <= |s| && '\n' !in s[..k] && (k < |s| ==> s[k] == '\n')
    requires rest == if k < |s| then s[k + 1..] else ""
    ensures rest != "" ==> s == s[..k] + "\n" + rest && EndsWithNewline(s) == EndsWithNewline(rest)
    ensures rest == "" ==> s == s[..k] + EndsWithNewline(s)
  {
    if k == |s| {
      assert s[|s| - 1] in s[..k];
      assert s[..k] == s;
    } else {
      assert s == s[..k] + [s[k]] + rest;
    }
  }

  lemma JoinCons(head: string, rows: seq<string>)
    requires |rows| > 0
    ensures Join([head] + rows) == head + "\n" + Join(rows)
  {
    assert ([head] + rows)[1..] == rows;
  }

  lemma JoinRestores(s: string, head: string, rest: string, rows: seq<string>)
    requires |rows| > 0 && Join(rows) + EndsWithNewline(rest) == rest
    requires s == head + "\n" + rest && EndsWithNewline(s) == EndsWithNewline(rest)
    ensures Join([head] + rows) + EndsWithNewline(s) == s
  {
    JoinCons(head, rows);
    var j, e := Join(rows), EndsWithNewline(rest);
    assert head + "\n" + j + e == head + "\n" + (j + e);
  }

  lemma {:induction false} RawLinesRestore(s: string)
    requires |s| > 0
    ensures |RawLines(s)| > 0 && Join(RawLines(s)) + EndsWithNewline(s) == s
    decreases |s|
  {
    var k, rest := Find(s, '\n'), Rest(s);
    CutAt(s, k, rest);
    if rest == "" {
      assert RawLines(s) == [s[..k]] + RawLines("");
      assert Join([s[..k]]) == s[..k];
    } else {
      RawLinesRestore(rest);
      JoinRestores(s, s[..k], rest, RawLines(rest));
    }
  }

  /** These lines, less a carriage return each, were delivered of these: all, or those
      before the first that does not fit. */
  ghost predicate Delivered(lines: seq<string>, raw: seq<string>, overflow: bool) {
    && |lines| <= |raw|
    && (forall i :: 0 <= i < |lines| ==> lines[i] == DropCR(raw[i]) && |raw[i]| < 65536)
    && (overflow <==> |lines| < |raw|)
    && (|lines| < |raw| ==> |raw[|lines|]| >= 65536)
  }

  lemma DeliveredFirst(head: string, lines: seq<string>, raw: seq<string>, overflow: bool)
    requires |head| < 65536 && Delivered(lines, raw, overflow)
    ensures Delivered([DropCR(head)] + lines, [head] + raw, overflow)
  {
  }

  lemma {:induction false} LinesAre(s: string)
    ensures Delivered(Lines(Tokens(s)), RawLines(s), Overflows(Tokens(s)))
    decreases |s|
  {
    if |s| > 0 {
      var k := Find(s, '\n');
      if k < MAX_TOKEN {
        LinesAre(Rest(s));
        OneMoreLine(Line(DropCR(s[..k])), Tokens(Rest(s)));
        DeliveredFirst(s[..k], Lines(Tokens(Rest(s))), RawLines(Rest(s)), Overflows(Tokens(Rest(s))));
      } else {
        assert Tokens(s)[0].TooLong?;
      }
    }
  }

  lemma OneMoreLine(t: Token, ts: seq<Token>)
    requires t.Line?
    ensures Lines([t] + ts) == [t.text] + Lines(ts) && (Overflows([t] + ts) <==> Overflows(ts))
  {
    assert ([t] + ts)[1..] == ts;
    if i :| 0 <= i < |ts| && ts[i].TooLong? {
      assert ([t] + ts)[i + 1].TooLong?;
    }
    if i :| 0 <= i < |[t] + ts| && ([t] + ts)[i].TooLong? {
      assert ts[i - 1].TooLong?;
    }
  }

  lemma JoinLength(rows: seq<string>)
    requires |rows| > 0
    ensures |Join(rows)| == |rows[0]| + if |rows| == 1 then 0 else 1 + |Join(rows[1..])|
  {
  }

  lemma {:induction false} ShorterJoin(a: seq<string>, b: seq<string>)
    requires |a| == |b| && forall i :: 0 <= i < |a| ==> a[i] == DropCR(b[i])
    ensures |Join(a)| <= |Join(b)|
    ensures |Join(a)| == |Join(b)| <==> a == b
  {
    if |a| > 0 {
      ShorterJoin(a[1..], b[1..]);
      JoinLength(a);
      JoinLength(b);
      HeadAndTail(a, b);
      assert a[0] == DropCR(b[0]);
    }
  }

  lemma HeadAndTail(a: seq<string>, b: seq<string>)
    requires |a| == |b| > 0
    ensures a == b <==> a[0] == b[0] && a[1..] == b[1..]
  {
    assert a == [a[0]] + a[1..] && b == [b[0]] + b[1..];
  }

  /** Reading the whole file and joining the lines gives the file back, up to its
      final newline, exactly when no line ends in a carriage return. */
  lemma ReadingIsLosslessIff(s: string)
    requires !Overflows(Tokens(s))
    ensures Join(Lines(Tokens(s))) + EndsWithNewline(s) == s
      <==> forall i :: 0 <= i < |RawLines(s)| ==> DropCR(RawLines(s)[i]) == RawLines(s)[i]
  {
    if |s| == 0 { return; }
    RawLinesRestore(s);
    LinesAre(s);
    ShorterJoin(Lines(Tokens(s)), RawLines(s));
    assert |Join(RawLines(s))| + |EndsWithNewline(s)| == |s|;
  }

  /* ---------- what the tool tells ---------- */

  /** The line as it is shown: without the carriage return it may end in. */
  predicate Shows(raw: string, line: string) {
    raw == line + "\r" || (raw == line && (raw == "" || raw[|raw| - 1] != '\r'))
  }

  lemma DropCRShows(raw: string)
    ensures Shows(raw, DropCR(raw))
  {
    if |raw| > 0 && raw[|raw| - 1] == '\r' {
      assert raw == raw[..|raw| - 1] + [raw[|raw| - 1]];
    }
  }

  /** Where the first line is that does not fit the scanner's buffer, if there is one. */
  function FirstLong(raw: seq<string>): (k: nat)
    ensures k <= |raw| && (k < |raw| ==> |raw[k]| >= 65536)
    ensures forall i :: 0 <= i < k ==> |raw[i]| < 65536
  {
    if |raw| == 0 || |raw[0]| >= 65536 then 0 else 1 + FirstLong(raw[1..])
  }

  lemma {:induction false} NumberedAt(lines: seq<string>, lo: nat, hi: nat, i: nat)
    requires lo <= hi <= |lines| && i < hi - lo
    ensures |NumberedLines(lines, lo, hi)| == hi - lo
    ensures NumberedLines(lines, lo, hi)[i] == (lo + i + 1, lines[lo + i])
  {
    if lo < hi - 1 {
      NumberedAt(lines, lo, hi - 1, if i < hi - 1 - lo then i else 0);
    }
  }

  /** What the pairs read back from a page are. */
  predicate IsPage(raw: seq<string>, lo: nat, n: nat, pairs: seq<(int, string)>) {
    && |pairs| == n && lo + n <= |raw|
    && forall i :: 0 <= i < n ==> pairs[i].0 == lo + i + 1 && Shows(raw[lo + i], pairs[i].1)
  }

  lemma NumberedIsPage(raw: seq<string>, lines: seq<string>, lo: nat, hi: nat)
    requires lo < hi <= |lines| <= |raw| && forall k :: 0 <= k < |lines| ==> lines[k] == DropCR(raw[k])
    ensures IsPage(raw, lo, hi - lo, NumberedLines(lines, lo, hi))
  {
    NumberedAt(lines, lo, hi, 0);
    var pairs := NumberedLines(lines, lo, hi);
    forall i | 0 <= i < hi - lo ensures pairs[i].0 == lo + i + 1 && Shows(raw[lo + i], pairs[i].1) {
      NumberedAt(lines, lo, hi, i);
      DropCRShows(raw[lo + i]);
    }
  }

  lemma ShownPage(s: string, offset: int, limit: nat)
    requires var lines := Lines(Tokens(s)); Low(|lines|, offset) < High(|lines|, offset, limit)
    ensures var lines := Lines(Tokens(s));
      var lo, hi := Low(|lines|, offset), High(|lines|, offset, limit);
      IsPage(RawLines(s), lo, hi - lo, Parse(Show(Rows(lines, lo, hi))))
  {
    var lines := Lines(Tokens(s));
    PageParsesBack(s, offset, limit);
    LinesAre(s);
    NumberedIsPage(RawLines(s), lines, Low(|lines|, offset), High(|lines|, offset, limit));
  }

  lemma StopsAt(lines: seq<string>, raw: seq<string>, overflow: bool)
    requires Delivered(lines, raw, overflow)
    ensures |lines| == FirstLong(raw) && (overflow <==> FirstLong(raw) < |raw|)
  {
  }

  /** The scan fails exactly on an over-long line up to one behind the page. */
  lemma ScanFails(s: string, offset: int, limit: nat)
    ensures var k := FirstLong(RawLines(s));
      PageOf(Tokens(s), offset, limit) == ReadError <==> k < |RawLines(s)| && k <= First(offset) + limit
  {
    LinesAre(s);
    StopsAt(Lines(Tokens(s)), RawLines(s), Overflows(Tokens(s)));
  }

  /** How many of `n` lines a page has. */
  lemma PageSize(s: string, offset: int, limit: nat)
    requires PageOf(Tokens(s), offset, limit) != ReadError
    ensures var n, m := |RawLines(s)|, |Lines(Tokens(s))|;
      var lo := if offset < 0 then 0 else offset;
      var size := if n <= lo then 0 else if lo + limit <= n then limit else n - lo;
      High(m, offset, limit) - Low(m, offset) == size && (size > 0 ==> Low(m, offset) == lo)
  {
    LinesAre(s);
  }

  /** What a call tells about the lines of a file, `raw`: whether the scan fails, whether
      there are lines to show, and which. */
  ghost predicate Told(raw: seq<string>, offset: int, limit: nat, r: ReadResult) {
    var lo := if offset < 0 then 0 else offset;
    var size := if |raw| <= lo then 0 else if lo + limit <= |raw| then limit else |raw| - lo;
    && (r.Content? || r.ReadError?)
    && (r.ReadError? <==> FirstLong(raw) < |raw| && FirstLong(raw) <= lo + limit)
    && (r.Content? ==> (r.text == "(empty file or offset beyond end)" <==> size == 0))
    && (r.Content? && size > 0 ==> IsPage(raw, lo, size, Parse(r.text)))
  }

  lemma PageTells(s: string, offset: int, limit: nat)
    ensures Told(RawLines(s), offset, limit, PageOf(Tokens(s), offset, limit))
  {
    ScanFails(s, offset, limit);
    if PageOf(Tokens(s), offset, limit).Content? {
      var lines := Lines(Tokens(s));
      PageSize(s, offset, limit);
      SentinelIffNoRows(lines, Low(|lines|, offset), High(|lines|, offset, limit));
      if Low(|lines|, offset) < High(|lines|, offset, limit) {
        ShownPage(s, offset, limit);
      }
    }
  }

  lemma PromisedTells(files: map<string, string>, input: ReadInput)
    requires input.path != "" && input.path in files
    ensures Told(RawLines(files[input.path]), input.offset,
      if input.limit == 0 then 2000 else if input.limit < 0 then 0 else input.limit, Promised(files, input))
  {
    PageTells(files[input.path], input.offset, Limit(input.limit));
  }

  /** The tool's whole answer, in the caller's terms: an error without a path, for a file
      that cannot be opened, and for a line of 64 KiB or more met before the page is known
      to be complete; the sentinel when the page has no lines; and otherwise a text from
      which exactly the lines of the page, with their numbers, can be read back. A
      negative offset is none, limit 0 is 2000, and a negative limit shows nothing. */
  lemma ExecuteTells(files: map<string, string>, input: ReadInput, r: ReadResult)
    requires r == Promised(files, input)
    ensures input.path == "" ==> r == PathRequired
    ensures input.path != "" && input.path !in files ==> r == CannotOpen
    ensures input.path != "" && input.path in files ==>
      var raw := RawLines(files[input.path]);
      var lo := if input.offset < 0 then 0 else input.offset;
      var limit := if input.limit == 0 then 2000 else if input.limit < 0 then 0 else input.limit;
      var size := if |raw| <= lo then 0 else if lo + limit <= |raw| then limit else |raw| - lo;
      && (r.Content? || r.ReadError?)
      && (r.ReadError? <==> FirstLong(raw) < |raw| && FirstLong(raw) <= lo + limit)
      && (r.Content? ==> (r.text == "(empty file or offset beyond end)" <==> size == 0))
      && (r.Content? && size > 0 ==>
            var pairs := Parse(r.text);
            && |pairs| == size
            && forall i :: 0 <= i < size ==> pairs[i].0 == lo + i + 1 && Shows(raw[lo + i], pairs[i].1))
  {
    if input.path != "" && input.path in files {
      PromisedTells(files, input);
    }
  }

  /** Execute, on parsed input. */
  method Execute(files: map<string, string>, input: ReadInput) returns (r: ReadResult)
    ensures r == Promised(files, input)
  {
    if input.path == "" {
      return PathRequired;
    }
    if input.path !in files {
      return CannotOpen;
    }
    var limit := if input.limit == 0 then DEFAULT_LIMIT else input.limit;
    TokensEndAtOverflow(files[input.path]);
    var lines, failed := Collect(Tokens(files[input.path]), input.offset, limit, Limit(input.limit));
    if failed {
      return ReadError;
    }
    return Content(Show(lines));
  }

  lemma PageFollows(raw: seq<string>, before: seq<(int, string)>, n: nat, page: seq<(int, string)>)
    requires IsPage(raw, 0, |before|, before) && IsPage(raw, |before|, n, page)
    ensures IsPage(raw, 0, |before| + n, before + page)
  {
  }

  /** The page of a file without over-long lines. */
  lemma ExecutePages(files: map<string, string>, path: string, offset: nat, limit: nat)
    requires path != "" && path in files && limit > 0
    requires FirstLong(RawLines(files[path])) == |RawLines(files[path])|
    ensures var raw, r := RawLines(files[path]), Promised(files, ReadInput(path, offset, limit));
      && r.Content? && (r.text == SENTINEL <==> |raw| <= offset)
      && (offset < |raw| ==>
            IsPage(raw, offset, if offset + limit <= |raw| then limit else |raw| - offset, Parse(r.text)))
  {
    PromisedTells(files, ReadInput(path, offset, limit));
  }

  /** Reading a file page by page, until the sentinel, gives the numbered file. */
  method ReadInPages(files: map<string, string>, path: string, limit: nat) returns (pairs: seq<(int, string)>)
    requires path != "" && path in files && limit > 0
    requires FirstLong(RawLines(files[path])) == |RawLines(files[path])|
    ensures var raw := RawLines(files[path]);
      && |pairs| == |raw|
      && forall k :: 0 <= k < |raw| ==> pairs[k].0 == k + 1 && Shows(raw[k], pairs[k].1)
  {
    ghost var n := |RawLines(files[path])|;
    var offset: nat := 0;
    pairs := [];
    while true
      invariant |pairs| == if offset < n then offset else n
      invariant IsPage(RawLines(files[path]), 0, |pairs|, pairs)
      decreases n - offset
    {
      ExecutePages(files, path, offset, limit);
      var r := Execute(files, ReadInput(path, offset, limit));
      if r.text == SENTINEL {
        break;
      }
      PageFollows(RawLines(files[path]), pairs, if offset + limit <= n then limit else n - offset, Parse(r.text));
      pairs := pairs + Parse(r.text);
      offset := offset + limit;
    }
  }

  /** What a page looks like. */
  lemma PageLooks()
    ensures Show([Row(9, "a"), Row(10, "b")]) == "9\ta\n10\tb"
  {
    var rows := [Row(9, "a"), Row(10, "b")];
    assert rows[1..] == [Row(10, "b")];
    assert Decimal(9) == "9" && Decimal(1) == "1" && Decimal(10) == "10";
  }
}
