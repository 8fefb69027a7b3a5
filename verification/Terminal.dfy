/** The small terminal emulator that renders a slot's output: it keeps its shape under every
    input, and plain text shows exactly as it was written. */
module Terminal {

  import opened Wrappers

  /** One cell: a character with what combines onto it, or nothing when the cell is the second
      half of a wide glyph. */
  type Cell = string

  type Row = seq<Cell>

  /** What the Unicode tables and `int` say: characters that take no column, characters that
      take two, white space, texts of digits, and the number such a text reads as (none when
      reading it raises). */
  datatype Tables = Tables(
    zeroWidth: char -> bool,
    wide: char -> bool,
    space: char -> bool,
    digits: string -> bool,
    number: string -> Option<nat>)

  datatype Mode = Text | Esc | Csi | Osc | OscEsc | Skip

  datatype Size = Size(rows: nat, cols: nat, keep: nat)

  datatype Term = Term(
    grid: seq<Row>,
    back: seq<string>,
    r: nat,
    c: nat,
    saved: (nat, nat),
    mode: Mode,
    param: string)

  // ---- Rows ----

  function Blank(n: nat): (row: Row)
  {
    seq(n, i => " ")
  }

  function EraseRight(row: Row, c: nat, cols: nat): Row
    requires c <= cols <= |row|
  {
    row[..c] + Blank(cols - c)
  }

  /** A row longer than the cursor keeps its tail; with the cursor past the last column the row
      grows by one cell. */
  function EraseLeft(row: Row, c: nat): Row {
    Blank(c + 1) + if c + 1 <= |row| then row[c + 1..] else []
  }

  function EraseSpan(row: Row, c: nat, end: nat): Row
    requires c <= end <= |row|
  {
    row[..c] + Blank(end - c) + row[end..]
  }

  function DeleteCells(row: Row, c: nat, n: nat): Row
    requires c + n <= |row|
  {
    row[..c] + row[c + n..] + Blank(n)
  }

  function Joined(row: Row): string {
    if row == [] then "" else row[0] + Joined(row[1..])
  }

  function Rstrip(tables: Tables, s: string): string {
    if s != "" && tables.space(s[|s| - 1]) then Rstrip(tables, s[..|s| - 1]) else s
  }

  // ---- Well-formedness ----

  predicate WidthFits(row: Row, size: Size) {
    |row| == size.cols || |row| == size.cols + 1
  }

  predicate SizeFits(size: Size) {
    size.rows >= 1 && size.cols >= 2
  }

  /** Scrollback is limited unless `keep` is zero: then nothing is ever dropped from it. */
  predicate WellFormed(t: Term, size: Size) {
    && |t.grid| == size.rows
    && (forall i :: 0 <= i < size.rows ==> WidthFits(t.grid[i], size))
    && (size.keep > 0 ==> |t.back| <= size.keep)
    && t.r < size.rows && t.c <= size.cols
    && t.saved.0 < size.rows && t.saved.1 <= size.cols
  }

  function Fresh(size: Size): Term {
    Term(seq(size.rows, i => Blank(size.cols)), [], 0, 0, (0, 0), Text, "")
  }

  // ---- What each character does ----

  /** Only the last `keep`; a slice to minus zero is empty, so a `keep` of zero drops nothing. */
  function Trim(back: seq<string>, keep: nat): seq<string> {
    if keep == 0 || |back| <= keep then back else back[|back| - keep..]
  }

  function LineFed(tables: Tables, t: Term, size: Size): Term
    requires SizeFits(size) && WellFormed(t, size)
  {
    if t.r == size.rows - 1 then
      t.(grid := t.grid[1..] + [Blank(size.cols)],
         back := Trim(t.back + [Rstrip(tables, Joined(t.grid[0]))], size.keep))
    else t.(r := t.r + 1)
  }

  /** Writing over one half of a wide glyph leaves a blank for the other half. */
  function WriteCell(row: Row, c: nat, ch: char, w: nat, cols: nat): Row
    requires w in {1, 2} && c + w <= cols <= |row|
  {
    var left := if row[c] == "" && c > 0 then row[c - 1 := " "] else row;
    var right := if w == 1 && c + 1 < cols && left[c + 1] == "" then left[c + 1 := " "] else left;
    var placed := right[c := [ch]];
    if w == 2 then placed[c + 1 := ""] else placed
  }

  function Width(tables: Tables, ch: char): nat {
    if tables.wide(ch) then 2 else 1
  }

  function Put(tables: Tables, t: Term, size: Size, ch: char): Term
    requires SizeFits(size) && WellFormed(t, size)
  {
    if tables.zeroWidth(ch) then
      if t.c > 0 then t.(grid := t.grid[t.r := t.grid[t.r][t.c - 1 := t.grid[t.r][t.c - 1] + [ch]]]) else t
    else
      var w := Width(tables, ch);
      var u := if t.c + w > size.cols then LineFed(tables, t.(c := 0), size) else t;
      u.(grid := u.grid[u.r := WriteCell(u.grid[u.r], u.c, ch, w, size.cols)], c := u.c + w)
  }

  function Min(a: int, b: int): int {
    if a < b then a else b
  }

  /** The parameter `i`, or 1 where it is absent or zero. */
  function OneBased(a: seq<nat>, i: nat): nat {
    if i < |a| && a[i] != 0 then a[i] else 1
  }

  function Split(p: string): (parts: seq<string>)
  {
    if p == "" then [""]
    else
      var rest := Split(p[1..]);
      if p[0] == ';' then [""] + rest else [[p[0]] + rest[0]] + rest[1..]
  }

  function ReadAll(tables: Tables, parts: seq<string>): Option<seq<nat>> {
    if parts == [] then Some([])
    else
      var first := if tables.digits(parts[0]) then tables.number(parts[0]) else Some(0);
      var rest := ReadAll(tables, parts[1..]);
      if first.Some? && rest.Some? then Some([first.value] + rest.value) else None
  }

  function Numbers(tables: Tables, p: string): Option<seq<nat>> {
    if p == "" then Some([]) else ReadAll(tables, Split(p))
  }

  predicate Private(p: string) {
    p != "" && p[0] in "?><=!"
  }

  function Moved(t: Term, size: Size, f: char, a: seq<nat>): Term
    requires SizeFits(size) && WellFormed(t, size)
  {
    var n := OneBased(a, 0);
    match f
    case 'A' => t.(r := if t.r < n then 0 else t.r - n)
    case 'B' => t.(r := Min(size.rows - 1, t.r + n))
    case 'C' => t.(c := Min(size.cols - 1, t.c + n))
    case 'D' => t.(c := if t.c < n then 0 else t.c - n)
    case 'E' => t.(r := Min(size.rows - 1, t.r + n), c := 0)
    case 'F' => t.(r := if t.r < n then 0 else t.r - n, c := 0)
    case 'G' => t.(c := Min(size.cols - 1, n - 1))
    case 'd' => t.(r := Min(size.rows - 1, n - 1))
    case _ => t.(r := Min(size.rows - 1, n - 1), c := Min(size.cols - 1, OneBased(a, 1) - 1))
  }

  /** What a cursor move means.  A relative one goes as far as asked or to the edge, whichever is
      nearer; an absolute one goes to the place asked for, or to the last row or column when there
      is no such place.  Everything but the cursor stays. */
  predicate Clamped(t: Term, u: Term, size: Size, f: char, a: seq<nat>) {
    var n := OneBased(a, 0);
    && u == t.(r := u.r, c := u.c)
    && u.r < size.rows && (u.c == t.c || u.c < size.cols)
    && (f in "AF" ==> t.r - u.r == Min(n, t.r))
    && (f in "BE" ==> u.r - t.r == Min(n, size.rows - 1 - t.r))
    && (f in "CDG" ==> u.r == t.r)
    && (f in "Hfd" ==> Nearest(u.r, n - 1, size.rows))
    && (f == 'D' ==> t.c - u.c == Min(n, t.c))
    && (f == 'C' ==> u.c - t.c == Min(n, size.cols - 1 - t.c))
    && (f in "EF" ==> u.c == 0)
    && (f in "ABd" ==> u.c == t.c)
    && (f in "GHf" ==> Nearest(u.c, (if f == 'G' then n else OneBased(a, 1)) - 1, size.cols))
  }

  /** Of the places below `end`, none is nearer to the wanted one. */
  predicate Nearest(at: nat, wanted: nat, end: nat) {
    at < end && forall x: nat :: x < end ==> Distance(at, wanted) <= Distance(x, wanted)
  }

  function Distance(a: nat, b: nat): nat {
    if a < b then b - a else a - b
  }

  lemma MovesClamp(t: Term, size: Size, f: char, a: seq<nat>)
    requires SizeFits(size) && WellFormed(t, size) && f in "ABCDEFGHfd"
    ensures Clamped(t, Moved(t, size, f, a), size, f, a)
  {
  }

  predicate Opposite(f: char, g: char) {
    (f == 'A' && g == 'B') || (f == 'B' && g == 'A') || (f == 'C' && g == 'D') || (f == 'D' && g == 'C')
  }

  /** How far the cursor can go before it meets the edge. */
  function Room(t: Term, size: Size, f: char): int {
    match f
    case 'A' => t.r
    case 'B' => size.rows - 1 - t.r
    case 'C' => size.cols - 1 - t.c
    case _ => t.c
  }

  /** A move there and back ends where it began exactly when there was room for it or it began at
      the other edge, and never when it led left from past the last column. */
  lemma ThereAndBack(t: Term, size: Size, f: char, g: char, a: seq<nat>)
    requires SizeFits(size) && WellFormed(t, size) && Opposite(f, g)
    ensures WellFormed(Moved(t, size, f, a), size)
    ensures Moved(Moved(t, size, f, a), size, g, a) == t <==>
            (OneBased(a, 0) <= Room(t, size, f) || Room(t, size, g) == 0) && (f == 'D' ==> t.c < size.cols)
  {
  }

  /** Which cells an erase clears: to the end, to the cursor, or all. */
  function Erased(t: Term, size: Size, below: bool, m: nat): seq<Row>
    requires SizeFits(size) && WellFormed(t, size)
  {
    seq(size.rows, i requires 0 <= i < size.rows =>
      if i == t.r then
        (if m == 0 then EraseRight(t.grid[i], t.c, size.cols)
         else if m == 1 then EraseLeft(t.grid[i], t.c)
         else Blank(size.cols))
      else if below && (m > 1 || (m == 0 && i > t.r) || (m == 1 && i < t.r)) then Blank(size.cols)
      else t.grid[i])
  }

  function Controlled(t: Term, size: Size, f: char, a: seq<nat>): Term
    requires SizeFits(size) && WellFormed(t, size)
  {
    var n := OneBased(a, 0);
    if f in "ABCDEFGHfd" then Moved(t, size, f, a)
    else if f == 'J' || f == 'K' then t.(grid := Erased(t, size, f == 'J', if a != [] then a[0] else 0))
    else if f == 'X' then
      t.(grid := t.grid[t.r := EraseSpan(t.grid[t.r], t.c, Min(size.cols, t.c + n))])
    else if f == 'P' then
      t.(grid := t.grid[t.r := DeleteCells(t.grid[t.r], t.c, Min(n, size.cols - t.c))])
    else t
  }

  datatype Fed = Went(term: Term) | Raised(term: Term)

  function StepCsi(tables: Tables, t: Term, size: Size, ch: char): Fed
    requires SizeFits(size) && WellFormed(t, size)
  {
    if !('\U{40}' <= ch <= '\U{7e}') then Went(t.(param := t.param + [ch]))
    else if Private(t.param) then Went(t.(mode := Text))
    else
      match Numbers(tables, t.param)
      case None => Raised(t)
      case Some(a) => Went(Controlled(t, size, ch, a).(mode := Text))
  }

  function StepText(tables: Tables, t: Term, size: Size, ch: char): Term
    requires SizeFits(size) && WellFormed(t, size)
  {
    if ch == '\U{1b}' then t.(mode := Esc)
    else if ch == '\r' then t.(c := 0)
    else if ch == '\n' then LineFed(tables, t, size)
    else if ch == '\U{8}' then t.(c := if t.c == 0 then 0 else t.c - 1)
    else if ch == '\t' then t.(c := Min(size.cols - 1, (t.c / 8 + 1) * 8))
    else if ch >= ' ' && ch != '\U{7f}' then Put(tables, t, size, ch)
    else t
  }

  function StepEsc(t: Term, ch: char): Term {
    if ch == '[' then t.(mode := Csi, param := "")
    else if ch == ']' then t.(mode := Osc)
    else if ch == '(' || ch == ')' then t.(mode := Skip)
    else if ch == '7' then t.(saved := (t.r, t.c), mode := Text)
    else if ch == '8' then t.(r := t.saved.0, c := t.saved.1, mode := Text)
    else t.(mode := Text)
  }

  function Step(tables: Tables, t: Term, size: Size, ch: char): Fed
    requires SizeFits(size) && WellFormed(t, size)
  {
    match t.mode
    case Text => Went(StepText(tables, t, size, ch))
    case Esc => Went(StepEsc(t, ch))
    case Skip => Went(t.(mode := Text))
    case Osc => Went(t.(mode := if ch == '\U{7}' then Text else if ch == '\U{1b}' then OscEsc else Osc))
    case OscEsc => Went(t.(mode := Text))
    case Csi => StepCsi(tables, t, size, ch)
  }

  // ---- The shape is kept ----

  lemma LineFedKeeps(tables: Tables, t: Term, size: Size)
    requires SizeFits(size) && WellFormed(t, size)
    ensures WellFormed(LineFed(tables, t, size), size)
    ensures LineFed(tables, t, size).c == t.c && LineFed(tables, t, size).mode == t.mode
  {
  }

  lemma PutKeeps(tables: Tables, t: Term, size: Size, ch: char)
    requires SizeFits(size) && WellFormed(t, size)
    ensures WellFormed(Put(tables, t, size, ch), size)
  {
    LineFedKeeps(tables, t.(c := 0), size);
  }

  lemma ControlledKeeps(t: Term, size: Size, f: char, a: seq<nat>)
    requires SizeFits(size) && WellFormed(t, size)
    ensures WellFormed(Controlled(t, size, f, a), size)
  {
    ErasedKeeps(t, size, f == 'J', if a != [] then a[0] else 0);
    if f in "ABCDEFGHfd" { MovesClamp(t, size, f, a); }
    hide Moved, Erased, Nearest;
  }

  lemma ErasedKeeps(t: Term, size: Size, below: bool, m: nat)
    requires SizeFits(size) && WellFormed(t, size)
    ensures forall i :: 0 <= i < size.rows ==> WidthFits(Erased(t, size, below, m)[i], size)
  {
    var grid := Erased(t, size, below, m);
    forall i | 0 <= i < size.rows ensures WidthFits(grid[i], size) {
      assert WidthFits(t.grid[i], size);
    }
  }

  /** Every character, in every state, leaves a well-formed screen, also when reading a
      parameter raises. */
  lemma StepKeeps(tables: Tables, t: Term, size: Size, ch: char)
    requires SizeFits(size) && WellFormed(t, size)
    ensures WellFormed(Step(tables, t, size, ch).term, size)
  {
    hide Put, LineFed, Controlled, Numbers, Private;
    LineFedKeeps(tables, t, size);
    PutKeeps(tables, t, size, ch);
    if t.mode == Csi {
      match Numbers(tables, t.param)
      case None =>
      case Some(a) => ControlledKeeps(t, size, ch, a);
    }
  }

  predicate Exact(t: Term, size: Size) {
    forall i :: 0 <= i < |t.grid| ==> |t.grid[i]| == size.cols
  }

  /** An erase to the cursor while the cursor is past the last column. */
  predicate Overgrows(tables: Tables, t: Term, size: Size, ch: char) {
    t.mode == Csi && (ch == 'J' || ch == 'K') && !Private(t.param)
    && match Numbers(tables, t.param)
       case None => false
       case Some(a) => a != [] && a[0] == 1 && t.c == size.cols
  }

  lemma PutExact(tables: Tables, t: Term, size: Size, ch: char)
    requires SizeFits(size) && WellFormed(t, size) && Exact(t, size)
    ensures Exact(Put(tables, t, size, ch), size)
  {
    LineFedKeeps(tables, t.(c := 0), size);
  }

  lemma ErasedExact(t: Term, size: Size, below: bool, m: nat)
    requires SizeFits(size) && WellFormed(t, size) && Exact(t, size)
    ensures forall i :: 0 <= i < size.rows ==>
              |Erased(t, size, below, m)[i]| == if i == t.r && m == 1 && t.c == size.cols then size.cols + 1 else size.cols
  {
    forall i | 0 <= i < size.rows
      ensures |Erased(t, size, below, m)[i]| ==
              if i == t.r && m == 1 && t.c == size.cols then size.cols + 1 else size.cols
    {
      assert |t.grid[i]| == size.cols;
    }
  }

  lemma ControlledExact(t: Term, size: Size, f: char, a: seq<nat>)
    requires SizeFits(size) && WellFormed(t, size) && Exact(t, size)
    ensures Exact(Controlled(t, size, f, a), size) <==>
            !((f == 'J' || f == 'K') && a != [] && a[0] == 1 && t.c == size.cols)
  {
    if f == 'J' || f == 'K' {
      var m := if a != [] then a[0] else 0;
      ErasedExact(t, size, f == 'J', m);
      assert Controlled(t, size, f, a).grid == Erased(t, size, f == 'J', m);
      assert Erased(t, size, f == 'J', m)[t.r] == Controlled(t, size, f, a).grid[t.r];
    }
  }

  /** Rows stay exactly as wide as the screen, but for that one erase, which makes the cursor's
      row one cell too long. */
  lemma WidthsStayExact(tables: Tables, t: Term, size: Size, ch: char)
    requires SizeFits(size) && WellFormed(t, size) && Exact(t, size)
    ensures Exact(Step(tables, t, size, ch).term, size) <==> !Overgrows(tables, t, size, ch)
  {
    hide Put, Controlled, Numbers, Private;
    PutExact(tables, t, size, ch);
    if t.mode == Csi {
      match Numbers(tables, t.param)
      case None =>
      case Some(a) => ControlledExact(t, size, ch, a);
    }
  }

  // ---- Whole texts ----

  function FeedText(tables: Tables, t: Term, size: Size, text: string): Fed
    requires SizeFits(size) && WellFormed(t, size)
    decreases |text|
  {
    if text == "" then Went(t)
    else
      StepKeeps(tables, t, size, text[0]);
      match Step(tables, t, size, text[0])
      case Raised(u) => Raised(u)
      case Went(u) => FeedText(tables, u, size, text[1..])
  }

  lemma {:induction false} FeedKeeps(tables: Tables, t: Term, size: Size, text: string)
    requires SizeFits(size) && WellFormed(t, size)
    ensures WellFormed(FeedText(tables, t, size, text).term, size)
    decreases |text|
  {
    if text != "" {
      StepKeeps(tables, t, size, text[0]);
      match Step(tables, t, size, text[0])
      case Raised(u) =>
      case Went(u) => FeedKeeps(tables, u, size, text[1..]);
    }
  }

  lemma {:induction false} FeedJoins(tables: Tables, t: Term, size: Size, a: string, b: string)
    requires SizeFits(size) && WellFormed(t, size) && FeedText(tables, t, size, a).Went?
    ensures WellFormed(FeedText(tables, t, size, a).term, size)
    ensures FeedText(tables, t, size, a + b) == FeedText(tables, FeedText(tables, t, size, a).term, size, b)
    decreases |a|
  {
    if a == "" {
      assert a + b == b;
    } else {
      assert (a + b)[1..] == a[1..] + b;
      StepKeeps(tables, t, size, a[0]);
      FeedJoins(tables, Step(tables, t, size, a[0]).term, size, a[1..], b);
    }
  }

  function StripAll(tables: Tables, rows: seq<Row>): (lines: seq<string>)
  {
    seq(|rows|, i requires 0 <= i < |rows| => Rstrip(tables, Joined(rows[i])))
  }

  function Lines(tables: Tables, t: Term): seq<string> {
    t.back + StripAll(tables, t.grid)
  }

  // ---- Plain text ----

  predicate Narrow(tables: Tables, ch: char) {
    ch >= ' ' && ch != '\U{7f}' && !tables.zeroWidth(ch) && !tables.wide(ch)
  }

  predicate PlainLine(tables: Tables, line: string, size: Size) {
    |line| <= size.cols && forall i :: 0 <= i < |line| ==> Narrow(tables, line[i])
  }

  predicate PlainLines(tables: Tables, ls: seq<string>, size: Size) {
    forall i :: 0 <= i < |ls| ==> PlainLine(tables, ls[i], size)
  }

  function Padded(line: string, cols: nat): (row: Row)
    requires |line| <= cols
    ensures |row| == cols && forall i :: 0 <= i < cols ==> row[i] == if i < |line| then [line[i]] else " "
  {
    seq(cols, i requires 0 <= i < cols => if i < |line| then [line[i]] else " ")
  }

  function Stripped(tables: Tables, ls: seq<string>): (r: seq<string>)
    ensures |r| == |ls| && forall i :: 0 <= i < |ls| ==> r[i] == Rstrip(tables, ls[i])
  {
    seq(|ls|, i requires 0 <= i < |ls| => Rstrip(tables, ls[i]))
  }

  /** How many of `n` lines have left a screen of `rows` rows. */
  function Gone(n: nat, rows: nat): nat {
    if n <= rows then 0 else n - rows
  }

  function ImageRow(tables: Tables, ls: seq<string>, size: Size, i: nat): (row: Row)
    requires PlainLines(tables, ls, size)
    ensures |row| == size.cols
  {
    if i < |ls| then Padded(ls[i], size.cols) else Blank(size.cols)
  }

  function ImageGrid(tables: Tables, ls: seq<string>, size: Size, gone: nat): (grid: seq<Row>)
    requires PlainLines(tables, ls, size)
    ensures |grid| == size.rows && forall i :: 0 <= i < size.rows ==> grid[i] == ImageRow(tables, ls, size, gone + i)
  {
    seq(size.rows, i requires 0 <= i < size.rows => ImageRow(tables, ls, size, gone + i))
  }

  /** The screen that shows `ls`, the cursor at the end of the last of them. */
  function Image(tables: Tables, ls: seq<string>, size: Size): Term
    requires SizeFits(size) && ls != [] && PlainLines(tables, ls, size)
  {
    var gone := Gone(|ls|, size.rows);
    Term(ImageGrid(tables, ls, size, gone),
         Trim(Stripped(tables, ls[..gone]), size.keep),
         |ls| - 1 - gone,
         |ls[|ls| - 1]|,
         (0, 0), Text, "")
  }

  function Last(ls: seq<string>): string
    requires ls != []
  {
    ls[|ls| - 1]
  }

  lemma TypeOne(tables: Tables, ls: seq<string>, size: Size, ch: char)
    requires SizeFits(size) && ls != [] && PlainLines(tables, ls, size)
    requires Narrow(tables, ch) && |Last(ls)| < size.cols
    ensures var longer := ls[..|ls| - 1] + [Last(ls) + [ch]];
            && PlainLines(tables, longer, size)
            && WellFormed(Image(tables, ls, size), size)
            && Step(tables, Image(tables, ls, size), size, ch) == Went(Image(tables, longer, size))
  {
    var t := Image(tables, ls, size);
    ImageTyped(tables, ls, size, Last(ls) + [ch]);
    hide WellFormed, Image, Padded;
    PutsNarrow(tables, t, size, Last(ls), ch);
  }

  /** Another last line shows as another row under the cursor. */
  lemma ImageTyped(tables: Tables, ls: seq<string>, size: Size, line: string)
    requires SizeFits(size) && ls != [] && PlainLines(tables, ls, size) && PlainLine(tables, line, size)
    ensures
      var other := ls[..|ls| - 1] + [line];
      var t := Image(tables, ls, size);
      && PlainLines(tables, other, size) && WellFormed(t, size)
      && t.c == |Last(ls)| && t.grid[t.r] == Padded(Last(ls), size.cols)
      && Image(tables, other, size) == t.(grid := t.grid[t.r := Padded(line, size.cols)], c := |line|)
  {
    var other, gone := ls[..|ls| - 1] + [line], Gone(|ls|, size.rows);
    var t := Image(tables, ls, size);
    hide Padded, PlainLine, Trim, Stripped, Blank;
    assert other[..gone] == ls[..gone];
    forall i | 0 <= i < size.rows
      ensures ImageGrid(tables, other, size, gone)[i] == t.grid[t.r := Padded(line, size.cols)][i]
    {
      assert gone + i < |ls| - 1 ==> other[gone + i] == ls[gone + i];
    }
    assert ImageGrid(tables, other, size, gone) == t.grid[t.r := Padded(line, size.cols)];
  }

  lemma PutsNarrow(tables: Tables, t: Term, size: Size, line: string, ch: char)
    requires SizeFits(size) && WellFormed(t, size)
    requires t.mode == Text && Narrow(tables, ch)
    requires |line| == t.c < size.cols && t.grid[t.r] == Padded(line, size.cols)
    ensures Step(tables, t, size, ch) ==
            Went(t.(grid := t.grid[t.r := Padded(line + [ch], size.cols)], c := t.c + 1))
  {
    WritesPadded(line, ch, size.cols);
    hide WriteCell, LineFed, Padded;
  }

  lemma WritesPadded(line: string, ch: char, cols: nat)
    requires |line| < cols
    ensures WriteCell(Padded(line, cols), |line|, ch, 1, cols) == Padded(line + [ch], cols)
  {
    var row := Padded(line, cols);
    assert row[|line|] == " ";
    assert |line| + 1 < cols ==> row[|line| + 1] == " ";
    assert row[|line| := [ch]] == Padded(line + [ch], cols);
  }

  lemma NewLine(tables: Tables, ls: seq<string>, size: Size)
    requires SizeFits(size) && tables.space(' ') && ls != [] && PlainLines(tables, ls, size)
    ensures PlainLines(tables, ls + [""], size)
    ensures WellFormed(Image(tables, ls, size), size)
    ensures FeedText(tables, Image(tables, ls, size), size, "\r\n") == Went(Image(tables, ls + [""], size))
  {
    var t := Image(tables, ls, size);
    var u := t.(c := 0);
    assert "\r\n"[1..] == "\n" && "\n"[1..] == "";
    assert Step(tables, t, size, '\r') == Went(u);
    LineFedShows(tables, ls, size);
    LineFedKeeps(tables, u, size);
    assert Step(tables, u, size, '\n') == Went(LineFed(tables, u, size));
    assert FeedText(tables, LineFed(tables, u, size), size, "") == Went(LineFed(tables, u, size));
    assert FeedText(tables, u, size, "\n") == Went(LineFed(tables, u, size));
  }

  lemma LineFedShows(tables: Tables, ls: seq<string>, size: Size)
    requires SizeFits(size) && tables.space(' ') && ls != [] && PlainLines(tables, ls, size)
    ensures PlainLines(tables, ls + [""], size)
    ensures WellFormed(Image(tables, ls, size), size)
    ensures LineFed(tables, Image(tables, ls, size).(c := 0), size) == Image(tables, ls + [""], size)
  {
    if |ls| >= size.rows {
      ScrollShows(tables, ls, size);
    } else {
      DownShows(tables, ls, size);
    }
  }

  lemma DownShows(tables: Tables, ls: seq<string>, size: Size)
    requires SizeFits(size) && ls != [] && PlainLines(tables, ls, size) && |ls| < size.rows
    ensures PlainLines(tables, ls + [""], size)
    ensures Image(tables, ls + [""], size) ==
            Image(tables, ls, size).(c := 0, r := Image(tables, ls, size).r + 1)
  {
    var t, more := Image(tables, ls, size), ls + [""];
    EmptyRow(size.cols);
    assert more[..0] == ls[..0];
    hide Trim, Stripped, Padded, Blank;
    forall i | 0 <= i < size.rows
      ensures ImageGrid(tables, more, size, 0)[i] == t.grid[i]
    {
      assert i < |ls| ==> more[i] == ls[i];
    }
    assert t.grid == ImageGrid(tables, more, size, 0);
  }

  lemma ScrollShows(tables: Tables, ls: seq<string>, size: Size)
    requires SizeFits(size) && tables.space(' ') && ls != [] && PlainLines(tables, ls, size) && |ls| >= size.rows
    ensures PlainLines(tables, ls + [""], size)
    ensures var t := Image(tables, ls, size);
            && t.r == size.rows - 1 && |t.grid| == size.rows
            && Image(tables, ls + [""], size) ==
               t.(c := 0, grid := t.grid[1..] + [Blank(size.cols)],
                  back := Trim(t.back + [Rstrip(tables, Joined(t.grid[0]))], size.keep))
  {
    ScrolledGrid(tables, ls, size);
    ScrolledBack(tables, ls, size);
    hide Trim, Stripped, Padded, Blank, Rstrip, Joined, ImageGrid, PlainLine;
    var t, more, gone := Image(tables, ls, size), ls + [""], Gone(|ls|, size.rows);
    assert Gone(|more|, size.rows) == gone + 1 && Last(more) == "";
    assert t.grid == ImageGrid(tables, ls, size, gone) && t.back == Trim(Stripped(tables, ls[..gone]), size.keep);
    assert Image(tables, more, size).grid == t.grid[1..] + [Blank(size.cols)];
    assert Image(tables, more, size).back == Trim(t.back + [Rstrip(tables, Joined(t.grid[0]))], size.keep);
  }

  lemma ScrolledBack(tables: Tables, ls: seq<string>, size: Size)
    requires SizeFits(size) && tables.space(' ') && ls != [] && PlainLines(tables, ls, size) && |ls| >= size.rows
    ensures var gone := Gone(|ls|, size.rows);
            Trim(Stripped(tables, (ls + [""])[..gone + 1]), size.keep) ==
            Trim(Trim(Stripped(tables, ls[..gone]), size.keep) + [Rstrip(tables, Joined(Padded(ls[gone], size.cols)))],
                 size.keep)
  {
    var gone := Gone(|ls|, size.rows);
    PaddedStrips(tables, ls[gone], size.cols);
    StrippedOneMore(tables, ls, gone);
    TrimAppends(Stripped(tables, ls[..gone]), Rstrip(tables, ls[gone]), size.keep);
    hide Trim, Stripped, Padded, Rstrip, Joined;
    assert (ls + [""])[..gone + 1] == ls[..gone + 1];
  }

  lemma StrippedOneMore(tables: Tables, ls: seq<string>, k: nat)
    requires k < |ls|
    ensures Stripped(tables, ls[..k + 1]) == Stripped(tables, ls[..k]) + [Rstrip(tables, ls[k])]
  {
  }

  lemma ScrolledGrid(tables: Tables, ls: seq<string>, size: Size)
    requires SizeFits(size) && ls != [] && PlainLines(tables, ls, size) && |ls| >= size.rows
    ensures PlainLines(tables, ls + [""], size)
    ensures var gone := Gone(|ls|, size.rows);
            var grid := ImageGrid(tables, ls, size, gone);
            && grid[0] == Padded(ls[gone], size.cols)
            && ImageGrid(tables, ls + [""], size, gone + 1) == grid[1..] + [Blank(size.cols)]
  {
    EmptyRow(size.cols);
    hide Padded, Blank;
    var more, gone := ls + [""], Gone(|ls|, size.rows);
    var scrolled := ImageGrid(tables, ls, size, gone)[1..] + [Blank(size.cols)];
    forall i | 0 <= i < size.rows
      ensures ImageGrid(tables, more, size, gone + 1)[i] == scrolled[i]
    {
      assert gone + 1 + i < |ls| ==> more[gone + 1 + i] == ls[gone + 1 + i];
    }
    assert ImageGrid(tables, more, size, gone + 1) == scrolled;
  }

  lemma EmptyRow(cols: nat)
    ensures Padded("", cols) == Blank(cols)
  {
  }

  lemma TrimAppends(back: seq<string>, line: string, keep: nat)
    ensures Trim(Trim(back, keep) + [line], keep) == Trim(back + [line], keep)
  {
  }

  lemma {:induction false} JoinedAppends(row: Row, cell: Cell)
    ensures Joined(row + [cell]) == Joined(row) + cell
  {
    if row == [] {
      assert row + [cell] == [cell];
      assert Joined([cell]) == cell + Joined([]);
    } else {
      assert (row + [cell])[1..] == row[1..] + [cell];
      JoinedAppends(row[1..], cell);
    }
  }

  /** A padded row reads back as its line, trimmed. */
  lemma {:induction false} PaddedStrips(tables: Tables, line: string, cols: nat)
    requires |line| <= cols && tables.space(' ')
    ensures Rstrip(tables, Joined(Padded(line, cols))) == Rstrip(tables, line)
    decreases cols
  {
    if cols == |line| {
      FullRowJoins(line);
    } else {
      PaddedStrips(tables, line, cols - 1);
      assert Padded(line, cols) == Padded(line, cols - 1) + [" "];
      JoinedAppends(Padded(line, cols - 1), " ");
      var s := Joined(Padded(line, cols - 1)) + " ";
      assert s[..|s| - 1] == Joined(Padded(line, cols - 1));
    }
  }

  lemma {:induction false} FullRowJoins(line: string)
    ensures Joined(Padded(line, |line|)) == line
  {
    if line != "" {
      var init, last := line[..|line| - 1], line[|line| - 1];
      FullRowJoins(init);
      assert forall i :: 0 <= i < |init| ==> Padded(line, |line|)[i] == [init[i]];
      assert Padded(line, |line|) == Padded(init, |init|) + [[last]];
      JoinedAppends(Padded(init, |init|), [last]);
    }
  }

  lemma {:induction false} TypeLine(tables: Tables, ls: seq<string>, size: Size, line: string, k: nat)
    requires SizeFits(size) && ls != [] && PlainLines(tables, ls, size)
    requires k <= |line| && PlainLine(tables, line, size) && Last(ls) == line[..k]
    ensures var whole := ls[..|ls| - 1] + [line];
            && PlainLines(tables, whole, size)
            && WellFormed(Image(tables, ls, size), size)
            && FeedText(tables, Image(tables, ls, size), size, line[k..]) == Went(Image(tables, whole, size))
    decreases |line| - k
  {
    var whole := ls[..|ls| - 1] + [line];
    if k == |line| {
      assert line[..k] == line;
      assert ls == ls[..|ls| - 1] + [Last(ls)];
    } else {
      var init := ls[..|ls| - 1];
      var longer := init + [Last(ls) + [line[k]]];
      TypeOne(tables, ls, size, line[k]);
      assert line[..k] + [line[k]] == line[..k + 1];
      assert longer[..|init|] == init;
      TypeLine(tables, longer, size, line, k + 1);
      assert line[k..][1..] == line[k + 1..];
    }
  }

  /** Lines with CR LF between them. */
  function CrLf(ls: seq<string>): string
    requires ls != []
  {
    if |ls| == 1 then ls[0] else CrLf(ls[..|ls| - 1]) + "\r\n" + Last(ls)
  }

  lemma Chained(tables: Tables, t: Term, size: Size, a: string, u: Term, b: string, v: Term, d: string)
    requires SizeFits(size) && WellFormed(t, size) && WellFormed(u, size) && WellFormed(v, size)
    requires FeedText(tables, t, size, a) == Went(u) && FeedText(tables, u, size, b) == Went(v)
    ensures FeedText(tables, t, size, a + b + d) == FeedText(tables, v, size, d)
  {
    hide FeedText, WellFormed;
    FeedJoins(tables, t, size, a, b);
    FeedJoins(tables, t, size, a + b, d);
  }

  lemma TypesNext(tables: Tables, init: seq<string>, last: string, size: Size)
    requires SizeFits(size) && tables.space(' ') && init != [] && PlainLines(tables, init, size)
    requires PlainLine(tables, last, size) && WellFormed(Fresh(size), size)
    requires FeedText(tables, Fresh(size), size, CrLf(init)) == Went(Image(tables, init, size))
    ensures PlainLines(tables, init + [last], size)
    ensures FeedText(tables, Fresh(size), size, CrLf(init) + "\r\n" + last) == Went(Image(tables, init + [last], size))
  {
    hide FeedText, WellFormed, Image, Fresh, PlainLine, CrLf;
    NewLine(tables, init, size);
    var more := init + [""];
    assert last[0..] == last && last[..0] == "" && more[..|more| - 1] == init;
    TypeLine(tables, more, size, last, 0);
    Chained(tables, Fresh(size), size, CrLf(init), Image(tables, init, size), "\r\n", Image(tables, more, size), last);
  }

  lemma {:induction false} TypesLines(tables: Tables, ls: seq<string>, size: Size)
    requires SizeFits(size) && tables.space(' ') && ls != [] && PlainLines(tables, ls, size)
    ensures WellFormed(Fresh(size), size)
    ensures FeedText(tables, Fresh(size), size, CrLf(ls)) == Went(Image(tables, ls, size))
    decreases |ls|
  {
    hide FeedText, WellFormed, Image, Fresh, PlainLine;
    if |ls| == 1 {
      FreshIsEmptyImage(tables, size);
      TypeLine(tables, [""], size, ls[0], 0);
      assert ls[0][0..] == ls[0] && [""][..0] + [ls[0]] == ls;
    } else {
      var init, last := ls[..|ls| - 1], Last(ls);
      assert ls == init + [last];
      TypesLines(tables, init, size);
      TypesNext(tables, init, last, size);
    }
  }

  lemma FreshIsEmptyImage(tables: Tables, size: Size)
    requires SizeFits(size)
    ensures WellFormed(Fresh(size), size) && PlainLines(tables, [""], size)
    ensures Fresh(size) == Image(tables, [""], size)
  {
    assert Padded("", size.cols) == Blank(size.cols);
    assert [""][..0] == [];
    assert Fresh(size).grid == Image(tables, [""], size).grid;
    assert Stripped(tables, []) == [];
  }

  /** Plain text shows as it was written: the lines, right-trimmed, blank lines below them up
      to the height of the screen, and of those that scrolled off the last `keep`. */
  lemma ShowsPlainText(tables: Tables, ls: seq<string>, size: Size)
    requires SizeFits(size) && tables.space(' ') && ls != [] && PlainLines(tables, ls, size)
    ensures WellFormed(Fresh(size), size)
    ensures var fed := FeedText(tables, Fresh(size), size, CrLf(ls));
            && fed.Went?
            && Lines(tables, fed.term) ==
               Shown(Stripped(tables, ls), size)
  {
    hide FeedText, Fresh, WellFormed, Rstrip;
    TypesLines(tables, ls, size);
    GridShows(tables, ls, size);
    var gone := Gone(|ls|, size.rows);
    assert Stripped(tables, ls[..gone]) == Stripped(tables, ls)[..gone];
    ShownSplits(Stripped(tables, ls), size);
  }

  lemma GridShows(tables: Tables, ls: seq<string>, size: Size)
    requires SizeFits(size) && tables.space(' ') && ls != [] && PlainLines(tables, ls, size)
    ensures var gone := Gone(|ls|, size.rows);
            StripAll(tables, ImageGrid(tables, ls, size, gone)) ==
            Stripped(tables, ls)[gone..] + Empty(size.rows - (|ls| - gone))
  {
    hide ImageGrid, ImageRow, PlainLine, PlainLines, Stripped, StripAll, Rstrip, Joined;
    var gone, all := Gone(|ls|, size.rows), Stripped(tables, ls);
    var shown := StripAll(tables, ImageGrid(tables, ls, size, gone));
    RowShows(tables, ls, size, gone, 0);
    forall i | 0 <= i < size.rows
      ensures shown[i] == if gone + i < |ls| then all[gone + i] else ""
    {
      RowShows(tables, ls, size, gone, i);
    }
    PadsOut(shown, all, gone, size.rows);
  }

  /** What is left of the lines, and blank ones up to the height of the screen. */
  lemma PadsOut(shown: seq<string>, all: seq<string>, gone: nat, rows: nat)
    requires gone <= |all| <= gone + rows && |shown| == rows
    requires forall i :: 0 <= i < rows ==> shown[i] == if gone + i < |all| then all[gone + i] else ""
    ensures shown == all[gone..] + Empty(rows - (|all| - gone))
  {
  }

  lemma RowShows(tables: Tables, ls: seq<string>, size: Size, gone: nat, i: nat)
    requires tables.space(' ') && PlainLines(tables, ls, size) && i < size.rows
    ensures
      var shown := StripAll(tables, ImageGrid(tables, ls, size, gone));
      && |shown| == size.rows
      && shown[i] == if gone + i < |ls| then Stripped(tables, ls)[gone + i] else ""
  {
    EmptyRow(size.cols);
    PaddedStrips(tables, if gone + i < |ls| then ls[gone + i] else "", size.cols);
    hide Padded, Blank, Joined, Rstrip;
  }

  function Empty(n: nat): (lines: seq<string>)
    ensures |lines| == n && forall i :: 0 <= i < n ==> lines[i] == ""
  {
    seq(n, i => "")
  }

  /** The last `keep + rows` lines, or all of them when `keep` is zero; never fewer than
      `rows` lines, the missing ones blank. */
  function Shown(all: seq<string>, size: Size): seq<string> {
    if |all| < size.rows then all + Empty(size.rows - |all|)
    else if size.keep == 0 || |all| <= size.keep + size.rows then all
    else all[|all| - size.keep - size.rows..]
  }

  lemma ShownSplits(all: seq<string>, size: Size)
    requires SizeFits(size)
    ensures var gone := Gone(|all|, size.rows);
            Shown(all, size) == Trim(all[..gone], size.keep) + (all[gone..] + Empty(size.rows - (|all| - gone)))
  {
    var gone := Gone(|all|, size.rows);
    if |all| < size.rows {
      assert all[..0] == [] && all[0..] == all;
    } else {
      assert Empty(0) == [];
      assert all[gone..] + Empty(0) == all[gone..];
      if size.keep > 0 && gone > size.keep {
        assert all[..gone][gone - size.keep..] + all[gone..] == all[gone - size.keep..];
      } else {
        assert all[..gone] + all[gone..] == all;
      }
    }
  }

  // ---- Where the limits end ----

  function Repeat(ch: char, n: nat): (s: string)
    ensures |s| == n && forall i :: 0 <= i < n ==> s[i] == ch
  {
    seq(n, i => ch)
  }

  /** A full line and an erase to the cursor: the row of the cursor is one cell too long. */
  lemma OvergrowsFromFresh(tables: Tables, size: Size, ch: char)
    requires SizeFits(size) && Narrow(tables, ch) && tables.digits("1") && tables.number("1") == Some(1)
    ensures WellFormed(Fresh(size), size) && Exact(Fresh(size), size)
    ensures
      var line := Repeat(ch, size.cols);
      var before := FeedText(tables, Fresh(size), size, line + "\U{1b}[1");
      var after := FeedText(tables, Fresh(size), size, line + "\U{1b}[1K");
      && before.Went? && WellFormed(before.term, size) && Exact(before.term, size)
      && Overgrows(tables, before.term, size, 'K')
      && after.Went? && WellFormed(after.term, size) && |after.term.grid[0]| == size.cols + 1
  {
    var line := Repeat(ch, size.cols);
    FreshIsEmptyImage(tables, size);
    TypeLine(tables, [""], size, line, 0);
    assert line[0..] == line && [""][..0] + [line] == [line];
    var t := Image(tables, [line], size);
    FeedJoins(tables, Fresh(size), size, line, "\U{1b}[1");
    FeedJoins(tables, Fresh(size), size, line, "\U{1b}[1K");
    EraseOvergrows(tables, t, size);
  }

  lemma FeedsFirst(tables: Tables, t: Term, size: Size, ch: char, rest: string)
    requires SizeFits(size) && WellFormed(t, size)
    ensures WellFormed(Step(tables, t, size, ch).term, size)
    ensures FeedText(tables, t, size, [ch] + rest) ==
            match Step(tables, t, size, ch)
            case Raised(u) => Raised(u)
            case Went(u) => FeedText(tables, u, size, rest)
  {
    StepKeeps(tables, t, size, ch);
    assert ([ch] + rest)[1..] == rest;
  }

  /** A sequence with one parameter character, up to its final byte. */
  lemma FeedsSequence(tables: Tables, t: Term, size: Size, p: char, f: char)
    requires SizeFits(size) && WellFormed(t, size) && t.mode == Text && !('\U{40}' <= p <= '\U{7e}')
    ensures
      var u := t.(mode := Csi, param := [p]);
      && FeedText(tables, t, size, ['\U{1b}', '[', p]) == Went(u)
      && FeedText(tables, t, size, ['\U{1b}', '[', p, f]) == Step(tables, u, size, f)
  {
    var u := t.(mode := Csi, param := [p]);
    FeedsFirst(tables, t, size, '\U{1b}', "[" + [p]);
    FeedsFirst(tables, t.(mode := Esc), size, '[', [p]);
    FeedsFirst(tables, t.(mode := Csi, param := ""), size, p, "");
    FeedJoins(tables, t, size, ['\U{1b}', '[', p], [f]);
    FeedsFirst(tables, u, size, f, "");
    hide Step, StepCsi;
    assert [f] + "" == [f] && [p] + "" == [p] && ['[', p] == ['['] + [p];
    assert ['\U{1b}', '[', p] == ['\U{1b}'] + ("[" + [p]);
    assert ['\U{1b}', '[', p, f] == ['\U{1b}', '[', p] + [f];
  }

  lemma EraseOvergrows(tables: Tables, t: Term, size: Size)
    requires SizeFits(size) && WellFormed(t, size) && Exact(t, size) && t.mode == Text && t.c == size.cols
    requires tables.digits("1") && tables.number("1") == Some(1)
    ensures
      var before := FeedText(tables, t, size, "\U{1b}[1");
      && before == Went(t.(mode := Csi, param := "1")) && Overgrows(tables, before.term, size, 'K')
    ensures
      var after := FeedText(tables, t, size, "\U{1b}[1K");
      after.Went? && WellFormed(after.term, size) && |after.term.grid[t.r]| == size.cols + 1
  {
    var u := t.(mode := Csi, param := "1");
    FeedsSequence(tables, t, size, '1', 'K');
    ReadsOne(tables);
    ControlledKeeps(u, size, 'K', [1]);
    ErasedExact(u, size, false, 1);
    hide Erased, WellFormed, Numbers, FeedText;
    assert Step(tables, u, size, 'K') == Went(Controlled(u, size, 'K', [1]).(mode := Text));
  }

  lemma ReadsOne(tables: Tables)
    requires tables.digits("1") && tables.number("1") == Some(1)
    ensures Numbers(tables, "1") == Some([1])
  {
    assert "1"[1..] == "" && [""][1..] == [] && ['1'] + "" == "1" && ["1"] + [] == ["1"];
    assert Split("1") == ["1"];
    assert ["1"][1..] == [] && [1] + [] == [1];
    assert ReadAll(tables, []) == Some([]);
  }

  /** The screen after line feeds: down, and off the top once the last row is reached. */
  lemma {:induction false} FeedsLines(tables: Tables, t: Term, size: Size, n: nat)
    requires SizeFits(size) && WellFormed(t, size) && t.mode == Text && t.r + n < size.rows
    ensures FeedText(tables, t, size, Repeat('\n', n)) == Went(t.(r := t.r + n))
    decreases n
  {
    if n > 0 {
      assert Repeat('\n', n)[1..] == Repeat('\n', n - 1);
      FeedsLines(tables, t.(r := t.r + 1), size, n - 1);
    }
  }

  /** As many line feeds as the screen has rows push one line into the scrollback, and only a
      positive `keep` limits it: with zero nothing is dropped. */
  lemma LineFeedsScroll(tables: Tables, size: Size)
    requires SizeFits(size)
    ensures WellFormed(Fresh(size), size)
    ensures
      var fed := FeedText(tables, Fresh(size), size, Repeat('\n', size.rows));
      fed.Went? && |fed.term.back| == 1
  {
    var t := Fresh(size);
    FeedsLines(tables, t, size, size.rows - 1);
    FeedJoins(tables, t, size, Repeat('\n', size.rows - 1), "\n");
    assert Repeat('\n', size.rows - 1) + "\n" == Repeat('\n', size.rows);
  }

  /** The scrollback stays within `keep` under every text if and only if `keep` is not zero. */
  lemma ScrollbackLimited(tables: Tables, size: Size)
    requires SizeFits(size)
    ensures WellFormed(Fresh(size), size)
    ensures (forall text :: |FeedText(tables, Fresh(size), size, text).term.back| <= size.keep) <==> size.keep > 0
  {
    LineFeedsScroll(tables, size);
    if size.keep > 0 {
      forall text ensures |FeedText(tables, Fresh(size), size, text).term.back| <= size.keep {
        FeedKeeps(tables, Fresh(size), size, text);
      }
    }
  }

  /** One of the parameters passes for digits and is no number. */
  predicate Unreadable(tables: Tables, parts: seq<string>) {
    exists i :: 0 <= i < |parts| && tables.digits(parts[i]) && tables.number(parts[i]).None?
  }

  lemma {:induction false} ReadAllFails(tables: Tables, parts: seq<string>)
    ensures ReadAll(tables, parts).None? <==> Unreadable(tables, parts)
  {
    if parts != [] {
      ReadAllFails(tables, parts[1..]);
      if Unreadable(tables, parts[1..]) {
        var i :| 0 <= i < |parts[1..]| && tables.digits(parts[1..][i]) && tables.number(parts[1..][i]).None?;
        assert parts[i + 1] == parts[1..][i];
      }
      if Unreadable(tables, parts) && !(tables.digits(parts[0]) && tables.number(parts[0]).None?) {
        var i :| 0 <= i < |parts| && tables.digits(parts[i]) && tables.number(parts[i]).None?;
        assert parts[1..][i - 1] == parts[i];
      }
    }
  }

  /** A character raises exactly when it ends a sequence that is not private and one of whose
      parameters passes for digits and is no number. */
  lemma RaisesExactly(tables: Tables, t: Term, size: Size, ch: char)
    requires SizeFits(size) && WellFormed(t, size)
    ensures Step(tables, t, size, ch).Raised? <==>
            t.mode == Csi && '\U{40}' <= ch <= '\U{7e}' && t.param != "" && !Private(t.param)
            && Unreadable(tables, Split(t.param))
  {
    hide Controlled, StepText, StepEsc;
    ReadAllFails(tables, Split(t.param));
  }

  /** A superscript two is a digit to `isdigit` and no number to `int`: as a parameter it raises. */
  lemma SuperscriptRaises(tables: Tables, size: Size)
    requires SizeFits(size) && tables.digits("\U{b2}") && tables.number("\U{b2}").None?
    ensures WellFormed(Fresh(size), size)
    ensures FeedText(tables, Fresh(size), size, "\U{1b}[\U{b2}A").Raised?
  {
    var t := Fresh(size).(mode := Csi, param := "\U{b2}");
    FeedsSequence(tables, Fresh(size), size, '\U{b2}', 'A');
    assert Split("\U{b2}")[0] == "\U{b2}";
    RaisesExactly(tables, t, size, 'A');
  }

  // ---- The screen itself ----

  class Screen {
    const tables: Tables
    const size: Size
    var grid: seq<Row>
    var back: seq<string>
    var r: nat
    var c: nat
    var saved: (nat, nat)
    var mode: Mode
    var param: string

    constructor (tables: Tables, size: Size)
      requires SizeFits(size)
      ensures this.tables == tables && this.size == size
      ensures Valid() && View() == Fresh(size)
    {
      this.tables, this.size := tables, size;
      grid := seq(size.rows, i => Blank(size.cols));
      back, r, c, saved, mode, param := [], 0, 0, (0, 0), Text, "";
    }

    ghost function View(): Term
      reads this
    {
      Term(grid, back, r, c, saved, mode, param)
    }

    ghost predicate Valid()
      reads this
    {
      SizeFits(size) && WellFormed(View(), size)
    }

    method Scroll()
      requires Valid()
      modifies this`back, this`grid
      ensures Valid()
      ensures grid == old(grid)[1..] + [Blank(size.cols)]
      ensures back == Trim(old(back) + [Rstrip(tables, Joined(old(grid)[0]))], size.keep)
    {
      back := back + [Rstrip(tables, Joined(grid[0]))];
      grid := grid[1..];
      if size.keep > 0 && |back| > size.keep {
        back := back[|back| - size.keep..];
      }
      grid := grid + [Blank(size.cols)];
    }

    method Lf()
      requires Valid()
      modifies this`back, this`grid, this`r
      ensures Valid() && View() == LineFed(tables, old(View()), size)
    {
      if r == size.rows - 1 {
        Scroll();
      } else {
        r := r + 1;
      }
    }

    method SetCell(i: nat, cell: Cell)
      requires Valid() && i < size.cols
      modifies this`grid
      ensures Valid() && grid == old(grid)[r := old(grid)[r][i := cell]]
    {
      grid := grid[r := grid[r][i := cell]];
    }

    method PutChar(ch: char)
      requires Valid()
      modifies this`back, this`grid, this`r, this`c
      ensures Valid() && View() == Put(tables, old(View()), size, ch)
    {
      if tables.zeroWidth(ch) {
        if c > 0 {
          SetCell(c - 1, grid[r][c - 1] + [ch]);
        }
        return;
      }
      var w := if tables.wide(ch) then 2 else 1;
      if c + w > size.cols {
        c := 0;
        Lf();
      }
      PlaceGlyph(ch, w);
      c := c + w;
    }

    /** The glyph in its cells, and a blank where it cuts a wide one in half. */
    method PlaceGlyph(ch: char, w: nat)
      requires Valid() && w in {1, 2} && c + w <= size.cols
      modifies this`grid
      ensures Valid() && grid == old(grid)[r := WriteCell(old(grid)[r], c, ch, w, size.cols)]
    {
      if grid[r][c] == "" && c > 0 {
        SetCell(c - 1, " ");
      }
      if w == 1 && c + 1 < size.cols && grid[r][c + 1] == "" {
        SetCell(c + 1, " ");
      }
      SetCell(c, [ch]);
      if w == 2 {
        SetCell(c + 1, "");
      }
    }

    /** False when reading a parameter raises; then nothing has changed. */
    method Control(f: char, p: string) returns (ok: bool)
      requires Valid()
      modifies this`grid, this`r, this`c
      ensures Valid()
      ensures ok == (Private(p) || Numbers(tables, p).Some?)
      ensures View() == if ok && !Private(p) then Controlled(old(View()), size, f, Numbers(tables, p).value) else old(View())
    {
      if Private(p) {
        return true;
      }
      var read := Numbers(tables, p);
      if read.None? {
        return false;
      }
      ghost var was := View();
      ControlledKeeps(was, size, f, read.value);
      hide WellFormed, Moved, Erased, WidthFits;
      var a := read.value;
      var n := OneBased(a, 0);
      if f in "ABCDEFGHfd" {
        Move(f, a, n);
      } else if f == 'J' {
        Erase(true, if a != [] then a[0] else 0);
      } else if f == 'K' {
        Erase(false, if a != [] then a[0] else 0);
      } else if f == 'X' {
        var end := Min(size.cols, c + n);
        grid := grid[r := EraseSpan(grid[r], c, end)];
      } else if f == 'P' {
        var k := Min(n, size.cols - c);
        grid := grid[r := DeleteCells(grid[r], c, k)];
      }
      return true;
    }

    method Move(f: char, a: seq<nat>, n: nat)
      requires Valid() && f in "ABCDEFGHfd" && n == OneBased(a, 0)
      modifies this`r, this`c
      ensures View() == Moved(old(View()), size, f, a)
      ensures Valid() && Clamped(old(View()), View(), size, f, a)
    {
      MovesClamp(View(), size, f, a);
      hide Clamped;
      match f
      case 'A' => r := if r < n then 0 else r - n;
      case 'B' => r := Min(size.rows - 1, r + n);
      case 'C' => c := Min(size.cols - 1, c + n);
      case 'D' => c := if c < n then 0 else c - n;
      case 'E' => r, c := Min(size.rows - 1, r + n), 0;
      case 'F' => r, c := if r < n then 0 else r - n, 0;
      case 'G' => c := Min(size.cols - 1, n - 1);
      case 'd' => r := Min(size.rows - 1, n - 1);
      case _ => r, c := Min(size.rows - 1, n - 1), Min(size.cols - 1, OneBased(a, 1) - 1);
    }

    method Erase(below: bool, m: nat)
      requires Valid()
      modifies this`grid
      ensures grid == Erased(old(View()), size, below, m)
    {
      ghost var was := View();
      if m == 0 {
        grid := grid[r := EraseRight(grid[r], c, size.cols)];
        if below {
          BlankRows(r + 1, size.rows);
        }
      } else if m == 1 {
        grid := grid[r := EraseLeft(grid[r], c)];
        if below {
          BlankRows(0, r);
        }
      } else if below {
        BlankRows(0, size.rows);
      } else {
        grid := grid[r := Blank(size.cols)];
      }
      assert grid == Erased(was, size, below, m);
    }

    method BlankRows(from: nat, to: nat)
      requires from <= to <= |grid|
      modifies this`grid
      ensures |grid| == |old(grid)|
      ensures forall i :: 0 <= i < |grid| ==> grid[i] == if from <= i < to then Blank(size.cols) else old(grid)[i]
    {
      var i := from;
      while i < to
        invariant from <= i <= to && |grid| == |old(grid)|
        invariant forall k :: 0 <= k < |grid| ==> grid[k] == if from <= k < i then Blank(size.cols) else old(grid)[k]
      {
        grid := grid[i := Blank(size.cols)];
        i := i + 1;
      }
    }

    method FeedChar(ch: char) returns (ok: bool)
      requires Valid()
      modifies this
      ensures Valid()
      ensures Step(tables, old(View()), size, ch) == if ok then Went(View()) else Raised(View())
    {
      ok := true;
      StepKeeps(tables, View(), size, ch);
      match mode
      case Text => TextChar(ch);
      case Esc => EscChar(ch);
      case Skip => mode := Text;
      case Osc =>
        if ch == '\U{7}' {
          mode := Text;
        } else if ch == '\U{1b}' {
          mode := OscEsc;
        }
      case OscEsc => mode := Text;
      case Csi =>
        if '\U{40}' <= ch <= '\U{7e}' {
          ok := Control(ch, param);
          if ok {
            mode := Text;
          }
        } else {
          param := param + [ch];
        }
    }

    method TextChar(ch: char)
      requires Valid() && mode == Text
      modifies this
      ensures Valid() && View() == StepText(tables, old(View()), size, ch)
    {
      if ch == '\U{1b}' {
        mode := Esc;
      } else if ch == '\r' {
        c := 0;
      } else if ch == '\n' {
        Lf();
      } else if ch == '\U{8}' {
        c := if c == 0 then 0 else c - 1;
      } else if ch == '\t' {
        c := Min(size.cols - 1, (c / 8 + 1) * 8);
      } else if ch >= ' ' && ch != '\U{7f}' {
        PutChar(ch);
      }
    }

    method EscChar(ch: char)
      requires Valid()
      modifies this
      ensures Valid() && View() == StepEsc(old(View()), ch)
    {
      if ch == '[' {
        mode, param := Csi, "";
      } else if ch == ']' {
        mode := Osc;
      } else if ch == '(' || ch == ')' {
        mode := Skip;
      } else {
        if ch == '7' {
          saved := (r, c);
        } else if ch == '8' {
          r, c := saved.0, saved.1;
        }
        mode := Text;
      }
    }

    /** What is shown after any text depends on its characters alone; a raise stops it there. */
    method Feed(text: string) returns (ok: bool)
      requires Valid()
      modifies this
      ensures Valid()
      ensures FeedText(tables, old(View()), size, text) == if ok then Went(View()) else Raised(View())
    {
      var i := 0;
      assert text[0..] == text;
      while i < |text|
        invariant 0 <= i <= |text| && Valid()
        invariant FeedText(tables, old(View()), size, text) == FeedText(tables, View(), size, text[i..])
      {
        assert text[i..][0] == text[i] && text[i..][1..] == text[i + 1..];
        ok := FeedChar(text[i]);
        if !ok {
          return;
        }
        i := i + 1;
      }
      ok := true;
    }
  }
}
