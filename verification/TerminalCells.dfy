/** What the terminal's control sequences do to the screen, cell by cell and place by place, apart
    from how the rows are rebuilt. */
module TerminalCells {

  import opened Wrappers
  import opened Terminal

  // ---- Erasing ----

  /** What is to be erased: to the end (0, also when it is not said), up to and with the cursor (1),
      or all of it. */
  function Extent(a: seq<nat>): nat {
    if a == [] then 0 else a[0]
  }

  /** Is this place erased, in the order in which the screen is read? `K` stays in the cursor's row. */
  predicate Cleared(t: Term, f: char, m: nat, i: nat, j: nat) {
    (f == 'K' ==> i == t.r)
    && (m == 0 ==> i > t.r || (i == t.r && j >= t.c))
    && (m == 1 ==> i < t.r || (i == t.r && j <= t.c))
  }

  /** An erase blanks exactly these places and leaves every other cell, and all else, alone. */
  lemma ErasesCells(t: Term, size: Size, f: char, a: seq<nat>, i: nat, j: nat)
    requires SizeFits(size) && WellFormed(t, size) && f in "JK" && i < size.rows && j < size.cols
    ensures var u := Controlled(t, size, f, a);
            && u == t.(grid := u.grid) && |u.grid| == size.rows && j < |u.grid[i]|
            && u.grid[i][j] == if Cleared(t, f, Extent(a), i, j) then " " else t.grid[i][j]
  {
    assert WidthFits(t.grid[i], size);
  }

  /** Rows it does not reach stay as they are, also one that is a cell too long. */
  lemma ErasesNoOtherRow(t: Term, size: Size, f: char, a: seq<nat>, i: nat)
    requires SizeFits(size) && WellFormed(t, size) && f in "JK" && i < size.rows && i != t.r
    requires f == 'K' || (Extent(a) == 0 && i < t.r) || (Extent(a) == 1 && i > t.r)
    ensures Controlled(t, size, f, a).grid[i] == t.grid[i]
  {
  }

  // ---- The other two that change cells ----

  /** Blanks over the cells asked for, as far as the row goes. */
  lemma BlanksSpan(t: Term, size: Size, a: seq<nat>, j: nat)
    requires SizeFits(size) && WellFormed(t, size) && j < |t.grid[t.r]|
    ensures var u := Controlled(t, size, 'X', a);
            && u == t.(grid := t.grid[t.r := u.grid[t.r]]) && |u.grid[t.r]| == |t.grid[t.r]|
            && u.grid[t.r][j] == if t.c <= j < size.cols && j - t.c < OneBased(a, 0) then " " else t.grid[t.r][j]
  {
    assert WidthFits(t.grid[t.r], size);
  }

  /** The cells behind the deleted ones move up, and blanks come in from the right. */
  lemma DeletesCells(t: Term, size: Size, a: seq<nat>, j: nat)
    requires SizeFits(size) && WellFormed(t, size) && j < |t.grid[t.r]|
    ensures var u, n, row := Controlled(t, size, 'P', a), Min(OneBased(a, 0), size.cols - t.c), t.grid[t.r];
            && u == t.(grid := t.grid[t.r := u.grid[t.r]]) && |u.grid[t.r]| == |row|
            && u.grid[t.r][j] == if j < t.c then row[j] else if j + n < |row| then row[j + n] else " "
  {
    assert WidthFits(t.grid[t.r], size);
  }

  /** No other final letter changes a cell. */
  lemma OthersChangeNothing(t: Term, size: Size, f: char, a: seq<nat>)
    requires SizeFits(size) && WellFormed(t, size) && f !in "JKXP"
    ensures Controlled(t, size, f, a).grid == t.grid && Controlled(t, size, f, a).back == t.back
    ensures f !in "ABCDEFGHfd" ==> Controlled(t, size, f, a) == t
  {
  }

  // ---- Writing a glyph ----

  /** The glyph lands under the cursor, with its second half beside it when it is wide; a glyph of
      which one half was written over leaves a blank for the other. */
  lemma WritesCells(row: Row, c: nat, ch: char, w: nat, cols: nat, j: nat)
    requires w in {1, 2} && c + w <= cols <= |row| && j < |row|
    ensures |WriteCell(row, c, ch, w, cols)| == |row|
    ensures WriteCell(row, c, ch, w, cols)[j] ==
            if j == c then [ch]
            else if j == c + 1 && w == 2 then ""
            else if j + 1 == c && row[c] == "" then " "
            else if j == c + 1 && j < cols && row[j] == "" then " "
            else row[j]
  {
  }

  /** A character that takes a column is written where there is room for it, and otherwise at the
      beginning of the next line. */
  lemma PutsWhereThereIsRoom(tables: Tables, t: Term, size: Size, ch: char)
    requires SizeFits(size) && WellFormed(t, size) && !tables.zeroWidth(ch)
    ensures var w := Width(tables, ch);
            if t.c + w > size.cols
            then WellFormed(LineFed(tables, t.(c := 0), size), size)
                 && Put(tables, t, size, ch) == Put(tables, LineFed(tables, t.(c := 0), size), size, ch)
            else Put(tables, t, size, ch) ==
                 t.(grid := t.grid[t.r := WriteCell(t.grid[t.r], t.c, ch, w, size.cols)], c := t.c + w)
  {
    LineFedKeeps(tables, t.(c := 0), size);
    hide WriteCell, LineFed;
  }

  /** A character that takes no column joins the glyph before the cursor, if there is one. */
  lemma CombinesWithTheLast(tables: Tables, t: Term, size: Size, ch: char)
    requires SizeFits(size) && WellFormed(t, size) && tables.zeroWidth(ch)
    ensures var u := Put(tables, t, size, ch);
            if t.c == 0 then u == t
            else && u == t.(grid := u.grid) && |u.grid| == size.rows
                 && (forall i :: 0 <= i < size.rows && i != t.r ==> u.grid[i] == t.grid[i])
                 && u.grid[t.r] == t.grid[t.r][..t.c - 1] + [t.grid[t.r][t.c - 1] + [ch]] + t.grid[t.r][t.c..]
  {
    assert WidthFits(t.grid[t.r], size);
  }

  /** A number that is not given, or is zero, counts as one, in each of the two places of `H`. */
  lemma DefaultsToOne(t: Term, size: Size, f: char, n: nat)
    requires SizeFits(size) && WellFormed(t, size) && f in "ABCDEFGHfdXP"
    ensures Controlled(t, size, f, []) == Controlled(t, size, f, [0]) == Controlled(t, size, f, [1])
    ensures Controlled(t, size, f, [n, 0]) == Controlled(t, size, f, [n]) == Controlled(t, size, f, [n, 1])
  {
    MovesAlike(t, size, f, [], [1]);
    MovesAlike(t, size, f, [0], [1]);
    MovesAlike(t, size, f, [n, 0], [n]);
    MovesAlike(t, size, f, [n, 0], [n, 1]);
  }

  lemma MovesAlike(t: Term, size: Size, f: char, a: seq<nat>, b: seq<nat>)
    requires SizeFits(size) && WellFormed(t, size) && f in "ABCDEFGHfdXP"
    requires OneBased(a, 0) == OneBased(b, 0) && OneBased(a, 1) == OneBased(b, 1)
    ensures Controlled(t, size, f, a) == Controlled(t, size, f, b)
  {
    hide OneBased;
  }

  // ---- Control characters ----

  /** Return goes to the first column, backspace one to the left, and of the others all but line feed,
      tab and escape do nothing. */
  lemma ControlCharacters(tables: Tables, t: Term, size: Size, ch: char)
    requires SizeFits(size) && WellFormed(t, size) && (ch < ' ' || ch == '\U{7f}')
    ensures var u := StepText(tables, t, size, ch);
            match ch
            case '\r' => u == t.(c := 0)
            case '\U{8}' => u == t.(c := u.c) && u.c == Max(t.c - 1, 0)
            case '\U{1b}' => u == t.(mode := Esc)
            case '\n' => u == LineFed(tables, t, size)
            case _ => ch == '\t' || u == t
  {
  }

  function Max(a: int, b: int): int {
    if a < b then b else a
  }

  /** A line feed goes down a row, or on the last row moves all rows up. */
  lemma LineFeeds(tables: Tables, t: Term, size: Size, i: nat)
    requires SizeFits(size) && WellFormed(t, size) && i < size.rows
    ensures var u := LineFed(tables, t, size);
            if t.r + 1 < size.rows then u == t.(r := t.r + 1)
            else u == t.(grid := u.grid, back := u.back) && |u.grid| == size.rows
                 && u.grid[i] == if i + 1 < size.rows then t.grid[i + 1] else Blank(size.cols)
  {
  }

  /** The choice of a character set is passed over. */
  lemma CharacterSetPassesOver(tables: Tables, t: Term, size: Size, open: char, ch: char)
    requires SizeFits(size) && WellFormed(t, size) && t.mode == Esc && (open == '(' || open == ')')
    ensures FeedText(tables, t, size, [open, ch]) == Went(t.(mode := Text))
  {
    TwoSteps(tables, t, size, open, ch);
  }

  // ---- Tabs ----

  /** The next column that is a multiple of eight, or the last one when there is none. */
  lemma TabStops(tables: Tables, t: Term, size: Size)
    requires SizeFits(size) && WellFormed(t, size)
    ensures var u := StepText(tables, t, size, '\t');
            && u == t.(c := u.c) && u.c < size.cols
            && (forall x: nat :: t.c < x < u.c ==> x % 8 != 0)
            && (u.c == size.cols - 1 || (u.c > t.c && u.c % 8 == 0))
  {
  }

  // ---- Save and restore ----

  predicate NoEscape(text: string) {
    forall i :: 0 <= i < |text| ==> text[i] != '\U{1b}'
  }

  /** Without an escape the screen stays in the text mode and the saved place is kept. */
  lemma {:induction false} TextKeepsSaved(tables: Tables, t: Term, size: Size, text: string)
    requires SizeFits(size) && WellFormed(t, size) && t.mode == Text && NoEscape(text)
    ensures FeedText(tables, t, size, text).Went?
    ensures FeedText(tables, t, size, text).term.mode == Text
    ensures FeedText(tables, t, size, text).term.saved == t.saved
    decreases |text|
  {
    if text != "" {
      StepKeeps(tables, t, size, text[0]);
      StepTextKeepsSaved(tables, t, size, text[0]);
      TextKeepsSaved(tables, StepText(tables, t, size, text[0]), size, text[1..]);
    }
  }

  lemma StepTextKeepsSaved(tables: Tables, t: Term, size: Size, ch: char)
    requires SizeFits(size) && WellFormed(t, size) && t.mode == Text && ch != '\U{1b}'
    ensures StepText(tables, t, size, ch).mode == Text && StepText(tables, t, size, ch).saved == t.saved
  {
    LineFedKeeps(tables, t.(c := 0), size);
    hide WriteCell;
  }

  lemma TwoSteps(tables: Tables, t: Term, size: Size, a: char, b: char)
    requires SizeFits(size) && WellFormed(t, size)
    requires Step(tables, t, size, a).Went? && WellFormed(Step(tables, t, size, a).term, size)
    requires Step(tables, Step(tables, t, size, a).term, size, b).Went?
    ensures FeedText(tables, t, size, [a, b]) == Step(tables, Step(tables, t, size, a).term, size, b)
  {
    hide Step;
    var u := Step(tables, t, size, a).term;
    assert [a, b][1..] == [b] && [b][1..] == "";
    StepKeeps(tables, u, size, b);
    var v := Step(tables, u, size, b).term;
    assert FeedText(tables, v, size, "") == Went(v);
    assert FeedText(tables, u, size, [b]) == Went(v);
  }

  /** Whatever text is written in between, the cursor returns to where it was saved. */
  lemma SavesAndRestores(tables: Tables, t: Term, size: Size, text: string)
    requires SizeFits(size) && WellFormed(t, size) && t.mode == Text && NoEscape(text)
    ensures var fed := FeedText(tables, t, size, "\U{1b}7" + text + "\U{1b}8");
            fed.Went? && fed.term.r == t.r && fed.term.c == t.c && fed.term.mode == Text
  {
    hide FeedText, Put, LineFed, Controlled;
    var saved := t.(saved := (t.r, t.c));
    TwoSteps(tables, t, size, '\U{1b}', '7');
    assert FeedText(tables, t, size, "\U{1b}7") == Went(saved);
    TextKeepsSaved(tables, saved, size, text);
    FeedJoins(tables, t, size, "\U{1b}7", text);
    var u := FeedText(tables, saved, size, text).term;
    FeedKeeps(tables, saved, size, text);
    FeedJoins(tables, t, size, "\U{1b}7" + text, "\U{1b}8");
    TwoSteps(tables, u, size, '\U{1b}', '8');
  }

  // ---- Sequences that change nothing ----

  /** A title, up to the bell, is passed over. */
  lemma {:induction false} TitlePassesOver(tables: Tables, t: Term, size: Size, title: string)
    requires SizeFits(size) && WellFormed(t, size) && t.mode == Osc
    requires forall i :: 0 <= i < |title| ==> title[i] != '\U{7}' && title[i] != '\U{1b}'
    ensures FeedText(tables, t, size, title + "\U{7}") == Went(t.(mode := Text))
    decreases |title|
  {
    hide StepText, StepCsi, StepEsc;
    var all := title + "\U{7}";
    if title == "" {
      assert all[1..] == "";
      assert FeedText(tables, t.(mode := Text), size, "") == Went(t.(mode := Text));
    } else {
      assert all[1..] == title[1..] + "\U{7}";
      TitlePassesOver(tables, t, size, title[1..]);
    }
  }

  /** Parameters are collected up to the final letter, and a private sequence has no effect. */
  lemma {:induction false} PrivateDoesNothing(tables: Tables, t: Term, size: Size, params: string, f: char)
    requires SizeFits(size) && WellFormed(t, size) && t.mode == Csi && Private(t.param)
    requires '\U{40}' <= f <= '\U{7e}' && forall i :: 0 <= i < |params| ==> !('\U{40}' <= params[i] <= '\U{7e}')
    ensures FeedText(tables, t, size, params + [f]) == Went(t.(mode := Text, param := t.param + params))
    decreases |params|
  {
    hide StepText, StepEsc, Controlled, Numbers;
    var all := params + [f];
    if params == "" {
      assert all[1..] == "" && t.param + "" == t.param;
      assert FeedText(tables, t.(mode := Text), size, "") == Went(t.(mode := Text));
    } else {
      assert all[1..] == params[1..] + [f];
      var u := t.(param := t.param + [params[0]]);
      PrivateDoesNothing(tables, u, size, params[1..], f);
      assert t.param + [params[0]] + params[1..] == t.param + params;
    }
  }

  // ---- Parameters ----

  function Semicolons(parts: seq<string>): string
    requires parts != []
  {
    if |parts| == 1 then parts[0] else parts[0] + ";" + Semicolons(parts[1..])
  }

  lemma {:induction false} SplitsFirst(part: string, rest: string)
    requires ';' !in part
    ensures Split(part) == [part]
    ensures Split(part + ";" + rest) == [part] + Split(rest)
  {
    var all := part + ";" + rest;
    if part == "" {
      assert all[1..] == rest;
    } else {
      SplitsFirst(part[1..], rest);
      assert all[1..] == part[1..] + ";" + rest;
      assert [part[0]] + part[1..] == part;
    }
  }

  lemma {:induction false} SplitsParts(parts: seq<string>)
    requires parts != [] && forall i :: 0 <= i < |parts| ==> ';' !in parts[i]
    ensures Split(Semicolons(parts)) == parts
  {
    if |parts| == 1 {
      SplitsFirst(parts[0], "");
    } else {
      SplitsFirst(parts[0], Semicolons(parts[1..]));
      SplitsParts(parts[1..]);
    }
  }

  /** Digits read as their number, anything else as zero. */
  predicate ReadsAs(tables: Tables, part: string, value: nat) {
    if tables.digits(part) then tables.number(part) == Some(value) else value == 0
  }

  lemma {:induction false} ReadsEach(tables: Tables, parts: seq<string>, values: seq<nat>)
    requires |values| == |parts|
    requires forall i :: 0 <= i < |parts| ==> ReadsAs(tables, parts[i], values[i])
    ensures ReadAll(tables, parts) == Some(values)
  {
    if parts != [] {
      ReadsEach(tables, parts[1..], values[1..]);
      assert [values[0]] + values[1..] == values;
    }
  }

  /** The numbers between the semicolons are the numbers read, in order. */
  lemma ParametersReadBack(tables: Tables, parts: seq<string>, values: seq<nat>)
    requires parts != [] && Semicolons(parts) != "" && |values| == |parts|
    requires forall i :: 0 <= i < |parts| ==> ';' !in parts[i]
    requires forall i :: 0 <= i < |parts| ==> ReadsAs(tables, parts[i], values[i])
    ensures Numbers(tables, Semicolons(parts)) == Some(values)
  {
    SplitsParts(parts);
    ReadsEach(tables, parts, values);
  }
}
