/**
 * `get_kua_dishes` (kantine.py:55-99): each content block of the KU canteen
 * page is split into clean lines, short blocks are skipped, a title is taken
 * from the first line, and the lines after the first `Mandag` are walked,
 * closing one day entry at every weekday name.  The page fetch and the HTML
 * query are outside the model: the blocks arrive as their text.
 */
module Kua {
  import opened Wrappers
  import opened Text
  import opened Canteen

  const NoBreakSpace: char := '\U{A0}'
  /** A line mentioning this phrase is kept even when blank (kantine.py:72). */
  const Disclaimer: string := "forbehold for \U{E6}ndringer"
  /** The line a block's week starts after. */
  const Mandag: string := "Mandag"
  /** `uge_dage`: the weekday names, matched exactly and case-sensitively. */
  const Weekdays: seq<string> := [Mandag, "Tirsdag", "Onsdag", "Torsdag", "Fredag"]
  const FolkeTitle: string := "FOLKEK\U{D8}KKEN"
  /** Blocks with fewer clean lines than this are skipped. */
  const MinLines: nat := 5

  /** `content.index(uge_dage[0])` raises `ValueError`; nothing catches it. */
  datatype KuaError = MandagNotFound

  /** What one block turns into: skipped, the raising case, or a menu. */
  datatype BlockParse = Short | NoMandag | Parsed(menu: Menu)

  predicate IsWeekday(line: string) {
    line in Weekdays
  }

  // ---------------------------------------------------------------------
  // Line cleaning (kantine.py:71-72)
  // ---------------------------------------------------------------------

  /** The filter of the list comprehension at kantine.py:72. */
  predicate Keep(piece: string) {
    Strip(piece) != "" || Contains(Lower(piece), Disclaimer)
  }

  /** The disclaimer clause never keeps a blank line: a piece is kept exactly when it is not blank. */
  lemma KeepIsNonBlank(piece: string)
    ensures Keep(piece) <==> Strip(piece) != ""
  {
    if Strip(piece) == "" && Contains(Lower(piece), Disclaimer) {
      StripBlank(piece);
      ContainsFirstChar(Lower(piece), Disclaimer);
      assert false;
    }
  }

  /** `[x.strip() for x in pieces if Keep(x)]`. */
  function KeepLines(pieces: seq<string>): (r: seq<string>)
    ensures |r| <= |pieces|
    ensures forall k :: 0 <= k < |r| ==> r[k] != "" && IsStripped(r[k])
  {
    if pieces == [] then []
    else
      KeepIsNonBlank(pieces[0]);
      if Keep(pieces[0]) then [Strip(pieces[0])] + KeepLines(pieces[1..]) else KeepLines(pieces[1..])
  }

  /** A character absent from every piece is absent from every kept line. */
  lemma {:induction false} KeepLinesAvoid(pieces: seq<string>, c: char)
    requires forall j :: 0 <= j < |pieces| ==> c !in pieces[j]
    ensures forall k :: 0 <= k < |KeepLines(pieces)| ==> c !in KeepLines(pieces)[k]
  {
    if pieces != [] {
      KeepLinesAvoid(pieces[1..], c);
    }
  }

  /** The kept lines of a line sequence are the stripped non-blank ones, in order. */
  lemma {:induction false} KeepLinesAreNonBlank(pieces: seq<string>)
    ensures KeepLines(pieces) == NonBlank(pieces)
  {
    if pieces != [] {
      KeepIsNonBlank(pieces[0]);
      KeepLinesAreNonBlank(pieces[1..]);
    }
  }

  /** Reference filter without the disclaimer clause. */
  function NonBlank(pieces: seq<string>): seq<string> {
    if pieces == [] then []
    else if Strip(pieces[0]) == "" then NonBlank(pieces[1..])
    else [Strip(pieces[0])] + NonBlank(pieces[1..])
  }

  /**
   * `content` after kantine.py:71-72: no-break spaces become spaces, the text
   * is stripped and split at line feeds, and the non-blank lines are kept, stripped.
   */
  function CleanLines(text: string): (r: seq<string>)
    ensures forall k :: 0 <= k < |r| ==> r[k] != "" && IsStripped(r[k])
    ensures forall k :: 0 <= k < |r| ==> '\n' !in r[k] && NoBreakSpace !in r[k]
  {
    var pieces := Split(Strip(ReplaceChar(text, NoBreakSpace, ' ')), '\n');
    KeepLinesAvoid(pieces, '\n');
    KeepLinesAvoid(pieces, NoBreakSpace);
    KeepLines(pieces)
  }

  // ---------------------------------------------------------------------
  // Title (kantine.py:75-79)
  // ---------------------------------------------------------------------

  predicate IsWicked(line: string) {
    StartsWithLower(line, "wicked")
  }

  predicate IsFolke(line: string) {
    StartsWithLower(line, "folke")
  }

  /**
   * The block title: a "wicked" first line is joined with the second line, a
   * "folke" first line becomes the fixed FOLKEKØKKEN, any other first line
   * stays as it is.
   */
  function Title(content: seq<string>): (r: string)
    requires |content| > 0
    requires IsWicked(content[0]) ==> |content| > 1
    ensures IsWicked(content[0]) ==> r == content[0] + " " + content[1]
    ensures IsFolke(content[0]) ==> r == FolkeTitle
    ensures !IsWicked(content[0]) && !IsFolke(content[0]) ==> r == content[0]
  {
    var title := if IsWicked(content[0]) then content[0] + " " + content[1] else content[0];
    assert IsWicked(content[0]) ==> !IsFolke(title) by {
      if IsWicked(content[0]) {
        assert title[0] == content[0][0];
      }
    }
    if IsFolke(title) then FolkeTitle else title
  }

  /** `content.index(line)`: the first position holding `line`, or None where Python raises. */
  function IndexOf(content: seq<string>, line: string): (r: Option<nat>)
    ensures r.Some? ==> r.value < |content| && content[r.value] == line
    ensures r.Some? ==> forall k :: 0 <= k < r.value ==> content[k] != line
  {
    if content == [] then None
    else if content[0] == line then Some(0)
    else match IndexOf(content[1..], line)
      case None => None
      case Some(i) => Some(i + 1)
  }

  /** `content.index(line)` raises exactly when `line` is absent. */
  lemma {:induction false} IndexOfAbsent(content: seq<string>, line: string)
    ensures IndexOf(content, line).None? <==> line !in content
  {
    if content != [] && content[0] != line {
      IndexOfAbsent(content[1..], line);
      assert content == [content[0]] + content[1..];
    }
  }

  /** A line absent from the front matter is found right after it. */
  lemma {:induction false} IndexOfFirst(front: seq<string>, line: string, rest: seq<string>)
    requires line !in front
    ensures IndexOf(front + [line] + rest, line) == Some(|front|)
  {
    if front != [] {
      assert (front + [line] + rest)[1..] == front[1..] + [line] + rest;
      IndexOfFirst(front[1..], line, rest);
    }
  }

  // ---------------------------------------------------------------------
  // Day splitting (kantine.py:84-94)
  // ---------------------------------------------------------------------

  /** A dish line with a trailing period added when it lacks one (kantine.py:91-92). */
  function Dotted(line: string): string {
    if EndsWith(line, ".") then line else line + "."
  }

  /** Every dish line ends in a period, and only a missing one is added. */
  lemma DottedEndsWithPeriod(line: string)
    ensures EndsWith(Dotted(line), ".")
    ensures Dotted(line)[..|line|] == line
    ensures |Dotted(line)| == if EndsWith(line, ".") then |line| else |line| + 1
  {
  }

  function DottedAll(lines: seq<string>): seq<string> {
    if lines == [] then [] else [Dotted(lines[0])] + DottedAll(lines[1..])
  }

  /** One day entry: the buffered dish lines joined by spaces, then stripped. */
  function Flush(dish: seq<string>): string {
    Strip(Join(dish, " "))
  }

  /** The day entries made from the closed dish buffers, in order. */
  function FlushAll(groups: seq<seq<string>>): (r: seq<string>)
    ensures |r| == |groups|
  {
    if groups == [] then [] else [Flush(groups[0])] + FlushAll(groups[1..])
  }

  lemma {:induction false} FlushAllAppend(groups: seq<seq<string>>, dish: seq<string>)
    ensures FlushAll(groups + [dish]) == FlushAll(groups) + [Flush(dish)]
  {
    if groups != [] {
      assert (groups + [dish])[1..] == groups[1..] + [dish];
      FlushAllAppend(groups[1..], dish);
    } else {
      assert groups + [dish] == [dish];
    }
  }

  /**
   * The dish buffers the loop closes, given the lines still to walk and the
   * buffer so far.  A weekday name closes the buffer; the buffer left when
   * the lines run out is dropped.
   */
  function DayGroups(rest: seq<string>, dish: seq<string>): seq<seq<string>>
    decreases |rest|
  {
    if rest == [] then []
    else if IsWeekday(rest[0]) then [dish] + DayGroups(rest[1..], [])
    else DayGroups(rest[1..], dish + [Dotted(rest[0])])
  }

  /** A weekday name at `index` closes the buffer: it becomes the next entry. */
  lemma CloseStep(lines: seq<string>, index: nat, dish: seq<string>, closed: seq<seq<string>>, groups: seq<seq<string>>)
    requires index < |lines| && IsWeekday(lines[index])
    requires closed + DayGroups(lines[index..], dish) == groups
    ensures (closed + [dish]) + DayGroups(lines[index + 1..], []) == groups
    ensures FlushAll(closed + [dish]) == FlushAll(closed) + [Flush(dish)]
  {
    assert lines[index..][1..] == lines[index + 1..];
    var after := DayGroups(lines[index + 1..], []);
    assert closed + ([dish] + after) == (closed + [dish]) + after;
    FlushAllAppend(closed, dish);
  }

  /** Any other line at `index` joins the buffer with a period. */
  lemma DishStep(lines: seq<string>, index: nat, dish: seq<string>, closed: seq<seq<string>>, groups: seq<seq<string>>)
    requires index < |lines| && !IsWeekday(lines[index])
    requires closed + DayGroups(lines[index..], dish) == groups
    ensures closed + DayGroups(lines[index + 1..], dish + [Dotted(lines[index])]) == groups
  {
    assert lines[index..][1..] == lines[index + 1..];
  }

  /** The day entries appended to `menu` when the loop walks `rest` from an empty buffer. */
  function SplitDays(rest: seq<string>): seq<string> {
    FlushAll(DayGroups(rest, []))
  }

  predicate NoWeekday(lines: seq<string>) {
    forall k :: 0 <= k < |lines| ==> !IsWeekday(lines[k])
  }

  function CountWeekdays(lines: seq<string>): nat {
    if lines == [] then 0
    else (if IsWeekday(lines[0]) then 1 else 0) + CountWeekdays(lines[1..])
  }

  /** There is one day entry per weekday name in the walked lines. */
  lemma {:induction false} DayGroupsCount(rest: seq<string>, dish: seq<string>)
    ensures |DayGroups(rest, dish)| == CountWeekdays(rest)
    decreases |rest|
  {
    if rest != [] {
      if IsWeekday(rest[0]) {
        DayGroupsCount(rest[1..], []);
      } else {
        DayGroupsCount(rest[1..], dish + [Dotted(rest[0])]);
      }
    }
  }

  predicate AllEndWithPeriod(lines: seq<string>) {
    forall k :: 0 <= k < |lines| ==> EndsWith(lines[k], ".")
  }

  /** Every buffered dish line ends with a period. */
  lemma {:induction false} DayGroupsDotted(rest: seq<string>, dish: seq<string>)
    requires AllEndWithPeriod(dish)
    ensures forall k :: 0 <= k < |DayGroups(rest, dish)| ==> AllEndWithPeriod(DayGroups(rest, dish)[k])
    decreases |rest|
  {
    if rest != [] {
      if IsWeekday(rest[0]) {
        DayGroupsDotted(rest[1..], []);
      } else {
        DottedEndsWithPeriod(rest[0]);
        DayGroupsDotted(rest[1..], dish + [Dotted(rest[0])]);
      }
    }
  }

  /** A day entry made of dish lines that end with periods ends with a period. */
  lemma FlushEndsWithPeriod(dish: seq<string>)
    requires dish != [] && AllEndWithPeriod(dish)
    ensures EndsWith(Flush(dish), ".")
  {
    var joined := Join(dish, " ");
    JoinEndsWithLast(dish, " ");
    assert joined[|joined| - 1] == '.';
    StripKeepsLast(joined);
  }

  /** Every day entry is empty or ends with a period. */
  lemma {:induction false} FlushAllEndsWithPeriod(groups: seq<seq<string>>)
    requires forall k :: 0 <= k < |groups| ==> AllEndWithPeriod(groups[k])
    ensures forall k :: 0 <= k < |FlushAll(groups)| ==> FlushAll(groups)[k] == "" || EndsWith(FlushAll(groups)[k], ".")
  {
    if groups != [] {
      FlushAllEndsWithPeriod(groups[1..]);
      if groups[0] != [] {
        FlushEndsWithPeriod(groups[0]);
      } else {
        assert Flush(groups[0]) == "";
      }
      assert forall k :: 0 < k < |groups| ==> FlushAll(groups)[k] == FlushAll(groups[1..])[k - 1];
    }
  }

  /** Every day entry the loop appends is empty or ends with a period. */
  lemma DayEntriesEndWithPeriod(rest: seq<string>)
    ensures forall k :: 0 <= k < |SplitDays(rest)| ==> SplitDays(rest)[k] == "" || EndsWith(SplitDays(rest)[k], ".")
  {
    DayGroupsDotted(rest, []);
    FlushAllEndsWithPeriod(DayGroups(rest, []));
  }

  /**
   * The buffer a weekday name closes holds exactly the lines since the
   * previous one, each with its period: no weekday name is ever part of a dish.
   */
  lemma {:induction false} DayGroupsAt(before: seq<string>, day: string, after: seq<string>, dish: seq<string>)
    requires NoWeekday(before) && IsWeekday(day)
    ensures DayGroups(before + [day] + after, dish) == [dish + DottedAll(before)] + DayGroups(after, [])
    decreases |before|
  {
    var lines := before + [day] + after;
    if before == [] {
      assert lines[0] == day && lines[1..] == after;
      assert dish + DottedAll(before) == dish;
    } else {
      assert lines[0] == before[0] && lines[1..] == before[1..] + [day] + after;
      assert NoWeekday(before[1..]);
      DayGroupsAt(before[1..], day, after, dish + [Dotted(before[0])]);
      assert dish + [Dotted(before[0])] + DottedAll(before[1..]) == dish + DottedAll(before);
    }
  }

  /** Lines after the last weekday name produce no entry: the loop has no final flush. */
  lemma {:induction false} DayGroupsDropTail(tail: seq<string>, dish: seq<string>)
    requires NoWeekday(tail)
    ensures DayGroups(tail, dish) == []
    decreases |tail|
  {
    if tail != [] {
      DayGroupsDropTail(tail[1..], dish + [Dotted(tail[0])]);
    }
  }

  /** Flushing four buffers gives their four entries, in order. */
  lemma FlushAllFour(groups: seq<seq<string>>)
    requires |groups| == 4
    ensures FlushAll(groups) == [Flush(groups[0]), Flush(groups[1]), Flush(groups[2]), Flush(groups[3])]
  {
    var f0, f1, f2, f3 := Flush(groups[0]), Flush(groups[1]), Flush(groups[2]), Flush(groups[3]);
    assert FlushAll(groups[3..]) == [f3];
    assert FlushAll(groups[2..]) == [f2] + [f3];
    assert FlushAll(groups[1..]) == [f1] + ([f2] + [f3]);
    assert FlushAll(groups) == [f0] + ([f1] + ([f2] + [f3]));
    Four(f0, f1, f2, f3);
  }

  /** Four singletons appended are the four-element sequence. */
  lemma Four<T>(a: T, b: T, c: T, d: T)
    ensures [a] + ([b] + ([c] + [d])) == [a, b, c, d]
  {
  }

  /**
   * The weekday stream after `Mandag` of a full week, each name followed by
   * its dish lines: Monday to Thursday come out, Friday's dishes are dropped.
   */
  lemma {:induction false} FullWeekGroups(mon: seq<string>, tue: seq<string>, wed: seq<string>, thu: seq<string>, fri: seq<string>)
    requires NoWeekday(mon) && NoWeekday(tue) && NoWeekday(wed) && NoWeekday(thu) && NoWeekday(fri)
    ensures DayGroups(mon + ["Tirsdag"] + tue + ["Onsdag"] + wed + ["Torsdag"] + thu + ["Fredag"] + fri, [])
         == [DottedAll(mon), DottedAll(tue), DottedAll(wed), DottedAll(thu)]
  {
    var s4 := thu + ["Fredag"] + fri;
    var s3 := wed + ["Torsdag"] + s4;
    var s2 := tue + ["Onsdag"] + s3;
    var s1 := mon + ["Tirsdag"] + s2;
    assert s1 == mon + ["Tirsdag"] + tue + ["Onsdag"] + wed + ["Torsdag"] + thu + ["Fredag"] + fri;
    assert IsWeekday("Tirsdag") && IsWeekday("Onsdag") && IsWeekday("Torsdag") && IsWeekday("Fredag");
    DayGroupsAt(mon, "Tirsdag", s2, []);
    DayGroupsAt(tue, "Onsdag", s3, []);
    DayGroupsAt(wed, "Torsdag", s4, []);
    DayGroupsAt(thu, "Fredag", fri, []);
    DayGroupsDropTail(fri, []);
    assert [] + DottedAll(mon) == DottedAll(mon);
    assert [] + DottedAll(tue) == DottedAll(tue);
    assert [] + DottedAll(wed) == DottedAll(wed);
    assert [] + DottedAll(thu) == DottedAll(thu);
  }

  // ---------------------------------------------------------------------
  // One block, and the whole page (kantine.py:70-99)
  // ---------------------------------------------------------------------

  /** What kantine.py:73-97 makes of one block's clean lines. */
  function ParseContent(content: seq<string>): BlockParse {
    if |content| < MinLines then Short
    else match IndexOf(content, Mandag)
      case None => NoMandag
      case Some(i) => Parsed(Menu(Title(content), SplitDays(content[i + 1..])))
  }

  /** A long block whose first `Mandag` is at `i` is titled and split from `i + 1`. */
  lemma ParseFound(content: seq<string>, i: nat)
    requires |content| >= MinLines && IndexOf(content, Mandag) == Some(i)
    ensures ParseContent(content) == Parsed(Menu(Title(content), SplitDays(content[i + 1..])))
  {
  }

  /** What kantine.py:71-97 makes of one block's text. */
  function ParseBlockSpec(text: string): BlockParse {
    ParseContent(CleanLines(text))
  }

  /** The in-place fix of kantine.py:91-92: the line at `index` gets a period unless it has one. */
  method AddPeriod(content: seq<string>, index: nat) returns (r: seq<string>)
    requires index < |content|
    ensures |r| == |content| && r[index] == Dotted(content[index])
    ensures r[..index] == content[..index] && r[index + 1..] == content[index + 1..]
  {
    r := content;
    if !EndsWith(content[index], ".") {
      r := content[index := content[index] + "."];
    }
  }

  /**
   * The `while` loop of kantine.py:84-94: walk the lines from `start`,
   * closing a day entry at each weekday name and adding periods to dish lines.
   */
  method WalkDays(lines: seq<string>, start: nat) returns (menu: seq<string>)
    requires start <= |lines|
    ensures menu == SplitDays(lines[start..])
  {
    var content, index := lines, start;
    var dish: seq<string> := [];
    ghost var closed: seq<seq<string>> := [];
    ghost var groups := DayGroups(lines[start..], []);
    menu := [];
    while index < |content|
      invariant start <= index <= |content| == |lines|
      invariant content[index..] == lines[index..]
      invariant closed + DayGroups(lines[index..], dish) == groups
      invariant menu == FlushAll(closed)
    {
      assert content[index] == content[index..][0];
      if IsWeekday(content[index]) {
        CloseStep(lines, index, dish, closed, groups);
        index := index + 1;
        menu := menu + [Flush(dish)];
        closed := closed + [dish];
        dish := [];
        continue;
      }
      DishStep(lines, index, dish, closed, groups);
      content := AddPeriod(content, index);
      dish := dish + [content[index]];
      index := index + 1;
    }
    assert closed == groups;
  }

  /** The body of the `for block in content_blocks` loop (kantine.py:71-97). */
  method ParseBlock(text: string) returns (r: BlockParse)
    ensures r == ParseBlockSpec(text)
  {
    var content := CleanLines(text);
    r := ParseLines(content);
  }

  /** kantine.py:73-97: one block's clean lines to its outcome. */
  method ParseLines(content: seq<string>) returns (r: BlockParse)
    ensures r == ParseContent(content)
  {
    if |content| < MinLines {
      return Short;
    }
    var title := Title(content);
    var mandag := IndexOf(content, Mandag);
    if mandag.None? {
      return NoMandag;
    }
    var menu := WalkDays(content, mandag.value + 1);
    ParseFound(content, mandag.value);
    return Parsed(Menu(title, menu));
  }

  /** The outcome of every block, in page order. */
  function Parses(blocks: seq<string>): (r: seq<BlockParse>)
    ensures |r| == |blocks|
  {
    seq(|blocks|, j requires 0 <= j < |blocks| => ParseBlockSpec(blocks[j]))
  }

  /**
   * The result of `get_kua_dishes` after the given block outcomes, block by
   * block as the loop runs: the first block without `Mandag` makes the whole call raise.
   */
  function Gather(parses: seq<BlockParse>): Result<seq<Menu>, KuaError> {
    if parses == [] then Success([])
    else match Gather(parses[..|parses| - 1])
      case Failure(e) => Failure(e)
      case Success(menus) =>
        match parses[|parses| - 1]
        case Short => Success(menus)
        case NoMandag => Failure(MandagNotFound)
        case Parsed(m) => Success(menus + [m])
  }

  /** The result of `get_kua_dishes` over the block texts. */
  function KuaMenus(blocks: seq<string>): Result<seq<Menu>, KuaError> {
    Gather(Parses(blocks))
  }

  /** No block outcome is the raising one. */
  predicate AllHaveMandag(parses: seq<BlockParse>) {
    forall j :: 0 <= j < |parses| ==> !parses[j].NoMandag?
  }

  /** The menus of the parsed blocks, in block order; short blocks contribute nothing. */
  function Collect(parses: seq<BlockParse>): seq<Menu> {
    if parses == [] then []
    else match parses[0]
      case Parsed(m) => [m] + Collect(parses[1..])
      case _ => Collect(parses[1..])
  }

  lemma {:induction false} CollectAppend(parses: seq<BlockParse>, last: BlockParse)
    ensures Collect(parses + [last]) == Collect(parses) + Collect([last])
  {
    if parses != [] {
      assert (parses + [last])[1..] == parses[1..] + [last];
      CollectAppend(parses[1..], last);
    } else {
      assert parses + [last] == [last];
    }
  }

  /**
   * `get_kua_dishes` succeeds exactly when no long block lacks `Mandag`, and
   * then returns one menu per long block, in block order.
   */
  lemma {:induction false} GatherCollect(parses: seq<BlockParse>)
    ensures Gather(parses) == if AllHaveMandag(parses) then Success(Collect(parses)) else Failure(MandagNotFound)
    decreases |parses|
  {
    if parses != [] {
      var init, last := parses[..|parses| - 1], parses[|parses| - 1];
      assert parses == init + [last];
      assert parses[..|parses| - 1] == init;
      GatherCollect(init);
      CollectAppend(init, last);
      if !AllHaveMandag(init) {
        var j :| 0 <= j < |init| && init[j].NoMandag?;
        assert parses[j] == init[j];
      }
      assert AllHaveMandag(parses) <==> AllHaveMandag(init) && !last.NoMandag? by {
        if AllHaveMandag(parses) {
          forall j | 0 <= j < |init| ensures !init[j].NoMandag? {
            assert parses[j] == init[j];
          }
        }
      }
      assert [last][1..] == [];
      if AllHaveMandag(init) {
        match last
        case Short =>
          assert Collect([last]) == [];
          assert Collect(parses) == Collect(init);
        case NoMandag =>
        case Parsed(m) =>
          assert Collect([last]) == [m];
          assert Collect(parses) == Collect(init) + [m];
      }
    }
  }

  /** The number of outcomes that are not skipped short blocks. */
  function CountLong(parses: seq<BlockParse>): nat {
    if parses == [] then 0
    else (if parses[0].Short? then 0 else 1) + CountLong(parses[1..])
  }

  /** When the call succeeds, every long block contributes exactly one menu. */
  lemma {:induction false} CollectCount(parses: seq<BlockParse>)
    requires AllHaveMandag(parses)
    ensures |Collect(parses)| == CountLong(parses)
  {
    if parses != [] {
      assert AllHaveMandag(parses[1..]) by {
        forall j | 0 <= j < |parses| - 1 ensures !parses[1..][j].NoMandag? {
          assert parses[1..][j] == parses[j + 1];
        }
      }
      assert !parses[0].NoMandag?;
      CollectCount(parses[1..]);
    }
  }

  /** A block is long exactly when its clean lines number at least `MinLines`. */
  lemma ShortIffFewLines(text: string)
    ensures ParseBlockSpec(text).Short? <==> |CleanLines(text)| < MinLines
  {
  }

  /** The menu of a parsed block is among the menus collected. */
  lemma {:induction false} CollectContains(parses: seq<BlockParse>, j: nat)
    requires j < |parses| && parses[j].Parsed?
    ensures parses[j].menu in Collect(parses)
  {
    if j > 0 {
      assert parses[1..][j - 1] == parses[j];
      CollectContains(parses[1..], j - 1);
    }
  }

  /** `get_kua_dishes` over the block texts. */
  method GetKuaDishes(blocks: seq<string>) returns (r: Result<seq<Menu>, KuaError>)
    ensures r == KuaMenus(blocks)
  {
    ghost var parses := Parses(blocks);
    var menus: seq<Menu> := [];
    for i := 0 to |blocks|
      invariant Gather(parses[..i]) == Success(menus)
    {
      assert parses[..i + 1][..i] == parses[..i];
      var parsed := ParseBlock(blocks[i]);
      assert parsed == parses[i];
      match parsed
      case Short =>
      case NoMandag =>
        GatherCollect(parses);
        return Failure(MandagNotFound);
      case Parsed(m) =>
        menus := menus + [m];
    }
    assert parses[..|blocks|] == parses;
    return Success(menus);
  }

  /** A long block raises exactly when it has no `Mandag` line. */
  lemma MandagRequired(content: seq<string>)
    requires |content| >= MinLines
    ensures ParseContent(content).NoMandag? <==> Mandag !in content
  {
    IndexOfAbsent(content, Mandag);
  }

  /** A long block has one day entry per weekday name after its first `Mandag`. */
  lemma ParsedDayCount(front: seq<string>, rest: seq<string>)
    requires Mandag !in front && |front| + 1 + |rest| >= MinLines
    ensures ParseContent(front + [Mandag] + rest).Parsed?
    ensures |ParseContent(front + [Mandag] + rest).menu.days| == CountWeekdays(rest)
  {
    ParseAfterMandag(front, rest);
    DayGroupsCount(rest, []);
  }

  /** A long block is parsed from the line after its first `Mandag`. */
  lemma ParseAfterMandag(front: seq<string>, rest: seq<string>)
    requires Mandag !in front && |front| + 1 + |rest| >= MinLines
    ensures ParseContent(front + [Mandag] + rest)
         == Parsed(Menu(Title(front + [Mandag] + rest), SplitDays(rest)))
  {
    var content := front + [Mandag] + rest;
    IndexOfFirst(front, Mandag, rest);
    assert content[|front| + 1..] == rest;
  }

  /** The entries of a full week after `Mandag`: Monday to Thursday, each its dishes with periods. */
  lemma FullWeekDays(mon: seq<string>, tue: seq<string>, wed: seq<string>, thu: seq<string>, fri: seq<string>)
    requires NoWeekday(mon) && NoWeekday(tue) && NoWeekday(wed) && NoWeekday(thu) && NoWeekday(fri)
    ensures SplitDays(mon + ["Tirsdag"] + tue + ["Onsdag"] + wed + ["Torsdag"] + thu + ["Fredag"] + fri)
         == [Flush(DottedAll(mon)), Flush(DottedAll(tue)), Flush(DottedAll(wed)), Flush(DottedAll(thu))]
  {
    FullWeekGroups(mon, tue, wed, thu, fri);
    FlushAllFour([DottedAll(mon), DottedAll(tue), DottedAll(wed), DottedAll(thu)]);
  }

  /**
   * A block whose clean lines are some front matter, then `Mandag`..`Fredag`
   * each followed by dish lines, parses to four day entries, Monday to
   * Thursday: Friday's dishes are lost.
   */
  lemma FullWeekBlock(front: seq<string>, mon: seq<string>, tue: seq<string>,
                      wed: seq<string>, thu: seq<string>, fri: seq<string>)
    requires Mandag !in front
    requires NoWeekday(mon) && NoWeekday(tue) && NoWeekday(wed) && NoWeekday(thu) && NoWeekday(fri)
    ensures var content := front + [Mandag] + mon + ["Tirsdag"] + tue + ["Onsdag"] + wed + ["Torsdag"] + thu + ["Fredag"] + fri;
      && ParseContent(content).Parsed?
      && ParseContent(content).menu.days
         == [Flush(DottedAll(mon)), Flush(DottedAll(tue)), Flush(DottedAll(wed)), Flush(DottedAll(thu))]
  {
    var rest := mon + ["Tirsdag"] + tue + ["Onsdag"] + wed + ["Torsdag"] + thu + ["Fredag"] + fri;
    assert front + [Mandag] + mon + ["Tirsdag"] + tue + ["Onsdag"] + wed + ["Torsdag"] + thu + ["Fredag"] + fri
        == front + [Mandag] + rest;
    ParseAfterMandag(front, rest);
    FullWeekDays(mon, tue, wed, thu, fri);
  }
}
