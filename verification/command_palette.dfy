/**
 * The command palette: case-insensitive search over the command list,
 * grouping of the matches by category, and keyboard navigation of the
 * highlighted entry. A command's action is identified by the command
 * itself: running it is reported, not performed.
 */
module CommandPalette {
  import opened Wrappers
  import opened Strings

  /** A command; `title` is the source's `label` (a reserved word here). */
  datatype Command = Command(id: string, title: string, description: string, category: string,
                             keywords: Option<seq<string>>)

  /** `keywords?.some(kw => kw.toLowerCase().includes(q))`. */
  predicate KeywordMatches(keywords: Option<seq<string>>, q: string) {
    keywords.Some? && exists i :: 0 <= i < |keywords.value| && Contains(ToLower(keywords.value[i]), q)
  }

  /** A command matches the lower-cased query in its label, description, category or a keyword. */
  predicate Matches(c: Command, q: string): (b: bool)
    ensures q == "" ==> b
  {
    || Contains(ToLower(c.title), q)
    || Contains(ToLower(c.description), q)
    || Contains(ToLower(c.category), q)
    || KeywordMatches(c.keywords, q)
  }

  /** `commands.filter(cmd => Matches(cmd, q))`. */
  function KeepMatching(cmds: seq<Command>, q: string): (r: seq<Command>)
    ensures |r| <= |cmds|
    ensures forall c :: c in r <==> c in cmds && Matches(c, q)
    decreases |cmds|
  {
    if |cmds| == 0 then []
    else
      var rest := KeepMatching(cmds[1..], q);
      assert forall c :: c in cmds <==> c == cmds[0] || c in cmds[1..];
      if Matches(cmds[0], q) then [cmds[0]] + rest else rest
  }

  /** Filtering keeps the original order: it distributes over concatenation. */
  lemma {:induction false} KeepMatchingAppend(a: seq<Command>, b: seq<Command>, q: string)
    ensures KeepMatching(a + b, q) == KeepMatching(a, q) + KeepMatching(b, q)
    decreases |a|
  {
    if |a| == 0 {
      assert a + b == b;
    } else {
      assert (a + b)[1..] == a[1..] + b;
      KeepMatchingAppend(a[1..], b, q);
    }
  }

  /** `filteredCommands`: everything for an empty search, else the matches of its lower-cased form. */
  function FilterCommands(cmds: seq<Command>, search: string): (r: seq<Command>)
    ensures search == "" ==> r == cmds
    ensures search != "" ==> forall c :: c in r <==> c in cmds && Matches(c, ToLower(search))
    ensures |r| <= |cmds|
  {
    if search == "" then cmds else KeepMatching(cmds, ToLower(search))
  }

  /** Case does not matter: a search and its lower-cased form select the same commands. */
  lemma FilterIgnoresCase(cmds: seq<Command>, search: string)
    requires search != ""
    ensures FilterCommands(cmds, search) == FilterCommands(cmds, ToLower(search))
  {
    var l := ToLower(search);
    assert ToLower(l) == l;
    assert |l| > 0;
  }

  /** The commands of one category, in list order. */
  function InCategory(cmds: seq<Command>, k: string): (r: seq<Command>)
    ensures forall c :: c in r <==> c in cmds && c.category == k
    ensures |r| <= |cmds|
  {
    if |cmds| == 0 then []
    else
      var init := cmds[..|cmds| - 1];
      var last := cmds[|cmds| - 1];
      assert forall c :: c in cmds <==> c in init || c == last;
      InCategory(init, k) + (if last.category == k then [last] else [])
  }

  /** The position of the first command of category `k`, or `|cmds|` when there is none. */
  function FirstOf(cmds: seq<Command>, k: string): (n: nat)
    ensures n <= |cmds|
    ensures n < |cmds| ==> cmds[n].category == k
    ensures forall j :: 0 <= j < n ==> cmds[j].category != k
  {
    if |cmds| == 0 then 0
    else if cmds[0].category == k then 0
    else 1 + FirstOf(cmds[1..], k)
  }

  datatype Group = Group(category: string, commands: seq<Command>)

  /** Position of the group for category `k`, or -1. */
  function GroupIndex(groups: seq<Group>, k: string): (g: int)
    ensures -1 <= g < |groups|
    ensures g >= 0 ==> groups[g].category == k
    ensures g < 0 ==> forall j :: 0 <= j < |groups| ==> groups[j].category != k
    decreases |groups|
  {
    if |groups| == 0 then -1
    else if groups[|groups| - 1].category == k then |groups| - 1
    else GroupIndex(groups[..|groups| - 1], k)
  }

  /** `groups` is the grouping of `done`: one non-empty group per category, holding that category's commands in order. */
  ghost predicate GroupsOf(groups: seq<Group>, done: seq<Command>) {
    && (forall g :: 0 <= g < |groups| ==> groups[g].commands == InCategory(done, groups[g].category))
    && (forall g :: 0 <= g < |groups| ==> |groups[g].commands| > 0)
    && (forall g, h :: 0 <= g < h < |groups| ==> groups[g].category != groups[h].category)
    && (forall c :: c in done ==> exists g :: 0 <= g < |groups| && groups[g].category == c.category)
  }

  /** One step of the `forEach`: open the command's category group if needed, then append to it. */
  function AddToGroups(groups: seq<Group>, c: Command): (r: seq<Group>)
    ensures |groups| <= |r| <= |groups| + 1
    ensures |r| == |groups| + 1 <==> forall j :: 0 <= j < |groups| ==> groups[j].category != c.category
    ensures |r| == |groups| + 1 ==> r == groups + [Group(c.category, [c])]
    ensures |r| == |groups| ==> forall j :: 0 <= j < |groups| && groups[j].category != c.category ==> r[j] == groups[j]
  {
    var g := GroupIndex(groups, c.category);
    if g < 0 then groups + [Group(c.category, [c])]
    else groups[g := groups[g].(commands := groups[g].commands + [c])]
  }

  /** A category no command has collects nothing. */
  lemma {:induction false} InCategoryAbsent(cmds: seq<Command>, k: string)
    requires forall c :: c in cmds ==> c.category != k
    ensures InCategory(cmds, k) == []
    decreases |cmds|
  {
    if |cmds| > 0 {
      var init := cmds[..|cmds| - 1];
      assert forall c :: c in init ==> c in cmds;
      InCategoryAbsent(init, k);
      assert cmds[|cmds| - 1] in cmds;
    }
  }

  lemma InCategorySnoc(done: seq<Command>, c: Command, k: string)
    ensures InCategory(done + [c], k) == InCategory(done, k) + (if c.category == k then [c] else [])
  {
    assert (done + [c])[..|done + [c]| - 1] == done;
  }

  /** A command of a category not seen before opens a new group at the end. */
  lemma OpenGroupStep(groups: seq<Group>, done: seq<Command>, c: Command)
    requires GroupsOf(groups, done)
    requires forall g :: 0 <= g < |groups| ==> groups[g].category != c.category
    ensures GroupsOf(groups + [Group(c.category, [c])], done + [c])
  {
    var r := groups + [Group(c.category, [c])];
    var done' := done + [c];
    forall x | x in done
      ensures x.category != c.category
    {
      var h :| 0 <= h < |groups| && groups[h].category == x.category;
    }
    InCategoryAbsent(done, c.category);
    forall g | 0 <= g < |r|
      ensures r[g].commands == InCategory(done', r[g].category)
    {
      InCategorySnoc(done, c, r[g].category);
      if g < |groups| {
        assert r[g] == groups[g];
      }
    }
    forall g | 0 <= g < |r|
      ensures |r[g].commands| > 0
    {
      if g < |groups| {
        assert r[g] == groups[g];
      }
    }
    forall g, h | 0 <= g < h < |r|
      ensures r[g].category != r[h].category
    {
      assert r[g] == groups[g];
    }
    forall x | x in done'
      ensures exists h :: 0 <= h < |r| && r[h].category == x.category
    {
      if x in done {
        var h :| 0 <= h < |groups| && groups[h].category == x.category;
        assert r[h] == groups[h];
      } else {
        assert r[|groups|].category == x.category;
      }
    }
  }

  /** A command of a category already seen is appended to that category's group. */
  lemma ExtendGroupStep(groups: seq<Group>, done: seq<Command>, c: Command, g: int)
    requires GroupsOf(groups, done)
    requires 0 <= g < |groups| && groups[g].category == c.category
    ensures GroupsOf(groups[g := groups[g].(commands := groups[g].commands + [c])], done + [c])
  {
    var r := groups[g := groups[g].(commands := groups[g].commands + [c])];
    forall h | 0 <= h < |r|
      ensures r[h].commands == InCategory(done + [c], r[h].category)
    {
      InCategorySnoc(done, c, r[h].category);
    }
    forall x | x in done + [c]
      ensures exists h :: 0 <= h < |r| && r[h].category == x.category
    {
      if x in done {
        var h :| 0 <= h < |groups| && groups[h].category == x.category;
        assert r[h].category == x.category;
      } else {
        assert r[g].category == x.category;
      }
    }
  }

  /** Adding one command keeps the grouping exact. */
  lemma AddToGroupsStep(groups: seq<Group>, done: seq<Command>, c: Command)
    requires GroupsOf(groups, done)
    ensures GroupsOf(AddToGroups(groups, c), done + [c])
  {
    var g := GroupIndex(groups, c.category);
    if g < 0 {
      OpenGroupStep(groups, done, c);
    } else {
      ExtendGroupStep(groups, done, c, g);
    }
  }

  /**
   * The groups' categories all first appear in `cmds` before position `i`,
   * and the groups are listed in the order of those first appearances.
   */
  ghost predicate GroupedInOrder(groups: seq<Group>, cmds: seq<Command>, i: nat) {
    && (forall g :: 0 <= g < |groups| ==> FirstOf(cmds, groups[g].category) < i)
    && (forall g, h :: 0 <= g < h < |groups| ==> FirstOf(cmds, groups[g].category) < FirstOf(cmds, groups[h].category))
  }

  /** A category no group of `cmds[..i]` has first appears at `i` when `cmds[i]` has it. */
  lemma NewCategoryFirstAt(groups: seq<Group>, cmds: seq<Command>, i: nat)
    requires i < |cmds|
    requires GroupsOf(groups, cmds[..i])
    requires forall g :: 0 <= g < |groups| ==> groups[g].category != cmds[i].category
    ensures FirstOf(cmds, cmds[i].category) == i
  {
    forall j | 0 <= j < i
      ensures cmds[j].category != cmds[i].category
    {
      assert cmds[j] in cmds[..i];
    }
  }

  /** A new last group for a category first seen at `i` keeps the order. */
  lemma OpenGroupKeepsOrder(groups: seq<Group>, cmds: seq<Command>, i: nat, c: Command)
    requires GroupedInOrder(groups, cmds, i)
    requires FirstOf(cmds, c.category) == i
    ensures GroupedInOrder(groups + [Group(c.category, [c])], cmds, i + 1)
  {
    var r := groups + [Group(c.category, [c])];
    forall g | 0 <= g < |r|
      ensures FirstOf(cmds, r[g].category) < i + 1
    {
      if g < |groups| {
        assert r[g] == groups[g];
      }
    }
    forall g, h | 0 <= g < h < |r|
      ensures FirstOf(cmds, r[g].category) < FirstOf(cmds, r[h].category)
    {
      assert r[g] == groups[g];
      if h < |groups| {
        assert r[h] == groups[h];
      }
    }
  }

  /** Extending one group's commands changes no category, so the order is kept. */
  lemma ExtendGroupKeepsOrder(groups: seq<Group>, cmds: seq<Command>, i: nat, gi: nat, more: seq<Command>)
    requires GroupedInOrder(groups, cmds, i)
    requires gi < |groups|
    ensures GroupedInOrder(groups[gi := groups[gi].(commands := more)], cmds, i + 1)
  {
    var r := groups[gi := groups[gi].(commands := more)];
    assert forall g :: 0 <= g < |r| ==> r[g].category == groups[g].category;
  }

  /**
   * Adding `cmds[i]` keeps the groups in first-appearance order: a new
   * category first appears at `i`, after every category grouped from `cmds[..i]`.
   */
  lemma AddToGroupsKeepsOrder(groups: seq<Group>, cmds: seq<Command>, i: nat)
    requires i < |cmds|
    requires GroupsOf(groups, cmds[..i])
    requires GroupedInOrder(groups, cmds, i)
    ensures GroupedInOrder(AddToGroups(groups, cmds[i]), cmds, i + 1)
  {
    var c := cmds[i];
    var gi := GroupIndex(groups, c.category);
    if gi < 0 {
      NewCategoryFirstAt(groups, cmds, i);
      OpenGroupKeepsOrder(groups, cmds, i, c);
    } else {
      ExtendGroupKeepsOrder(groups, cmds, i, gi, groups[gi].commands + [c]);
    }
  }

  /** One iteration of the grouping loop keeps both loop invariants. */
  lemma GroupStep(groups: seq<Group>, cmds: seq<Command>, i: nat)
    requires i < |cmds|
    requires GroupsOf(groups, cmds[..i]) && GroupedInOrder(groups, cmds, i)
    ensures GroupsOf(AddToGroups(groups, cmds[i]), cmds[..i + 1])
    ensures GroupedInOrder(AddToGroups(groups, cmds[i]), cmds, i + 1)
  {
    AddToGroupsKeepsOrder(groups, cmds, i);
    AddToGroupsStep(groups, cmds[..i], cmds[i]);
    TakeSnoc(cmds, i);
  }

  /**
   * `groupedCommands`: one group per category in order of first appearance;
   * each group holds exactly that category's commands in filtered order.
   */
  method GroupCommands(cmds: seq<Command>) returns (groups: seq<Group>)
    ensures forall g :: 0 <= g < |groups| ==> groups[g].commands == InCategory(cmds, groups[g].category)
    ensures forall g :: 0 <= g < |groups| ==> |groups[g].commands| > 0
    ensures forall g, h :: 0 <= g < h < |groups| ==> groups[g].category != groups[h].category
    ensures forall c :: c in cmds ==> exists g :: 0 <= g < |groups| && groups[g].category == c.category
    ensures forall g, h :: 0 <= g < h < |groups| ==>
              FirstOf(cmds, groups[g].category) < FirstOf(cmds, groups[h].category)
  {
    groups := [];
    var i := 0;
    while i < |cmds|
      invariant 0 <= i <= |cmds|
      invariant GroupsOf(groups, cmds[..i])
      invariant GroupedInOrder(groups, cmds, i)
    {
      GroupStep(groups, cmds, i);
      groups := AddToGroups(groups, cmds[i]);
      i := i + 1;
    }
    assert cmds[..i] == cmds;
  }

  // -------------------------------------------------------------------
  // Keyboard navigation.
  // -------------------------------------------------------------------

  datatype PaletteKey = ArrowDown | ArrowUp | Enter | OtherKey

  /** The new highlighted index and the command Enter runs, if any. */
  datatype KeyResult = KeyResult(selectedIndex: int, run: Option<Command>)

  function Min(a: int, b: int): int { if a <= b then a else b }
  function Max(a: int, b: int): int { if a >= b then a else b }

  /** `handleKeyDown` over the filtered list. */
  function HandleKeyDown(filtered: seq<Command>, index: int, key: PaletteKey): (r: KeyResult)
    ensures key == ArrowDown ==> r.selectedIndex == Min(index + 1, |filtered| - 1) && r.run.None?
    ensures key == ArrowUp ==> r.selectedIndex == Max(index - 1, 0) && r.run.None?
    ensures key == Enter || key == OtherKey ==> r.selectedIndex == index
    ensures r.run.Some? <==> key == Enter && 0 <= index < |filtered|
    ensures r.run.Some? ==> r.run.value == filtered[index]
  {
    match key
    case ArrowDown => KeyResult(Min(index + 1, |filtered| - 1), None)
    case ArrowUp => KeyResult(Max(index - 1, 0), None)
    case Enter => KeyResult(index, if 0 <= index < |filtered| then Some(filtered[index]) else None)
    case OtherKey => KeyResult(index, None)
  }

  /**
   * The indices navigation can reach over a list of `n` entries: a valid
   * position, or, when nothing matches, -1 (ArrowDown) or 0.
   */
  predicate IndexInRange(i: int, n: nat) {
    if n == 0 then -1 <= i <= 0 else 0 <= i < n
  }

  /** Navigation never leaves the reachable range, and Enter runs nothing when nothing matches. */
  lemma NavigationStaysInRange(filtered: seq<Command>, index: int, key: PaletteKey)
    requires IndexInRange(index, |filtered|)
    ensures IndexInRange(HandleKeyDown(filtered, index, key).selectedIndex, |filtered|)
    ensures |filtered| == 0 ==> HandleKeyDown(filtered, index, key).run.None?
    ensures |filtered| > 0 && key == Enter ==> HandleKeyDown(filtered, index, key).run.Some?
  {
  }

  /** The palette's own state: the search text and the highlighted index. */
  datatype PaletteState = PaletteState(search: string, selectedIndex: int)

  const INITIAL_PALETTE := PaletteState("", 0)

  /** Editing the search resets the highlight to the first entry. */
  function SearchChanged(s: PaletteState, text: string): (r: PaletteState)
    ensures r.search == text && r.selectedIndex == 0
  {
    PaletteState(text, 0)
  }

  /** `handleClose`: clears the search and the highlight (and then closes the dialog). */
  function HandleClose(s: PaletteState): (r: PaletteState)
    ensures r == INITIAL_PALETTE
  {
    INITIAL_PALETTE
  }

  /** A key press in the palette: the state after it and the command run. */
  function PressKey(cmds: seq<Command>, s: PaletteState, key: PaletteKey): (r: (PaletteState, Option<Command>))
    ensures r.0.search == s.search
    ensures r.1.Some? ==> r.1.value in FilterCommands(cmds, s.search)
  {
    var k := HandleKeyDown(FilterCommands(cmds, s.search), s.selectedIndex, key);
    (s.(selectedIndex := k.selectedIndex), k.run)
  }

  /** Whatever is typed, pressed or closed, the highlight stays in the reachable range for the current matches. */
  lemma PaletteIndexInvariant(cmds: seq<Command>, s: PaletteState, key: PaletteKey, text: string)
    requires IndexInRange(s.selectedIndex, |FilterCommands(cmds, s.search)|)
    ensures var t := PressKey(cmds, s, key).0; IndexInRange(t.selectedIndex, |FilterCommands(cmds, t.search)|)
    ensures var t := SearchChanged(s, text); IndexInRange(t.selectedIndex, |FilterCommands(cmds, t.search)|)
    ensures var t := HandleClose(s); IndexInRange(t.selectedIndex, |FilterCommands(cmds, t.search)|)
  {
    NavigationStaysInRange(FilterCommands(cmds, s.search), s.selectedIndex, key);
  }

  /** With no matches, ArrowDown from the start drives the index to -1, and Enter then runs nothing. */
  lemma NoMatchesArrowDownThenEnter(filtered: seq<Command>)
    requires |filtered| == 0
    ensures HandleKeyDown(filtered, 0, ArrowDown).selectedIndex == -1
    ensures HandleKeyDown(filtered, -1, Enter).run.None?
  {
  }
}
