/**
 The file explorer panel: a browser-style navigation history over the
 filesystem (a list of visited directories and an index into it), the
 directory listing, the directories-first tree and the name a tree label
 stands for.
 */
module FileExplorer {
  import opened Wrappers
  import opened Strings
  import opened Ordering
  import opened Seqs
  import opened FileSystems

  /**
   The explorer's state: the directory shown, the directories visited and the
   position of the shown one among them.
   */
  datatype Explorer = Explorer(current: Path, history: seq<Path>, index: nat)

  /** What every reachable state satisfies: the index is in range and names the shown directory. */
  predicate Valid(e: Explorer) {
    e.index < |e.history| && e.current == e.history[e.index]
  }

  /** A navigation call: whether it reported success, and the state after it. */
  datatype Move = Move(ok: bool, explorer: Explorer)

  /** A fresh explorer: the start directory is the whole history. */
  function Init(start: Path): (r: Explorer)
    ensures Valid(r)
    ensures r.current == start && r.history == [start]
    ensures !BackEnabled(r) && !ForwardEnabled(r)
  {
    Explorer(start, [start], 0)
  }

  /**
   `change_directory`: a path that is not a directory is refused and nothing
   changes; otherwise everything after the current position is forgotten and
   the path is appended, even when it is the directory already shown.
   */
  function ChangeDirectory(fs: FileSystem, e: Explorer, p: Path): (r: Move)
    ensures r.ok <==> p in fs.dirs
    ensures !r.ok ==> r.explorer == e
    ensures r.ok ==> r.explorer.current == p && Valid(r.explorer) && !ForwardEnabled(r.explorer)
    ensures r.ok && Valid(e) ==>
      && |r.explorer.history| == e.index + 2
      && r.explorer.history[..e.index + 1] == e.history[..e.index + 1]
      && r.explorer.history[e.index + 1] == p
      && r.explorer.history == e.history[..e.index + 1] + [p]
      && r.explorer.index == e.index + 1
  {
    if p in fs.dirs then
      var kept := if e.index < |e.history| - 1 then e.history[..e.index + 1] else e.history;
      var history := kept + [p];
      Move(true, Explorer(p, history, |history| - 1))
    else
      Move(false, e)
  }

  /** `navigate_back`: one step towards the start of the history, if there is one. */
  function NavigateBack(e: Explorer): (r: Move)
    requires Valid(e)
    ensures Valid(r.explorer) && r.explorer.history == e.history
    ensures r.ok <==> e.index > 0
    ensures !r.ok ==> r.explorer == e
    ensures r.ok ==> r.explorer.index == e.index - 1 && r.explorer.current == e.history[e.index - 1]
  {
    if e.index > 0 then
      Move(true, Explorer(e.history[e.index - 1], e.history, e.index - 1))
    else
      Move(false, e)
  }

  /** `navigate_forward`: one step towards the end of the history, if there is one. */
  function NavigateForward(e: Explorer): (r: Move)
    requires Valid(e)
    ensures Valid(r.explorer) && r.explorer.history == e.history
    ensures r.ok <==> e.index < |e.history| - 1
    ensures !r.ok ==> r.explorer == e
    ensures r.ok ==> r.explorer.index == e.index + 1 && r.explorer.current == e.history[e.index + 1]
  {
    if e.index < |e.history| - 1 then
      Move(true, Explorer(e.history[e.index + 1], e.history, e.index + 1))
    else
      Move(false, e)
  }

  /**
   `navigate_parent`: refused at the root, whose parent is itself; elsewhere
   a change to the parent directory.
   */
  function NavigateParent(fs: FileSystem, e: Explorer): (r: Move)
    ensures |e.current| == 0 ==> !r.ok && r.explorer == e
    ensures |e.current| > 0 ==> r == ChangeDirectory(fs, e, e.current[..|e.current| - 1])
    ensures Valid(e) ==> Valid(r.explorer)
  {
    var parent := Parent(e.current);
    if parent != e.current then ChangeDirectory(fs, e, parent) else Move(false, e)
  }

  /**
   `navigate_home`: a change to the home directory, which the caller supplies;
   whether it succeeded is not reported.
   */
  function NavigateHome(fs: FileSystem, e: Explorer, home: Path): (r: Explorer)
    ensures home in fs.dirs ==> r.current == home && Valid(r) && !ForwardEnabled(r)
    ensures home !in fs.dirs ==> r == e
    ensures Valid(e) ==> Valid(r)
    ensures Valid(e) && home in fs.dirs ==>
      r.history == e.history[..e.index + 1] + [home] && r.index == e.index + 1
  {
    ChangeDirectory(fs, e, home).explorer
  }

  /** The back button is enabled. */
  predicate BackEnabled(e: Explorer) {
    e.index > 0
  }

  /** The forward button is enabled. */
  predicate ForwardEnabled(e: Explorer) {
    e.index < |e.history| - 1
  }

  /** Each button is enabled exactly when pressing it would move. */
  lemma ButtonsMatchNavigation(e: Explorer)
    requires Valid(e)
    ensures BackEnabled(e) <==> NavigateBack(e).ok
    ensures ForwardEnabled(e) <==> NavigateForward(e).ok
  {
  }

  /** Back and then forward returns to the same state, history included. */
  lemma BackThenForward(e: Explorer)
    requires Valid(e) && NavigateBack(e).ok
    ensures NavigateForward(NavigateBack(e).explorer) == Move(true, e)
  {
  }

  /** Forward and then back returns to the same state, history included. */
  lemma ForwardThenBack(e: Explorer)
    requires Valid(e) && NavigateForward(e).ok
    ensures NavigateBack(NavigateForward(e).explorer) == Move(true, e)
  {
  }

  /**
   After a successful change, back shows the directory shown before, at the
   same position, but the forward entries are gone for good.
   */
  lemma ChangeThenBack(fs: FileSystem, e: Explorer, p: Path)
    requires Valid(e) && p in fs.dirs
    ensures var back := NavigateBack(ChangeDirectory(fs, e, p).explorer);
      && back.ok
      && back.explorer.current == e.current && back.explorer.index == e.index
      && back.explorer.history == e.history[..e.index + 1] + [p]
  {
    var r := ChangeDirectory(fs, e, p).explorer;
    assert r.history == r.history[..e.index + 1] + [p];
  }

  /** Every operation keeps the invariant, so every reachable state satisfies it. */
  lemma NavigationKeepsValid(fs: FileSystem, e: Explorer, p: Path, home: Path, selection: Option<string>)
    requires Valid(e)
    ensures Valid(ChangeDirectory(fs, e, p).explorer)
    ensures Valid(NavigateBack(e).explorer) && Valid(NavigateForward(e).explorer)
    ensures Valid(NavigateParent(fs, e).explorer) && Valid(NavigateHome(fs, e, home))
    ensures Valid(DoubleClick(fs, e, selection))
  {
  }

  /** One row of `list_directory`: a name, its full path and whether it is a directory. */
  datatype Item = Item(name: string, path: Path, isDir: bool)

  /** The entries of `cur` that still exist when asked about; `os.path.getsize` fails on the rest. */
  function Accessible(fs: FileSystem, cur: Path): string -> bool {
    name => Exists(fs, Join(cur, name))
  }

  /** An item truthfully describes an entry of `cur`. */
  predicate Describes(fs: FileSystem, cur: Path, item: Item) {
    && item.path == Join(cur, item.name)
    && Exists(fs, item.path)
    && (item.isDir <==> item.path in fs.dirs)
  }

  function Names(items: seq<Item>): (r: seq<string>)
    ensures |r| == |items|
    ensures forall i :: 0 <= i < |items| ==> r[i] == items[i].name
  {
    Map(items, ItemName)
  }

  function ItemName(item: Item): string {
    item.name
  }

  function ItemFor(fs: FileSystem, cur: Path, name: string): (r: Item)
    ensures r.name == name && r.path == Join(cur, name)
  {
    Item(name, Join(cur, name), Join(cur, name) in fs.dirs)
  }

  /**
   `list_directory`: the names `os.listdir` gives for the shown directory,
   sorted, each once per listing entry, without those that vanish before
   they can be inspected; no rows at all when the directory cannot be listed.
   */
  function ListDirectory(fs: FileSystem, cur: Path): (r: seq<Item>)
    ensures cur !in fs.listings ==> r == []
    ensures Sorted(Names(r))
    ensures forall i :: 0 <= i < |r| ==> Describes(fs, cur, r[i])
    ensures cur in fs.listings ==>
      forall n :: n in Names(r) <==> n in fs.listings[cur] && Exists(fs, Join(cur, n))
    ensures cur in fs.listings ==> |r| <= |fs.listings[cur]|
    ensures cur in fs.listings ==> multiset(Names(r)) == multiset(Filter(fs.listings[cur], Accessible(fs, cur)))
  {
    if cur !in fs.listings then []
    else
      var names := Filter(Sort(fs.listings[cur]), Accessible(fs, cur));
      FilterSorted(Sort(fs.listings[cur]), Accessible(fs, cur));
      FilterPermutes(Sort(fs.listings[cur]), fs.listings[cur], Accessible(fs, cur));
      Rows(fs, cur, names)
  }

  /** One row per name, in order. */
  function Rows(fs: FileSystem, cur: Path, names: seq<string>): (r: seq<Item>)
    requires forall i :: 0 <= i < |names| ==> Exists(fs, Join(cur, names[i]))
    ensures Names(r) == names
    ensures forall i :: 0 <= i < |r| ==> Describes(fs, cur, r[i])
  {
    var r := seq(|names|, i requires 0 <= i < |names| => ItemFor(fs, cur, names[i]));
    assert Names(r) == names;
    r
  }

  predicate IsDirItem(item: Item) {
    item.isDir
  }

  predicate IsFileItem(item: Item) {
    !item.isDir
  }

  /** The two groups of a listing, side by side, hold exactly its elements. */
  lemma {:induction false} PartitionPermutes(items: seq<Item>)
    ensures multiset(Filter(items, IsDirItem) + Filter(items, IsFileItem)) == multiset(items)
    decreases |items|
  {
    if |items| > 0 {
      var init := items[..|items| - 1];
      var last := items[|items| - 1];
      assert items == init + [last];
      assert multiset(items) == multiset(init) + multiset{last};
      PartitionPermutes(init);
      var d := Filter(init, IsDirItem);
      var f := Filter(init, IsFileItem);
      if last.isDir {
        assert Filter(items, IsDirItem) == d + [last];
        assert Filter(items, IsFileItem) == f;
        assert multiset(d + [last] + f) == multiset(d + f) + multiset{last};
      } else {
        assert Filter(items, IsDirItem) == d;
        assert Filter(items, IsFileItem) == f + [last];
        assert multiset(d + (f + [last])) == multiset(d + f) + multiset{last};
      }
    }
  }

  /** Each group taken back out of the joined groups is the group itself. */
  lemma GroupsSeparate(dirs: seq<Item>, files: seq<Item>)
    requires forall i :: 0 <= i < |dirs| ==> IsDirItem(dirs[i])
    requires forall i :: 0 <= i < |files| ==> IsFileItem(files[i])
    ensures Filter(dirs + files, IsDirItem) == dirs
    ensures Filter(dirs + files, IsFileItem) == files
  {
    FilterAppend(dirs, files, IsDirItem);
    FilterKeepsAll(dirs, IsDirItem);
    FilterDropsAll(files, IsDirItem);
    FilterAppend(dirs, files, IsFileItem);
    FilterDropsAll(dirs, IsFileItem);
    FilterKeepsAll(files, IsFileItem);
  }

  /**
   The tree's row order: every directory, then every file, each group in
   listing order.
   */
  function TreeOrder(items: seq<Item>): (r: seq<Item>)
    ensures multiset(r) == multiset(items) && |r| == |items|
    ensures forall i, j :: 0 <= i < j < |r| && r[i].isDir == false ==> r[j].isDir == false
    ensures Filter(r, IsDirItem) == Filter(items, IsDirItem)
    ensures Filter(r, IsFileItem) == Filter(items, IsFileItem)
  {
    var dirs := Filter(items, IsDirItem);
    var files := Filter(items, IsFileItem);
    PartitionPermutes(items);
    GroupsSeparate(dirs, files);
    assert |dirs + files| == |items| by {
      assert |multiset(dirs + files)| == |multiset(items)|;
    }
    dirs + files
  }

  /** The folder icon. */
  const FolderIcon: string := "\U{1F4C1}"

  /** The file icon. */
  const FileIcon: string := "\U{1F4C4}"

  /**
   `split(" ", 1)[1]` when the label holds a space, the label itself
   otherwise: the name a tree label stands for.
   */
  function ExtractName(text: string): (r: string)
    ensures ' ' in text ==> text == PrefixBefore(text, ' ') + " " + r
    ensures ' ' !in text ==> r == text
  {
    AfterFirst(text, ' ')
  }

  /** A tree row's text: the icon of its kind, a space and the name. */
  function Label(item: Item): (r: string)
    ensures EndsWith(r, item.name)
    ensures |r| > 0 && (r[0] == FolderIcon[0] <==> item.isDir)
    ensures ExtractName(r) == item.name
  {
    var icon := if item.isDir then FolderIcon else FileIcon;
    var r := icon + " " + item.name;
    assert r[..0] == [] && r[0] != ' ' && r[1] == ' ';
    assert PrefixBefore(r, ' ') == icon by {
      assert PrefixBefore(r, ' ') == [r[0]] + PrefixBefore(r[1..], ' ');
    }
    assert r[|icon| + 1..] == item.name;
    r
  }

  /** The name each tree row stands for, as the double-click handler recovers it. */
  function RowNames(rows: seq<string>): (r: seq<string>)
    ensures |r| == |rows|
    ensures forall k :: 0 <= k < |rows| ==> r[k] == ExtractName(rows[k])
  {
    seq(|rows|, k requires 0 <= k < |rows| => ExtractName(rows[k]))
  }

  /** The label of each row, in order. */
  function Labels(rows: seq<Item>): (r: seq<string>)
    ensures |r| == |rows|
    ensures forall k :: 0 <= k < |rows| ==> r[k] == Label(rows[k])
    ensures RowNames(r) == Names(rows)
  {
    seq(|rows|, k requires 0 <= k < |rows| => Label(rows[k]))
  }

  /**
   `_populate_tree`: one row per listed item. The folder rows come first, one
   per directory, and the names the rows stand for are the directories' names
   then the files' names, each in listing order: a rearrangement of the
   listing's names.
   */
  function PopulateTree(items: seq<Item>): (r: seq<string>)
    ensures |r| == |items|
    ensures forall k :: 0 <= k < |r| ==> |r[k]| > 0
    ensures forall k :: 0 <= k < |r| ==> (r[k][0] == FolderIcon[0] <==> k < |Filter(items, IsDirItem)|)
    ensures forall i, j :: 0 <= i < j < |r| && r[j][0] == FolderIcon[0] ==> r[i][0] == FolderIcon[0]
    ensures RowNames(r) == Names(Filter(items, IsDirItem)) + Names(Filter(items, IsFileItem))
    ensures multiset(RowNames(r)) == multiset(Names(items))
  {
    var dirs := Filter(items, IsDirItem);
    var files := Filter(items, IsFileItem);
    var rows := TreeOrder(items);
    assert rows == dirs + files;
    NamesAppend(dirs, files);
    NamesPartition(items);
    Labels(rows)
  }

  lemma NamesAppend(a: seq<Item>, b: seq<Item>)
    ensures Names(a + b) == Names(a) + Names(b)
  {
    MapAppend(a, b, ItemName);
  }

  /** The names of the two groups of a listing, side by side, rearrange the listing's names. */
  lemma NamesPartition(items: seq<Item>)
    ensures multiset(Names(Filter(items, IsDirItem)) + Names(Filter(items, IsFileItem))) == multiset(Names(items))
  {
    MapPartition(items, IsDirItem, IsFileItem, ItemName);
  }

  /**
   `_on_item_double_click`: a selected row whose name, joined to the shown
   directory, is a directory is entered; anything else does nothing.
   */
  function DoubleClick(fs: FileSystem, e: Explorer, selection: Option<string>): (r: Explorer)
    ensures selection.None? ==> r == e
    ensures selection.Some? ==>
      var p := Join(e.current, ExtractName(selection.value));
      && (p in fs.dirs ==> r.current == p && Valid(r) && r == ChangeDirectory(fs, e, p).explorer)
      && (p !in fs.dirs ==> r == e)
    ensures Valid(e) ==> Valid(r)
  {
    match selection
    case None => e
    case Some(text) =>
      var p := Join(e.current, ExtractName(text));
      if p in fs.dirs then ChangeDirectory(fs, e, p).explorer else e
  }

  /**
   Double-clicking a row of the tree built from the shown directory enters
   that row's directory, and does nothing for a file.
   */
  lemma DoubleClickRow(fs: FileSystem, e: Explorer, k: nat)
    requires k < |PopulateTree(ListDirectory(fs, e.current))|
    ensures var row := TreeOrder(ListDirectory(fs, e.current))[k];
      var r := DoubleClick(fs, e, Some(PopulateTree(ListDirectory(fs, e.current))[k]));
      && (row.isDir ==> r == ChangeDirectory(fs, e, row.path).explorer && r.current == row.path)
      && (!row.isDir ==> r == e)
  {
    var items := ListDirectory(fs, e.current);
    var row := TreeOrder(items)[k];
    assert row in multiset(TreeOrder(items));
    assert row in items;
    assert Describes(fs, e.current, row);
  }
}
