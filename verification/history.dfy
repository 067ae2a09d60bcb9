/**
 The history loader: one context per readable subdirectory of the user's
 session folder, in name order, each holding the messages of its `.json`
 files in name order.
 */
module History {
  import opened Wrappers
  import opened Strings
  import opened Ordering
  import opened Seqs
  import opened Messages
  import opened Contexts
  import opened FileSystems

  /** `name.split("_")[0]`: the timestamp text a message file name starts with. */
  function TimestampKey(name: string): (r: string)
    ensures |r| <= |name| && r == name[..|r|] && '_' !in r
    ensures |r| < |name| ==> name[|r|] == '_'
  {
    PrefixBefore(name, '_')
  }

  predicate IsJson(name: string) {
    EndsWith(name, ".json")
  }

  /** The message files of a listing: the `.json` names, sorted. */
  function JsonFiles(names: seq<string>): (r: seq<string>)
    ensures Sorted(r)
    ensures forall n :: n in r <==> n in names && IsJson(n)
    ensures multiset(r) == multiset(Filter(names, IsJson))
  {
    Sort(Filter(names, IsJson))
  }

  /** `os.path.isdir(os.path.join(root, d))`, as a condition on `d`. */
  function IsSubdirectory(fs: FileSystem, root: Path): string -> bool {
    d => Join(root, d) in fs.dirs
  }

  /** The context folders: the subdirectory names of a listable root, sorted. */
  function Subdirectories(fs: FileSystem, root: Path): (r: seq<string>)
    requires root in fs.listings
    ensures Sorted(r)
    ensures forall n :: n in r <==> n in fs.listings[root] && Join(root, n) in fs.dirs
    ensures multiset(r) == multiset(Filter(fs.listings[root], IsSubdirectory(fs, root)))
  {
    Sort(Filter(fs.listings[root], IsSubdirectory(fs, root)))
  }

  /** Opening and reading the file is fine and its name starts with a number. */
  predicate Loadable(dir: Path, name: string, read: Path -> Option<Message>, parsesAsTime: string -> bool) {
    read(Join(dir, name)).Some? && parsesAsTime(TimestampKey(name))
  }

  /**
   The messages of one folder, file by file. `read` stands for opening the
   file, parsing it and building the message; `parsesAsTime` for `float` and
   then `datetime.fromtimestamp` succeeding on the name's timestamp text
   (`fromtimestamp` also rejects values `float` accepts, such as "nan" or
   "1e300"). The first file for which either fails stops
   the whole load: nothing catches the error.
   */
  function LoadMessages(dir: Path, files: seq<string>, read: Path -> Option<Message>,
                        parsesAsTime: string -> bool): (r: Result<Context, Path>)
    ensures LoadsAs(dir, files, read, parsesAsTime, r)
    ensures r.Ok? <==> forall j :: 0 <= j < |files| ==> Loadable(dir, files[j], read, parsesAsTime)
    ensures r.Ok? ==> |r.value.entries| == |files|
    ensures r.Ok? ==> forall j :: 0 <= j < |files| ==>
      r.value.entries[j].ts == TimestampKey(files[j]) && read(Join(dir, files[j])) == Some(r.value.entries[j].message)
    ensures r.Err? ==> exists j :: (0 <= j < |files| && r.error == Join(dir, files[j])
      && !Loadable(dir, files[j], read, parsesAsTime)
      && forall k :: 0 <= k < j ==> Loadable(dir, files[k], read, parsesAsTime))
    decreases |files|
  {
    if |files| == 0 then Ok(Empty())
    else LoadNextMessage(dir, files, read, parsesAsTime, LoadMessages(dir, files[..|files| - 1], read, parsesAsTime))
  }

  /** The outcome `r` of loading `files` from `dir`, as `LoadMessages` promises it. */
  predicate LoadsAs(dir: Path, files: seq<string>, read: Path -> Option<Message>, parsesAsTime: string -> bool,
                    r: Result<Context, Path>)
  {
    && (r.Ok? <==> forall j :: 0 <= j < |files| ==> Loadable(dir, files[j], read, parsesAsTime))
    && (r.Ok? ==> |r.value.entries| == |files|)
    && (r.Ok? ==> forall j :: 0 <= j < |files| ==>
      r.value.entries[j].ts == TimestampKey(files[j]) && read(Join(dir, files[j])) == Some(r.value.entries[j].message))
    && (r.Err? ==> exists j :: (0 <= j < |files| && r.error == Join(dir, files[j])
      && !Loadable(dir, files[j], read, parsesAsTime)
      && forall k :: 0 <= k < j ==> Loadable(dir, files[k], read, parsesAsTime)))
  }

  /** One more file of the loop: the outcome for all but the last file, extended by the last. */
  function LoadNextMessage(dir: Path, files: seq<string>, read: Path -> Option<Message>, parsesAsTime: string -> bool,
                           prev: Result<Context, Path>): (r: Result<Context, Path>)
    requires |files| > 0 && LoadsAs(dir, files[..|files| - 1], read, parsesAsTime, prev)
    ensures LoadsAs(dir, files, read, parsesAsTime, r)
  {
    var n := |files| - 1;
    var name := files[n];
    match prev
    case Err(e) =>
      NextAfterError(dir, files, read, parsesAsTime, e);
      Err(e)
    case Ok(c) =>
      if Loadable(dir, name, read, parsesAsTime) then
        NextLoaded(dir, files, read, parsesAsTime, c);
        Ok(AddMessage(c, TimestampKey(name), read(Join(dir, name)).value))
      else
        NextFails(dir, files, read, parsesAsTime, c);
        Err(Join(dir, name))
  }

  lemma NextAfterError(dir: Path, files: seq<string>, read: Path -> Option<Message>, parsesAsTime: string -> bool,
                       e: Path)
    requires |files| > 0 && LoadsAs(dir, files[..|files| - 1], read, parsesAsTime, Err(e))
    ensures LoadsAs(dir, files, read, parsesAsTime, Err(e))
  {
    var init := files[..|files| - 1];
    var j :| 0 <= j < |init| && e == Join(dir, init[j]) && !Loadable(dir, init[j], read, parsesAsTime)
      && forall k :: 0 <= k < j ==> Loadable(dir, init[k], read, parsesAsTime);
    assert init[j] == files[j];
    forall k | 0 <= k < j ensures Loadable(dir, files[k], read, parsesAsTime) {
      assert init[k] == files[k];
    }
  }

  lemma NextLoaded(dir: Path, files: seq<string>, read: Path -> Option<Message>, parsesAsTime: string -> bool,
                   c: Context)
    requires |files| > 0 && LoadsAs(dir, files[..|files| - 1], read, parsesAsTime, Ok(c))
    requires Loadable(dir, files[|files| - 1], read, parsesAsTime)
    ensures var name := files[|files| - 1];
      LoadsAs(dir, files, read, parsesAsTime, Ok(AddMessage(c, TimestampKey(name), read(Join(dir, name)).value)))
  {
    var n := |files| - 1;
    var init := files[..n];
    var name := files[n];
    var r := AddMessage(c, TimestampKey(name), read(Join(dir, name)).value);
    forall j | 0 <= j < |files|
      ensures Loadable(dir, files[j], read, parsesAsTime)
      ensures r.entries[j].ts == TimestampKey(files[j]) && read(Join(dir, files[j])) == Some(r.entries[j].message)
    {
      if j < n {
        assert init[j] == files[j];
        assert r.entries[j] == r.entries[..n][j] == c.entries[j];
      }
    }
  }

  lemma NextFails(dir: Path, files: seq<string>, read: Path -> Option<Message>, parsesAsTime: string -> bool,
                  c: Context)
    requires |files| > 0 && LoadsAs(dir, files[..|files| - 1], read, parsesAsTime, Ok(c))
    requires !Loadable(dir, files[|files| - 1], read, parsesAsTime)
    ensures LoadsAs(dir, files, read, parsesAsTime, Err(Join(dir, files[|files| - 1])))
  {
    var init := files[..|files| - 1];
    forall k | 0 <= k < |init| ensures Loadable(dir, files[k], read, parsesAsTime) {
      assert init[k] == files[k];
    }
  }

  /** The context of one readable folder. */
  function LoadFolder(fs: FileSystem, dir: Path, read: Path -> Option<Message>,
                      parsesAsTime: string -> bool): Result<Context, Path>
    requires dir in fs.listings
  {
    LoadMessages(dir, JsonFiles(fs.listings[dir]), read, parsesAsTime)
  }

  function IsListable(fs: FileSystem, root: Path): string -> bool {
    d => Join(root, d) in fs.listings
  }

  /** The folders whose listing succeeds; the others are skipped. */
  function Listable(fs: FileSystem, root: Path, dirs: seq<string>): seq<string> {
    Filter(dirs, IsListable(fs, root))
  }

  /** Every folder in `l` can be listed and loads without error. */
  predicate AllLoad(fs: FileSystem, root: Path, l: seq<string>, read: Path -> Option<Message>,
                    parsesAsTime: string -> bool) {
    forall k :: 0 <= k < |l| ==>
      Join(root, l[k]) in fs.listings && LoadFolder(fs, Join(root, l[k]), read, parsesAsTime).Ok?
  }

  /** `cs` holds, position by position, the contexts the folders in `l` load to. */
  predicate LoadedFrom(fs: FileSystem, root: Path, l: seq<string>, read: Path -> Option<Message>,
                       parsesAsTime: string -> bool, cs: seq<Context>) {
    |cs| == |l| && forall k :: 0 <= k < |l| ==>
      Join(root, l[k]) in fs.listings && LoadFolder(fs, Join(root, l[k]), read, parsesAsTime) == Ok(cs[k])
  }

  /** Folder k of `l` fails with `e`, and every folder before it loads. */
  predicate FailsAt(fs: FileSystem, root: Path, l: seq<string>, read: Path -> Option<Message>,
                    parsesAsTime: string -> bool, e: Path, k: nat) {
    k < |l| && AllLoad(fs, root, l[..k], read, parsesAsTime)
    && Join(root, l[k]) in fs.listings && LoadFolder(fs, Join(root, l[k]), read, parsesAsTime) == Err(e)
  }

  /** `e` is the error of the first failing folder of `l`: the exception that escapes the loop. */
  predicate FirstFailure(fs: FileSystem, root: Path, l: seq<string>, read: Path -> Option<Message>,
                         parsesAsTime: string -> bool, e: Path) {
    exists k: nat :: k < |l| && FailsAt(fs, root, l, read, parsesAsTime, e, k)
  }

  /**
   The loop over the context folders: each readable one contributes exactly
   one context, in order; an unreadable one is skipped; a failing message
   file stops everything.
   */
  function LoadContexts(fs: FileSystem, root: Path, dirs: seq<string>, read: Path -> Option<Message>,
                        parsesAsTime: string -> bool): (r: Result<seq<Context>, Path>)
    ensures r.Ok? <==> AllLoad(fs, root, Listable(fs, root, dirs), read, parsesAsTime)
    ensures r.Ok? ==> LoadedFrom(fs, root, Listable(fs, root, dirs), read, parsesAsTime, r.value)
    ensures r.Err? ==> FirstFailure(fs, root, Listable(fs, root, dirs), read, parsesAsTime, r.error)
    decreases |dirs|
  {
    if |dirs| == 0 then Ok([])
    else
      var n := |dirs| - 1;
      var prev := LoadContexts(fs, root, dirs[..n], read, parsesAsTime);
      ListableSnoc(fs, root, dirs);
      LoadNext(fs, root, Listable(fs, root, dirs[..n]), dirs[n], read, parsesAsTime, prev)
  }

  lemma ListableSnoc(fs: FileSystem, root: Path, dirs: seq<string>)
    requires |dirs| > 0
    ensures var n := |dirs| - 1;
      Listable(fs, root, dirs)
      == Listable(fs, root, dirs[..n]) + (if Join(root, dirs[n]) in fs.listings then [dirs[n]] else [])
  {
  }

  /** One more folder of the loop: the outcome so far, extended by folder `d`. */
  function LoadNext(fs: FileSystem, root: Path, l: seq<string>, d: string, read: Path -> Option<Message>,
                    parsesAsTime: string -> bool, prev: Result<seq<Context>, Path>): (r: Result<seq<Context>, Path>)
    requires prev.Ok? <==> AllLoad(fs, root, l, read, parsesAsTime)
    requires prev.Ok? ==> LoadedFrom(fs, root, l, read, parsesAsTime, prev.value)
    requires prev.Err? ==> FirstFailure(fs, root, l, read, parsesAsTime, prev.error)
    ensures var l' := if Join(root, d) in fs.listings then l + [d] else l;
      && (r.Ok? <==> AllLoad(fs, root, l', read, parsesAsTime))
      && (r.Ok? ==> LoadedFrom(fs, root, l', read, parsesAsTime, r.value))
      && (r.Err? ==> FirstFailure(fs, root, l', read, parsesAsTime, r.error))
  {
    var sub := Join(root, d);
    match prev
    case Err(e) =>
      if sub in fs.listings then
        AllLoadPrefix(fs, root, l, d, read, parsesAsTime);
        FirstFailureSnoc(fs, root, l, d, read, parsesAsTime, e);
        Err(e)
      else Err(e)
    case Ok(cs) =>
      if sub !in fs.listings then Ok(cs)
      else
        AllLoadPrefix(fs, root, l, d, read, parsesAsTime);
        match LoadFolder(fs, sub, read, parsesAsTime)
        case Err(e) =>
          FirstFailureLast(fs, root, l, d, read, parsesAsTime, e);
          Err(e)
        case Ok(c) =>
          LoadedFromExtend(fs, root, l, d, read, parsesAsTime, cs, c);
          Ok(cs + [c])
  }

  lemma AllLoadPrefix(fs: FileSystem, root: Path, l: seq<string>, d: string, read: Path -> Option<Message>,
                      parsesAsTime: string -> bool)
    ensures AllLoad(fs, root, l + [d], read, parsesAsTime) <==>
      AllLoad(fs, root, l, read, parsesAsTime) && Join(root, d) in fs.listings
      && LoadFolder(fs, Join(root, d), read, parsesAsTime).Ok?
  {
    var l' := l + [d];
    if AllLoad(fs, root, l, read, parsesAsTime) && Join(root, d) in fs.listings
      && LoadFolder(fs, Join(root, d), read, parsesAsTime).Ok?
    {
      forall k | 0 <= k < |l'|
        ensures Join(root, l'[k]) in fs.listings && LoadFolder(fs, Join(root, l'[k]), read, parsesAsTime).Ok?
      {
        if k < |l| {
          assert l'[k] == l[k];
        }
      }
    }
    if AllLoad(fs, root, l', read, parsesAsTime) {
      forall k | 0 <= k < |l|
        ensures Join(root, l[k]) in fs.listings && LoadFolder(fs, Join(root, l[k]), read, parsesAsTime).Ok?
      {
        assert l'[k] == l[k];
      }
      assert l'[|l|] == d;
    }
  }

  /** A folder after the first failing one does not change which error escapes. */
  lemma FirstFailureSnoc(fs: FileSystem, root: Path, l: seq<string>, d: string, read: Path -> Option<Message>,
                         parsesAsTime: string -> bool, e: Path)
    requires FirstFailure(fs, root, l, read, parsesAsTime, e)
    ensures FirstFailure(fs, root, l + [d], read, parsesAsTime, e)
  {
    var k: nat :| FailsAt(fs, root, l, read, parsesAsTime, e, k);
    FailsAtSnoc(fs, root, l, d, read, parsesAsTime, e, k);
  }

  lemma FailsAtSnoc(fs: FileSystem, root: Path, l: seq<string>, d: string, read: Path -> Option<Message>,
                    parsesAsTime: string -> bool, e: Path, k: nat)
    requires FailsAt(fs, root, l, read, parsesAsTime, e, k)
    ensures FailsAt(fs, root, l + [d], read, parsesAsTime, e, k)
  {
    var l' := l + [d];
    assert l'[..k] == l[..k];
    assert l'[k] == l[k];
  }

  /** When every earlier folder loads, the error of the last one is the first failure. */
  lemma FirstFailureLast(fs: FileSystem, root: Path, l: seq<string>, d: string, read: Path -> Option<Message>,
                         parsesAsTime: string -> bool, e: Path)
    requires AllLoad(fs, root, l, read, parsesAsTime)
    requires Join(root, d) in fs.listings && LoadFolder(fs, Join(root, d), read, parsesAsTime) == Err(e)
    ensures FirstFailure(fs, root, l + [d], read, parsesAsTime, e)
  {
    var l' := l + [d];
    assert l'[..|l|] == l && l'[|l|] == d;
    assert FailsAt(fs, root, l', read, parsesAsTime, e, |l|);
  }

  lemma LoadedFromExtend(fs: FileSystem, root: Path, l: seq<string>, d: string, read: Path -> Option<Message>,
                         parsesAsTime: string -> bool, cs: seq<Context>, c: Context)
    requires LoadedFrom(fs, root, l, read, parsesAsTime, cs)
    requires Join(root, d) in fs.listings && LoadFolder(fs, Join(root, d), read, parsesAsTime) == Ok(c)
    ensures LoadedFrom(fs, root, l + [d], read, parsesAsTime, cs + [c])
  {
    var l' := l + [d];
    var cs' := cs + [c];
    forall k | 0 <= k < |l'|
      ensures Join(root, l'[k]) in fs.listings && LoadFolder(fs, Join(root, l'[k]), read, parsesAsTime) == Ok(cs'[k])
    {
      if k < |l| {
        assert l'[k] == l[k] && cs'[k] == cs[k];
      }
    }
  }

  /**
   `History.__init__`: no records when the root is missing or cannot be
   listed; otherwise the contexts of its readable subdirectories in name
   order, or the error of the first message file that fails.
   */
  function Load(fs: FileSystem, root: Path, read: Path -> Option<Message>,
                parsesAsTime: string -> bool): (r: Result<seq<Context>, Path>)
    ensures !Exists(fs, root) ==> r == Ok([])
    ensures root !in fs.listings ==> r == Ok([])
    ensures Exists(fs, root) && root in fs.listings ==>
      var l := Listable(fs, root, Subdirectories(fs, root));
      && Sorted(l)
      && (forall d :: d in l <==> d in fs.listings[root] && Join(root, d) in fs.dirs && Join(root, d) in fs.listings)
      && (r.Ok? <==> AllLoad(fs, root, l, read, parsesAsTime))
      && (r.Ok? ==> LoadedFrom(fs, root, l, read, parsesAsTime, r.value))
      && (r.Err? ==> FirstFailure(fs, root, l, read, parsesAsTime, r.error))
  {
    if !Exists(fs, root) then Ok([])
    else if root !in fs.listings then Ok([])
    else
      var subs := Subdirectories(fs, root);
      FilterSorted(subs, IsListable(fs, root));
      ListableMembership(fs, root, subs);
      LoadContexts(fs, root, subs, read, parsesAsTime)
  }

  lemma ListableMembership(fs: FileSystem, root: Path, dirs: seq<string>)
    ensures forall d :: d in Listable(fs, root, dirs) <==> d in dirs && Join(root, d) in fs.listings
  {
    var l := Listable(fs, root, dirs);
    forall d ensures d in l <==> d in dirs && Join(root, d) in fs.listings {
      if d in l {
        var i :| 0 <= i < |l| && l[i] == d;
      }
      if d in dirs && Join(root, d) in fs.listings {
        var i :| 0 <= i < |dirs| && dirs[i] == d;
      }
    }
  }
}
