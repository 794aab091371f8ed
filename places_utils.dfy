/**
 * The bookmark-import and sync logic of the places command-line utility:
 * converting a desktop bookmark backup into a bookmark tree, importing the
 * root's folders one by one, and the `sync` command's engine selection,
 * wipe/reset pass and global-state write-back.
 *
 * Database calls (`insert_tree`, the wipe and reset of each engine store,
 * reading and writing the `moz_meta` row) and `sync_multiple` are parameters
 * that report an error or success; logging and file I/O are not modelled.
 */
module PlacesUtils {
  import opened Wrappers

  // ---------------------------------------------------------------------------
  // Desktop backups and bookmark trees

  type Guid = string

  /** One item of a desktop backup; fields absent from the JSON take their defaults. */
  datatype DesktopItem = DesktopItem(
    typeCode: u8,
    guid: Option<Guid>,
    dateAdded: Option<nat>,
    lastModified: Option<nat>,
    title: Option<string>,
    uri: Option<string>,
    children: seq<DesktopItem>)

  datatype BookmarkType = Bookmark | Folder | Separator

  /** A bookmark tree node; timestamps are in milliseconds. */
  datatype BookmarkTreeNode =
    | BookmarkNode(guid: Option<Guid>, dateAdded: Option<nat>, lastModified: Option<nat>, title: Option<string>, url: string)
    | SeparatorNode(guid: Option<Guid>, dateAdded: Option<nat>, lastModified: Option<nat>)
    | FolderNode(guid: Option<Guid>, dateAdded: Option<nat>, lastModified: Option<nat>, title: Option<string>,
                 children: seq<BookmarkTreeNode>)

  /** A desktop timestamp (microseconds) as a places timestamp (milliseconds); a missing one stays missing. */
  function ToTimestamp(v: Option<nat>): (r: Option<nat>)
    ensures r.Some? <==> v.Some?
    ensures r.Some? ==> r.value * 1000 <= v.value < r.value * 1000 + 1000
  {
    match v
    case Some(micros) => Some(micros / 1000)
    case None => None
  }

  /**
   * `convert_node`. `classify` is `BookmarkType::from_u8_with_valid_url`, given
   * the item's type code and whether it has a URI. A bookmark without a URI is
   * dropped; separators and folders always convert; guid, title and URI are
   * carried over, timestamps are converted, and a folder's children are
   * converted in order with the dropped ones left out.
   */
  function ConvertNode(classify: (u8, bool) -> BookmarkType, dm: DesktopItem): (r: Option<BookmarkTreeNode>)
    decreases dm, 1
    ensures r.None? <==> classify(dm.typeCode, dm.uri.Some?) == Bookmark && dm.uri.None?
    ensures r.Some? ==> r.value.guid == dm.guid
    ensures r.Some? ==> r.value.dateAdded == ToTimestamp(dm.dateAdded) && r.value.lastModified == ToTimestamp(dm.lastModified)
    ensures r.Some? && classify(dm.typeCode, dm.uri.Some?) == Bookmark ==>
      r.value.BookmarkNode? && r.value.title == dm.title && r.value.url == dm.uri.value
    ensures r.Some? && classify(dm.typeCode, dm.uri.Some?) == Separator ==> r.value.SeparatorNode?
    ensures r.Some? && classify(dm.typeCode, dm.uri.Some?) == Folder ==>
      r.value.FolderNode? && r.value.title == dm.title && r.value.children == ConvertChildren(classify, dm.children)
  {
    var dateAdded := ToTimestamp(dm.dateAdded);
    var lastModified := ToTimestamp(dm.lastModified);
    match classify(dm.typeCode, dm.uri.Some?)
    case Bookmark =>
      (match dm.uri
       case None => None
       case Some(url) => Some(BookmarkNode(dm.guid, dateAdded, lastModified, dm.title, url)))
    case Separator => Some(SeparatorNode(dm.guid, dateAdded, lastModified))
    case Folder => Some(FolderNode(dm.guid, dateAdded, lastModified, dm.title, ConvertChildren(classify, dm.children)))
  }

  /** `filter_map(convert_node)` over a list of children. */
  function ConvertChildren(classify: (u8, bool) -> BookmarkType, items: seq<DesktopItem>): (r: seq<BookmarkTreeNode>)
    decreases items, 0
    ensures |r| <= |items|
  {
    if |items| == 0 then []
    else
      var rest := ConvertChildren(classify, items[1..]);
      match ConvertNode(classify, items[0])
      case None => rest
      case Some(node) => [node] + rest
  }

  /** A single child converts to its own conversion, or to nothing. */
  lemma ConvertChildrenSingle(classify: (u8, bool) -> BookmarkType, item: DesktopItem)
    ensures ConvertChildren(classify, [item]) ==
      if ConvertNode(classify, item).Some? then [ConvertNode(classify, item).value] else []
  {
    assert [item][1..] == [];
  }

  /** Converting children distributes over concatenation: the order of the survivors is kept. */
  lemma {:induction false} ConvertChildrenAppend(classify: (u8, bool) -> BookmarkType, a: seq<DesktopItem>, b: seq<DesktopItem>)
    ensures ConvertChildren(classify, a + b) == ConvertChildren(classify, a) + ConvertChildren(classify, b)
    decreases |a|
  {
    if |a| == 0 {
      assert a + b == b;
    } else {
      assert (a + b)[0] == a[0];
      assert (a + b)[1..] == a[1..] + b;
      ConvertChildrenAppend(classify, a[1..], b);
    }
  }

  /** The number of items in a desktop tree. */
  function ItemCount(dm: DesktopItem): nat
    decreases dm, 1
  {
    1 + ItemsCount(dm.children)
  }

  function ItemsCount(items: seq<DesktopItem>): nat
    decreases items, 0
  {
    if |items| == 0 then 0 else ItemCount(items[0]) + ItemsCount(items[1..])
  }

  /** The number of nodes in a bookmark tree. */
  function NodeCount(node: BookmarkTreeNode): nat
    decreases node, 1
  {
    1 + (if node.FolderNode? then NodesCount(node.children) else 0)
  }

  function NodesCount(nodes: seq<BookmarkTreeNode>): nat
    decreases nodes, 0
  {
    if |nodes| == 0 then 0 else NodeCount(nodes[0]) + NodesCount(nodes[1..])
  }

  /** Conversion never adds nodes: the converted tree is at most as large as the backup. */
  lemma {:induction false} ConvertNodeShrinks(classify: (u8, bool) -> BookmarkType, dm: DesktopItem)
    ensures ConvertNode(classify, dm).Some? ==> NodeCount(ConvertNode(classify, dm).value) <= ItemCount(dm)
    decreases dm, 1
  {
    if ConvertNode(classify, dm).Some? && classify(dm.typeCode, dm.uri.Some?) == Folder {
      ConvertChildrenShrink(classify, dm.children);
    }
  }

  lemma {:induction false} ConvertChildrenShrink(classify: (u8, bool) -> BookmarkType, items: seq<DesktopItem>)
    ensures NodesCount(ConvertChildren(classify, items)) <= ItemsCount(items)
    decreases items, 0
  {
    if |items| > 0 {
      ConvertNodeShrinks(classify, items[0]);
      ConvertChildrenShrink(classify, items[1..]);
      var rest := ConvertChildren(classify, items[1..]);
      match ConvertNode(classify, items[0]) {
        case None =>
        case Some(node) =>
          assert ([node] + rest)[0] == node;
          assert ([node] + rest)[1..] == rest;
      }
    }
  }

  // ---------------------------------------------------------------------------
  // Import

  /** The guid of the bookmark tree's root folder (`BookmarkRootGuid::Root`). */
  const ROOT_GUID: Guid := "root________"

  /** The folders among a list of nodes, in order. */
  function Folders(nodes: seq<BookmarkTreeNode>): (r: seq<BookmarkTreeNode>)
    ensures |r| <= |nodes|
    ensures forall i :: 0 <= i < |r| ==> r[i].FolderNode?
  {
    if |nodes| == 0 then []
    else if nodes[0].FolderNode? then [nodes[0]] + Folders(nodes[1..])
    else Folders(nodes[1..])
  }

  /** Every selected folder is one of the nodes, and a list of folders only is kept whole. */
  lemma {:induction false} FoldersOfNodes(nodes: seq<BookmarkTreeNode>)
    ensures forall x :: x in Folders(nodes) ==> x in nodes
    ensures (forall i :: 0 <= i < |nodes| ==> nodes[i].FolderNode?) ==> Folders(nodes) == nodes
    decreases |nodes|
  {
    if |nodes| > 0 {
      FoldersOfNodes(nodes[1..]);
      assert nodes == [nodes[0]] + nodes[1..];
    }
  }

  /** Selecting folders distributes over concatenation. */
  lemma {:induction false} FoldersAppend(a: seq<BookmarkTreeNode>, b: seq<BookmarkTreeNode>)
    ensures Folders(a + b) == Folders(a) + Folders(b)
    decreases |a|
  {
    if |a| == 0 {
      assert a + b == b;
    } else {
      assert (a + b)[0] == a[0];
      assert (a + b)[1..] == a[1..] + b;
      FoldersAppend(a[1..], b);
    }
  }

  /**
   * The sub-trees `do_import` inserts: the folder children of the root folder,
   * in order; nothing when the tree is not a folder or its guid is not the
   * root's.
   */
  function ImportTargets(root: BookmarkTreeNode): (r: seq<BookmarkTreeNode>)
    ensures !(root.FolderNode? && root.guid == Some(ROOT_GUID)) ==> r == []
    ensures root.FolderNode? && root.guid == Some(ROOT_GUID) ==> r == Folders(root.children)
  {
    if root.FolderNode? && root.guid == Some(ROOT_GUID) then Folders(root.children) else []
  }

  /** The index of the first element whose operation fails, or the length when none does. */
  function FirstFailure<T, E>(xs: seq<T>, fails: T -> Option<E>): (k: nat)
    ensures k <= |xs|
  {
    if |xs| == 0 then 0
    else if fails(xs[0]).Some? then 0
    else 1 + FirstFailure(xs[1..], fails)
  }

  /** Everything before `FirstFailure` succeeds, and the element at it, if any, fails. */
  lemma {:induction false} FirstFailureIsFirst<T, E>(xs: seq<T>, fails: T -> Option<E>)
    ensures forall i :: 0 <= i < FirstFailure(xs, fails) ==> fails(xs[i]).None?
    ensures FirstFailure(xs, fails) < |xs| ==> fails(xs[FirstFailure(xs, fails)]).Some?
    decreases |xs|
  {
    if |xs| > 0 && fails(xs[0]).None? {
      FirstFailureIsFirst(xs[1..], fails);
      forall i | 0 < i < FirstFailure(xs, fails) ensures fails(xs[i]).None? {
        assert xs[i] == xs[1..][i - 1];
      }
    }
  }

  /** The places database, as far as the utility's writes to it go. */
  class PlacesDb {
    /** The sub-trees inserted so far, in order. */
    var inserted: seq<BookmarkTreeNode>
    /** The `history_global_state` row of `moz_meta`. */
    var globalState: Option<string>
    /** The wipes and resets performed so far, in order. */
    var actions: seq<StoreAction>

    constructor (globalState: Option<string>)
      ensures inserted == [] && actions == [] && this.globalState == globalState
    {
      inserted := [];
      actions := [];
      this.globalState := globalState;
    }

    /**
     * `do_import`: insert each import target in order, stopping at the first
     * `insert_tree` failure and returning its error; `insertError` says which
     * sub-trees fail to insert.
     */
    method DoImport<E>(root: BookmarkTreeNode, insertError: BookmarkTreeNode -> Option<E>) returns (r: Result<(), E>)
      modifies this`inserted
      ensures var targets := ImportTargets(root);
        var k := FirstFailure(targets, insertError);
        && inserted == old(inserted) + targets[..k]
        && (k < |targets| ==> r.Err? && insertError(targets[k]) == Some(r.error))
        && (k == |targets| ==> r == Ok(()))
    {
      if !root.FolderNode? {
        return Ok(());
      }
      var isRoot := match root.guid case Some(guid) => guid == ROOT_GUID case None => false;
      if !isRoot {
        return Ok(());
      }
      var children := root.children;
      assert children[..0] == [];
      var i := 0;
      while i < |children|
        invariant 0 <= i <= |children|
        invariant FirstFailure(Folders(children[..i]), insertError) == |Folders(children[..i])|
        invariant inserted == old(inserted) + Folders(children[..i])
      {
        var node := children[i];
        if node.FolderNode? {
          match insertError(node) {
            case Some(e) =>
              ImportStopsAt(children, i, insertError);
              return Err(e);
            case None =>
          }
          inserted := inserted + [node];
        }
        ImportContinues(children, i, insertError);
        i := i + 1;
      }
      assert children[..i] == children;
      r := Ok(());
    }
  }

  /** A folder child whose insertion fails, after a run of successes, is where the import stops. */
  lemma ImportStopsAt<E>(children: seq<BookmarkTreeNode>, i: nat, insertError: BookmarkTreeNode -> Option<E>)
    requires i < |children| && children[i].FolderNode? && insertError(children[i]).Some?
    requires FirstFailure(Folders(children[..i]), insertError) == |Folders(children[..i])|
    ensures var targets := Folders(children);
      var k := FirstFailure(targets, insertError);
      && k < |targets|
      && targets[..k] == Folders(children[..i])
      && targets[k] == children[i]
  {
    FoldersStep(children, i);
    FoldersAppend(children[..i], children[i..]);
    assert children[..i] + children[i..] == children;
    assert FirstFailure([children[i]], insertError) == 0;
    FailureInside(Folders(children[..i]), [children[i]], Folders(children[i + 1..]), insertError);
  }

  /** A child that is not a folder, or a folder inserted without failure, extends the run of successes. */
  lemma ImportContinues<E>(children: seq<BookmarkTreeNode>, i: nat, insertError: BookmarkTreeNode -> Option<E>)
    requires i < |children| && (children[i].FolderNode? ==> insertError(children[i]).None?)
    requires FirstFailure(Folders(children[..i]), insertError) == |Folders(children[..i])|
    ensures Folders(children[..i + 1]) ==
      Folders(children[..i]) + (if children[i].FolderNode? then [children[i]] else [])
    ensures FirstFailure(Folders(children[..i + 1]), insertError) == |Folders(children[..i + 1])|
  {
    FoldersStep(children, i);
    if children[i].FolderNode? {
      assert [children[i]][1..] == [];
      assert FirstFailure([children[i]], insertError) == 1;
      FirstFailureAppend(Folders(children[..i]), [children[i]], insertError);
    } else {
      assert Folders(children[..i]) + [] == Folders(children[..i]);
    }
  }

  /** One more child moves from the unvisited part of `Folders` to the visited part. */
  lemma FoldersStep(children: seq<BookmarkTreeNode>, i: nat)
    requires i < |children|
    ensures children[i].FolderNode? ==> Folders(children[..i + 1]) == Folders(children[..i]) + [children[i]]
    ensures children[i].FolderNode? ==> Folders(children[i..]) == [children[i]] + Folders(children[i + 1..])
    ensures !children[i].FolderNode? ==> Folders(children[..i + 1]) == Folders(children[..i])
  {
    FoldersAppend(children[..i], [children[i]]);
    assert children[..i + 1] == children[..i] + [children[i]];
    assert [children[i]][1..] == [];
    assert Folders(children[..i]) + [] == Folders(children[..i]);
    assert children[i..][0] == children[i] && children[i..][1..] == children[i + 1..];
  }

  /** `FirstFailure` is the first failing index. */
  lemma {:induction false} FirstFailureAt<T, E>(xs: seq<T>, fails: T -> Option<E>, k: nat)
    requires k <= |xs|
    requires forall i :: 0 <= i < k ==> fails(xs[i]).None?
    requires k < |xs| ==> fails(xs[k]).Some?
    ensures FirstFailure(xs, fails) == k
    decreases k
  {
    if k > 0 {
      FirstFailureAt(xs[1..], fails, k - 1);
    }
  }

  /** The first failure in a concatenation: the first one in the left part, if any, else the right part's, shifted. */
  lemma {:induction false} FirstFailureAppend<T, E>(a: seq<T>, b: seq<T>, fails: T -> Option<E>)
    ensures FirstFailure(a + b, fails) ==
      if FirstFailure(a, fails) < |a| then FirstFailure(a, fails) else |a| + FirstFailure(b, fails)
    decreases |a|
  {
    if |a| == 0 {
      assert a + b == b;
    } else {
      assert (a + b)[0] == a[0];
      assert (a + b)[1..] == a[1..] + b;
      if fails(a[0]).None? {
        FirstFailureAppend(a[1..], b, fails);
      }
    }
  }

  /**
   * A run that got through `done` without failure and fails within `own`
   * stops at `own`'s first failure: what ran before it is `done` and the
   * successful part of `own`.
   */
  lemma FailureInside<T, E>(done: seq<T>, own: seq<T>, rest: seq<T>, fails: T -> Option<E>)
    requires FirstFailure(done, fails) == |done|
    requires FirstFailure(own, fails) < |own|
    ensures var xs := done + (own + rest);
      var k := FirstFailure(xs, fails);
      && k == |done| + FirstFailure(own, fails)
      && xs[..k] == done + own[..FirstFailure(own, fails)]
      && xs[k] == own[FirstFailure(own, fails)]
  {
    FirstFailureAppend(done, own + rest, fails);
    FirstFailureAppend(own, rest, fails);
    var xs := done + (own + rest);
    var j := FirstFailure(own, fails);
    assert xs[..|done| + j] == done + own[..j];
  }

  // ---------------------------------------------------------------------------
  // Engine selection

  datatype Engine = Bookmarks | History

  /** Rust's ordering of `String`s: lexicographic by character. */
  predicate LexLess(a: string, b: string)
    decreases |a|
  {
    |b| > 0 && (|a| == 0 || a[0] < b[0] || (a[0] == b[0] && LexLess(a[1..], b[1..])))
  }

  lemma {:induction false} LexIrreflexive(a: string)
    ensures !LexLess(a, a)
    decreases |a|
  {
    if |a| > 0 {
      LexIrreflexive(a[1..]);
    }
  }

  lemma {:induction false} LexTransitive(a: string, b: string, c: string)
    requires LexLess(a, b) && LexLess(b, c)
    ensures LexLess(a, c)
    decreases |a|
  {
    if |a| > 0 && a[0] == b[0] && b[0] == c[0] {
      LexTransitive(a[1..], b[1..], c[1..]);
    }
  }

  lemma {:induction false} LexTotal(a: string, b: string)
    requires a != b
    ensures LexLess(a, b) || LexLess(b, a)
    decreases |a|
  {
    if |a| > 0 && |b| > 0 && a[0] == b[0] {
      assert a == [a[0]] + a[1..] && b == [b[0]] + b[1..];
      LexTotal(a[1..], b[1..]);
    }
  }

  predicate StrictlySorted(s: seq<string>)
  {
    forall i, j :: 0 <= i < j < |s| ==> LexLess(s[i], s[j])
  }

  /** Insert a name into a strictly sorted list, keeping it strictly sorted and without duplicates. */
  function Insert(x: string, s: seq<string>): (r: seq<string>)
    requires StrictlySorted(s)
    ensures StrictlySorted(r)
    ensures forall y :: y in r <==> y == x || y in s
  {
    if |s| == 0 then [x]
    else if x == s[0] then s
    else if LexLess(x, s[0]) then
      assert forall j :: 0 < j < |s| ==> LexLess(x, s[j]) by {
        forall j | 0 < j < |s| ensures LexLess(x, s[j]) {
          LexTransitive(x, s[0], s[j]);
        }
      }
      [x] + s
    else
      LexTotal(x, s[0]);
      var rest := Insert(x, s[1..]);
      assert forall y :: y in s[1..] ==> LexLess(s[0], y);
      [s[0]] + rest
  }

  /** `sort` followed by `dedup`: the distinct names, in increasing order. */
  function SortDedup(names: seq<string>): (r: seq<string>)
    ensures StrictlySorted(r)
    ensures forall y :: y in r <==> y in names
  {
    if |names| == 0 then [] else Insert(names[|names| - 1], SortDedup(names[..|names| - 1]))
  }

  predicate KnownEngine(name: string)
  {
    name == "bookmarks" || name == "history"
  }

  function EngineFor(name: string): Engine
    requires KnownEngine(name)
  {
    if name == "bookmarks" then Bookmarks else History
  }

  /** The store for each name, in order. */
  function EnginesFor(names: seq<string>): (r: seq<Engine>)
    requires forall i :: 0 <= i < |names| ==> KnownEngine(names[i])
    ensures |r| == |names| && forall i :: 0 <= i < |names| ==> r[i] == EngineFor(names[i])
  {
    if |names| == 0 then [] else [EngineFor(names[0])] + EnginesFor(names[1..])
  }

  /**
   * The stores `sync` builds: bookmarks then history when no name is given;
   * otherwise one store per distinct name, in sorted order. An unknown name
   * is a programming error (the source aborts with `unimplemented!`).
   */
  function SelectEngines(names: seq<string>): (r: seq<Engine>)
    requires forall i :: 0 <= i < |names| ==> KnownEngine(names[i])
    ensures names == [] ==> r == [Bookmarks, History]
    ensures names != [] ==> (Bookmarks in r <==> "bookmarks" in names) && (History in r <==> "history" in names)
    ensures r == [Bookmarks] || r == [History] || r == [Bookmarks, History]
  {
    if names == [] then [Bookmarks, History]
    else
      SortedNames(names);
      EnginesFor(SortDedup(names))
  }

  /** The distinct sorted names of a non-empty list of known names: one of the three sorted lists of them. */
  lemma SortedNames(names: seq<string>)
    requires names != [] && forall i :: 0 <= i < |names| ==> KnownEngine(names[i])
    ensures var sorted := SortDedup(names);
      && (sorted == ["bookmarks"] || sorted == ["history"] || sorted == ["bookmarks", "history"])
      && ("bookmarks" in names <==> "bookmarks" in sorted)
      && ("history" in names <==> "history" in sorted)
      && forall i :: 0 <= i < |sorted| ==> KnownEngine(sorted[i])
  {
    var sorted := SortDedup(names);
    assert names[0] in sorted;
    forall i | 0 <= i < |sorted| ensures KnownEngine(sorted[i]) {
      assert sorted[i] in names;
      var j :| 0 <= j < |names| && names[j] == sorted[i];
    }
    SortedKnownNames(sorted);
  }

  /** How the two known names compare. */
  lemma KnownNamesOrder()
    ensures LexLess("bookmarks", "history") && !LexLess("history", "bookmarks")
    ensures !LexLess("bookmarks", "bookmarks") && !LexLess("history", "history")
  {
    LexIrreflexive("bookmarks");
    LexIrreflexive("history");
  }

  /** A strictly sorted list of known names is one of the three non-empty sorted lists of them, or empty. */
  lemma SortedKnownNames(s: seq<string>)
    requires StrictlySorted(s) && forall i :: 0 <= i < |s| ==> KnownEngine(s[i])
    ensures s == [] || s == ["bookmarks"] || s == ["history"] || s == ["bookmarks", "history"]
  {
    if |s| >= 2 {
      KnownPair(s[0], s[1]);
    }
    if |s| >= 3 {
      KnownPair(s[1], s[2]);
    }
    if |s| == 2 {
      assert s == [s[0], s[1]];
    }
  }

  /** Of two known names in increasing order, the first is "bookmarks" and the second "history". */
  lemma KnownPair(a: string, b: string)
    requires KnownEngine(a) && KnownEngine(b) && LexLess(a, b)
    ensures a == "bookmarks" && b == "history"
  {
    KnownNamesOrder();
  }

  // ---------------------------------------------------------------------------
  // The sync command

  /** A wipe or a reset of one engine's store. */
  datatype StoreAction = Wipe(engine: Engine) | Reset(engine: Engine)

  /** One store's part of the pass: its wipe when asked for, then its reset when asked for. */
  function StorePlan(store: Engine, wipe: bool, reset: bool): (r: seq<StoreAction>)
    ensures |r| == (if wipe then 1 else 0) + (if reset then 1 else 0)
    ensures forall i :: 0 <= i < |r| ==> r[i].engine == store
    ensures wipe ==> r[0] == Wipe(store)
    ensures reset ==> r[|r| - 1] == Reset(store)
  {
    (if wipe then [Wipe(store)] else []) + (if reset then [Reset(store)] else [])
  }

  /** The whole pass: each store's part, store by store. */
  function PlannedActions(stores: seq<Engine>, wipe: bool, reset: bool): (r: seq<StoreAction>)
    ensures forall i :: 0 <= i < |r| ==> r[i].engine in stores
    ensures forall i :: 0 <= i < |r| ==> (r[i].Wipe? ==> wipe) && (r[i].Reset? ==> reset)
  {
    if |stores| == 0 then [] else StorePlan(stores[0], wipe, reset) + PlannedActions(stores[1..], wipe, reset)
  }

  /** Each store contributes one action per requested kind. */
  lemma {:induction false} PlanLength(stores: seq<Engine>, wipe: bool, reset: bool)
    ensures |PlannedActions(stores, wipe, reset)| == |stores| * ((if wipe then 1 else 0) + (if reset then 1 else 0))
    decreases |stores|
  {
    if |stores| > 0 {
      PlanLength(stores[1..], wipe, reset);
    }
  }

  /** With both requested, store `i`'s wipe and reset are the plan's actions `2i` and `2i + 1`. */
  lemma {:induction false} WipeBeforeReset(stores: seq<Engine>, i: nat)
    requires i < |stores|
    ensures var plan := PlannedActions(stores, true, true);
      2 * i + 1 < |plan| && plan[2 * i] == Wipe(stores[i]) && plan[2 * i + 1] == Reset(stores[i])
    decreases i
  {
    PlanLength(stores, true, true);
    if i > 0 {
      WipeBeforeReset(stores[1..], i - 1);
      var tail := PlannedActions(stores[1..], true, true);
      assert PlannedActions(stores, true, true) == [Wipe(stores[0]), Reset(stores[0])] + tail;
    }
  }

  /**
   * The wipe/reset pass of `sync`: for each store in turn, its wipe when asked
   * for, then its reset when asked for; the first failure ends the pass with
   * its error. `actionError` says which wipes and resets fail.
   */
  method WipeAndReset<E>(db: PlacesDb, stores: seq<Engine>, wipe: bool, reset: bool,
                         actionError: StoreAction -> Option<E>)
    returns (r: Result<(), E>)
    modifies db`actions
    ensures var plan := PlannedActions(stores, wipe, reset);
      var k := FirstFailure(plan, actionError);
      && db.actions == old(db.actions) + plan[..k]
      && (k < |plan| ==> r.Err? && actionError(plan[k]) == Some(r.error))
      && (k == |plan| ==> r == Ok(()))
  {
    ghost var plan := PlannedActions(stores, wipe, reset);
    assert stores[..0] == [];
    var i := 0;
    while i < |stores|
      invariant 0 <= i <= |stores|
      invariant FirstFailure(PlannedActions(stores[..i], wipe, reset), actionError) == |PlannedActions(stores[..i], wipe, reset)|
      invariant db.actions == old(db.actions) + PlannedActions(stores[..i], wipe, reset)
    {
      ghost var prefix := PlannedActions(stores[..i], wipe, reset);
      ghost var own := StorePlan(stores[i], wipe, reset);
      ghost var before := db.actions;
      var failure := RunStore(db, stores[i], wipe, reset, actionError);
      ghost var j := FirstFailure(own, actionError);
      if failure.Some? {
        PassStopsAt(stores, i, wipe, reset, actionError);
        ConcatAssociative(old(db.actions), prefix, own[..j]);
        return Err(failure.value);
      }
      assert own[..j] == own;
      PassContinues(stores, i, wipe, reset, actionError);
      ConcatAssociative(old(db.actions), prefix, own);
      i := i + 1;
    }
    assert stores[..i] == stores;
    assert plan[..|plan|] == plan;
    r := Ok(());
  }

  /** A store whose part fails, after a run of successes, is where the pass stops. */
  lemma PassStopsAt<E>(stores: seq<Engine>, i: nat, wipe: bool, reset: bool, actionError: StoreAction -> Option<E>)
    requires i < |stores|
    requires FirstFailure(PlannedActions(stores[..i], wipe, reset), actionError) == |PlannedActions(stores[..i], wipe, reset)|
    requires FirstFailure(StorePlan(stores[i], wipe, reset), actionError) < |StorePlan(stores[i], wipe, reset)|
    ensures var plan, prefix, own := PlannedActions(stores, wipe, reset), PlannedActions(stores[..i], wipe, reset), StorePlan(stores[i], wipe, reset);
      var k, j := FirstFailure(plan, actionError), FirstFailure(own, actionError);
      && k < |plan|
      && plan[..k] == prefix + own[..j]
      && plan[k] == own[j]
  {
    var prefix, own := PlannedActions(stores[..i], wipe, reset), StorePlan(stores[i], wipe, reset);
    var rest := PlannedActions(stores[i + 1..], wipe, reset);
    PlanSplit(stores, i, wipe, reset);
    PlanAt(stores, i, wipe, reset);
    FailureInside(prefix, own, rest, actionError);
  }

  /** A store whose part succeeds extends the run of successes. */
  lemma PassContinues<E>(stores: seq<Engine>, i: nat, wipe: bool, reset: bool, actionError: StoreAction -> Option<E>)
    requires i < |stores|
    requires FirstFailure(PlannedActions(stores[..i], wipe, reset), actionError) == |PlannedActions(stores[..i], wipe, reset)|
    requires FirstFailure(StorePlan(stores[i], wipe, reset), actionError) == |StorePlan(stores[i], wipe, reset)|
    ensures PlannedActions(stores[..i + 1], wipe, reset)
      == PlannedActions(stores[..i], wipe, reset) + StorePlan(stores[i], wipe, reset)
    ensures FirstFailure(PlannedActions(stores[..i + 1], wipe, reset), actionError) == |PlannedActions(stores[..i + 1], wipe, reset)|
  {
    PlanSplit(stores, i, wipe, reset);
    FirstFailureAppend(PlannedActions(stores[..i], wipe, reset), StorePlan(stores[i], wipe, reset), actionError);
  }

  /** One store's part of the pass, stopping at its first failure. */
  method RunStore<E>(db: PlacesDb, store: Engine, wipe: bool, reset: bool, actionError: StoreAction -> Option<E>)
    returns (failure: Option<E>)
    modifies db`actions
    ensures var own := StorePlan(store, wipe, reset);
      var k := FirstFailure(own, actionError);
      && db.actions == old(db.actions) + own[..k]
      && (k < |own| ==> failure == actionError(own[k]))
      && (k == |own| ==> failure.None?)
  {
    ghost var own := StorePlan(store, wipe, reset);
    if wipe {
      failure := PerformAction(db, Wipe(store), actionError);
      if failure.Some? {
        return;
      }
    }
    if reset {
      failure := PerformAction(db, Reset(store), actionError);
      if failure.Some? {
        assert own[..|own| - 1] == (if wipe then [Wipe(store)] else []);
        return;
      }
    }
    assert own[..|own|] == own;
    failure := None;
  }

  /** One wipe or reset: recorded when it succeeds, its error reported when it fails. */
  method PerformAction<E>(db: PlacesDb, action: StoreAction, actionError: StoreAction -> Option<E>)
    returns (failure: Option<E>)
    modifies db`actions
    ensures failure == actionError(action)
    ensures db.actions == if failure.None? then old(db.actions) + [action] else old(db.actions)
  {
    failure := actionError(action);
    if failure.None? {
      db.actions := db.actions + [action];
    }
  }

  /**
   * The `sync` command: opening the Sync connection and reading the
   * credentials come first (`setupError` is the first of them to fail, if any);
   * then select the stores, run the wipe/reset pass (a failure ends the command
   * with its error), read the stored global state (a failure ends the command),
   * run `sync_multiple` from it, and write the state it leaves behind back
   * whether or not the sync succeeded. A failed sync is only logged: the
   * command then succeeds unless the write-back fails.
   */
  method Sync<E>(db: PlacesDb, setupError: Option<E>, names: seq<string>, wipe: bool, reset: bool,
                 actionError: StoreAction -> Option<E>,
                 getError: Option<E>,
                 syncMultiple: (seq<Engine>, Option<string>) -> (Result<(), E>, Option<string>),
                 putError: Option<E>)
    returns (r: Result<(), E>)
    requires forall i :: 0 <= i < |names| ==> KnownEngine(names[i])
    modifies db`actions, db`globalState
    ensures setupError.Some? ==>
      r == Err(setupError.value) && db.actions == old(db.actions) && db.globalState == old(db.globalState)
    ensures setupError.None? ==>
      var plan := PlannedActions(SelectEngines(names), wipe, reset);
      var k := FirstFailure(plan, actionError);
      && db.actions == old(db.actions) + plan[..k]
      && (k < |plan| ==> r.Err? && actionError(plan[k]) == Some(r.error) && db.globalState == old(db.globalState))
      && (k == |plan| && getError.Some? ==> r == Err(getError.value) && db.globalState == old(db.globalState))
      && (k == |plan| && getError.None? && putError.Some? ==> r == Err(putError.value) && db.globalState == old(db.globalState))
      && (k == |plan| && getError.None? && putError.None? ==>
            r == Ok(()) && db.globalState == syncMultiple(SelectEngines(names), old(db.globalState)).1)
  {
    if setupError.Some? {
      return Err(setupError.value);
    }
    var stores := SelectEngines(names);
    var pass := WipeAndReset(db, stores, wipe, reset, actionError);
    if pass.Err? {
      return Err(pass.error);
    }
    if getError.Some? {
      return Err(getError.value);
    }
    var globalState := db.globalState;
    var outcome := syncMultiple(stores, globalState);
    globalState := outcome.1;
    if putError.Some? {
      return Err(putError.value);
    }
    db.globalState := globalState;
    r := Ok(());
  }

  /** Splitting the stores after `i` splits the plan after the actions of the first `i` stores. */
  lemma PlanSplit(stores: seq<Engine>, i: nat, wipe: bool, reset: bool)
    requires i < |stores|
    ensures PlannedActions(stores[..i + 1], wipe, reset)
      == PlannedActions(stores[..i], wipe, reset) + StorePlan(stores[i], wipe, reset)
    ensures PlannedActions(stores[i..], wipe, reset)
      == StorePlan(stores[i], wipe, reset) + PlannedActions(stores[i + 1..], wipe, reset)
  {
    PlanAppend(stores[..i], [stores[i]], wipe, reset);
    assert stores[..i] + [stores[i]] == stores[..i + 1];
    assert [stores[i]][1..] == [];
    assert StorePlan(stores[i], wipe, reset) + [] == StorePlan(stores[i], wipe, reset);
    assert stores[i..][0] == stores[i] && stores[i..][1..] == stores[i + 1..];
  }

  lemma ConcatAssociative<T>(a: seq<T>, b: seq<T>, c: seq<T>)
    ensures (a + b) + c == a + (b + c)
  {
  }

  /** The plan is the plan of the first `i` stores followed by the plan of the others. */
  lemma PlanAt(stores: seq<Engine>, i: nat, wipe: bool, reset: bool)
    requires i <= |stores|
    ensures PlannedActions(stores, wipe, reset)
      == PlannedActions(stores[..i], wipe, reset) + PlannedActions(stores[i..], wipe, reset)
  {
    PlanAppend(stores[..i], stores[i..], wipe, reset);
    assert stores[..i] + stores[i..] == stores;
  }

  /** The plan for two lists of stores is the two plans in order. */
  lemma {:induction false} PlanAppend(a: seq<Engine>, b: seq<Engine>, wipe: bool, reset: bool)
    ensures PlannedActions(a + b, wipe, reset) == PlannedActions(a, wipe, reset) + PlannedActions(b, wipe, reset)
    decreases |a|
  {
    if |a| == 0 {
      assert a + b == b;
    } else {
      assert (a + b)[0] == a[0];
      assert (a + b)[1..] == a[1..] + b;
      PlanAppend(a[1..], b, wipe, reset);
    }
  }
}
