/** A pull of a whole tree: the agent's walk, the controller's manifest, plans
    and data over queues of any capacity. */
module TreePull {
  import opened Bytes
  import P = Payloads
  import M = Manifest
  import opened Receiving
  import opened Planning
  import opened Delivery
  import opened Sending
  import opened Transfers
  import opened QueuedPull
  import F = PullFlow

  // ----------------------------------------------------------------- paths

  /** Offset of the last slash, or -1. */
  function LastSlash(s: string): (k: int)
    ensures -1 <= k < |s|
    ensures k >= 0 ==> s[k] == '/'
  {
    if s == [] then -1 else if s[|s| - 1] == '/' then |s| - 1 else LastSlash(s[..|s| - 1])
  }

  predicate CleanName(name: string)
  {
    name != "" && '/' !in name && name != "." && name != ".."
  }

  /** Names joined by slashes, none of them special: what `safe_rel` accepts as
      it stands. */
  predicate Clean(rel: string)
  {
    var k := LastSlash(rel);
    if k < 0 then CleanName(rel) else Clean(rel[..k]) && CleanName(rel[k + 1..])
  }

  /** The relative path below the directory `root`. */
  function PathOf(root: string, rel: string): Path
  {
    var k := LastSlash(rel);
    if k < 0 then Path(root, rel) else Path(root + "/" + rel[..k], rel[k + 1..])
  }

  lemma {:induction false} LastSlashIs(s: string)
    ensures forall i :: LastSlash(s) < i < |s| ==> s[i] != '/'
  {
    if s != [] && s[|s| - 1] != '/' {
      LastSlashIs(s[..|s| - 1]);
    }
  }

  /** Directory and name together are the root, a slash and the relative path. */
  lemma PathOfIs(root: string, rel: string)
    ensures var p := PathOf(root, rel);
      p.dir + "/" + p.name == root + "/" + rel && '/' !in p.name
  {
    LastSlashIs(rel);
    hide LastSlash;
    var k := LastSlash(rel);
    if k >= 0 {
      assert rel == rel[..k] + "/" + rel[k + 1..];
      assert (root + "/" + rel[..k]) + "/" + rel[k + 1..] == root + "/" + rel;
    }
  }

  /** `rel[i..j]` is what stands between two slashes, or an end. */
  predicate IsPart(rel: string, i: int, j: int)
  {
    0 <= i <= j <= |rel| && (forall m :: i <= m < j ==> rel[m] != '/') &&
    (i > 0 ==> rel[i - 1] == '/') && (j < |rel| ==> rel[j] == '/')
  }

  /** A path is clean when no part of it is empty, `.` or `..`. */
  lemma {:induction false} CleanIff(rel: string)
    ensures Clean(rel) <==> forall i, j :: IsPart(rel, i, j) ==> rel[i..j] !in ["", ".", ".."]
    decreases |rel|
  {
    LastSlashIs(rel);
    hide LastSlash;
    var k := LastSlash(rel);
    LastPart(rel, k);
    if k >= 0 {
      CleanIff(rel[..k]);
      hide Clean, IsPart;
      forall i, j ensures IsPart(rel, i, j) <==> IsPart(rel[..k], i, j) || (i == k + 1 && j == |rel|) {
        PartSplits(rel, k, i, j);
      }
      assert forall i, j :: IsPart(rel[..k], i, j) ==> rel[..k][i..j] == rel[i..j] by {
        forall i, j | IsPart(rel[..k], i, j) ensures rel[..k][i..j] == rel[i..j] { PartSame(rel, k, i, j); }
      }
    }
  }

  lemma LastPart(rel: string, k: int)
    requires -1 <= k < |rel| && (k >= 0 ==> rel[k] == '/') && forall i :: k < i < |rel| ==> rel[i] != '/'
    ensures IsPart(rel, k + 1, |rel|)
    ensures CleanName(rel[k + 1..]) <==> rel[k + 1..|rel|] !in ["", ".", ".."]
    ensures k < 0 ==> forall i, j :: IsPart(rel, i, j) ==> i == 0 && j == |rel|
  {
    assert rel[k + 1..|rel|] == rel[k + 1..];
    assert '/' !in rel[k + 1..];
  }

  lemma PartSplits(rel: string, k: int, i: int, j: int)
    requires 0 <= k < |rel| && rel[k] == '/' && forall m :: k < m < |rel| ==> rel[m] != '/'
    ensures IsPart(rel, i, j) <==> IsPart(rel[..k], i, j) || (i == k + 1 && j == |rel|)
  {
    assert forall m :: 0 <= m < k ==> rel[..k][m] == rel[m];
  }

  lemma PartSame(rel: string, k: nat, i: int, j: int)
    requires k <= |rel| && IsPart(rel[..k], i, j)
    ensures IsPart(rel[..k], i, j) && rel[..k][i..j] == rel[i..j]
  {
  }

  lemma PathsDiffer(root: string, a: string, b: string)
    requires PathOf(root, a) == PathOf(root, b)
    ensures a == b
  {
    var i, j := LastSlash(a), LastSlash(b);
    if i >= 0 {
      assert a == a[..i] + "/" + a[i + 1..];
      assert (root + "/" + a[..i])[|root| + 1..] == a[..i];
    }
    if j >= 0 {
      assert b == b[..j] + "/" + b[j + 1..];
      assert (root + "/" + b[..j])[|root| + 1..] == b[..j];
    }
    SplitsSame(root, a, b);
  }

  lemma SplitsSame(root: string, a: string, b: string)
    requires PathOf(root, a) == PathOf(root, b)
    ensures LastSlash(a) < 0 <==> LastSlash(b) < 0
  {
    hide LastSlash;
    assert |PathOf(root, a).dir| == |PathOf(root, b).dir|;
  }

  lemma {:induction false} NoSlash(s: string)
    requires '/' !in s
    ensures LastSlash(s) == -1
  {
    if s != [] {
      assert s[|s| - 1] in s;
      NoSlash(s[..|s| - 1]);
    }
  }

  lemma {:induction false} JoinedSlash(at: string, name: string)
    requires '/' !in name
    ensures LastSlash(at + "/" + name) == |at|
  {
    var s := at + "/" + name;
    if name == [] {
      assert s == at + "/";
    } else {
      var init := name[..|name| - 1];
      JoinedSlash(at, init);
      assert s[|s| - 1] == name[|name| - 1] && name[|name| - 1] in name;
      assert s[..|s| - 1] == at + "/" + init;
    }
  }

  lemma JoinIsClean(at: string, name: string)
    requires Clean(at) && CleanName(name)
    ensures Clean(M.Join(at, name)) && at != ""
  {
    assert at != "" by { EmptyIsNotClean(); }
    var s := at + "/" + name;
    JoinedSlash(at, name);
    assert s[..|at|] == at && s[|at| + 1..] == name;
  }

  lemma EmptyIsNotClean()
    ensures !Clean("")
  {
  }

  // --------------------------------------------------------------- the tree

  /** No entry of a directory is `.` or `..`. */
  predicate NoDots(es: seq<M.Entry>)
    decreases es
  {
    forall i :: 0 <= i < |es| ==>
      es[i].name != "." && es[i].name != ".." && (es[i].node.Dir? ==> NoDots(es[i].node.entries))
  }

  /** An item of a tree as the agent meets it. */
  predicate Proper(x: M.Item)
  {
    Clean(x.rel) && (x.node.Dir? ==> M.WellNamed(x.node.entries) && NoDots(x.node.entries))
  }

  predicate AllProper(s: seq<M.Item>)
  {
    forall i :: 0 <= i < |s| ==> Proper(s[i])
  }

  lemma {:induction false} ChildProper(at: string, es: seq<M.Entry>, x: M.Item)
    requires Clean(at) && M.WellNamed(es) && NoDots(es) && x in M.Children(at, es)
    ensures Proper(x)
  {
    hide Clean, M.Join;
    M.WellNamedParts(es);
    if x == M.Item(M.Join(at, es[0].name), es[0].node) {
      JoinIsClean(at, es[0].name);
    } else {
      ChildProper(at, es[1..], x);
    }
  }

  lemma ListingProper(d: M.Item)
    requires d.node.Dir? && Proper(d)
    ensures AllProper(M.Listing(d))
  {
    hide Proper, M.Sort, M.Children, NoDots, M.WellNamed, Clean;
    var cs := M.Children(d.rel, d.node.entries);
    M.SortKeeps(cs);
    forall i | 0 <= i < |M.Listing(d)| ensures Proper(M.Listing(d)[i]) {
      M.SameMembers(M.Listing(d), cs, M.Listing(d)[i]);
      ProperDir(d);
      ChildProper(d.rel, d.node.entries, M.Listing(d)[i]);
    }
  }

  lemma ProperDir(d: M.Item)
    requires d.node.Dir? && Proper(d)
    ensures Clean(d.rel) && M.WellNamed(d.node.entries) && NoDots(d.node.entries)
  {
    hide Clean, M.WellNamed, NoDots;
  }

  /** Every path the agent sends is one that `safe_rel` accepts. */
  lemma {:induction false} WalkIsProper(s: seq<M.Item>)
    requires AllProper(s)
    ensures AllProper(M.PullOrder(s))
    decreases M.Weight(s), |s|
  {
    hide Proper, M.PullOrder, M.Weight, M.Listing;
    if s == [] {
      M.PullNothing([], _ => ZERO);
    } else {
      M.WeightSplits(s);
      M.PullUnfolds(s);
      WalkIsProper(s[1..]);
      if s[0].node.Dir? {
        ListingProper(s[0]);
        WalkIsProper(M.Listing(s[0]));
      }
    }
  }

  // ------------------------------------------------------ entries and files

  /** The entry frame of an item; `n` is the number of the next file. */
  function EntryFrame(h: Hash, id: nat, text: string -> Blob, x: M.Item, n: nat): seq<P.Payload>
  {
    match x.node
    case File(content) => [P.Entry(id, n, text(x.rel), FILE, |content|, 0, [], h(content))]
    case Link(target) => [P.Entry(id, 0, text(x.rel), SYMLINK, 0, 0, text(target), ZERO)]
    case Dir(_) => [P.Entry(id, 0, text(x.rel), DIR, 0, 0, [], ZERO)]
    case Special => []
  }

  /** Everything the agent's walk sends. */
  function EntryFrames(h: Hash, id: nat, text: string -> Blob, s: seq<M.Item>): seq<P.Payload>
  {
    if s == [] then []
    else
      var init := s[..|s| - 1];
      EntryFrames(h, id, text, init) + EntryFrame(h, id, text, s[|s| - 1], |M.Only(init, M.FileKind)|)
  }

  /** The files among some items and where they are to go. */
  function SourcesOf(root: string, s: seq<M.Item>): (files: seq<Source>)
    ensures |files| == |M.Only(s, M.FileKind)|
  {
    var fs := M.Only(s, M.FileKind);
    seq(|fs|, i requires 0 <= i < |fs| => Source(fs[i].node.content, PathOf(root, fs[i].rel)))
  }

  /** Decoding and joining on the controller put clean paths where they belong. */
  ghost predicate Places(place: Blob -> Option<Path>, text: string -> Blob, root: string)
  {
    forall rel: string :: Clean(rel) ==> place(text(rel)) == Some(PathOf(root, rel))
  }

  lemma {:induction false} EntriesQuiet(h: Hash, id: nat, text: string -> Blob, s: seq<M.Item>)
    ensures F.Quiet(EntryFrames(h, id, text, s))
  {
    hide M.Only;
    if s != [] {
      EntriesQuiet(h, id, text, s[..|s| - 1]);
    }
  }

  lemma SourcesSnoc(root: string, s: seq<M.Item>, x: M.Item)
    ensures SourcesOf(root, s + [x]) ==
            SourcesOf(root, s) + if x.node.File? then [Source(x.node.content, PathOf(root, x.rel))] else []
  {
    hide PathOf;
    M.OnlyOneMore(s, x, M.FileKind);
    var fs, gs := M.Only(s, M.FileKind), M.Only(s + [x], M.FileKind);
    if x.node.File? {
      assert gs == fs + [x];
    } else {
      assert gs == fs;
    }
  }

  lemma ReadSnoc(place: Blob -> Option<Path>, es: seq<P.Payload>, e: P.Payload)
    ensures ReadEntries(place, es + [e]) ==
      match ReadEntries(place, es)
      case None => None
      case Some(ws) => ReadEntry(place, ws, e)
  {
    assert (es + [e])[..|es|] == es;
  }

  /** The controller reads from the agent's entries exactly the files there are. */
  lemma {:induction false} EntriesAreRead(h: Hash, id: nat, text: string -> Blob, place: Blob -> Option<Path>,
                                          root: string, s: seq<M.Item>)
    requires AllProper(s) && Places(place, text, root)
    ensures ReadEntries(place, EntryFrames(h, id, text, s)) == Some(WantedOf(h, SourcesOf(root, s)))
  {
    hide ReadEntries, M.Only, PathOf, Clean, WantedOf, SourcesOf;
    if s == [] {
      NothingRead(h, place, root);
    } else {
      var init, x := s[..|s| - 1], s[|s| - 1];
      assert s == init + [x] && Proper(x);
      EntriesAreRead(h, id, text, place, root, init);
      var es, n := EntryFrames(h, id, text, init), |M.Only(init, M.FileKind)|;
      SourcesSnoc(root, init, x);
      if x.node.Special? {
        assert es + [] == es && SourcesOf(root, init) + [] == SourcesOf(root, init);
      } else {
        EntryIsRead(h, id, text, place, root, x, WantedOf(h, SourcesOf(root, init)));
        ReadSnoc(place, es, EntryFrame(h, id, text, x, n)[0]);
        WantedSnoc(h, SourcesOf(root, init), x, root);
      }
    }
  }

  lemma NothingRead(h: Hash, place: Blob -> Option<Path>, root: string)
    ensures ReadEntries(place, []) == Some(WantedOf(h, SourcesOf(root, [])))
  {
  }

  lemma WantedSnoc(h: Hash, files: seq<Source>, x: M.Item, root: string)
    ensures WantedOf(h, files + []) == WantedOf(h, files)
    ensures x.node.File? ==>
      WantedOf(h, files + [Source(x.node.content, PathOf(root, x.rel))]) ==
      WantedOf(h, files) + [Wanted(PathOf(root, x.rel), |x.node.content|, h(x.node.content))]
  {
    hide PathOf;
    assert files + [] == files;
  }

  lemma EntryIsRead(h: Hash, id: nat, text: string -> Blob, place: Blob -> Option<Path>, root: string, x: M.Item,
                    ws: seq<Wanted>)
    requires Proper(x) && Places(place, text, root) && !x.node.Special?
    ensures ReadEntry(place, ws, EntryFrame(h, id, text, x, |ws|)[0]) == Some(
      ws + if x.node.File? then [Wanted(PathOf(root, x.rel), |x.node.content|, h(x.node.content))] else [])
  {
    hide PathOf, Clean;
    assert place(text(x.rel)) == Some(PathOf(root, x.rel));
    assert ws + [] == ws;
  }

  // ---------------------------------------------------------- the whole pull

  /** What the agent lists for the path it was asked for. */
  function Walked(name: string, node: M.Node): seq<M.Item>
  {
    M.PullOrder([M.Item(name, node)])
  }

  /** The tree below a proper root has distinct destinations. */
  lemma DestinationsDiffer(root: string, name: string, node: M.Node)
    requires M.WellNamed([M.Entry(name, node)])
    ensures M.DistinctRels(Walked(name, node))
    ensures multiset(Walked(name, node)) == multiset(M.Below("", [M.Entry(name, node)]))
    ensures var files := SourcesOf(root, Walked(name, node));
      forall a, b :: 0 <= a < b < |files| ==> files[a].dest != files[b].dest
  {
    hide M.PullOrder, M.Below, M.WellNamed, M.DistinctRels, M.Only, PathOf;
    var es := [M.Entry(name, node)];
    RootOnly(name, node);
    M.PullListsAll([M.Item(name, node)]);
    M.BelowByLevels("", es);
    M.BelowIsDistinct("", es);
    M.DistinctTransfers(Walked(name, node), M.Below("", es));
    FilesDiffer(root, Walked(name, node));
  }

  lemma RootOnly(name: string, node: M.Node)
    ensures M.Children("", [M.Entry(name, node)]) == [M.Item(name, node)]
  {
  }

  lemma FilesDiffer(root: string, s: seq<M.Item>)
    requires M.DistinctRels(s)
    ensures var files := SourcesOf(root, s); forall a, b :: 0 <= a < b < |files| ==> files[a].dest != files[b].dest
  {
    hide M.Only, PathOf;
    M.OnlyIsDistinct(s, M.FileKind);
    var fs, files := M.Only(s, M.FileKind), SourcesOf(root, s);
    forall a, b | 0 <= a < b < |files| ensures files[a].dest != files[b].dest {
      if PathOf(root, fs[a].rel) == PathOf(root, fs[b].rel) {
        PathsDiffer(root, fs[a].rel, fs[b].rel);
      }
    }
  }

  /** No file is named like a temporary file, and hashes decide equality where
      the transfer relies on them. */
  ghost predicate Ordinary(h: Hash, disk: Files, files: seq<Source>)
  {
    forall n :: 0 <= n < |files| ==> !LooksTemporary(files[n].dest.name) && Separable(h, disk, files[n])
  }

  lemma TreeIsAdmissible(h: Hash, id: nat, disk: Files, root: string, name: string, node: M.Node)
    requires M.WellNamed([M.Entry(name, node)])
    requires Ordinary(h, disk, SourcesOf(root, Walked(name, node)))
    ensures var files := SourcesOf(root, Walked(name, node));
      Admissible(h, TaskFor(h, Pull, id, files, Answers(h, disk, files)), disk, files)
  {
    hide Walked, SourcesOf, Answers, M.WellNamed, LooksTemporary, Separable, NoClash;
    DestinationsDiffer(root, name, node);
    var files := SourcesOf(root, Walked(name, node));
    var j := TaskFor(h, Pull, id, files, Answers(h, disk, files));
    assert forall n :: 0 <= n < |files| ==> j.Dest(n) == files[n].dest;
    OrdinaryNamesDoNotClash(j);
  }

  /** Every file of the tree is at its place. */
  ghost predicate Copied(root: string, name: string, node: M.Node, after: Files)
  {
    forall x :: x in M.Below("", [M.Entry(name, node)]) && x.node.File? ==>
      PathOf(root, x.rel) in after && after[PathOf(root, x.rel)] == x.node.content
  }

  lemma CompleteCopies(h: Hash, id: nat, disk: Files, root: string, name: string, node: M.Node, after: Files)
    requires M.WellNamed([M.Entry(name, node)])
    requires var files := SourcesOf(root, Walked(name, node));
      Complete(TaskFor(h, Pull, id, files, Answers(h, disk, files)), disk, after, files)
    ensures Copied(root, name, node, after)
  {
    hide Walked, Answers, TaskFor, M.WellNamed, M.Below, PathOf, IsDest, IsTmp, Unchanged, M.Only;
    var s, all := Walked(name, node), M.Below("", [M.Entry(name, node)]);
    var fs, files := M.Only(s, M.FileKind), SourcesOf(root, s);
    DestinationsDiffer(root, name, node);
    forall x | x in all && x.node.File?
      ensures PathOf(root, x.rel) in after && after[PathOf(root, x.rel)] == x.node.content
    {
      M.SameMembers(s, all, x);
      M.OnlyMembers(s, M.FileKind, x);
      var n :| 0 <= n < |fs| && fs[n] == x;
      assert files[n] == Source(x.node.content, PathOf(root, x.rel));
    }
  }

  /** A pull of a tree from end to end.  Whatever the capacities of the queues and
      however the steps interleave: when none is left, every file of the tree is
      at its place on the controller, nothing else has changed there, and the
      controller's counters add up to the size of the tree. */
  lemma TreeIsPulled(h: Hash, id: nat, disk: Files, root: string, name: string, node: M.Node, text: string -> Blob,
                     place: Blob -> Option<Path>, choose: seq<Slot> -> seq<Item>, net: F.Net, moves: seq<F.Move>,
                     s: F.Flow)
    requires M.WellNamed([M.Entry(name, node)]) && NoDots([M.Entry(name, node)]) && Places(place, text, root)
    requires Roomy(net)
    requires var files := SourcesOf(root, Walked(name, node)); Ordinary(h, disk, files) && Indexed(h, disk, files)
    ensures var items := Walked(name, node); var files := SourcesOf(root, items);
            var script := ScriptFor(h, id, disk, place, EntryFrames(h, id, text, items), Contents(files), choose);
      MayStream(h, id, disk, files, choose(TableOf(h, id, disk, files))) && EndsAt(script, net, moves, s) ==>
        var t := Received(h, id, disk, files, script, s);
        && Copied(root, name, node, t.files)
        && Complete(TaskFor(h, Pull, id, files, Answers(h, disk, files)), disk, t.files, files)
        && t.sent + t.reused == TotalBytes(files, |files|)
  {
    hide *;
    var items := Walked(name, node);
    var files := SourcesOf(root, items);
    var entries := EntryFrames(h, id, text, items);
    var script := ScriptFor(h, id, disk, place, entries, Contents(files), choose);
    RootIsProper(name, node);
    WalkIsProper([M.Item(name, node)]);
    WalkedIs(name, node);
    EntriesQuiet(h, id, text, items);
    EntriesAreRead(h, id, text, place, root, items);
    TreeIsAdmissible(h, id, disk, root, name, node);
    PullOverQueues(h, id, disk, files, place, entries, choose, net, moves, s);
    if MayStream(h, id, disk, files, choose(TableOf(h, id, disk, files))) && EndsAt(script, net, moves, s) {
      CompleteCopies(h, id, disk, root, name, node, Received(h, id, disk, files, script, s).files);
    }
  }

  lemma WalkedIs(name: string, node: M.Node)
    ensures Walked(name, node) == M.PullOrder([M.Item(name, node)])
  {
    hide M.PullOrder;
  }

  lemma RootIsProper(name: string, node: M.Node)
    requires M.WellNamed([M.Entry(name, node)]) && NoDots([M.Entry(name, node)])
    ensures AllProper([M.Item(name, node)])
  {
    var es := [M.Entry(name, node)];
    assert es[0].name == name && es[0].node == node;
    NoSlash(name);
  }
}
