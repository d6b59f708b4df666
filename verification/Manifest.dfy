/** The manifest of a directory tree: the walk with an explicit stack lists what
    a recursive enumeration lists, each entry once. */
module Manifest {
  import opened Bytes

  /** A file-system tree; a directory's entries come in whatever order the
      system reads them. */
  datatype Node =
    | File(content: Blob)
    | Link(target: string)
    | Dir(entries: seq<Entry>)
    | Special

  datatype Entry = Entry(name: string, node: Node)

  /** What the walk meets: a path relative to the root, and what is there. */
  datatype Item = Item(rel: string, node: Node)

  datatype FileLine = FileLine(seqNo: nat, rel: string, size: nat, sha: Digest)

  /** The names of one directory are distinct, non-empty and hold no slash. */
  predicate WellNamed(es: seq<Entry>)
    decreases es
  {
    && (forall i :: 0 <= i < |es| ==> es[i].name != "" && '/' !in es[i].name)
    && (forall i, j :: 0 <= i < j < |es| ==> es[i].name != es[j].name)
    && (forall i :: 0 <= i < |es| && es[i].node.Dir? ==> WellNamed(es[i].node.entries))
  }

  function Join(rel: string, name: string): string
  {
    if rel == "" then name else rel + "/" + name
  }

  function Children(rel: string, es: seq<Entry>): (cs: seq<Item>)
    ensures |cs| == |es|
  {
    if es == [] then [] else [Item(Join(rel, es[0].name), es[0].node)] + Children(rel, es[1..])
  }

  // --------------------------------------------------------------- sorting

  /** Order of strings by code point, as `str` compares. */
  predicate Leq(a: string, b: string)
  {
    a == [] || (b != [] && (a[0] < b[0] || (a[0] == b[0] && Leq(a[1..], b[1..]))))
  }

  /** At the first place where they differ, or one ends, the smaller is smaller. */
  lemma {:induction false} LeqIff(a: string, b: string)
    ensures Leq(a, b) <==>
      a <= b || exists k: nat :: k < |a| && k < |b| && a[..k] == b[..k] && a[k] < b[k]
  {
    if a != [] && b != [] && a[0] == b[0] {
      LeqIff(a[1..], b[1..]);
      if Leq(a[1..], b[1..]) && !(a[1..] <= b[1..]) {
        var k: nat :| k < |a[1..]| && k < |b[1..]| && a[1..][..k] == b[1..][..k] && a[1..][k] < b[1..][k];
        FirstDifference(a, b, k);
      }
      if k: nat :| k < |a| && k < |b| && a[..k] == b[..k] && a[k] < b[k] {
        RestDiffers(a, b, k);
      }
      assert a <= b <==> a[1..] <= b[1..] by { PrefixOfRest(a, b); }
    } else if a != [] && b != [] && a[0] < b[0] {
      assert a[..0] == b[..0];
    }
  }

  lemma FirstDifference(a: string, b: string, k: nat)
    requires k + 1 < |a| && k + 1 < |b| && a[0] == b[0] && a[1..][..k] == b[1..][..k] && a[1..][k] < b[1..][k]
    ensures a[..k + 1] == b[..k + 1] && a[k + 1] < b[k + 1]
  {
    assert a[..k + 1] == [a[0]] + a[1..][..k] && b[..k + 1] == [b[0]] + b[1..][..k];
  }

  lemma RestDiffers(a: string, b: string, k: nat)
    requires k < |a| && k < |b| && a[0] == b[0] && a[..k] == b[..k] && a[k] < b[k]
    ensures k > 0 && a[1..][..k - 1] == b[1..][..k - 1] && a[1..][k - 1] < b[1..][k - 1]
  {
    assert a[1..][..k - 1] == a[..k][1..] && b[1..][..k - 1] == b[..k][1..];
  }

  lemma PrefixOfRest(a: string, b: string)
    requires a != [] && b != [] && a[0] == b[0]
    ensures a <= b <==> a[1..] <= b[1..]
  {
    if a[1..] <= b[1..] {
      assert a == [a[0]] + a[1..] && b == [b[0]] + b[1..];
    }
  }

  lemma {:induction false} LeqTotal(a: string, b: string)
    ensures Leq(a, b) || Leq(b, a)
  {
    if a != [] && b != [] {
      LeqTotal(a[1..], b[1..]);
    }
  }

  lemma {:induction false} LeqTransitive(a: string, b: string, c: string)
    requires Leq(a, b) && Leq(b, c)
    ensures Leq(a, c)
  {
    if a != [] && a[0] == b[0] && b[0] == c[0] {
      LeqTransitive(a[1..], b[1..], c[1..]);
    }
  }

  lemma {:induction false} LeqAntisymmetric(a: string, b: string)
    requires Leq(a, b) && Leq(b, a)
    ensures a == b
  {
    if a != [] {
      LeqAntisymmetric(a[1..], b[1..]);
      assert a == [a[0]] + a[1..] && b == [b[0]] + b[1..];
    }
  }

  lemma {:induction false} LeqOfPrefix(a: string, more: string)
    ensures Leq(a, a + more)
  {
    if a != [] {
      LeqOfPrefix(a[1..], more);
      assert (a + more)[1..] == a[1..] + more;
    }
  }

  function Insert(x: Item, s: seq<Item>): seq<Item>
  {
    if s == [] || Leq(x.rel, s[0].rel) then [x] + s else [s[0]] + Insert(x, s[1..])
  }

  /** The stable sort of the library, on relative paths. */
  function Sort(s: seq<Item>): seq<Item>
  {
    if s == [] then [] else Insert(s[0], Sort(s[1..]))
  }

  predicate Ascending(s: seq<Item>)
  {
    forall i, j :: 0 <= i < j < |s| ==> Leq(s[i].rel, s[j].rel)
  }

  lemma {:induction false} InsertKeeps(x: Item, s: seq<Item>)
    ensures multiset(Insert(x, s)) == multiset([x]) + multiset(s)
  {
    hide Leq;
    if !(s == [] || Leq(x.rel, s[0].rel)) {
      InsertKeeps(x, s[1..]);
      assert s == [s[0]] + s[1..];
    }
  }

  lemma {:induction false} SortKeeps(s: seq<Item>)
    ensures multiset(Sort(s)) == multiset(s)
  {
    hide Insert;
    if s != [] {
      SortKeeps(s[1..]);
      InsertKeeps(s[0], Sort(s[1..]));
      assert s == [s[0]] + s[1..];
    }
  }

  lemma SameMembers(s: seq<Item>, t: seq<Item>, x: Item)
    requires multiset(s) == multiset(t)
    ensures x in s <==> x in t
  {
    assert x in s <==> x in multiset(s);
    assert x in t <==> x in multiset(t);
  }

  lemma {:induction false} InsertAscends(x: Item, s: seq<Item>)
    requires Ascending(s)
    ensures Ascending(Insert(x, s))
  {
    hide Leq;
    if s == [] {
    } else if Leq(x.rel, s[0].rel) {
      forall j | 0 < j < |s| ensures Leq(x.rel, s[j].rel) {
        LeqTransitive(x.rel, s[0].rel, s[j].rel);
      }
    } else {
      var t := Insert(x, s[1..]);
      LeqTotal(x.rel, s[0].rel);
      assert Ascending(s[1..]);
      InsertAscends(x, s[1..]);
      InsertKeeps(x, s[1..]);
      forall j | 0 <= j < |t| ensures Leq(s[0].rel, t[j].rel) {
        SameMembers(t, [x] + s[1..], t[j]);
      }
    }
  }

  lemma {:induction false} SortAscends(s: seq<Item>)
    ensures Ascending(Sort(s))
  {
    hide Insert, Ascending;
    if s != [] {
      SortAscends(s[1..]);
      InsertAscends(s[0], Sort(s[1..]));
    } else {
      assert Ascending([]) by { NothingAscends(); }
    }
  }

  lemma NothingAscends()
    ensures Ascending([])
  {}

  // ------------------------------------------------- recursive enumeration

  /** Everything below a directory, listed by structural recursion. */
  function Below(rel: string, es: seq<Entry>): seq<Item>
    decreases es
  {
    if es == [] then []
    else
      var at := Join(rel, es[0].name);
      [Item(at, es[0].node)] + (if es[0].node.Dir? then Below(at, es[0].node.entries) else []) + Below(rel, es[1..])
  }

  datatype Kind = FileKind | LinkKind | DirKind | SpecialKind

  function KindOf(n: Node): Kind
  {
    match n
    case File(_) => FileKind
    case Link(_) => LinkKind
    case Dir(_) => DirKind
    case Special => SpecialKind
  }

  /** The items of one kind, in order. */
  function Only(s: seq<Item>, kind: Kind): (ds: seq<Item>)
    ensures forall i :: 0 <= i < |ds| ==> KindOf(ds[i].node) == kind
  {
    if s == [] then []
    else if KindOf(s[|s| - 1].node) == kind then Only(s[..|s| - 1], kind) + [s[|s| - 1]]
    else Only(s[..|s| - 1], kind)
  }

  function DirsOf(s: seq<Item>): (ds: seq<Item>)
    ensures AllDirs(ds)
  {
    Only(s, DirKind)
  }

  predicate AllDirs(stack: seq<Item>)
  {
    forall i :: 0 <= i < |stack| ==> stack[i].node.Dir?
  }

  function Under(x: Item): seq<Item>
  {
    if x.node.Dir? then Below(x.rel, x.node.entries) else []
  }

  /** Everything below the directories of a list. */
  function BelowAll(s: seq<Item>): seq<Item>
  {
    if s == [] then [] else Under(s[0]) + BelowAll(s[1..])
  }

  lemma BelowAllUnfolds(s: seq<Item>)
    requires s != []
    ensures BelowAll(s) == Under(s[0]) + BelowAll(s[1..])
  {
    hide Below;
  }

  lemma BelowAllNone()
    ensures BelowAll([]) == []
  {}

  lemma {:induction false} BelowAllSum(s: seq<Item>, t: seq<Item>)
    ensures BelowAll(s + t) == BelowAll(s) + BelowAll(t)
  {
    hide Under, BelowAll;
    if s == [] {
      BelowAllNone();
      assert s + t == t;
    } else {
      BelowAllSum(s[1..], t);
      assert (s + t)[1..] == s[1..] + t;
      BelowAllUnfolds(s);
      BelowAllUnfolds(s + t);
    }
  }

  lemma {:induction false} BelowAllDirs(s: seq<Item>)
    ensures BelowAll(DirsOf(s)) == BelowAll(s)
  {
    hide Below, BelowAll, Only;
    if s == [] {
      OnlyNone(DirKind);
    } else {
      var n := |s| - 1;
      assert s == s[..n] + [s[n]];
      BelowAllDirs(s[..n]);
      OnlyOneMore(s[..n], s[n], DirKind);
      BelowAllSum(s[..n], [s[n]]);
      BelowAllSum(DirsOf(s[..n]), [s[n]]);
      NoDirNothing(s[n]);
    }
  }

  lemma OnlyNone(kind: Kind)
    ensures Only([], kind) == []
  {}

  lemma NoDirNothing(x: Item)
    ensures !x.node.Dir? ==> BelowAll([x]) == []
  {}

  /** Level by level and branch by branch list the same. */
  lemma {:induction false} BelowByLevels(rel: string, es: seq<Entry>)
    ensures multiset(Below(rel, es)) == multiset(Children(rel, es)) + multiset(BelowAll(Children(rel, es)))
  {
    hide Join;
    if es != [] {
      var first := Item(Join(rel, es[0].name), es[0].node);
      BelowByLevels(rel, es[1..]);
      assert Children(rel, es)[1..] == Children(rel, es[1..]);
    }
  }

  lemma {:induction false} BelowAllInsert(x: Item, s: seq<Item>)
    ensures multiset(BelowAll(Insert(x, s))) == multiset(BelowAll([x])) + multiset(BelowAll(s))
  {
    hide Below, Leq;
    if s == [] || Leq(x.rel, s[0].rel) {
      BelowAllSum([x], s);
    } else {
      BelowAllInsert(x, s[1..]);
      BelowAllSum([s[0]], Insert(x, s[1..]));
      BelowAllSum([s[0]], s[1..]);
      assert s == [s[0]] + s[1..];
    }
  }

  lemma {:induction false} BelowAllSort(s: seq<Item>)
    ensures multiset(BelowAll(Sort(s))) == multiset(BelowAll(s))
  {
    hide Below, Insert;
    if s != [] {
      BelowAllSort(s[1..]);
      BelowAllInsert(s[0], Sort(s[1..]));
      BelowAllSum([s[0]], s[1..]);
      assert s == [s[0]] + s[1..];
    }
  }

  // ------------------------------------------------------------- the walk

  /** Number of nodes: what the walk consumes. */
  function Size(es: seq<Entry>): nat
    decreases es
  {
    if es == [] then 0
    else 1 + (if es[0].node.Dir? then Size(es[0].node.entries) else 0) + Size(es[1..])
  }

  function Weight(s: seq<Item>): nat
  {
    if s == [] then 0
    else (if s[0].node.Dir? then 1 + Size(s[0].node.entries) else 0) + Weight(s[1..])
  }

  lemma {:induction false} WeightSum(s: seq<Item>, t: seq<Item>)
    ensures Weight(s + t) == Weight(s) + Weight(t)
  {
    if s == [] {
      assert s + t == t;
    } else {
      WeightSum(s[1..], t);
      assert (s + t)[1..] == s[1..] + t;
    }
  }

  lemma {:induction false} WeightDirs(s: seq<Item>)
    ensures Weight(DirsOf(s)) == Weight(s)
  {
    hide Size;
    if s != [] {
      var n := |s| - 1;
      WeightDirs(s[..n]);
      WeightSum(s[..n], [s[n]]);
      WeightSum(DirsOf(s[..n]), [s[n]]);
      assert s == s[..n] + [s[n]];
    }
  }

  lemma {:induction false} WeightInsert(x: Item, s: seq<Item>)
    ensures Weight(Insert(x, s)) == Weight([x]) + Weight(s)
  {
    hide Size, Leq;
    if s == [] || Leq(x.rel, s[0].rel) {
      WeightSum([x], s);
    } else {
      WeightInsert(x, s[1..]);
      WeightSum([s[0]], Insert(x, s[1..]));
    }
  }

  lemma {:induction false} WeightSort(s: seq<Item>)
    ensures Weight(Sort(s)) == Weight(s)
  {
    hide Size, Insert;
    if s != [] {
      WeightSort(s[1..]);
      WeightInsert(s[0], Sort(s[1..]));
      WeightSum([s[0]], s[1..]);
      assert s == [s[0]] + s[1..];
    }
  }

  lemma {:induction false} WeightChildren(rel: string, es: seq<Entry>)
    ensures Weight(Children(rel, es)) <= Size(es)
  {
    hide Join;
    if es != [] {
      WeightChildren(rel, es[1..]);
      assert Children(rel, es)[1..] == Children(rel, es[1..]);
    }
  }

  /** Sorted children of a directory. */
  function Listing(d: Item): seq<Item>
    requires d.node.Dir?
  {
    Sort(Children(d.rel, d.node.entries))
  }

  /** The children of a directory, each once, in the order of their paths. */
  lemma ListingIsSorted(d: Item, i: nat, j: nat)
    requires d.node.Dir? && i < j < |Listing(d)|
    ensures multiset(Listing(d)) == multiset(Children(d.rel, d.node.entries))
    ensures var a, b := Listing(d)[i].rel, Listing(d)[j].rel;
      a <= b || exists k: nat :: k < |a| && k < |b| && a[..k] == b[..k] && a[k] < b[k]
  {
    hide Sort, Leq;
    SortKeeps(Children(d.rel, d.node.entries));
    SortAscends(Children(d.rel, d.node.entries));
    LeqIff(Listing(d)[i].rel, Listing(d)[j].rel);
  }

  lemma Consumes(rest: seq<Item>, top: Item)
    requires top.node.Dir?
    ensures Weight(rest + DirsOf(Listing(top))) < Weight(rest + [top])
  {
    hide Sort, Children, DirsOf, Size;
    WeightSum(rest, [top]);
    WeightSum(rest, DirsOf(Listing(top)));
    WeightDirs(Listing(top));
    WeightSort(Children(top.rel, top.node.entries));
    WeightChildren(top.rel, top.node.entries);
  }

  /** The stack after its top directory was listed. */
  function Next(stack: seq<Item>): (r: seq<Item>)
    requires AllDirs(stack) && stack != []
    ensures AllDirs(r) && Weight(r) < Weight(stack)
  {
    var n := |stack| - 1;
    assert stack == stack[..n] + [stack[n]];
    Consumes(stack[..n], stack[n]);
    stack[..n] + DirsOf(Listing(stack[n]))
  }

  /** Everything met from here on: the listing of the top directory, then what
      the directories pushed in that order bring. */
  function Visit(stack: seq<Item>): seq<Item>
    requires AllDirs(stack)
    decreases Weight(stack)
  {
    if stack == [] then [] else Listing(stack[|stack| - 1]) + Visit(Next(stack))
  }

  /** The walk meets exactly what the recursive enumeration lists. */
  lemma {:induction false} VisitEnumerates(stack: seq<Item>)
    requires AllDirs(stack)
    ensures multiset(Visit(stack)) == multiset(BelowAll(stack))
    decreases Weight(stack)
  {
    hide Visit, Next, BelowAll, Sort, Children, DirsOf, Weight, Below;
    if stack == [] {
      VisitNothing();
      BelowAllNone();
    } else {
      var n := |stack| - 1;
      var rest, top := stack[..n], stack[n];
      assert stack == rest + [top];
      VisitUnfolds(stack);
      VisitEnumerates(Next(stack));
      BelowAllSum(rest, [top]);
      BelowAllSum(rest, DirsOf(Listing(top)));
      BelowAllDirs(Listing(top));
      BelowAllOne(top);
      ListingCovers(top);
    }
  }

  lemma BelowAllOne(top: Item)
    requires top.node.Dir?
    ensures BelowAll([top]) == Below(top.rel, top.node.entries)
  {
    hide Below;
    assert BelowAll([top][1..]) == [];
  }

  // ------------------------------------------------------ distinct paths

  predicate DistinctRels(s: seq<Item>)
  {
    forall i, j :: 0 <= i < j < |s| ==> s[i].rel != s[j].rel
  }

  /** `r` is `at` or lies below it. */
  predicate Within(r: string, at: string)
  {
    at <= r && (|r| == |at| || r[|at|] == '/')
  }

  lemma WithinJoin(r: string, rel: string, name: string)
    requires Within(r, Join(rel, name)) && rel != ""
    ensures Within(r, rel) && r != rel
  {
    assert Join(rel, name)[..|rel|] == rel;
    assert Join(rel, name)[|rel|] == '/';
    assert r[..|rel|] == Join(rel, name)[..|rel|];
    assert r[|rel|] == Join(rel, name)[|rel|];
  }

  lemma WithinSelf(at: string)
    ensures Within(at, at)
  {}

  /** Everything below a directory lies within one of its entries. */
  lemma {:induction false} BelowWithin(rel: string, es: seq<Entry>, k: nat) returns (e: nat)
    requires WellNamed(es) && k < |Below(rel, es)|
    ensures e < |es| && Within(Below(rel, es)[k].rel, Join(rel, es[e].name))
    decreases es
  {
    hide Within, WellNamed, Join;
    var first := Head(rel, es);
    var at := Join(rel, es[0].name);
    WellNamedParts(es);
    if k == 0 {
      e := 0;
      WithinSelf(at);
    } else if k < |first| {
      e := 0;
      var e' := BelowWithin(at, es[0].node.entries, k - 1);
      JoinNonEmpty(rel, es[0].name);
      WithinJoin(Below(rel, es)[k].rel, at, es[0].node.entries[e'].name);
    } else {
      var e' := BelowWithin(rel, es[1..], k - |first|);
      e := e' + 1;
    }
  }

  lemma JoinNonEmpty(rel: string, name: string)
    requires name != ""
    ensures Join(rel, name) != ""
  {}

  lemma WellNamedParts(es: seq<Entry>)
    requires WellNamed(es) && es != []
    ensures es[0].name != "" && '/' !in es[0].name && WellNamed(es[1..])
    ensures es[0].node.Dir? ==> WellNamed(es[0].node.entries)
    ensures forall i :: 0 <= i < |es| - 1 ==> es[1..][i].name != es[0].name && '/' !in es[1..][i].name
  {}

  /** The first entry of a directory and what is below it. */
  function Head(rel: string, es: seq<Entry>): (h: seq<Item>)
    requires es != []
    ensures |h| >= 1 && Below(rel, es) == h + Below(rel, es[1..])
    ensures h[0] == Item(Join(rel, es[0].name), es[0].node)
    ensures h[1..] == if es[0].node.Dir? then Below(Join(rel, es[0].name), es[0].node.entries) else []
  {
    var at := Join(rel, es[0].name);
    [Item(at, es[0].node)] + if es[0].node.Dir? then Below(at, es[0].node.entries) else []
  }

  /** A path cannot lie within two entries of one directory. */
  lemma WithinOne(r: string, rel: string, a: string, b: string)
    requires '/' !in a && '/' !in b
    requires Within(r, Join(rel, a)) && Within(r, Join(rel, b))
    ensures a == b
  {
    var from := if rel == "" then 0 else |rel| + 1;
    var p, q := Join(rel, a), Join(rel, b);
    assert p[from..] == a && q[from..] == b;
    assert forall i :: from <= i < |p| ==> p[i] == a[i - from];
    assert forall i :: from <= i < |q| ==> q[i] == b[i - from];
    assert forall i :: 0 <= i < |p| ==> r[i] == p[i];
    assert forall i :: 0 <= i < |q| ==> r[i] == q[i];
    assert |p| == from + |a| && |q| == from + |b|;
    if |a| == |b| {
      assert p == r[..|p|] == q;
    }
  }

  lemma HeadWithin(rel: string, es: seq<Entry>, k: nat)
    requires WellNamed(es) && es != [] && k < |Head(rel, es)|
    ensures Within(Head(rel, es)[k].rel, Join(rel, es[0].name))
    ensures k > 0 ==> Head(rel, es)[k].rel != Join(rel, es[0].name)
  {
    hide Within, Join, WellNamed;
    var at := Join(rel, es[0].name);
    WellNamedParts(es);
    JoinNonEmpty(rel, es[0].name);
    if k == 0 {
      WithinSelf(at);
    } else {
      assert Head(rel, es)[1..][k - 1] == Head(rel, es)[k];
      var e := BelowWithin(at, es[0].node.entries, k - 1);
      WithinJoin(Head(rel, es)[k].rel, at, es[0].node.entries[e].name);
    }
  }

  /** The enumeration gives every entry its own path. */
  lemma {:induction false} BelowIsDistinct(rel: string, es: seq<Entry>)
    requires WellNamed(es)
    ensures DistinctRels(Below(rel, es))
    decreases es
  {
    hide Within, Join, WellNamed, Below;
    if es == [] {
      assert Below(rel, es) == [] by { BelowNothing(rel); }
    } else {
      var h, t := Head(rel, es), Below(rel, es[1..]);
      WellNamedParts(es);
      BelowIsDistinct(rel, es[1..]);
      HeadIsDistinct(rel, es) by {
        if es[0].node.Dir? {
          BelowIsDistinct(Join(rel, es[0].name), es[0].node.entries);
        }
      }
      forall i, j | 0 <= i < |h| && 0 <= j < |t|
        ensures h[i].rel != t[j].rel
      {
        HeadWithin(rel, es, i);
        var e := BelowWithin(rel, es[1..], j);
        if h[i].rel == t[j].rel {
          WithinOne(h[i].rel, rel, es[0].name, es[1..][e].name);
        }
      }
      DistinctSum(h, t);
    }
  }

  lemma BelowNothing(rel: string)
    ensures Below(rel, []) == []
  {}

  lemma HeadIsDistinct(rel: string, es: seq<Entry>)
    requires WellNamed(es) && es != []
    requires es[0].node.Dir? ==> DistinctRels(Below(Join(rel, es[0].name), es[0].node.entries))
    ensures DistinctRels(Head(rel, es))
  {
    hide Within, Join, WellNamed, Below;
    var h := Head(rel, es);
    forall i, j | 0 <= i < j < |h|
      ensures h[i].rel != h[j].rel
    {
      HeadWithin(rel, es, j);
      if i > 0 {
        assert h[1..][i - 1] == h[i] && h[1..][j - 1] == h[j];
      }
    }
  }

  lemma DistinctSum(s: seq<Item>, t: seq<Item>)
    requires DistinctRels(s) && DistinctRels(t)
    requires forall i, j :: 0 <= i < |s| && 0 <= j < |t| ==> s[i].rel != t[j].rel
    ensures DistinctRels(s + t)
  {}

  lemma {:induction false} DistinctOnce(t: seq<Item>, x: Item)
    requires DistinctRels(t)
    ensures multiset(t)[x] <= 1
  {
    if t != [] {
      var n := |t| - 1;
      DistinctOnce(t[..n], x);
      assert t == t[..n] + [t[n]];
      if x == t[n] {
        assert x !in t[..n];
      }
    }
  }

  lemma TwiceCounts(s: seq<Item>, i: nat, j: nat)
    requires i < j < |s| && s[i] == s[j]
    ensures multiset(s)[s[i]] >= 2
  {
    assert s == s[..j] + s[j..];
    assert s[..j][i] == s[i] && s[j..][0] == s[i];
    assert s[i] in multiset(s[..j]) && s[i] in multiset(s[j..]);
  }

  /** Distinct paths are a property of what is listed, not of the order. */
  lemma DistinctTransfers(s: seq<Item>, t: seq<Item>)
    requires multiset(s) == multiset(t) && DistinctRels(t)
    ensures DistinctRels(s)
  {
    forall i, j | 0 <= i < j < |s|
      ensures s[i].rel != s[j].rel
    {
      if s[i] == s[j] {
        TwiceCounts(s, i, j);
        DistinctOnce(t, s[i]);
      } else {
        SameMembers(s, t, s[i]);
        SameMembers(s, t, s[j]);
        var k :| 0 <= k < |t| && t[k] == s[i];
        var l :| 0 <= l < |t| && t[l] == s[j];
      }
    }
  }

  // -------------------------------------------------------- the manifest

  function LineOf(x: Item, seqNo: nat, h: Hash): FileLine
    requires x.node.File?
  {
    FileLine(seqNo, x.rel, |x.node.content|, h(x.node.content))
  }

  /** The lines of the regular files: each is numbered by its place. */
  function FilesOf(s: seq<Item>, h: Hash): (ls: seq<FileLine>)
  {
    var fs := Only(s, FileKind);
    seq(|fs|, i requires 0 <= i < |fs| => LineOf(fs[i], i, h))
  }

  function LinksOf(s: seq<Item>): (ls: seq<Item>)
  {
    Only(s, LinkKind)
  }

  /** What the tables of a manifest hold before they become lines. */
  datatype Tables = Tables(files: seq<FileLine>, dirs: seq<Item>, links: seq<Item>)

  /** The manifest of the tree, in terms of the walk. */
  function TablesOf(found: seq<Item>, h: Hash): Tables
  {
    Tables(FilesOf(found, h), Sort(DirsOf(found)), Sort(LinksOf(found)))
  }

  /** `build_manifest`; `push` has refused a link by then. */
  method BuildManifest(root: Node, h: Hash) returns (m: Tables)
    requires root.Dir? || root.File?
    ensures root.Dir? ==> m == TablesOf(Visit([Item("", root)]), h)
    ensures root.File? ==> m == Tables([FileLine(0, "", |root.content|, h(root.content))], [], [])
  {
    hide Sort, Insert, Visit, Children, FilesOf, LinksOf, DirsOf, Weight;
    m := Tables([], [], []);
    if root.File? {
      m := m.(files := [FileLine(0, "", |root.content|, h(root.content))]);
      return;
    }
    var stack := [Item("", root)];
    ghost var found: seq<Item> := [];
    NothingListed(h);
    while stack != []
      invariant AllDirs(stack)
      invariant m == Tables(FilesOf(found, h), DirsOf(found), LinksOf(found))
      invariant found + Visit(stack) == Visit([Item("", root)])
      decreases Weight(stack)
    {
      ghost var before := stack;
      VisitUnfolds(stack);
      var top := stack[|stack| - 1];
      stack := stack[..|stack| - 1];
      ghost var rest, met := stack, found;
      var children := Sort(Children(top.rel, top.node.entries));
      assert children[..0] == [];
      for k := 0 to |children|
        invariant found == met + children[..k]
        invariant stack == rest + DirsOf(children[..k])
        invariant m == Tables(FilesOf(found, h), DirsOf(found), LinksOf(found))
      {
        var c := children[k];
        assert children[..k + 1] == children[..k] + [c];
        ListsOneMore(found, c, h);
        ListsOneMore(children[..k], c, h);
        match c.node {
          case Link(_) => m := m.(links := m.links + [c]);
          case Dir(_) => m := m.(dirs := m.dirs + [c]); stack := stack + [c];
          case File(content) =>
            m := m.(files := m.files + [FileLine(|m.files|, c.rel, |content|, h(content))]);
          case Special =>
        }
        found := found + [c];
      }
      assert children[..|children|] == children;
    }
    VisitNothing();
    assert found + [] == found;
    m := m.(dirs := Sort(m.dirs), links := Sort(m.links));
  }

  lemma VisitNothing()
    ensures Visit([]) == []
  {}

  lemma NothingListed(h: Hash)
    ensures FilesOf([], h) == [] && DirsOf([]) == [] && LinksOf([]) == []
  {}

  lemma VisitUnfolds(stack: seq<Item>)
    requires AllDirs(stack) && stack != []
    ensures Visit(stack) == Listing(stack[|stack| - 1]) + Visit(Next(stack))
    ensures Next(stack) == stack[..|stack| - 1] + DirsOf(Listing(stack[|stack| - 1]))
    ensures Weight(Next(stack)) < Weight(stack)
  {
    hide Listing, DirsOf, Weight;
  }

  lemma OnlyOneMore(s: seq<Item>, x: Item, kind: Kind)
    ensures Only(s + [x], kind) == if KindOf(x.node) == kind then Only(s, kind) + [x] else Only(s, kind)
  {
    assert (s + [x])[..|s|] == s;
  }

  lemma ListsOneMore(s: seq<Item>, x: Item, h: Hash)
    ensures DirsOf(s + [x]) == if x.node.Dir? then DirsOf(s) + [x] else DirsOf(s)
    ensures LinksOf(s + [x]) == if x.node.Link? then LinksOf(s) + [x] else LinksOf(s)
    ensures FilesOf(s + [x], h) ==
      if x.node.File?
      then FilesOf(s, h) + [FileLine(|FilesOf(s, h)|, x.rel, |x.node.content|, h(x.node.content))]
      else FilesOf(s, h)
  {
    OnlyOneMore(s, x, DirKind);
    OnlyOneMore(s, x, LinkKind);
    OnlyOneMore(s, x, FileKind);
    var fs, gs := Only(s, FileKind), Only(s + [x], FileKind);
    if x.node.File? {
      assert gs == fs + [x];
      assert FilesOf(s + [x], h) == FilesOf(s, h) + [LineOf(x, |fs|, h)];
    } else {
      assert gs == fs;
    }
  }

  // --------------------------------------------------- what it guarantees

  lemma {:induction false} OnlyCounts(s: seq<Item>, kind: Kind, x: Item)
    ensures multiset(Only(s, kind))[x] == if KindOf(x.node) == kind then multiset(s)[x] else 0
  {
    hide KindOf;
    if s != [] {
      var n := |s| - 1;
      OnlyCounts(s[..n], kind, x);
      assert s == s[..n] + [s[n]];
    }
  }

  lemma OnlySame(s: seq<Item>, t: seq<Item>, kind: Kind)
    requires multiset(s) == multiset(t)
    ensures multiset(Only(s, kind)) == multiset(Only(t, kind))
  {
    hide Only, KindOf;
    forall x ensures multiset(Only(s, kind))[x] == multiset(Only(t, kind))[x] {
      OnlyCounts(s, kind, x);
      OnlyCounts(t, kind, x);
    }
  }

  /** The walk meets each entry of the tree once, and no two share a path. */
  lemma WalkListsOnce(root: Node)
    requires root.Dir? && WellNamed(root.entries)
    ensures multiset(Visit([Item("", root)])) == multiset(Below("", root.entries))
    ensures DistinctRels(Visit([Item("", root)]))
  {
    hide Visit, Below, BelowAll, WellNamed, DistinctRels;
    VisitEnumerates([Item("", root)]);
    BelowAllOne(Item("", root));
    BelowIsDistinct("", root.entries);
    DistinctTransfers(Visit([Item("", root)]), Below("", root.entries));
  }

  lemma SameHead(s: seq<Item>, t: seq<Item>)
    requires s != [] && t != [] && Ascending(s) && Ascending(t) && DistinctRels(s) && multiset(s) == multiset(t)
    ensures s[0] == t[0]
  {
    hide Leq, Ascending;
    SameMembers(s, t, s[0]);
    SameMembers(s, t, t[0]);
    HeadIsLeast(s, t[0]);
    HeadIsLeast(t, s[0]);
    LeqAntisymmetric(s[0].rel, t[0].rel);
  }

  lemma SameTail(s: seq<Item>, t: seq<Item>)
    requires s != [] && t != [] && s[0] == t[0] && multiset(s) == multiset(t)
    ensures multiset(s[1..]) == multiset(t[1..])
  {
    assert s == [s[0]] + s[1..] && t == [t[0]] + t[1..];
    assert multiset(s[1..]) == multiset(s) - multiset([s[0]]);
    assert multiset(t[1..]) == multiset(t) - multiset([t[0]]);
  }

  /** With distinct paths there is only one way to sort. */
  lemma {:induction false} SortedIsUnique(s: seq<Item>, t: seq<Item>)
    requires Ascending(s) && Ascending(t) && DistinctRels(s) && multiset(s) == multiset(t)
    ensures s == t
  {
    hide Leq;
    SameLength(s, t);
    if s != [] {
      SameHead(s, t);
      SameTail(s, t);
      SortedIsUnique(s[1..], t[1..]);
      assert s == [s[0]] + s[1..] && t == [t[0]] + t[1..];
    }
  }

  lemma SameLength(s: seq<Item>, t: seq<Item>)
    requires multiset(s) == multiset(t)
    ensures |s| == |t|
  {
    assert |multiset(s)| == |s| && |multiset(t)| == |t|;
  }

  lemma HeadIsLeast(s: seq<Item>, x: Item)
    requires Ascending(s) && x in s
    ensures Leq(s[0].rel, x.rel)
  {
    LeqOfPrefix(x.rel, []);
    assert x.rel + [] == x.rel;
  }

  /** The sorted list does not depend on the order in which things are met. */
  lemma SortIsCanonical(s: seq<Item>, t: seq<Item>)
    requires multiset(s) == multiset(t) && DistinctRels(s)
    ensures Sort(s) == Sort(t)
  {
    hide Sort, Ascending, DistinctRels;
    SortKeeps(s);
    SortKeeps(t);
    SortAscends(s);
    SortAscends(t);
    DistinctTransfers(Sort(s), s);
    SortedIsUnique(Sort(s), Sort(t));
  }

  lemma {:induction false} OnlyIsDistinct(s: seq<Item>, kind: Kind)
    requires DistinctRels(s)
    ensures DistinctRels(Only(s, kind))
  {
    hide KindOf;
    if s != [] {
      var n := |s| - 1;
      OnlyIsDistinct(s[..n], kind);
      forall i | 0 <= i < |Only(s[..n], kind)|
        ensures Only(s[..n], kind)[i].rel != s[n].rel
      {
        OnlyMembers(s[..n], kind, Only(s[..n], kind)[i]);
      }
    }
  }

  /** The tables of the manifest: the directories and links of the tree, and a
      line for every regular file, whose number is its index. */
  lemma ManifestIsComplete(root: Node, h: Hash) returns (files: seq<Item>)
    requires root.Dir? && WellNamed(root.entries)
    ensures var m := TablesOf(Visit([Item("", root)]), h); var all := Below("", root.entries);
      && m.dirs == Sort(Only(all, DirKind))
      && m.links == Sort(Only(all, LinkKind))
      && multiset(files) == multiset(Only(all, FileKind)) && |files| == |m.files|
      && forall i :: 0 <= i < |files| ==>
           && files[i].node.File?
           && m.files[i] == FileLine(i, files[i].rel, |files[i].node.content|, h(files[i].node.content))
  {
    hide Visit, Below, WellNamed, DistinctRels, Sort, Only;
    var found, all := Visit([Item("", root)]), Below("", root.entries);
    WalkListsOnce(root);
    OnlySame(found, all, DirKind);
    OnlySame(found, all, LinkKind);
    OnlySame(found, all, FileKind);
    OnlyIsDistinct(found, DirKind);
    OnlyIsDistinct(found, LinkKind);
    SortIsCanonical(Only(found, DirKind), Only(all, DirKind));
    SortIsCanonical(Only(found, LinkKind), Only(all, LinkKind));
    files := Only(found, FileKind);
  }

  /** `child` is the path of an entry right below `parent`. */
  predicate RightBelow(child: string, parent: string)
  {
    parent != "" && |child| > |parent| && parent + "/" == child[..|parent| + 1] && '/' !in child[|parent| + 1..]
  }

  /** An entry is at the top of what is listed, or its directory is listed. */
  lemma {:induction false} ParentListed(rel: string, es: seq<Entry>, k: nat) returns (p: int)
    requires WellNamed(es) && k < |Below(rel, es)|
    ensures -1 <= p < |Below(rel, es)|
    ensures p == -1 ==> exists e :: 0 <= e < |es| && Below(rel, es)[k].rel == Join(rel, es[e].name)
    ensures p >= 0 ==> Below(rel, es)[p].node.Dir? && RightBelow(Below(rel, es)[k].rel, Below(rel, es)[p].rel)
    decreases es
  {
    hide WellNamed, Join, Below, RightBelow;
    assert es != [] by { BelowNothing(rel); }
    WellNamedParts(es);
    var h := Head(rel, es);
    var at := Join(rel, es[0].name);
    if k == 0 {
      p := -1;
    } else if k < |h| {
      var sub := es[0].node.entries;
      p := ParentListed(at, sub, k - 1);
      assert h[1..][k - 1] == h[k];
      JoinNonEmpty(rel, es[0].name);
      if p == -1 {
        var e :| 0 <= e < |sub| && h[k].rel == Join(at, sub[e].name);
        WellNamedAt(sub, e);
        JoinIsBelow(at, sub[e].name);
        p := 0;
      } else {
        assert h[1..][p] == h[p + 1];
        p := p + 1;
      }
    } else {
      p := ParentListed(rel, es[1..], k - |h|);
      if p == -1 {
        var e :| 0 <= e < |es[1..]| && Below(rel, es)[k].rel == Join(rel, es[1..][e].name);
        assert es[1..][e] == es[e + 1];
      } else {
        p := p + |h|;
      }
    }
  }

  lemma WellNamedAt(es: seq<Entry>, e: nat)
    requires WellNamed(es) && e < |es|
    ensures es[e].name != "" && '/' !in es[e].name
  {}

  lemma JoinIsBelow(at: string, name: string)
    requires at != "" && '/' !in name
    ensures RightBelow(Join(at, name), at)
  {
    assert Join(at, name)[..|at| + 1] == at + "/";
    assert Join(at, name)[|at| + 1..] == name;
  }

  /** A parent sorts before its children. */
  lemma ParentSortsFirst(s: seq<Item>, i: nat, j: nat)
    requires Ascending(s) && i < |s| && j < |s| && RightBelow(s[j].rel, s[i].rel)
    ensures i < j
  {
    hide Leq;
    var parent, child := s[i].rel, s[j].rel;
    assert child[..|parent|] == parent by { assert (parent + "/")[..|parent|] == parent; }
    assert child == parent + child[|parent|..];
    LeqOfPrefix(parent, child[|parent|..]);
    if j < i {
      LeqAntisymmetric(parent, child);
    }
  }

  /** In the manifest every directory but those at the top comes after the
      directory that holds it. */
  lemma ParentsComeFirst(root: Node, h: Hash, j: nat)
    requires root.Dir? && WellNamed(root.entries)
    requires j < |TablesOf(Visit([Item("", root)]), h).dirs|
    ensures var dirs := TablesOf(Visit([Item("", root)]), h).dirs;
      || (exists e :: 0 <= e < |root.entries| && dirs[j].rel == root.entries[e].name)
      || (exists i :: 0 <= i < j && RightBelow(dirs[j].rel, dirs[i].rel))
  {
    hide Visit, Below, WellNamed, DistinctRels, Sort, Only, FilesOf, LinksOf, RightBelow, Ascending;
    var found, all := Visit([Item("", root)]), Below("", root.entries);
    var dirs := TablesOf(found, h).dirs;
    var files := ManifestIsComplete(root, h);
    SortAscends(DirsOf(found));
    SortKeeps(Only(all, DirKind));
    SameMembers(dirs, Only(all, DirKind), dirs[j]);
    OnlyMembers(all, DirKind, dirs[j]);
    var k :| 0 <= k < |all| && all[k] == dirs[j];
    var p := ParentListed("", root.entries, k);
    if p >= 0 {
      OnlyMembers(all, DirKind, all[p]);
      SameMembers(dirs, Only(all, DirKind), all[p]);
      var i :| 0 <= i < |dirs| && dirs[i] == all[p];
      ParentSortsFirst(dirs, i, j);
    }
  }

  lemma {:induction false} OnlyMembers(s: seq<Item>, kind: Kind, x: Item)
    ensures x in Only(s, kind) <==> x in s && KindOf(x.node) == kind
  {
    hide KindOf;
    if s != [] {
      var n := |s| - 1;
      OnlyMembers(s[..n], kind, x);
      assert s == s[..n] + [s[n]];
    }
  }

  // ------------------------------------------------- the walk of the agent

  /** The order in which `walk_pull` meets what is in and below a listing. */
  function PullOrder(s: seq<Item>): seq<Item>
    decreases Weight(s), |s|
  {
    if s == [] then []
    else
      WeightSplits(s);
      [s[0]] + (if s[0].node.Dir? then PullOrder(Listing(s[0])) else []) + PullOrder(s[1..])
  }

  lemma WeightSplits(s: seq<Item>)
    requires s != []
    ensures Weight(s[1..]) <= Weight(s)
    ensures s[0].node.Dir? ==> Weight(Listing(s[0])) < Weight(s)
  {
    hide Sort, Children, Size;
    if s[0].node.Dir? {
      WeightSort(Children(s[0].rel, s[0].node.entries));
      WeightChildren(s[0].rel, s[0].node.entries);
    }
  }

  /** `walk_pull` over one directory: the entries sent, and the files noted. */
  method WalkPull(dir: Item, h: Hash, sources: seq<FileLine>) returns (sent: seq<Item>, sources': seq<FileLine>)
    requires dir.node.Dir?
    ensures sent == PullOrder(Listing(dir))
    ensures sources' == Numbered(sources, sent, h)
    decreases Weight([dir])
  {
    hide PullOrder, Sort, Children, Weight, Numbered;
    var entries := Sort(Children(dir.rel, dir.node.entries));
    sent, sources' := [], sources;
    PullNothing(sources, h);
    var k := 0;
    while k < |entries|
      invariant 0 <= k <= |entries|
      invariant sent + PullOrder(entries[k..]) == PullOrder(entries)
      invariant sources' == Numbered(sources, sent, h)
    {
      var e := entries[k];
      PullUnfolds(entries[k..]);
      assert entries[k..][1..] == entries[k + 1..];
      NumberedMore(sources, sent, [e], h);
      sent := sent + [e];
      if e.node.Dir? {
        ListedIsLighter(dir, e);
        var below, more := WalkPull(e, h, sources');
        NumberedMore(sources, sent, below, h);
        sent, sources' := sent + below, more;
      } else if e.node.File? {
        sources' := sources' + [LineOf(e, |sources'|, h)];
      }
      k := k + 1;
    }
    assert entries[k..] == [];
    assert sent + [] == sent;
  }

  /** `sources` and a line for each file of `s`, numbered on. */
  function Numbered(sources: seq<FileLine>, s: seq<Item>, h: Hash): seq<FileLine>
  {
    if s == [] then sources
    else
      var before := Numbered(sources, s[..|s| - 1], h);
      var x := s[|s| - 1];
      if x.node.File? then before + [LineOf(x, |before|, h)] else before
  }

  lemma {:induction false} NumberedMore(sources: seq<FileLine>, s: seq<Item>, t: seq<Item>, h: Hash)
    ensures Numbered(sources, s + t, h) == Numbered(Numbered(sources, s, h), t, h)
    ensures |t| == 1 ==>
      (var before := Numbered(sources, s, h);
       Numbered(sources, s + t, h) == if t[0].node.File? then before + [LineOf(t[0], |before|, h)] else before)
  {
    if t == [] {
      assert s + t == s;
    } else {
      NumberedMore(sources, s, t[..|t| - 1], h);
      assert (s + t)[..|s + t| - 1] == s + t[..|t| - 1];
      assert |t| == 1 ==> s + t[..0] == s;
    }
  }

  /** From an empty list the numbers are the indexes. */
  lemma {:induction false} NumberedIsFilesOf(s: seq<Item>, h: Hash)
    ensures Numbered([], s, h) == FilesOf(s, h)
  {
    hide FilesOf;
    if s == [] {
      NothingListed(h);
    } else {
      NumberedIsFilesOf(s[..|s| - 1], h);
      ListsOneMore(s[..|s| - 1], s[|s| - 1], h);
      assert s == s[..|s| - 1] + [s[|s| - 1]];
    }
  }

  lemma PullNothing(sources: seq<FileLine>, h: Hash)
    ensures PullOrder([]) == [] && Numbered(sources, [], h) == sources
  {}

  lemma PullUnfolds(s: seq<Item>)
    requires s != []
    ensures PullOrder(s) == [s[0]] + (if s[0].node.Dir? then PullOrder(Listing(s[0])) else []) + PullOrder(s[1..])
  {
    hide Weight, Listing;
  }

  lemma {:induction false} WeightMember(s: seq<Item>, x: Item)
    requires x in s
    ensures Weight([x]) <= Weight(s)
  {
    hide Size;
    if x != s[0] {
      WeightMember(s[1..], x);
    }
  }

  lemma ListedIsLighter(dir: Item, e: Item)
    requires dir.node.Dir? && e in Listing(dir)
    ensures Weight([e]) < Weight([dir])
  {
    hide Sort, Children, Size;
    WeightSort(Children(dir.rel, dir.node.entries));
    WeightChildren(dir.rel, dir.node.entries);
    WeightMember(Listing(dir), e);
  }

  /** The agent's walk lists the same entries as the recursive enumeration. */
  lemma {:induction false} PullListsAll(s: seq<Item>)
    ensures multiset(PullOrder(s)) == multiset(s) + multiset(BelowAll(s))
    decreases Weight(s), |s|
  {
    hide PullOrder, Weight, BelowAll, Listing, Under;
    if s == [] {
      PullNothing([], _ => ZERO);
      BelowAllNone();
    } else {
      WeightSplits(s);
      PullUnfolds(s);
      BelowAllUnfolds(s);
      PullListsAll(s[1..]);
      assert s == [s[0]] + s[1..];
      if s[0].node.Dir? {
        PullListsAll(Listing(s[0]));
        ListingCovers(s[0]);
      }
      NothingUnder(s[0]);
    }
  }

  lemma NothingUnder(x: Item)
    ensures !x.node.Dir? ==> Under(x) == []
  {}

  /** A listing and what is below it is all there is under a directory. */
  lemma ListingCovers(d: Item)
    requires d.node.Dir?
    ensures multiset(Listing(d)) + multiset(BelowAll(Listing(d))) == multiset(Under(d))
  {
    hide BelowAll, Below, Sort, Children;
    var cs := Children(d.rel, d.node.entries);
    SortKeeps(cs);
    BelowAllSort(cs);
    BelowByLevels(d.rel, d.node.entries);
  }

  /** Named entries, as they stand in a listing. */
  predicate Sane(x: Item)
  {
    x.rel != "" && (x.node.Dir? ==> WellNamed(x.node.entries))
  }

  lemma {:induction false} ChildrenSane(rel: string, es: seq<Entry>, x: Item)
    requires WellNamed(es) && x in Children(rel, es)
    ensures Sane(x) && (rel != "" ==> RightBelow(x.rel, rel))
  {
    hide WellNamed, RightBelow;
    WellNamedParts(es);
    if x == Item(Join(rel, es[0].name), es[0].node) {
      JoinNonEmpty(rel, es[0].name);
      if rel != "" {
        JoinIsBelow(rel, es[0].name);
      }
    } else {
      ChildrenSane(rel, es[1..], x);
    }
  }

  lemma ListingSane(d: Item, x: Item)
    requires d.node.Dir? && Sane(d) && x in Listing(d)
    ensures Sane(x) && RightBelow(x.rel, d.rel)
  {
    hide WellNamed, RightBelow, Sort, Children;
    SortKeeps(Children(d.rel, d.node.entries));
    SameMembers(Listing(d), Children(d.rel, d.node.entries), x);
    ChildrenSane(d.rel, d.node.entries, x);
  }

  /** The agent sends every directory before what lies in it. */
  lemma {:induction false} PullSendsParentsFirst(s: seq<Item>, k: nat) returns (p: int)
    requires k < |PullOrder(s)| && forall i :: 0 <= i < |s| ==> Sane(s[i])
    ensures -1 <= p < k
    ensures p == -1 ==> PullOrder(s)[k] in s
    ensures p >= 0 ==> PullOrder(s)[p].node.Dir? && RightBelow(PullOrder(s)[k].rel, PullOrder(s)[p].rel)
    decreases Weight(s), |s|
  {
    hide PullOrder, Weight, Listing, Sane, RightBelow;
    assert s != [] by { PullNothing([], _ => ZERO); }
    WeightSplits(s);
    PullUnfolds(s);
    var sub := if s[0].node.Dir? then PullOrder(Listing(s[0])) else [];
    if k == 0 {
      p := -1;
    } else if k <= |sub| {
      assert PullOrder(s)[k] == sub[k - 1];
      forall i | 0 <= i < |Listing(s[0])| ensures Sane(Listing(s[0])[i]) { ListingSane(s[0], Listing(s[0])[i]); }
      p := PullSendsParentsFirst(Listing(s[0]), k - 1);
      if p == -1 {
        ListingSane(s[0], sub[k - 1]);
        p := 0;
      } else {
        assert PullOrder(s)[p + 1] == sub[p];
        p := p + 1;
      }
    } else {
      p := PullSendsParentsFirst(s[1..], k - 1 - |sub|);
      if p >= 0 {
        p := p + 1 + |sub|;
      }
    }
  }
}
