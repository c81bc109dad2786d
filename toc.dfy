/**
 * The table of contents: the navigable entries of the registry, the heading tree
 * rebuilt from their levels, and the list markup of the navigation document (`ncx`,
 * as EPUB 3 Packages defines it) and of the human TOC page (`mytoc`), nested or flat.
 */
module Toc {
  import opened Wrappers
  import opened Content
  import opened Registry
  import Text
  import opened Seqs

  /** What the TOC shows of an entry: its heading level, its target and its title. */
  datatype TocEntry = TocEntry(level: int, file: string, title: string)

  /** An entry is shown when it has a title and a level no deeper than the depth limit. */
  predicate Shown(c: Content, depth: int) {
    c.level.Some? && c.title.Some? && c.level.value <= depth
  }

  function TocEntryOf(c: Content): TocEntry
    requires c.level.Some? && c.title.Some?
  {
    TocEntry(c.level.value, c.file, c.title.value)
  }

  /** The shown entries, in registry order. */
  function NavEntries(cs: seq<Content>, depth: int): (r: seq<TocEntry>)
    ensures |r| <= |cs|
  {
    if cs == [] then []
    else (if Shown(cs[0], depth) then [TocEntryOf(cs[0])] else []) + NavEntries(cs[1..], depth)
  }

  /** The TOC holds exactly the shown entries, none deeper than the limit. */
  lemma {:induction false} NavEntriesMembers(cs: seq<Content>, depth: int)
    ensures |NavEntries(cs, depth)| <= |cs|
    ensures forall e :: e in NavEntries(cs, depth) ==> e.level <= depth
    ensures forall e :: e in NavEntries(cs, depth) ==> exists c :: c in cs && Shown(c, depth) && e == TocEntryOf(c)
    ensures forall c :: c in cs && Shown(c, depth) ==> TocEntryOf(c) in NavEntries(cs, depth)
  {
    if cs != [] {
      NavEntriesMembers(cs[1..], depth);
      assert forall c :: c in cs ==> c == cs[0] || c in cs[1..];
    }
  }

  /** Appending an entry extends the TOC by that entry exactly when it is shown. */
  lemma {:induction false} NavEntriesAppend(cs: seq<Content>, c: Content, depth: int)
    ensures NavEntries(cs + [c], depth) == NavEntries(cs, depth) + (if Shown(c, depth) then [TocEntryOf(c)] else [])
  {
    if cs == [] {
      assert cs + [c] == [c];
    } else {
      var head := if Shown(cs[0], depth) then [TocEntryOf(cs[0])] else [];
      var last := if Shown(c, depth) then [TocEntryOf(c)] else [];
      assert (cs + [c])[0] == cs[0] && (cs + [c])[1..] == cs[1..] + [c];
      assert NavEntries(cs + [c], depth) == head + NavEntries(cs[1..] + [c], depth);
      NavEntriesAppend(cs[1..], c, depth);
      assert head + (NavEntries(cs[1..], depth) + last) == (head + NavEntries(cs[1..], depth)) + last;
    }
  }

  /** A node of the heading tree. */
  datatype Node = Node(entry: TocEntry, children: seq<Node>)

  /** The length of the run at the start of `es` whose levels are all deeper than `level`. */
  function DeeperRun(es: seq<TocEntry>, level: int): (k: nat)
    ensures k <= |es|
  {
    if es == [] || es[0].level <= level then 0 else 1 + DeeperRun(es[1..], level)
  }

  /** The run is exactly the longest prefix of entries deeper than `level`. */
  lemma {:induction false} DeeperRunSpec(es: seq<TocEntry>, level: int)
    ensures forall i :: 0 <= i < DeeperRun(es, level) ==> es[i].level > level
    ensures DeeperRun(es, level) < |es| ==> es[DeeperRun(es, level)].level <= level
  {
    if es != [] && es[0].level > level {
      DeeperRunSpec(es[1..], level);
    }
  }

  /**
   * The heading tree: each entry owns, as children, the run of deeper entries that
   * follows it. BuildCharacterized shows the result is the only forest in pre-order
   * whose descendants are deeper and whose next sibling is never deeper: what a stack
   * of open headings yields. A jump of several levels invents no intermediate node.
   */
  function Build(es: seq<TocEntry>): (r: seq<Node>)
    decreases |es|
  {
    if es == [] then []
    else
      var k := 1 + DeeperRun(es[1..], es[0].level);
      [Node(es[0], Build(es[1..k]))] + Build(es[k..])
  }

  /** Pre-order: each node, then its children, then its following siblings. */
  function Flatten(f: seq<Node>): seq<TocEntry>
  {
    if f == [] then [] else [f[0].entry] + Flatten(f[0].children) + Flatten(f[1..])
  }

  lemma {:induction false} BuildUnfold(es: seq<TocEntry>)
    requires es != []
    ensures var k := 1 + DeeperRun(es[1..], es[0].level);
            1 <= k <= |es| && Build(es) == [Node(es[0], Build(es[1..k]))] + Build(es[k..])
  {
  }

  lemma FlattenCons(n: Node, rest: seq<Node>)
    ensures Flatten([n] + rest) == [n.entry] + Flatten(n.children) + Flatten(rest)
  {
    assert ([n] + rest)[0] == n && ([n] + rest)[1..] == rest;
  }

  /** The children of the first entry are deeper than it; the entry after them is not. */
  lemma ChildRun(es: seq<TocEntry>)
    requires es != []
    ensures var k := 1 + DeeperRun(es[1..], es[0].level);
            (forall e :: e in es[1..k] ==> e.level > es[0].level) &&
            (k < |es| ==> es[k].level <= es[0].level)
  {
    DeeperRunSpec(es[1..], es[0].level);
  }

  /** A run of deeper entries followed by one that is not: the run is exactly that long. */
  lemma {:induction false} DeeperRunOf(run: seq<TocEntry>, rest: seq<TocEntry>, level: int)
    requires forall i :: 0 <= i < |run| ==> run[i].level > level
    requires rest != [] ==> rest[0].level <= level
    ensures DeeperRun(run + rest, level) == |run|
  {
    if run == [] {
      assert run + rest == rest;
    } else {
      assert (run + rest)[1..] == run[1..] + rest;
      DeeperRunOf(run[1..], rest, level);
    }
  }

  /**
   * An entry followed by deeper entries and then by one no deeper than itself is one
   * node whose children are the tree of the deeper entries; the rest are its siblings.
   */
  lemma BuildNode(e: TocEntry, run: seq<TocEntry>, rest: seq<TocEntry>)
    requires forall i :: 0 <= i < |run| ==> run[i].level > e.level
    requires rest != [] ==> rest[0].level <= e.level
    ensures Build([e] + run + rest) == [Node(e, Build(run))] + Build(rest)
  {
    var es := [e] + run + rest;
    assert es[1..] == run + rest;
    DeeperRunOf(run, rest, e.level);
    var k := 1 + |run|;
    BuildUnfold(es);
    assert es[1..k] == run && es[k..] == rest;
  }

  /** A lone entry is a leaf. */
  lemma BuildSingle(e: TocEntry)
    ensures Build([e]) == [Node(e, [])]
  {
    var nil: seq<TocEntry> := [];
    BuildNode(e, nil, nil);
    assert [e] + nil + nil == [e];
  }

  /** An entry followed only by deeper entries is a single node holding all of them. */
  lemma {:induction false} BuildParent(e: TocEntry, run: seq<TocEntry>)
    requires forall i :: 0 <= i < |run| ==> run[i].level > e.level
    ensures Build([e] + run) == [Node(e, Build(run))]
  {
    var es := [e] + run;
    assert es[1..] == run;
    DeeperRunOf(run, [], e.level);
    assert run + [] == run;
    BuildUnfold(es);
    assert es[1..1 + |run|] == run && es[1 + |run|..] == [];
  }

  /** The first node of `x + y` is the first node of `x` when `y` starts no deeper than `x[0]`. */
  lemma FirstNodeAppend(x: seq<TocEntry>, y: seq<TocEntry>)
    requires x != [] && (y != [] ==> y[0].level <= x[0].level)
    ensures var k := 1 + DeeperRun(x[1..], x[0].level);
            Build(x + y) == [Node(x[0], Build(x[1..k]))] + Build(x[k..] + y)
  {
    var k := 1 + DeeperRun(x[1..], x[0].level);
    var run, rest := x[1..k], x[k..] + y;
    ChildRun(x);
    assert forall i :: 0 <= i < |run| ==> run[i] in x[1..k];
    SplitJoinAppend(x, y, k);
    BuildNode(x[0], run, rest);
  }

  /**
   * The tree can be built piecewise: when `y` starts no deeper than any entry of `x`,
   * the forest of `x + y` is the forest of `x` followed by the forest of `y`.
   */
  lemma {:induction false} BuildAppend(x: seq<TocEntry>, y: seq<TocEntry>)
    requires y != [] ==> forall i :: 0 <= i < |x| ==> y[0].level <= x[i].level
    ensures Build(x + y) == Build(x) + Build(y)
    decreases |x|
  {
    if x == [] {
      assert x + y == y;
    } else {
      var k := 1 + DeeperRun(x[1..], x[0].level);
      FirstNodeAppend(x, y);
      BuildUnfold(x);
      BuildAppend(x[k..], y);
      ConcatAssoc([Node(x[0], Build(x[1..k]))], Build(x[k..]), Build(y));
    }
  }

  /** The tree holds every entry exactly once: its pre-order is the input order. */
  lemma {:induction false} BuildPreorder(es: seq<TocEntry>)
    ensures Flatten(Build(es)) == es
    decreases |es|
  {
    if es != [] {
      var k := 1 + DeeperRun(es[1..], es[0].level);
      var inner, rest := es[1..k], es[k..];
      BuildUnfold(es);
      FlattenCons(Node(es[0], Build(inner)), Build(rest));
      BuildPreorder(inner);
      BuildPreorder(rest);
      assert Flatten(Build(es)) == [es[0]] + inner + rest;
      SplitJoin(es, k);
    }
  }

  /** Every node's descendants are strictly deeper than the node itself. */
  ghost predicate Nested(f: seq<Node>)
  {
    f == [] ||
    ((forall e :: e in Flatten(f[0].children) ==> e.level > f[0].entry.level) &&
     Nested(f[0].children) && Nested(f[1..]))
  }

  lemma {:induction false} BuildNested(es: seq<TocEntry>)
    ensures Nested(Build(es))
    decreases |es|
  {
    if es != [] {
      var k := 1 + DeeperRun(es[1..], es[0].level);
      BuildUnfold(es);
      var f := Build(es);
      assert f[0] == Node(es[0], Build(es[1..k])) && f[1..] == Build(es[k..]);
      BuildPreorder(es[1..k]);
      ChildRun(es);
      BuildNested(es[1..k]);
      BuildNested(es[k..]);
    }
  }

  function Roots(f: seq<Node>): (r: seq<TocEntry>)
    ensures |r| == |f|
  {
    if f == [] then [] else [f[0].entry] + Roots(f[1..])
  }

  /** Entries whose level is not deeper than every level seen before them (bounded by `bound`). */
  function RunningMinima(es: seq<TocEntry>, bound: int): seq<TocEntry>
  {
    if es == [] then []
    else if es[0].level <= bound then [es[0]] + RunningMinima(es[1..], es[0].level)
    else RunningMinima(es[1..], bound)
  }

  /** The top-level entries: the first one, then each one no deeper than all before it. */
  function TopLevel(es: seq<TocEntry>): seq<TocEntry>
  {
    if es == [] then [] else [es[0]] + RunningMinima(es[1..], es[0].level)
  }

  lemma {:induction false} RunningMinimaSkip(a: seq<TocEntry>, b: seq<TocEntry>, bound: int)
    requires forall e :: e in a ==> e.level > bound
    ensures RunningMinima(a + b, bound) == RunningMinima(b, bound)
  {
    if a == [] {
      assert a + b == b;
    } else {
      assert (a + b)[0] == a[0] && (a + b)[1..] == a[1..] + b;
      RunningMinimaSkip(a[1..], b, bound);
    }
  }

  lemma RootsCons(n: Node, rest: seq<Node>)
    ensures Roots([n] + rest) == [n.entry] + Roots(rest)
  {
    assert ([n] + rest)[1..] == rest;
  }

  /** Below a bound the first entry already meets, the running minima are the top level. */
  lemma RunningMinimaTop(s: seq<TocEntry>, bound: int)
    requires s != [] ==> s[0].level <= bound
    ensures RunningMinima(s, bound) == TopLevel(s)
  {
  }

  /**
   * The roots of the tree are exactly the entries that no earlier entry is shallower
   * than: an entry becomes a child only of an earlier, strictly shallower entry.
   */
  lemma {:induction false} BuildRoots(es: seq<TocEntry>)
    ensures Roots(Build(es)) == TopLevel(es)
    decreases |es|
  {
    if es != [] {
      var k := 1 + DeeperRun(es[1..], es[0].level);
      var inner, rest := es[1..k], es[k..];
      BuildUnfold(es);
      RootsCons(Node(es[0], Build(inner)), Build(rest));
      BuildRoots(rest);
      TailSplit(es, k);
      ChildRun(es);
      RunningMinimaSkip(inner, rest, es[0].level);
      RunningMinimaTop(rest, es[0].level);
    }
  }

  /**
   * The shape a stack of open headings produces: every node's descendants are
   * strictly deeper than the node, and a following sibling is never deeper than the
   * node before it (a deeper one would still have that node open as its parent).
   */
  ghost predicate Canonical(f: seq<Node>)
  {
    f == [] ||
    ((forall e :: e in Flatten(f[0].children) ==> e.level > f[0].entry.level) &&
     (|f| > 1 ==> f[1].entry.level <= f[0].entry.level) &&
     Canonical(f[0].children) && Canonical(f[1..]))
  }

  /** A node and its following siblings form a canonical forest when each part is canonical and the two meet the shape. */
  lemma CanonicalCons(n: Node, rest: seq<Node>)
    requires forall e :: e in Flatten(n.children) ==> e.level > n.entry.level
    requires rest != [] ==> rest[0].entry.level <= n.entry.level
    requires Canonical(n.children) && Canonical(rest)
    ensures Canonical([n] + rest)
  {
    assert ([n] + rest)[0] == n && ([n] + rest)[1..] == rest;
  }

  /** The first node of a tree is the first entry. */
  lemma BuildHead(es: seq<TocEntry>)
    requires es != []
    ensures Build(es) != [] && Build(es)[0].entry == es[0]
  {
    BuildUnfold(es);
  }

  /** One step of BuildCanonical: the node of an entry over its deeper run, then the rest. */
  lemma CanonicalStep(e: TocEntry, inner: seq<TocEntry>, rest: seq<TocEntry>)
    requires forall x :: x in inner ==> x.level > e.level
    requires rest != [] ==> rest[0].level <= e.level
    requires Canonical(Build(inner)) && Canonical(Build(rest))
    ensures Canonical([Node(e, Build(inner))] + Build(rest))
  {
    BuildPreorder(inner);
    if rest != [] {
      BuildHead(rest);
    }
    CanonicalCons(Node(e, Build(inner)), Build(rest));
  }

  lemma {:induction false} BuildCanonical(es: seq<TocEntry>)
    ensures Canonical(Build(es))
    decreases |es|
  {
    if es != [] {
      var k := 1 + DeeperRun(es[1..], es[0].level);
      BuildUnfold(es);
      ChildRun(es);
      BuildCanonical(es[1..k]);
      BuildCanonical(es[k..]);
      CanonicalStep(es[0], es[1..k], es[k..]);
    }
  }

  /** The facts a canonical forest gives about its first node, in the form BuildNode takes. */
  lemma CanonicalFirst(f: seq<Node>)
    requires f != [] && Canonical(f)
    ensures var c, r := Flatten(f[0].children), Flatten(f[1..]);
            Flatten(f) == [f[0].entry] + c + r &&
            (forall i :: 0 <= i < |c| ==> c[i].level > f[0].entry.level) &&
            (r != [] ==> r[0].level <= f[0].entry.level) &&
            Canonical(f[0].children) && Canonical(f[1..])
  {
    var c := Flatten(f[0].children);
    assert forall i :: 0 <= i < |c| ==> c[i] in c;
    if f[1..] != [] {
      assert f[1..][0] == f[1];
    }
  }

  lemma ForestSplit(f: seq<Node>)
    requires f != []
    ensures f == [Node(f[0].entry, f[0].children)] + f[1..]
  {
    assert f[0] == Node(f[0].entry, f[0].children);
  }

  /** A canonical forest is the tree of its own pre-order. */
  lemma {:induction false} CanonicalUnique(f: seq<Node>)
    requires Canonical(f)
    ensures Build(Flatten(f)) == f
    decreases |Flatten(f)|
  {
    if f != [] {
      CanonicalFirst(f);
      BuildNode(f[0].entry, Flatten(f[0].children), Flatten(f[1..]));
      CanonicalUnique(f[0].children);
      CanonicalUnique(f[1..]);
      ForestSplit(f);
    }
  }

  /**
   * Build is pinned down: its result is the one canonical forest whose pre-order is
   * the input, so every entry's parent is the nearest earlier, strictly shallower entry.
   */
  lemma BuildCharacterized(es: seq<TocEntry>, f: seq<Node>)
    ensures Build(es) == f <==> Canonical(f) && Flatten(f) == es
  {
    BuildCanonical(es);
    BuildPreorder(es);
    if Canonical(f) && Flatten(f) == es {
      CanonicalUnique(f);
    }
  }

  function Max(a: int, b: int): int { if a < b then b else a }

  /** The number of nested lists needed to show the tree. */
  function Height(f: seq<Node>): nat
  {
    if f == [] then 0 else Max(1 + Height(f[0].children), Height(f[1..]))
  }

  /** Skipped levels invent nothing: the tree is no deeper than the number of levels it spans. */
  lemma {:induction false} HeightBound(f: seq<Node>, lo: int, hi: int)
    requires Nested(f)
    requires forall e :: e in Flatten(f) ==> lo <= e.level <= hi
    ensures Height(f) <= if f == [] then 0 else hi - lo + 1
  {
    if f != [] {
      var n := f[0];
      assert Flatten(f) == [n.entry] + Flatten(n.children) + Flatten(f[1..]);
      assert lo <= n.entry.level <= hi;
      HeightBound(n.children, n.entry.level + 1, hi);
      HeightBound(f[1..], lo, hi);
    }
  }

  /** The list markup, as a sequence of tokens. */
  datatype Token =
    | ListOpen(tag: string, depth: nat)  // <ol class="toc-hN"> or <ul class="toc-hN">
    | ListClose(tag: string)
    | ItemOpen
    | ItemClose
    | Link(href: string, text: string)  // <a href="...">escaped text</a>
    | Newline

  function LinkOf(e: TocEntry): Token { Link(e.file, e.title) }

  /** The items of one list; a nested list opens under an item only when it has children. */
  function ListItems(tag: string, f: seq<Node>, depth: nat): seq<Token>
  {
    if f == [] then []
    else
      [ItemOpen, LinkOf(f[0].entry)]
      + (if f[0].children == [] then []
         else [Newline, ListOpen(tag, depth + 1)] + ListItems(tag, f[0].children, depth + 1) + [ListClose(tag)])
      + [ItemClose, Newline]
      + ListItems(tag, f[1..], depth)
  }

  /** The nested rendering: one `toc-h1` list holding the tree. */
  function NestedList(tag: string, f: seq<Node>): (r: seq<Token>)
    ensures |r| >= 2 && r[0] == ListOpen(tag, 1) && r[|r| - 1] == ListClose(tag)
  {
    [ListOpen(tag, 1)] + ListItems(tag, f, 1) + [ListClose(tag)]
  }

  function FlatItems(es: seq<TocEntry>): seq<Token>
  {
    if es == [] then [] else [ItemOpen, LinkOf(es[0]), ItemClose, Newline] + FlatItems(es[1..])
  }

  /** The flat rendering: one list of every entry in order, whatever its level. */
  function FlatList(es: seq<TocEntry>): (r: seq<Token>)
    ensures |r| >= 4 && r[0] == ListOpen("ul", 1) && r[|r| - 2] == ListClose("ul")
  {
    [ListOpen("ul", 1), Newline] + FlatItems(es) + [ListClose("ul"), Newline]
  }

  /** The links of a token sequence, in order. */
  function Links(ts: seq<Token>): seq<Token>
  {
    if ts == [] then [] else (if ts[0].Link? then [ts[0]] else []) + Links(ts[1..])
  }

  function EntryLinks(es: seq<TocEntry>): (r: seq<Token>)
    ensures |r| == |es|
  {
    if es == [] then [] else [LinkOf(es[0])] + EntryLinks(es[1..])
  }

  lemma {:induction false} LinksAppend(a: seq<Token>, b: seq<Token>)
    ensures Links(a + b) == Links(a) + Links(b)
  {
    if a == [] {
      assert a + b == b;
    } else {
      assert (a + b)[0] == a[0] && (a + b)[1..] == a[1..] + b;
      LinksAppend(a[1..], b);
    }
  }

  lemma {:induction false} EntryLinksAppend(a: seq<TocEntry>, b: seq<TocEntry>)
    ensures EntryLinks(a + b) == EntryLinks(a) + EntryLinks(b)
  {
    if a == [] {
      assert a + b == b;
    } else {
      assert (a + b)[0] == a[0] && (a + b)[1..] == a[1..] + b;
      EntryLinksAppend(a[1..], b);
    }
  }

  lemma LinksSingle(t: Token)
    ensures Links([t]) == if t.Link? then [t] else []
  {
    assert [t][1..] == [];
  }

  lemma LinksPair(a: Token, b: Token)
    ensures Links([a, b]) == Links([a]) + Links([b])
  {
    LinksAppend([a], [b]);
    assert [a] + [b] == [a, b];
  }

  /** The markup around one item carries its link and nothing else. */
  lemma ItemFrameLinks(e: TocEntry)
    ensures Links([ItemOpen, LinkOf(e)]) == [LinkOf(e)] && Links([ItemClose, Newline]) == []
  {
    LinksPair(ItemOpen, LinkOf(e));
    LinksSingle(ItemOpen);
    LinksSingle(LinkOf(e));
    LinksPair(ItemClose, Newline);
    LinksSingle(ItemClose);
    LinksSingle(Newline);
  }

  /** Opening and closing a nested list adds no link. */
  lemma SubListLinks(tag: string, depth: nat, sub: seq<Token>)
    ensures Links([Newline, ListOpen(tag, depth)] + sub + [ListClose(tag)]) == Links(sub)
  {
    LinksPair(Newline, ListOpen(tag, depth));
    LinksSingle(Newline);
    LinksSingle(ListOpen(tag, depth));
    LinksSingle(ListClose(tag));
    LinksAppend([Newline, ListOpen(tag, depth)], sub);
    LinksAppend([Newline, ListOpen(tag, depth)] + sub, [ListClose(tag)]);
  }

  lemma LinksConcat4(a: seq<Token>, b: seq<Token>, c: seq<Token>, d: seq<Token>)
    ensures Links(a + b + c + d) == Links(a) + Links(b) + Links(c) + Links(d)
  {
    LinksAppend(a, b);
    LinksAppend(a + b, c);
    LinksAppend(a + b + c, d);
  }

  lemma EntryLinksNode(e: TocEntry, a: seq<TocEntry>, b: seq<TocEntry>)
    ensures EntryLinks([e] + a + b) == [LinkOf(e)] + EntryLinks(a) + EntryLinks(b)
  {
    EntryLinksAppend([e] + a, b);
    EntryLinksAppend([e], a);
    assert [e][1..] == [];
  }

  /** The items of a forest are the items of its first tree followed by the items of the others. */
  lemma ListItemsCons(tag: string, f: seq<Node>, depth: nat)
    requires f != []
    ensures ListItems(tag, f, depth) == ListItems(tag, [f[0]], depth) + ListItems(tag, f[1..], depth)
  {
    assert [f[0]][1..] == [];
  }

  /** One item links its entry, then whatever its nested list links. */
  lemma ItemLinks(tag: string, n: Node, depth: nat)
    requires Links(ListItems(tag, n.children, depth + 1)) == EntryLinks(Flatten(n.children))
    ensures Links(ListItems(tag, [n], depth)) == [LinkOf(n.entry)] + EntryLinks(Flatten(n.children))
  {
    var head := [ItemOpen, LinkOf(n.entry)];
    var tail := [ItemClose, Newline];
    var sub := ListItems(tag, n.children, depth + 1);
    var inner := if n.children == [] then [] else [Newline, ListOpen(tag, depth + 1)] + sub + [ListClose(tag)];
    assert [n][1..] == [];
    assert ListItems(tag, [n], depth) == head + inner + tail + [];
    ItemFrameLinks(n.entry);
    if n.children != [] {
      SubListLinks(tag, depth + 1, sub);
    }
    LinksConcat4(head, inner, tail, []);
  }

  lemma {:induction false} ListItemsLinks(tag: string, f: seq<Node>, depth: nat)
    ensures Links(ListItems(tag, f, depth)) == EntryLinks(Flatten(f))
  {
    if f != [] {
      var n := f[0];
      ListItemsLinks(tag, n.children, depth + 1);
      ItemLinks(tag, n, depth);
      ListItemsLinks(tag, f[1..], depth);
      ListItemsCons(tag, f, depth);
      LinksAppend(ListItems(tag, [n], depth), ListItems(tag, f[1..], depth));
      assert f == [n] + f[1..];
      FlattenCons(n, f[1..]);
      EntryLinksNode(n.entry, Flatten(n.children), Flatten(f[1..]));
    }
  }

  lemma {:induction false} FlatItemsLinks(es: seq<TocEntry>)
    ensures Links(FlatItems(es)) == EntryLinks(es)
  {
    if es != [] {
      var item := [ItemOpen, LinkOf(es[0]), ItemClose, Newline];
      assert item == [ItemOpen, LinkOf(es[0])] + [ItemClose, Newline];
      LinksAppend([ItemOpen, LinkOf(es[0])], [ItemClose, Newline]);
      LinksPair(ItemOpen, LinkOf(es[0]));
      LinksSingle(ItemOpen);
      LinksSingle(LinkOf(es[0]));
      LinksPair(ItemClose, Newline);
      LinksSingle(ItemClose);
      LinksSingle(Newline);
      FlatItemsLinks(es[1..]);
      LinksAppend(item, FlatItems(es[1..]));
    }
  }

  /** The nested list links every entry once, in the input order. */
  lemma NestedListLinks(tag: string, es: seq<TocEntry>)
    ensures Links(NestedList(tag, Build(es))) == EntryLinks(es)
  {
    ListItemsLinks(tag, Build(es), 1);
    BuildPreorder(es);
    LinksAppend([ListOpen(tag, 1)], ListItems(tag, Build(es), 1));
    LinksAppend([ListOpen(tag, 1)] + ListItems(tag, Build(es), 1), [ListClose(tag)]);
  }

  /** The flat list links every entry once, in the input order. */
  lemma FlatListLinks(es: seq<TocEntry>)
    ensures Links(FlatList(es)) == EntryLinks(es)
  {
    FlatItemsLinks(es);
    LinksAppend([ListOpen("ul", 1), Newline], FlatItems(es));
    LinksAppend([ListOpen("ul", 1), Newline] + FlatItems(es), [ListClose("ul"), Newline]);
  }

  /** Flat mode shows exactly the entries of nested mode, in the same order. */
  lemma FlatMatchesNested(tag: string, es: seq<TocEntry>)
    ensures Links(FlatList(es)) == Links(NestedList(tag, Build(es)))
  {
    FlatListLinks(es);
    NestedListLinks(tag, es);
  }
}

module TocRender {
  import opened Wrappers
  import opened Content
  import opened Registry
  import opened Toc
  import Text

  /** Lists opened inside the items of `f` are deeper than `depth` and fewer than Height(f) levels below it. */
  lemma {:induction false} ListItemsDepths(tag: string, f: seq<Node>, depth: nat)
    ensures forall t :: t in ListItems(tag, f, depth) && t.ListOpen? ==> depth < t.depth < depth + Height(f)
  {
    if f != [] {
      var n := f[0];
      var sub := ListItems(tag, n.children, depth + 1);
      var inner := if n.children == [] then [] else [Newline, ListOpen(tag, depth + 1)] + sub + [ListClose(tag)];
      var rest := ListItems(tag, f[1..], depth);
      assert ListItems(tag, f, depth) == [ItemOpen, LinkOf(n.entry)] + inner + [ItemClose, Newline] + rest;
      ListItemsDepths(tag, n.children, depth + 1);
      ListItemsDepths(tag, f[1..], depth);
      assert n.children != [] ==> Height(n.children) >= 1;
    }
  }

  /**
   * With a depth limit of `depth` and headings numbered from 1, the nested TOC opens
   * lists `toc-h1` to `toc-h<depth>` only: deeper headings never reach the markup.
   */
  lemma NestedListDepth(tag: string, cs: seq<Content>, depth: int)
    requires 1 <= depth
    requires forall c :: c in cs && c.level.Some? ==> c.level.value >= 1
    ensures forall t :: t in NestedList(tag, Build(NavEntries(cs, depth))) && t.ListOpen? ==> 1 <= t.depth <= depth
  {
    var es := NavEntries(cs, depth);
    var f := Build(es);
    NavEntriesMembers(cs, depth);
    BuildPreorder(es);
    BuildNested(es);
    HeightBound(f, 1, depth);
    ListItemsDepths(tag, f, 1);
  }

  function Digits(n: nat): string
  {
    if n < 10 then [('0' as int + n) as char] else Digits(n / 10) + [('0' as int + n % 10) as char]
  }

  /** The markup of one token; link text is escaped, the target is written as it is. */
  function TokenText(t: Token): string
  {
    match t
    case ListOpen(tag, d) => "<" + tag + " class=\"toc-h" + Digits(d) + "\">"
    case ListClose(tag) => "</" + tag + ">"
    case ItemOpen => "<li>"
    case ItemClose => "</li>"
    case Link(href, text) => "<a href=\"" + href + "\">" + Text.Escape(text) + "</a>"
    case Newline => "\n"
  }

  function ToText(ts: seq<Token>): (r: string)
    ensures |r| >= |ts|
  {
    if ts == [] then "" else TokenText(ts[0]) + ToText(ts[1..])
  }

  /** A TOC document: its language, its (localized) title, whether it is the navigation landmark, its list. */
  datatype TocDocument = TocDocument(language: string, title: string, landmark: bool, list: seq<Token>)

  /** `ncx`: the navigation document, always nested, with `ol` lists. */
  function Ncx(params: Params, cs: seq<Content>, res: string -> string, depth: int): (r: Result<TocDocument, string>)
    ensures r.Success? <==> TextParam(params, "language").Some?
    ensures r.Success? ==> r.value.landmark && |r.value.list| >= 2 && r.value.list[0] == ListOpen("ol", 1)
    ensures r.Success? ==> Links(r.value.list) == EntryLinks(NavEntries(cs, depth))
    ensures r.Success? ==> r.value.language == TextParam(params, "language").value && r.value.title == res("toctitle")
    ensures r.Success? ==> r.value.list == NestedList("ol", Build(NavEntries(cs, depth)))
  {
    match TextParam(params, "language")
    case None => Failure("language")
    case Some(lang) =>
      var es := NavEntries(cs, depth);
      NestedListLinks("ol", es);
      Success(TocDocument(lang, res("toctitle"), true, NestedList("ol", Build(es))))
  }

  /** `mytoc`: the human TOC page with `ul` lists, flat when `flattoc` is set. */
  function MyToc(params: Params, cs: seq<Content>, res: string -> string, depth: int): (r: Result<TocDocument, string>)
    ensures r.Success? <==> TextParam(params, "language").Some?
    ensures r.Success? ==> !r.value.landmark && |r.value.list| >= 2 && r.value.list[0] == ListOpen("ul", 1)
    ensures r.Success? ==> Links(r.value.list) == EntryLinks(NavEntries(cs, depth))
    ensures r.Success? && FlagParam(params, "flattoc") ==> forall t :: t in r.value.list && t.ListOpen? ==> t.depth == 1
    ensures r.Success? ==> r.value.language == TextParam(params, "language").value && r.value.title == res("toctitle")
    ensures r.Success? && FlagParam(params, "flattoc") ==> r.value.list == FlatList(NavEntries(cs, depth))
    ensures r.Success? && !FlagParam(params, "flattoc") ==> r.value.list == NestedList("ul", Build(NavEntries(cs, depth)))
  {
    match TextParam(params, "language")
    case None => Failure("language")
    case Some(lang) =>
      var es := NavEntries(cs, depth);
      if FlagParam(params, "flattoc") then
        FlatListLinks(es);
        FlatListDepth(es);
        Success(TocDocument(lang, res("toctitle"), false, FlatList(es)))
      else
        NestedListLinks("ul", es);
        Success(TocDocument(lang, res("toctitle"), false, NestedList("ul", Build(es))))
  }

  lemma {:induction false} FlatItemsNoLists(es: seq<TocEntry>)
    ensures forall t :: t in FlatItems(es) ==> !t.ListOpen?
  {
    if es != [] {
      FlatItemsNoLists(es[1..]);
    }
  }

  /** The flat list opens one list only. */
  lemma FlatListDepth(es: seq<TocEntry>)
    ensures forall t :: t in FlatList(es) && t.ListOpen? ==> t.depth == 1
  {
    FlatItemsNoLists(es);
  }
}
