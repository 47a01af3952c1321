/**
 Bundles (core/assets/bundle.cpp): a directory of files, the extents that tile what
 follows it, validation of both, and lookup by path. The directory is the tree that
 its document stands for.
 */
module Bundles {
  import opened LogicalPaths
  import opened Sequences

  /** A bundle directory; the physical spelling is stored only where it differs from the name. */
  datatype Entry = Folder(name: string, physical: string, entries: seq<Entry>)
                 | Blob(name: string, physical: string, offset: nat, size: nat)

  // ---------------------------------------------------------------------
  // Extents

  const ALIGNMENT := 128

  /** Content, a terminating zero, and padding to the alignment. */
  function Reserved(size: nat): (r: nat)
    ensures r % ALIGNMENT == 0 && size < r <= size + ALIGNMENT
  {
    (size + 128) / 128 * 128
  }

  datatype Extent = Extent(offset: nat, end: nat)

  /** How many extents cover a position. */
  function Covering(es: seq<Extent>, p: nat): nat {
    if es == [] then 0 else One(es[0].offset <= p < es[0].end) + Covering(es[1..], p)
  }

  ghost predicate CoveredOnce(es: seq<Extent>, p: nat) {
    Covering(es, p) == 1
  }

  ghost predicate Inside(es: seq<Extent>, lo: nat, hi: nat) {
    forall i :: 0 <= i < |es| ==> lo <= es[i].offset < es[i].end <= hi
  }

  /** The extents lie between two positions and cover each position there exactly once. */
  ghost predicate Tiles(es: seq<Extent>, lo: nat, hi: nat) {
    lo <= hi && Inside(es, lo, hi) && forall p :: lo <= p < hi ==> CoveredOnce(es, p)
  }

  /** Each extent begins where the one before it ends. */
  predicate Chain(es: seq<Extent>, lo: nat, hi: nat) {
    if es == [] then lo == hi else es[0].offset == lo && Chain(es[1..], es[0].end, hi)
  }

  predicate Ordered(es: seq<Extent>) {
    forall i, j :: 0 <= i < j < |es| ==> es[i].offset <= es[j].offset
  }

  lemma {:induction false} CoversSome(es: seq<Extent>, p: nat, i: nat)
    requires i < |es| && es[i].offset <= p < es[i].end
    ensures Covering(es, p) > 0
  {
    if i > 0 { CoversSome(es[1..], p, i - 1); }
  }

  lemma {:induction false} CoveredBy(es: seq<Extent>, p: nat) returns (i: nat)
    requires Covering(es, p) > 0
    ensures i < |es| && es[i].offset <= p < es[i].end
  {
    if es[0].offset <= p < es[0].end { i := 0; } else {
      i := CoveredBy(es[1..], p);
      i := i + 1;
    }
  }

  lemma {:induction false} CoversNone(es: seq<Extent>, p: nat)
    requires forall i :: 0 <= i < |es| ==> p < es[i].offset
    ensures Covering(es, p) == 0
  {
    if es != [] { CoversNone(es[1..], p); }
  }

  lemma {:induction false} ChainInside(es: seq<Extent>, lo: nat, hi: nat)
    requires Chain(es, lo, hi) && forall i :: 0 <= i < |es| ==> es[i].offset < es[i].end
    ensures lo <= hi && Inside(es, lo, hi)
  {
    if es != [] {
      ChainInside(es[1..], es[0].end, hi);
      forall i | 0 <= i < |es| ensures lo <= es[i].offset < es[i].end <= hi {
        if i > 0 { assert es[1..][i - 1] == es[i]; }
      }
    }
  }

  /** A chain tiles. */
  lemma {:induction false} ChainTiles(es: seq<Extent>, lo: nat, hi: nat)
    requires Chain(es, lo, hi) && forall i :: 0 <= i < |es| ==> es[i].offset < es[i].end
    ensures Tiles(es, lo, hi)
  {
    ChainInside(es, lo, hi);
    if es != [] {
      ChainTiles(es[1..], es[0].end, hi);
      forall p | lo <= p < hi ensures CoveredOnce(es, p) {
        if p < es[0].end { CoversNone(es[1..], p); } else { assert CoveredOnce(es[1..], p); }
      }
    }
  }

  lemma NothingTiled(lo: nat, hi: nat)
    ensures Tiles([], lo, hi) ==> lo == hi
  {
    if lo < hi { assert !CoveredOnce([], lo); }
  }

  /** Ordered extents that tile form a chain. */
  lemma {:induction false} TilesChain(es: seq<Extent>, lo: nat, hi: nat)
    requires Tiles(es, lo, hi) && Ordered(es)
    ensures Chain(es, lo, hi)
  {
    if es == [] {
      NothingTiled(lo, hi);
    } else {
      var first, rest := es[0], es[1..];
      assert lo < hi && CoveredOnce(es, lo);
      var k := CoveredBy(es, lo);
      forall i | 0 <= i < |rest| ensures first.end <= rest[i].offset < rest[i].end <= hi {
        assert rest[i] == es[i + 1];
        var p := rest[i].offset;
        if p < first.end {
          assert CoveredOnce(es, p);
          CoversSome(rest, p, i);
        }
      }
      forall p | first.end <= p < hi ensures CoveredOnce(rest, p) { assert CoveredOnce(es, p); }
      TilesChain(rest, first.end, hi);
    }
  }

  // Sorting extents by offset.

  function Insert(e: Extent, es: seq<Extent>): seq<Extent> {
    if es == [] || e.offset <= es[0].offset then [e] + es else [es[0]] + Insert(e, es[1..])
  }

  function Sorted(es: seq<Extent>): seq<Extent> {
    if es == [] then [] else Insert(es[0], Sorted(es[1..]))
  }

  lemma {:induction false} InsertMembers(e: Extent, es: seq<Extent>, x: Extent)
    ensures x in Insert(e, es) <==> x == e || x in es
  {
    if es != [] && e.offset > es[0].offset { InsertMembers(e, es[1..], x); }
  }

  lemma OrderedCons(e: Extent, es: seq<Extent>)
    requires Ordered(es) && forall x :: x in es ==> e.offset <= x.offset
    ensures Ordered([e] + es)
  {
    var r := [e] + es;
    forall i, j | 0 <= i < j < |r| ensures r[i].offset <= r[j].offset { assert r[j] == es[j - 1]; }
  }

  lemma {:induction false} InsertOrdered(e: Extent, es: seq<Extent>)
    requires Ordered(es)
    ensures Ordered(Insert(e, es))
  {
    if es != [] && e.offset > es[0].offset {
      InsertOrdered(e, es[1..]);
      forall x | x in Insert(e, es[1..]) ensures es[0].offset <= x.offset { InsertMembers(e, es[1..], x); }
      OrderedCons(es[0], Insert(e, es[1..]));
    } else {
      OrderedCons(e, es);
    }
  }

  lemma {:induction false} InsertCovers(e: Extent, es: seq<Extent>, p: nat)
    ensures Covering(Insert(e, es), p) == One(e.offset <= p < e.end) + Covering(es, p)
  {
    if es != [] && e.offset > es[0].offset { InsertCovers(e, es[1..], p); }
    else { assert ([e] + es)[1..] == es; }
  }

  lemma {:induction false} SortedMembers(es: seq<Extent>, x: Extent)
    ensures x in Sorted(es) <==> x in es
  {
    if es != [] {
      SortedMembers(es[1..], x);
      InsertMembers(es[0], Sorted(es[1..]), x);
    }
  }

  lemma {:induction false} SortedOrdered(es: seq<Extent>)
    ensures Ordered(Sorted(es))
  {
    if es != [] {
      SortedOrdered(es[1..]);
      InsertOrdered(es[0], Sorted(es[1..]));
    }
  }

  lemma {:induction false} SortedCovers(es: seq<Extent>, p: nat)
    ensures Covering(Sorted(es), p) == Covering(es, p)
  {
    if es != [] {
      SortedCovers(es[1..], p);
      InsertCovers(es[0], Sorted(es[1..]), p);
    }
  }

  lemma {:induction false} SortedInside(es: seq<Extent>, lo: nat, hi: nat)
    ensures Inside(Sorted(es), lo, hi) <==> Inside(es, lo, hi)
  {
    forall x ensures x in Sorted(es) <==> x in es { SortedMembers(es, x); }
    hide Sorted;
    var s := Sorted(es);
    assert Inside(es, lo, hi) <==> forall x :: x in es ==> lo <= x.offset < x.end <= hi;
    assert Inside(s, lo, hi) <==> forall x :: x in s ==> lo <= x.offset < x.end <= hi;
  }

  lemma {:induction false} SortedTiles(es: seq<Extent>, lo: nat, hi: nat)
    ensures Tiles(Sorted(es), lo, hi) <==> Tiles(es, lo, hi)
  {
    hide Covering, Sorted, Inside;
    SortedInside(es, lo, hi);
    forall p ensures Covering(Sorted(es), p) == Covering(es, p) { SortedCovers(es, p); }
    if Tiles(es, lo, hi) {
      forall p | lo <= p < hi ensures CoveredOnce(Sorted(es), p) { assert CoveredOnce(es, p); }
    }
    if Tiles(Sorted(es), lo, hi) {
      forall p | lo <= p < hi ensures CoveredOnce(es, p) { assert CoveredOnce(Sorted(es), p); }
    }
  }

  /** Walks the extents in the order of their offsets: they tile if and only if none leaves a gap or overlaps. */
  method CheckTiling(es: seq<Extent>, lo: nat, hi: nat) returns (ok: bool)
    requires forall i :: 0 <= i < |es| ==> es[i].offset < es[i].end
    ensures ok <==> Tiles(es, lo, hi)
  {
    hide Tiles, Sorted, Covering;
    var sorted := Sorted(es);
    SortedOrdered(es);
    SortedTiles(es, lo, hi);
    NonEmptySorted(es);
    if Tiles(sorted, lo, hi) { TilesChain(sorted, lo, hi); }
    var next := lo;
    for i := 0 to |sorted|
      invariant Chain(sorted[i..], next, hi) <==> Chain(sorted, lo, hi)
    {
      assert sorted[i..][1..] == sorted[i + 1..];
      if sorted[i].offset != next { return false; }
      next := sorted[i].end;
    }
    ok := next == hi;
    if ok { ChainTiles(sorted, lo, hi); }
  }

  lemma {:induction false} NonEmptySorted(es: seq<Extent>)
    requires forall i :: 0 <= i < |es| ==> es[i].offset < es[i].end
    ensures forall i :: 0 <= i < |Sorted(es)| ==> Sorted(es)[i].offset < Sorted(es)[i].end
  {
    var s := Sorted(es);
    forall i | 0 <= i < |s| ensures s[i].offset < s[i].end { SortedMembers(es, s[i]); }
  }

  function ExtentsOf(e: Entry): seq<Extent> {
    match e
    case Blob(_, _, offset, size) => [Extent(offset, offset + Reserved(size))]
    case Folder(_, _, entries) => ExtentsAll(entries)
  }

  function ExtentsAll(es: seq<Entry>): seq<Extent> {
    if es == [] then [] else ExtentsOf(es[0]) + ExtentsAll(es[1..])
  }

  lemma {:induction false} ExtentsFull(es: seq<Entry>)
    ensures forall i :: 0 <= i < |ExtentsAll(es)| ==> ExtentsAll(es)[i].offset < ExtentsAll(es)[i].end
    decreases es, 0
  {
    hide Reserved;
    if es != [] {
      ExtentsFull(es[1..]);
      EntryFull(es[0]);
    }
  }

  lemma {:induction false} EntryFull(e: Entry)
    ensures forall i :: 0 <= i < |ExtentsOf(e)| ==> ExtentsOf(e)[i].offset < ExtentsOf(e)[i].end
    decreases e, 1
  {
    hide Reserved;
    if e.Folder? { ExtentsFull(e.entries); }
  }


  // ---------------------------------------------------------------------
  // Validation

  /** What validation asks of one entry. */
  predicate EntryOk(e: Entry, base: nat, bytes: seq<bv8>) {
    && IsComponent(e.name) && Fold(e.name) == e.name
    && (e.physical != e.name ==> IsComponent(e.physical) && Fold(e.physical) == Fold(e.name))
    && match e
       case Folder(_, _, entries) => entries != []
       case Blob(_, _, offset, size) =>
         && 0 < size <= |bytes| && base <= offset < |bytes| && offset % ALIGNMENT == 0
         && offset + Reserved(size) <= |bytes| && bytes[offset + size] == 0
  }

  predicate AllOk(es: seq<Entry>, base: nat, bytes: seq<bv8>) {
    es == [] || (EntryOk(es[0], base, bytes) && (es[0].Folder? ==> AllOk(es[0].entries, base, bytes)) && AllOk(es[1..], base, bytes))
  }

  /** A valid bundle: sound entries all the way down, and extents that tile what follows the directory. */
  ghost predicate ValidBundle(es: seq<Entry>, base: nat, bytes: seq<bv8>) {
    es != [] && AllOk(es, base, bytes) && Tiles(ExtentsAll(es), base, |bytes|)
  }

  function Weight(es: seq<Entry>): nat {
    if es == [] then 0 else 1 + (if es[0].Folder? then Weight(es[0].entries) else 0) + Weight(es[1..])
  }

  lemma {:induction false} JoinOk(a: seq<Entry>, b: seq<Entry>, base: nat, bytes: seq<bv8>)
    ensures AllOk(a + b, base, bytes) <==> AllOk(a, base, bytes) && AllOk(b, base, bytes)
  {
    hide EntryOk;
    if a == [] { assert a + b == b; } else {
      JoinOk(a[1..], b, base, bytes);
      assert (a + b)[1..] == a[1..] + b;
    }
  }

  lemma {:induction false} ExtentsCons(es: seq<Entry>)
    requires es != []
    ensures ExtentsAll(es) == ExtentsOf(es[0]) + ExtentsAll(es[1..])
  {
  }

  lemma Associate(x: seq<Extent>, y: seq<Extent>, z: seq<Extent>)
    ensures x + (y + z) == x + y + z
  {
  }

  lemma {:induction false} JoinExtents(a: seq<Entry>, b: seq<Entry>)
    ensures ExtentsAll(a + b) == ExtentsAll(a) + ExtentsAll(b)
  {
    if a == [] {
      assert a + b == b && [] + ExtentsAll(b) == ExtentsAll(b);
    } else {
      hide ExtentsOf, ExtentsAll;
      JoinExtents(a[1..], b);
      assert (a + b)[1..] == a[1..] + b;
      ExtentsCons(a + b);
      ExtentsCons(a);
      Associate(ExtentsOf(a[0]), ExtentsAll(a[1..]), ExtentsAll(b));
    }
  }

  lemma {:induction false} JoinWeight(a: seq<Entry>, b: seq<Entry>)
    ensures Weight(a + b) == Weight(a) + Weight(b)
  {
    if a == [] { assert a + b == b; } else {
      JoinWeight(a[1..], b);
      assert (a + b)[1..] == a[1..] + b;
    }
  }

  method CheckEntry(e: Entry, base: nat, bytes: seq<bv8>) returns (ok: bool)
    ensures ok <==> EntryOk(e, base, bytes)
  {
    hide IsComponent, Fold, Reserved;
    ok := CheckComponent(e.name);
    if ok { ok := IsFolded(e.name); }
    if !ok { return; }
    if e.physical != e.name {
      ok := CheckComponent(e.physical);
      if ok { ok := CaseEqual(e.name, e.physical); }
      if !ok { return; }
    }
    if e.Folder? { return e.entries != []; }
    if e.size == 0 || e.size > |bytes| || e.offset < base || e.offset >= |bytes| || e.offset % ALIGNMENT != 0 { return false; }
    if e.offset + Reserved(e.size) > |bytes| { return false; }
    ReservedMore(e.size);
    ok := bytes[e.offset + e.size] == 0;
  }

  lemma ReservedMore(size: nat)
    ensures size < Reserved(size)
  {
  }

  /** Walks the directory in preorder, collecting extents, and then checks that they tile. */
  method Validate(es: seq<Entry>, base: nat, bytes: seq<bv8>) returns (ok: bool)
    ensures ok <==> ValidBundle(es, base, bytes)
  {
    hide EntryOk, Tiles, Reserved;
    if |es| == 0 { return false; }
    var pending := es;
    var extents: seq<Extent> := [];
    assert [] + ExtentsAll(es) == ExtentsAll(es);
    while pending != []
      invariant AllOk(es, base, bytes) <==> AllOk(pending, base, bytes)
      invariant ExtentsAll(es) == extents + ExtentsAll(pending)
      decreases Weight(pending)
    {
      var entry, rest := pending[0], pending[1..];
      ok := CheckEntry(entry, base, bytes);
      if !ok { return; }
      assert extents + (ExtentsOf(entry) + ExtentsAll(rest)) == extents + ExtentsOf(entry) + ExtentsAll(rest);
      if entry.Folder? {
        JoinOk(entry.entries, rest, base, bytes);
        JoinExtents(entry.entries, rest);
        JoinWeight(entry.entries, rest);
        pending := entry.entries + rest;
      } else {
        extents := extents + [Extent(entry.offset, entry.offset + Reserved(entry.size))];
        pending := rest;
      }
    }
    assert extents + [] == extents;
    ExtentsFull(es);
    ok := CheckTiling(extents, base, |bytes|);
  }

  // ---------------------------------------------------------------------
  // Lookup

  datatype Lookup = Found(offset: nat, size: nat) | NotFile | NotFound | InvalidPath

  /** The first entry whose name folds like a component; their number when there is none. */
  function IndexOf(es: seq<Entry>, component: string): (i: nat)
    ensures i <= |es| && (i < |es| ==> Fold(es[i].name) == Fold(component))
    ensures forall j :: 0 <= j < i ==> Fold(es[j].name) != Fold(component)
  {
    if es == [] || Fold(es[0].name) == Fold(component) then 0 else IndexOf(es[1..], component) + 1
  }

  function Find(es: seq<Entry>, components: seq<string>): Lookup
    requires components != []
    decreases |components|
  {
    var i := IndexOf(es, components[0]);
    if i == |es| then NotFound
    else
      match es[i]
      case Folder(_, _, entries) => if |components| == 1 then NotFile else Find(entries, components[1..])
      case Blob(_, _, offset, size) => if |components| == 1 then Found(offset, size) else NotFound
  }

  method FindName(es: seq<Entry>, component: string) returns (i: nat)
    ensures i == IndexOf(es, component)
  {
    hide Fold;
    i := 0;
    while i < |es|
      invariant i <= |es| && IndexOf(es, component) == i + IndexOf(es[i..], component)
    {
      assert es[i..][1..] == es[i + 1..];
      var same := CaseEqual(es[i].name, component);
      if same { return; }
      i := i + 1;
    }
  }

  lemma {:induction false} WalkedPart(path: string, before: seq<string>, start: nat, i: nat)
    requires Walked(path, before, start) && start <= i <= |path| && (i < |path| ==> path[i] == '/') && forall k :: start <= k < i ==> path[k] != '/'
    ensures |before| < |Components(path)| && Components(path)[|before|] == path[start..i]
    ensures |before| + 1 == |Components(path)| <==> i == |path|
  {
    NextComponent(path, start, i);
  }

  /** Looks a path up, component by component; the whole path is checked before. */
  method LookUp(root: seq<Entry>, path: string) returns (r: Lookup)
    ensures r == if IsFilePath(path) then Find(root, Components(path)) else InvalidPath
  {
    hide Components, IsComponent, Walked, IndexOf, Slash;
    var valid := CheckFilePath(path);
    if !valid { return InvalidPath; }
    var content := root;
    var start := 0;
    WalkBegins(path);
    ghost var before: seq<string> := [];
    assert Components(path)[0..] == Components(path);
    for i := 0 to |path| + 1
      invariant start <= i && Walked(path, before, start) && i <= |path|
      invariant forall k :: start <= k < i ==> path[k] != '/'
      invariant |before| < |Components(path)| && Find(root, Components(path)) == Find(content, Components(path)[|before|..])
    {
      if i != |path| && path[i] != '/' { continue; }
      WalkedPart(path, before, start, i);
      WalkSteps(path, before, start, i);
      var component := path[start..i];
      var index := FindName(content, component);
      ghost var cs := Components(path)[|before|..];
      assert cs[0] == component && cs[1..] == Components(path)[|before| + 1..];
      if index == |content| { return NotFound; }
      var entry := content[index];
      if i == |path| { return if entry.Folder? then NotFile else Found(entry.offset, entry.size); }
      if entry.Blob? { return NotFound; }
      content := entry.entries;
      before := before + [component];
      start := i + 1;
    }
  }

  /** A blob stands at exactly this path. */
  ghost predicate HasBlob(es: seq<Entry>, path: seq<string>, offset: nat, size: nat)
    decreases |path|
  {
    path != [] && exists e :: e in es && BlobAt(e, path, offset, size)
  }

  ghost predicate BlobAt(e: Entry, path: seq<string>, offset: nat, size: nat)
    requires path != []
    decreases |path|, 0
  {
    && e.name == path[0]
    && (if |path| == 1 then e.Blob? && e.offset == offset && e.size == size else e.Folder? && HasBlob(e.entries, path[1..], offset, size))
  }

  /** Names are folded, and siblings have different names, all the way down. */
  predicate Named(es: seq<Entry>)
    decreases es, 0
  {
    es == [] || (Fold(es[0].name) == es[0].name && (forall i :: 0 < i < |es| ==> es[i].name != es[0].name) && NamedWithin(es[0]) && Named(es[1..]))
  }

  predicate NamedWithin(e: Entry)
    decreases e, 1
  {
    e.Folder? ==> Named(e.entries)
  }

  lemma {:induction false} NamedAt(es: seq<Entry>, i: nat, j: nat)
    requires Named(es) && i < |es| && j < |es|
    ensures Fold(es[i].name) == es[i].name && NamedWithin(es[i]) && (i != j ==> es[i].name != es[j].name)
  {
    hide Fold, NamedWithin;
    if i > 0 && j > 0 { NamedAt(es[1..], i - 1, j - 1); }
    if i > 0 && j == 0 { NamedAt(es[1..], i - 1, i - 1); }
  }

  function FoldAll(components: seq<string>): (f: seq<string>)
    ensures |f| == |components|
  {
    seq(|components|, i requires 0 <= i < |components| => Fold(components[i]))
  }

  /** Lookup finds a file with exactly its range if and only if it stands at the folded path. */
  lemma {:induction false} FindExact(es: seq<Entry>, components: seq<string>, offset: nat, size: nat)
    requires Named(es) && components != []
    ensures Find(es, components) == Found(offset, size) <==> HasBlob(es, FoldAll(components), offset, size)
    decreases |components|
  {
    hide Fold, Named;
    var path := FoldAll(components);
    var i := IndexOf(es, components[0]);
    assert path[1..] == FoldAll(components[1..]);
    if i < |es| {
      NamedAt(es, i, i);
      if |components| > 1 && es[i].Folder? { FindExact(es[i].entries, components[1..], offset, size); }
    }
    if HasBlob(es, path, offset, size) {
      var e :| e in es && BlobAt(e, path, offset, size);
      var j :| 0 <= j < |es| && es[j] == e;
      NamedAt(es, j, j);
      if i < |es| { NamedAt(es, i, j); }
    }
    if Find(es, components) == Found(offset, size) { assert es[i] in es && BlobAt(es[i], path, offset, size); }
  }
}
