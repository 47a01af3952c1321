/**
 Building a bundle (core/assets/bundle_builder.cpp): an inventory is copied into
 records in preorder, the sizes of its files are asked for, what holds no content is
 pruned, siblings are sorted, the contents are laid out one after another, and the
 files are read to where the plan puts them.
 */
module BundleBuilder {
  import opened LogicalPaths
  import opened Bundles
  import Requests
  import opened Sequences

  datatype Option<T> = None | Some(value: T)

  /** An inventory: directories, files with the content their paths lead to, and what is neither. */
  datatype Source = SourceDir(name: string, physical: string, entries: seq<Source>)
                  | SourceFile(name: string, physical: string, content: seq<bv8>)
                  | SourceOther(name: string, physical: string)

  const CEILING := 0x8000_0000


  // ---------------------------------------------------------------------
  // What is worth keeping

  /** A file with content, or a directory with something worth keeping in it. */
  ghost predicate Kept(s: Source) {
    match s
    case SourceFile(_, _, content) => content != []
    case SourceOther(_, _) => false
    case SourceDir(_, _, entries) => KeptAmong(entries)
  }

  ghost predicate KeptAmong(ss: seq<Source>) {
    exists s :: s in ss && Kept(s)
  }

  ghost function PruneAll(ss: seq<Source>): seq<Source> {
    if ss == [] then []
    else (if Kept(ss[0]) then [Pruned(ss[0])] else []) + PruneAll(ss[1..])
  }

  ghost function Pruned(s: Source): Source {
    if s.SourceDir? then s.(entries := PruneAll(s.entries)) else s
  }

  // ---------------------------------------------------------------------
  // Files by path

  /** A file of this content stands at this path. */
  ghost predicate HasFile(ss: seq<Source>, path: seq<string>, content: seq<bv8>)
    decreases |path|
  {
    path != [] && exists s :: s in ss && IsAt(s, path, content)
  }

  ghost predicate IsAt(s: Source, path: seq<string>, content: seq<bv8>)
    requires path != []
    decreases |path|, 0
  {
    && s.name == path[0]
    && (if |path| == 1 then s.SourceFile? && s.content == content else s.SourceDir? && HasFile(s.entries, path[1..], content))
  }

  lemma {:induction false} PruneMembers(ss: seq<Source>, x: Source)
    ensures x in PruneAll(ss) <==> exists s :: s in ss && Kept(s) && x == Pruned(s)
  {
    hide Kept, Pruned;
    if ss != [] {
      PruneMembers(ss[1..], x);
      if x in PruneAll(ss) {
        if x in PruneAll(ss[1..]) {
          var s :| s in ss[1..] && Kept(s) && x == Pruned(s);
          assert s in ss;
        } else {
          assert ss[0] in ss;
        }
      }
      if s :| s in ss && Kept(s) && x == Pruned(s) {
        if s != ss[0] { assert s in ss[1..]; }
      }
    }
  }

  /** Pruning keeps exactly the files with content. */
  lemma {:induction false} PrunedFiles(ss: seq<Source>, path: seq<string>, content: seq<bv8>)
    ensures HasFile(PruneAll(ss), path, content) <==> content != [] && HasFile(ss, path, content)
    decreases |path|
  {
    hide PruneAll;
    if HasFile(PruneAll(ss), path, content) {
      var x :| x in PruneAll(ss) && IsAt(x, path, content);
      PruneMembers(ss, x);
      var s :| s in ss && Kept(s) && x == Pruned(s);
      if |path| > 1 { PrunedFiles(s.entries, path[1..], content); }
      assert IsAt(s, path, content);
    }
    if content != [] && HasFile(ss, path, content) {
      var s :| s in ss && IsAt(s, path, content);
      if |path| > 1 {
        PrunedFiles(s.entries, path[1..], content);
        FileKeeps(s.entries, path[1..], content);
      }
      PruneMembers(ss, Pruned(s));
      assert IsAt(Pruned(s), path, content);
    }
  }

  lemma {:induction false} FileKeeps(ss: seq<Source>, path: seq<string>, content: seq<bv8>)
    requires content != [] && HasFile(ss, path, content)
    ensures KeptAmong(ss)
    decreases |path|
  {
    var s :| s in ss && IsAt(s, path, content);
    if |path| > 1 { FileKeeps(s.entries, path[1..], content); }
    assert Kept(s);
  }

  // Siblings in the order of their names.

  predicate Before(a: string, b: string) {
    b != "" && (a == "" || a[0] < b[0] || (a[0] == b[0] && Before(a[1..], b[1..])))
  }

  function InsertName(s: Source, ss: seq<Source>): seq<Source> {
    if ss == [] || !Before(ss[0].name, s.name) then [s] + ss else [ss[0]] + InsertName(s, ss[1..])
  }

  function SortNames(ss: seq<Source>): seq<Source> {
    if ss == [] then [] else InsertName(SortWithin(ss[0]), SortNames(ss[1..]))
  }

  function SortWithin(s: Source): Source {
    if s.SourceDir? then s.(entries := SortNames(s.entries)) else s
  }

  lemma {:induction false} InsertNameMembers(s: Source, ss: seq<Source>, x: Source)
    ensures x in InsertName(s, ss) <==> x == s || x in ss
  {
    if ss != [] && Before(ss[0].name, s.name) { InsertNameMembers(s, ss[1..], x); }
  }

  lemma {:induction false} SortMembers(ss: seq<Source>, x: Source)
    ensures x in SortNames(ss) <==> exists s :: s in ss && x == SortWithin(s)
  {
    hide SortWithin, InsertName;
    if ss != [] {
      SortMembers(ss[1..], x);
      InsertNameMembers(SortWithin(ss[0]), SortNames(ss[1..]), x);
      if x in SortNames(ss) {
        if x in SortNames(ss[1..]) {
          var s :| s in ss[1..] && x == SortWithin(s);
          assert s in ss;
        } else {
          assert ss[0] in ss;
        }
      }
      if s :| s in ss && x == SortWithin(s) {
        if s != ss[0] { assert s in ss[1..]; }
      }
    }
  }

  /** Sorting moves no file. */
  lemma {:induction false} SortedFiles(ss: seq<Source>, path: seq<string>, content: seq<bv8>)
    ensures HasFile(SortNames(ss), path, content) <==> HasFile(ss, path, content)
    decreases |path|
  {
    hide SortNames;
    if HasFile(SortNames(ss), path, content) {
      var x :| x in SortNames(ss) && IsAt(x, path, content);
      SortMembers(ss, x);
      var s :| s in ss && x == SortWithin(s);
      if |path| > 1 { SortedFiles(s.entries, path[1..], content); }
      assert IsAt(s, path, content);
    }
    if HasFile(ss, path, content) {
      var s :| s in ss && IsAt(s, path, content);
      if |path| > 1 { SortedFiles(s.entries, path[1..], content); }
      SortMembers(ss, SortWithin(s));
      assert IsAt(SortWithin(s), path, content);
    }
  }

  // ---------------------------------------------------------------------
  // Planning offsets

  /** Where the extents of entries end that begin at `start`. */
  function End(s: Source, start: nat): nat {
    match s
    case SourceFile(_, _, content) => start + Reserved(|content|)
    case SourceOther(_, _) => start
    case SourceDir(_, _, entries) => EndAll(entries, start)
  }

  function EndAll(ss: seq<Source>, start: nat): nat {
    if ss == [] then start else EndAll(ss[1..], End(ss[0], start))
  }

  function Planned(s: Source, start: nat): Entry {
    match s
    case SourceFile(name, physical, content) => Blob(name, physical, start, |content|)
    case SourceOther(name, physical) => Folder(name, physical, [])
    case SourceDir(name, physical, entries) => Folder(name, physical, PlanAll(entries, start))
  }

  function PlanAll(ss: seq<Source>, start: nat): (es: seq<Entry>)
    ensures |es| == |ss|
  {
    if ss == [] then [] else [Planned(ss[0], start)] + PlanAll(ss[1..], End(ss[0], start))
  }

  lemma {:induction false} ChainJoin(a: seq<Extent>, b: seq<Extent>, lo: nat, mid: nat, hi: nat)
    requires Chain(a, lo, mid) && Chain(b, mid, hi)
    ensures Chain(a + b, lo, hi)
  {
    if a == [] { assert a + b == b; } else {
      ChainJoin(a[1..], b, a[0].end, mid, hi);
      assert (a + b)[1..] == a[1..] + b;
    }
  }

  /** The planned extents follow one another without a gap. */
  lemma {:induction false} PlanChains(s: Source, start: nat)
    ensures Chain(ExtentsOf(Planned(s, start)), start, End(s, start))
    decreases s, 1
  {
    hide Reserved;
    if s.SourceDir? { PlanAllChains(s.entries, start); }
    if s.SourceFile? { assert ExtentsOf(Planned(s, start))[1..] == []; }
  }

  lemma {:induction false} PlanAllChains(ss: seq<Source>, start: nat)
    ensures Chain(ExtentsAll(PlanAll(ss, start)), start, EndAll(ss, start))
    decreases ss, 0
  {
    if ss != [] {
      PlanChains(ss[0], start);
      PlanAllChains(ss[1..], End(ss[0], start));
      var es := PlanAll(ss, start);
      assert es[1..] == PlanAll(ss[1..], End(ss[0], start));
      ChainJoin(ExtentsOf(es[0]), ExtentsAll(es[1..]), start, End(ss[0], start), EndAll(ss, start));
    }
  }

  /** The planned extents tile the bundle from the end of its directory on. */
  lemma {:induction false} PlanTiles(ss: seq<Source>, base: nat)
    ensures Tiles(ExtentsAll(PlanAll(ss, base)), base, EndAll(ss, base))
  {
    PlanAllChains(ss, base);
    ExtentsFull(PlanAll(ss, base));
    ChainTiles(ExtentsAll(PlanAll(ss, base)), base, EndAll(ss, base));
  }

  // ---------------------------------------------------------------------
  // What is built from an inventory is valid

  /** What building asks of an inventory. */
  predicate NameOk(name: string, physical: string) {
    IsComponent(name) && Fold(name) == name && IsComponent(physical) && Fold(physical) == Fold(name)
  }

  predicate InputOk(s: Source)
    decreases s, 1
  {
    NameOk(s.name, s.physical) && (s.SourceDir? ==> AllInputOk(s.entries))
  }

  predicate AllInputOk(ss: seq<Source>)
    decreases ss, 0
  {
    ss == [] || (InputOk(ss[0]) && AllInputOk(ss[1..]))
  }

  /** What is left after pruning: files with content, directories that are not empty, all named well. */
  predicate Ready(s: Source)
    decreases s, 1
  {
    NameOk(s.name, s.physical) && !s.SourceOther? && (s.SourceFile? ==> s.content != []) && (s.SourceDir? ==> s.entries != [] && AllReady(s.entries))
  }

  predicate AllReady(ss: seq<Source>)
    decreases ss, 0
  {
    ss == [] || (Ready(ss[0]) && AllReady(ss[1..]))
  }

  lemma {:induction false} PrunedReady(ss: seq<Source>)
    requires AllInputOk(ss)
    ensures AllReady(PruneAll(ss))
    decreases ss, 0
  {
    if ss != [] {
      PrunedReady(ss[1..]);
      if Kept(ss[0]) {
        EntryReady(ss[0]);
        assert PruneAll(ss)[1..] == PruneAll(ss[1..]);
      } else {
        assert PruneAll(ss) == PruneAll(ss[1..]);
      }
    }
  }

  lemma {:induction false} EntryReady(s: Source)
    requires InputOk(s) && Kept(s)
    ensures Ready(Pruned(s))
    decreases s, 1
  {
    if s.SourceDir? {
      PrunedReady(s.entries);
      var k :| k in s.entries && Kept(k);
      PruneMembers(s.entries, Pruned(k));
    }
  }

  lemma {:induction false} InsertReady(s: Source, ss: seq<Source>)
    requires Ready(s) && AllReady(ss)
    ensures AllReady(InsertName(s, ss))
  {
    hide Ready;
    if ss != [] && Before(ss[0].name, s.name) { InsertReady(s, ss[1..]); }
  }

  lemma {:induction false} SortedReady(ss: seq<Source>)
    requires AllReady(ss)
    ensures AllReady(SortNames(ss)) && |SortNames(ss)| == |ss|
    decreases ss, 0
  {
    if ss != [] {
      SortedReady(ss[1..]);
      WithinReady(ss[0]);
      InsertReady(SortWithin(ss[0]), SortNames(ss[1..]));
      InsertSize(SortWithin(ss[0]), SortNames(ss[1..]));
    }
  }

  lemma {:induction false} WithinReady(s: Source)
    requires Ready(s)
    ensures Ready(SortWithin(s))
    decreases s, 1
  {
    if s.SourceDir? { SortedReady(s.entries); }
  }

  lemma {:induction false} InsertSize(s: Source, ss: seq<Source>)
    ensures |InsertName(s, ss)| == |ss| + 1
  {
    if ss != [] && Before(ss[0].name, s.name) { InsertSize(s, ss[1..]); }
  }

  lemma {:induction false} PlanGrows(ss: seq<Source>, start: nat)
    ensures start <= EndAll(ss, start) && (start % ALIGNMENT == 0 ==> EndAll(ss, start) % ALIGNMENT == 0)
    decreases ss, 0
  {
    if ss != [] {
      EndGrows(ss[0], start);
      PlanGrows(ss[1..], End(ss[0], start));
    }
  }

  lemma {:induction false} EndGrows(s: Source, start: nat)
    ensures start <= End(s, start) && (start % ALIGNMENT == 0 ==> End(s, start) % ALIGNMENT == 0)
    decreases s, 1
  {
    if s.SourceDir? { PlanGrows(s.entries, start); }
  }

  // ---------------------------------------------------------------------
  // Contents in the order of the plan

  function ContentsOf(s: Source): seq<seq<bv8>>
    decreases s, 1
  {
    match s
    case SourceFile(_, _, content) => [content]
    case SourceOther(_, _) => []
    case SourceDir(_, _, entries) => ContentsAll(entries)
  }

  function ContentsAll(ss: seq<Source>): seq<seq<bv8>>
    decreases ss, 0
  {
    if ss == [] then [] else ContentsOf(ss[0]) + ContentsAll(ss[1..])
  }

  lemma {:induction false} ContentsFit(s: Source, start: nat)
    ensures |ExtentsOf(Planned(s, start))| == |ContentsOf(s)|
    decreases s, 1
  {
    if s.SourceDir? { ContentsAllFit(s.entries, start); }
  }

  lemma {:induction false} ContentsAllFit(ss: seq<Source>, start: nat)
    ensures |ExtentsAll(PlanAll(ss, start))| == |ContentsAll(ss)|
    decreases ss, 0
  {
    if ss != [] {
      ContentsFit(ss[0], start);
      ContentsAllFit(ss[1..], End(ss[0], start));
      assert PlanAll(ss, start)[1..] == PlanAll(ss[1..], End(ss[0], start));
    }
  }

  method WriteAt(bytes: array<bv8>, offset: nat, content: seq<bv8>)
    requires offset + |content| <= bytes.Length
    modifies bytes
    ensures bytes[..] == old(bytes[..offset]) + content + old(bytes[offset + |content|..])
  {
    forall p | offset <= p < offset + |content| { bytes[p] := content[p - offset]; }
  }

  /** The content of an extent is in place, and a zero after it. */
  predicate InPlace(bytes: seq<bv8>, e: Extent, content: seq<bv8>) {
    e.offset + |content| < e.end <= |bytes| && bytes[e.offset..e.offset + |content|] == content && bytes[e.offset + |content|] == 0
  }

  predicate Blank(bytes: seq<bv8>, from: nat) {
    forall p :: from <= p < |bytes| ==> bytes[p] == 0
  }

  /** Writing one content keeps what lies before it and leaves blank what lies after it. */
  lemma WriteKeeps(bytes: seq<bv8>, e: Extent, content: seq<bv8>)
    requires e.offset + |content| < e.end <= |bytes| && Blank(bytes, e.offset)
    ensures var bytes' := bytes[..e.offset] + content + bytes[e.offset + |content|..];
      && |bytes'| == |bytes| && InPlace(bytes', e, content) && Blank(bytes', e.end) && bytes'[..e.offset] == bytes[..e.offset]
  {
    var bytes' := bytes[..e.offset] + content + bytes[e.offset + |content|..];
    forall p | e.offset + |content| <= p < |bytes| ensures bytes'[p] == bytes[p] {}
  }

  lemma InPlaceBefore(bytes: seq<bv8>, bytes': seq<bv8>, n: nat, e: Extent, content: seq<bv8>)
    requires n <= |bytes| == |bytes'| && bytes'[..n] == bytes[..n] && e.end <= n && InPlace(bytes, e, content)
    ensures InPlace(bytes', e, content)
  {
    forall p | 0 <= p < n ensures bytes'[p] == bytes[p] { assert bytes'[..n][p] == bytes[..n][p]; }
  }

  /** Reading contents into a zeroed bundle leaves each in its extent with a zero after it, and the directory as it was. */
  method ReadContents(extents: seq<Extent>, contents: seq<seq<bv8>>, base: nat, bytes: array<bv8>)
    requires |extents| == |contents| && Chain(extents, base, bytes.Length)
    requires forall i :: 0 <= i < |extents| ==> extents[i].offset + |contents[i]| < extents[i].end
    requires Blank(bytes[..], base)
    modifies bytes
    ensures AllInPlace(bytes[..], extents, contents)
    ensures base <= bytes.Length && bytes[..base] == old(bytes[..base])
  {
    hide Chain, InPlace, Blank;
    ChainInside(extents, base, bytes.Length);
    ChainSteps(extents, base, bytes.Length);
    ghost var n := base;
    for i := 0 to |extents|
      invariant base <= n <= bytes.Length && Blank(bytes[..], n) && bytes[..base] == old(bytes[..base])
      invariant if i < |extents| then n <= extents[i].offset else true
      invariant forall k :: 0 <= k < i ==> extents[k].end <= n && InPlace(bytes[..], extents[k], contents[k])
    {
      ghost var before := bytes[..];
      BlankLater(before, n, extents[i].offset);
      WriteKeeps(before, extents[i], contents[i]);
      WriteAt(bytes, extents[i].offset, contents[i]);
      forall k | 0 <= k < i ensures InPlace(bytes[..], extents[k], contents[k]) {
        InPlaceBefore(before, bytes[..], extents[i].offset, extents[k], contents[k]);
      }
      PrefixKept(before, bytes[..], extents[i].offset, base);
      n := extents[i].end;
    }
  }

  lemma BlankLater(bytes: seq<bv8>, n: nat, m: nat)
    requires Blank(bytes, n) && n <= m
    ensures Blank(bytes, m)
  {
  }

  lemma PrefixKept(a: seq<bv8>, b: seq<bv8>, n: nat, m: nat)
    requires m <= n <= |a| == |b| && b[..n] == a[..n]
    ensures b[..m] == a[..m]
  {
    assert b[..m] == b[..n][..m] && a[..m] == a[..n][..m];
  }

  /** Contents in place are terminated. */
  lemma {:induction false} ChainSteps(es: seq<Extent>, lo: nat, hi: nat)
    requires Chain(es, lo, hi) && forall i :: 0 <= i < |es| ==> es[i].offset < es[i].end
    ensures forall i, j :: 0 <= i < j < |es| ==> es[i].end <= es[j].offset
  {
    if es != [] {
      ChainSteps(es[1..], es[0].end, hi);
      ChainInside(es[1..], es[0].end, hi);
      forall i, j | 0 <= i < j < |es| ensures es[i].end <= es[j].offset {
        assert es[1..][j - 1] == es[j];
        if i > 0 { assert es[1..][i - 1] == es[i]; }
      }
    }
  }

  /** Every content is in its extent, and a zero follows it. */
  ghost predicate AllInPlace(bytes: seq<bv8>, es: seq<Extent>, contents: seq<seq<bv8>>) {
    |es| == |contents| && forall i :: 0 <= i < |es| ==> InPlace(bytes, es[i], contents[i])
  }

  lemma PlacedParts(bytes: seq<bv8>, a: seq<Extent>, b: seq<Extent>, x: seq<seq<bv8>>, y: seq<seq<bv8>>)
    requires AllInPlace(bytes, a + b, x + y) && |a| == |x| && |b| == |y|
    ensures AllInPlace(bytes, a, x) && AllInPlace(bytes, b, y)
  {
    hide InPlace;
    forall i | 0 <= i < |a| ensures InPlace(bytes, a[i], x[i]) { assert (a + b)[i] == a[i] && (x + y)[i] == x[i]; }
    forall i | 0 <= i < |b| ensures InPlace(bytes, b[i], y[i]) { assert (a + b)[|a| + i] == b[i] && (x + y)[|x| + i] == y[i]; }
  }

  /** What is in place for entries is in place for the first and for the rest of them. */
  lemma {:induction false} PlacedSplit(ss: seq<Source>, start: nat, bytes: seq<bv8>)
    requires ss != [] && AllInPlace(bytes, ExtentsAll(PlanAll(ss, start)), ContentsAll(ss))
    ensures AllInPlace(bytes, ExtentsOf(Planned(ss[0], start)), ContentsOf(ss[0]))
    ensures AllInPlace(bytes, ExtentsAll(PlanAll(ss[1..], End(ss[0], start))), ContentsAll(ss[1..]))
  {
    hide AllInPlace;
    var es := PlanAll(ss, start);
    assert es[1..] == PlanAll(ss[1..], End(ss[0], start));
    ContentsFit(ss[0], start);
    ContentsAllFit(ss[1..], End(ss[0], start));
    PlacedParts(bytes, ExtentsOf(es[0]), ExtentsAll(es[1..]), ContentsOf(ss[0]), ContentsAll(ss[1..]));
  }

  lemma {:induction false} PlanOk(ss: seq<Source>, start: nat, base: nat, bytes: seq<bv8>)
    requires AllReady(ss) && base <= start && start % ALIGNMENT == 0 && EndAll(ss, start) <= |bytes|
    requires AllInPlace(bytes, ExtentsAll(PlanAll(ss, start)), ContentsAll(ss))
    ensures AllOk(PlanAll(ss, start), base, bytes)
    decreases ss, 0
  {
    hide Reserved, IsComponent, Fold, AllInPlace;
    if ss != [] {
      var next := End(ss[0], start);
      assert PlanAll(ss, start)[1..] == PlanAll(ss[1..], next);
      EndGrows(ss[0], start);
      PlanGrows(ss[1..], next);
      PlacedSplit(ss, start, bytes);
      PlannedOk(ss[0], start, base, bytes);
      PlanOk(ss[1..], next, base, bytes);
    }
  }

  lemma {:induction false} PlannedOk(s: Source, start: nat, base: nat, bytes: seq<bv8>)
    requires Ready(s) && base <= start && start % ALIGNMENT == 0 && End(s, start) <= |bytes|
    requires AllInPlace(bytes, ExtentsOf(Planned(s, start)), ContentsOf(s))
    ensures EntryOk(Planned(s, start), base, bytes) && (s.SourceDir? ==> AllOk(Planned(s, start).entries, base, bytes))
    decreases s, 1
  {
    hide IsComponent, Fold;
    if s.SourceDir? { PlanOk(s.entries, start, base, bytes); }
    if s.SourceFile? {
      assert InPlace(bytes, ExtentsOf(Planned(s, start))[0], ContentsOf(s)[0]);
      ReservedMore(|s.content|);
    }
  }

  /** The directory planned for an inventory, and where its contents end. */
  ghost function Directory(ss: seq<Source>, base: nat): seq<Entry> {
    PlanAll(SortNames(PruneAll(ss)), base)
  }

  ghost function TotalSize(ss: seq<Source>, base: nat): nat {
    EndAll(SortNames(PruneAll(ss)), base)
  }

  /** The contents to read, in the order of the plan. */
  ghost function Kepts(ss: seq<Source>): seq<seq<bv8>> {
    ContentsAll(SortNames(PruneAll(ss)))
  }

  lemma {:induction false} SortedPruneReady(ss: seq<Source>)
    requires AllInputOk(ss)
    ensures AllReady(SortNames(PruneAll(ss))) && (SortNames(PruneAll(ss)) != [] <==> KeptAmong(ss))
  {
    hide AllReady, Kept;
    PrunedReady(ss);
    SortedReady(PruneAll(ss));
    PrunedSome(ss);
  }

  lemma {:induction false} PrunedSome(ss: seq<Source>)
    ensures PruneAll(ss) != [] <==> KeptAmong(ss)
  {
    hide PruneAll, Kept;
    if k :| k in ss && Kept(k) { PruneMembers(ss, Pruned(k)); }
    if PruneAll(ss) != [] { PruneMembers(ss, PruneAll(ss)[0]); }
  }

  /** What is built from any inventory with something to keep is a valid bundle, once its contents are in place. */
  lemma {:induction false} BuiltValid(ss: seq<Source>, base: nat, bytes: seq<bv8>)
    requires AllInputOk(ss) && KeptAmong(ss) && base % ALIGNMENT == 0 && |bytes| == TotalSize(ss, base)
    requires AllInPlace(bytes, ExtentsAll(Directory(ss, base)), Kepts(ss))
    ensures ValidBundle(Directory(ss, base), base, bytes)
  {
    hide Tiles, AllOk, AllInPlace, AllReady;
    SortedPruneReady(ss);
    PlanOk(SortNames(PruneAll(ss)), base, base, bytes);
    PlanTiles(SortNames(PruneAll(ss)), base);
  }

  /** A blob at this path has these bytes. */
  ghost predicate Holds(es: seq<Entry>, bytes: seq<bv8>, path: seq<string>, content: seq<bv8>) {
    exists offset: nat :: HasBlob(es, path, offset, |content|) && Reads(bytes, offset, content)
  }

  predicate Reads(bytes: seq<bv8>, offset: nat, content: seq<bv8>) {
    offset + |content| <= |bytes| && bytes[offset..offset + |content|] == content
  }

  ghost predicate HoldsAt(e: Entry, bytes: seq<bv8>, path: seq<string>, content: seq<bv8>)
    requires path != []
  {
    exists offset: nat :: BlobAt(e, path, offset, |content|) && Reads(bytes, offset, content)
  }

  lemma SplitBlobs(es: seq<Entry>, bytes: seq<bv8>, path: seq<string>, content: seq<bv8>)
    requires es != [] && path != []
    ensures Holds(es, bytes, path, content) <==> HoldsAt(es[0], bytes, path, content) || Holds(es[1..], bytes, path, content)
  {
    hide BlobAt, Reads;
    assert forall e :: e in es <==> e == es[0] || e in es[1..];
    if Holds(es, bytes, path, content) {
      var offset: nat :| HasBlob(es, path, offset, |content|) && Reads(bytes, offset, content);
      var e :| e in es && BlobAt(e, path, offset, |content|);
      if e != es[0] { assert HasBlob(es[1..], path, offset, |content|); }
    }
    if HoldsAt(es[0], bytes, path, content) {
      var offset: nat :| BlobAt(es[0], path, offset, |content|) && Reads(bytes, offset, content);
      assert HasBlob(es, path, offset, |content|);
    }
    if Holds(es[1..], bytes, path, content) {
      var offset: nat :| HasBlob(es[1..], path, offset, |content|) && Reads(bytes, offset, content);
      assert HasBlob(es, path, offset, |content|);
    }
  }

  lemma {:induction false} SplitFiles(ss: seq<Source>, path: seq<string>, content: seq<bv8>)
    requires ss != [] && path != []
    ensures HasFile(ss, path, content) <==> IsAt(ss[0], path, content) || HasFile(ss[1..], path, content)
  {
    hide IsAt;
    assert forall s :: s in ss <==> s == ss[0] || s in ss[1..];
    if IsAt(ss[0], path, content) { assert ss[0] in ss; }
  }

  /** With the contents in place, the blobs of a plan read as the files of what was planned. */
  lemma {:induction false} PlannedFiles(ss: seq<Source>, start: nat, bytes: seq<bv8>, path: seq<string>, content: seq<bv8>)
    requires AllInPlace(bytes, ExtentsAll(PlanAll(ss, start)), ContentsAll(ss))
    ensures Holds(PlanAll(ss, start), bytes, path, content) <==> HasFile(ss, path, content)
    decreases |path|, 1, |ss|
  {
    if path != [] && ss != [] {
      hide HasFile, Holds, HoldsAt, BlobAt, IsAt, Planned, AllInPlace;
      var es, next := PlanAll(ss, start), End(ss[0], start);
      PlacedSplit(ss, start, bytes);
      PlannedFiles(ss[1..], next, bytes, path, content);
      PlannedEntry(ss[0], start, bytes, path, content);
      assert es[1..] == PlanAll(ss[1..], next);
      SplitBlobs(es, bytes, path, content);
      SplitFiles(ss, path, content);
    }
  }

  lemma {:induction false} PlannedEntry(s: Source, start: nat, bytes: seq<bv8>, path: seq<string>, content: seq<bv8>)
    requires path != [] && AllInPlace(bytes, ExtentsOf(Planned(s, start)), ContentsOf(s))
    ensures HoldsAt(Planned(s, start), bytes, path, content) <==> IsAt(s, path, content)
    decreases |path|, 0, 0
  {
    hide HasFile, HasBlob;
    var e := Planned(s, start);
    if |path| == 1 {
      if s.SourceFile? {
        assert InPlace(bytes, ExtentsOf(e)[0], ContentsOf(s)[0]);
        assert Reads(bytes, start, s.content);
        if IsAt(s, path, content) { assert BlobAt(e, path, start, |content|); }
      }
    } else if s.SourceDir? {
      PlannedFiles(s.entries, start, bytes, path[1..], content);
      if HoldsAt(e, bytes, path, content) {
        var offset: nat :| BlobAt(e, path, offset, |content|) && Reads(bytes, offset, content);
        assert HasBlob(e.entries, path[1..], offset, |content|);
        assert Holds(e.entries, bytes, path[1..], content);
      }
      if IsAt(s, path, content) {
        var offset: nat :| HasBlob(e.entries, path[1..], offset, |content|) && Reads(bytes, offset, content);
        assert BlobAt(e, path, offset, |content|);
      }
    } else {
      NothingBelow(s, start, bytes, path, content);
    }
  }

  lemma {:induction false} NothingAt(e: Entry, path: seq<string>, offset: nat, size: nat)
    requires |path| > 1 && (e.Folder? ==> e.entries == [])
    ensures !BlobAt(e, path, offset, size)
  {
    if e.Folder? { assert !HasBlob([], path[1..], offset, size); }
  }

  lemma {:induction false} NothingBelow(s: Source, start: nat, bytes: seq<bv8>, path: seq<string>, content: seq<bv8>)
    requires |path| > 1 && !s.SourceDir?
    ensures !HoldsAt(Planned(s, start), bytes, path, content)
  {
    var e := Planned(s, start);
    forall offset: nat ensures !BlobAt(e, path, offset, |content|) { NothingAt(e, path, offset, |content|); }
  }

  /** In the bundle built from an inventory stand exactly the inventory's files with content, with their contents. */
  lemma {:induction false} BuiltFiles(ss: seq<Source>, base: nat, bytes: seq<bv8>, path: seq<string>, content: seq<bv8>)
    requires AllInPlace(bytes, ExtentsAll(Directory(ss, base)), Kepts(ss))
    ensures Holds(Directory(ss, base), bytes, path, content) <==> content != [] && HasFile(ss, path, content)
  {
    hide HasFile, Holds, PlanAll, PruneAll, SortNames, AllInPlace;
    PrunedFiles(ss, path, content);
    SortedFiles(PruneAll(ss), path, content);
    PlannedFiles(SortNames(PruneAll(ss)), base, bytes, path, content);
  }

  /** Siblings have different names, all the way down. */
  predicate NamesApart(ss: seq<Source>)
    decreases ss, 0
  {
    ss == [] || ((forall i :: 0 < i < |ss| ==> ss[i].name != ss[0].name) && WithinApart(ss[0]) && NamesApart(ss[1..]))
  }

  predicate WithinApart(s: Source)
    decreases s, 1
  {
    s.SourceDir? ==> NamesApart(s.entries)
  }

  lemma {:induction false} ConsApart(s: Source, ss: seq<Source>)
    requires NamesApart(ss) && WithinApart(s) && forall x :: x in ss ==> x.name != s.name
    ensures NamesApart([s] + ss)
  {
    hide WithinApart;
    assert ([s] + ss)[1..] == ss;
  }

  lemma {:induction false} HeadApart(ss: seq<Source>, x: Source)
    requires ss != [] && NamesApart(ss) && x in ss[1..]
    ensures x.name != ss[0].name
  {
    var i :| 0 <= i < |ss[1..]| && ss[1..][i] == x;
    assert ss[i + 1] == x;
  }

  lemma {:induction false} PrunedApart(ss: seq<Source>)
    requires NamesApart(ss)
    ensures NamesApart(PruneAll(ss))
    decreases ss, 0
  {
    if ss != [] {
      PrunedApart(ss[1..]);
      if Kept(ss[0]) {
        PrunedWithin(ss[0]);
        forall x | x in PruneAll(ss[1..]) ensures x.name != Pruned(ss[0]).name {
          PruneMembers(ss[1..], x);
          var s :| s in ss[1..] && Kept(s) && x == Pruned(s);
          HeadApart(ss, s);
        }
        ConsApart(Pruned(ss[0]), PruneAll(ss[1..]));
      } else {
        assert PruneAll(ss) == PruneAll(ss[1..]);
      }
    }
  }

  lemma {:induction false} PrunedWithin(s: Source)
    requires WithinApart(s)
    ensures WithinApart(Pruned(s))
    decreases s, 1
  {
    if s.SourceDir? { PrunedApart(s.entries); }
  }

  lemma {:induction false} InsertApart(s: Source, ss: seq<Source>)
    requires NamesApart(ss) && WithinApart(s) && forall x :: x in ss ==> x.name != s.name
    ensures NamesApart(InsertName(s, ss))
  {
    hide WithinApart;
    if ss != [] && Before(ss[0].name, s.name) {
      InsertApart(s, ss[1..]);
      forall x | x in InsertName(s, ss[1..]) ensures x.name != ss[0].name {
        InsertNameMembers(s, ss[1..], x);
        if x != s { HeadApart(ss, x); }
      }
      ConsApart(ss[0], InsertName(s, ss[1..]));
    } else {
      ConsApart(s, ss);
    }
  }

  lemma {:induction false} SortedApart(ss: seq<Source>)
    requires NamesApart(ss)
    ensures NamesApart(SortNames(ss))
    decreases ss, 0
  {
    if ss != [] {
      SortedApart(ss[1..]);
      SortedWithin(ss[0]);
      forall x | x in SortNames(ss[1..]) ensures x.name != SortWithin(ss[0]).name {
        SortMembers(ss[1..], x);
        var s :| s in ss[1..] && x == SortWithin(s);
        HeadApart(ss, s);
      }
      InsertApart(SortWithin(ss[0]), SortNames(ss[1..]));
    }
  }

  lemma {:induction false} SortedWithin(s: Source)
    requires WithinApart(s)
    ensures WithinApart(SortWithin(s))
    decreases s, 1
  {
    if s.SourceDir? { SortedApart(s.entries); }
  }

  /** Siblings strictly ascend by name, all the way down. */
  predicate Ascending(es: seq<Entry>)
    decreases es, 0
  {
    es == [] || ((|es| > 1 ==> Before(es[0].name, es[1].name)) && AscendingWithin(es[0]) && Ascending(es[1..]))
  }

  predicate AscendingWithin(e: Entry)
    decreases e, 1
  {
    e.Folder? ==> Ascending(e.entries)
  }

  predicate AscendingNames(ss: seq<Source>)
    decreases ss, 0
  {
    ss == [] || ((|ss| > 1 ==> Before(ss[0].name, ss[1].name)) && NamesWithin(ss[0]) && AscendingNames(ss[1..]))
  }

  predicate NamesWithin(s: Source)
    decreases s, 1
  {
    s.SourceDir? ==> AscendingNames(s.entries)
  }

  lemma {:induction false} BeforeTotal(a: string, b: string)
    requires a != b
    ensures Before(a, b) || Before(b, a)
  {
    if a != "" && b != "" && a[0] == b[0] { BeforeTotal(a[1..], b[1..]); }
  }

  /** Inserting where no name is the same keeps siblings ascending. */
  lemma {:induction false} InsertAscends(s: Source, ss: seq<Source>)
    requires AscendingNames(ss) && NamesWithin(s) && forall x :: x in ss ==> x.name != s.name
    ensures AscendingNames(InsertName(s, ss))
    ensures InsertName(s, ss) != [] && (InsertName(s, ss)[0] == s || (ss != [] && InsertName(s, ss)[0] == ss[0]))
  {
    hide Before, NamesWithin;
    if ss == [] {
      assert InsertName(s, ss)[1..] == [];
    } else if Before(ss[0].name, s.name) {
      InsertAscends(s, ss[1..]);
      assert InsertName(s, ss)[1..] == InsertName(s, ss[1..]);
    } else {
      assert ss[0] in ss;
      BeforeTotal(ss[0].name, s.name);
      assert InsertName(s, ss)[1..] == ss;
    }
  }

  /** Sorting names that are apart leaves siblings strictly ascending. */
  lemma {:induction false} SortedAscend(ss: seq<Source>)
    requires NamesApart(ss)
    ensures AscendingNames(SortNames(ss))
    decreases ss, 0
  {
    hide NamesWithin;
    if ss != [] {
      SortedAscend(ss[1..]);
      SortedAscendWithin(ss[0]);
      forall x | x in SortNames(ss[1..]) ensures x.name != SortWithin(ss[0]).name {
        SortMembers(ss[1..], x);
        var s :| s in ss[1..] && x == SortWithin(s);
        HeadApart(ss, s);
      }
      InsertAscends(SortWithin(ss[0]), SortNames(ss[1..]));
    }
  }

  lemma {:induction false} SortedAscendWithin(s: Source)
    requires WithinApart(s)
    ensures NamesWithin(SortWithin(s))
    decreases s, 1
  {
    if s.SourceDir? { SortedAscend(s.entries); }
  }

  lemma {:induction false} PlanAscends(ss: seq<Source>, start: nat)
    requires AscendingNames(ss)
    ensures Ascending(PlanAll(ss, start)) && (ss != [] ==> PlanAll(ss, start)[0].name == ss[0].name)
    decreases ss, 0
  {
    if ss != [] {
      hide Before, AscendingWithin;
      var next := End(ss[0], start);
      PlanAscends(ss[1..], next);
      PlannedAscends(ss[0], start);
      assert PlanAll(ss, start)[1..] == PlanAll(ss[1..], next);
    }
  }

  lemma {:induction false} PlannedAscends(s: Source, start: nat)
    requires NamesWithin(s)
    ensures AscendingWithin(Planned(s, start)) && Planned(s, start).name == s.name
    decreases s, 1
  {
    if s.SourceDir? { PlanAscends(s.entries, start); }
  }

  /** A plan names its entries as the inventory does. */
  lemma {:induction false} PlanNamed(ss: seq<Source>, start: nat)
    requires AllReady(ss) && NamesApart(ss)
    ensures Named(PlanAll(ss, start)) && forall i :: 0 <= i < |ss| ==> PlanAll(ss, start)[i].name == ss[i].name
    decreases ss, 0
  {
    hide IsComponent, Fold;
    if ss != [] {
      var es, next := PlanAll(ss, start), End(ss[0], start);
      PlanNamed(ss[1..], next);
      PlannedNamed(ss[0], start);
      assert es[1..] == PlanAll(ss[1..], next);
      forall i | 0 < i < |es| ensures es[i].name == ss[i].name { assert es[i] == es[1..][i - 1]; }
    }
  }

  lemma {:induction false} PlannedNamed(s: Source, start: nat)
    requires Ready(s) && WithinApart(s)
    ensures Planned(s, start).name == s.name && Fold(s.name) == s.name && NamedWithin(Planned(s, start))
    decreases s, 1
  {
    hide IsComponent, Fold;
    if s.SourceDir? { PlanNamed(s.entries, start); }
  }


  // ---------------------------------------------------------------------
  // Records in preorder

  datatype Kind = FileKind | DirectoryKind | OtherKind

  /** A copied entry, with the index of the record of its directory; -1 at the top. */
  datatype Record = Record(name: string, physical: string, kind: Kind, content: seq<bv8>, parent: int)

  function RecordOf(s: Source, parent: int): Record {
    match s
    case SourceFile(name, physical, content) => Record(name, physical, FileKind, content, parent)
    case SourceDir(name, physical, _) => Record(name, physical, DirectoryKind, [], parent)
    case SourceOther(name, physical) => Record(name, physical, OtherKind, [], parent)
  }

  function Count(s: Source): (n: nat)
    ensures n > 0
    decreases s, 1
  {
    if s.SourceDir? then 1 + CountAll(s.entries) else 1
  }

  function CountAll(ss: seq<Source>): nat
    decreases ss, 0
  {
    if ss == [] then 0 else Count(ss[0]) + CountAll(ss[1..])
  }

  /** The records of an inventory in preorder, the first of them at index `at`. */
  ghost function Flat(ss: seq<Source>, parent: int, at: nat): (rs: seq<Record>)
    ensures |rs| == CountAll(ss)
    decreases ss, 0
  {
    if ss == [] then [] else FlatOf(ss[0], parent, at) + Flat(ss[1..], parent, at + Count(ss[0]))
  }

  ghost function FlatOf(s: Source, parent: int, at: nat): (rs: seq<Record>)
    ensures |rs| == Count(s)
    decreases s, 1
  {
    [RecordOf(s, parent)] + if s.SourceDir? then Flat(s.entries, at, at + 1) else []
  }

  /** The records from `at` on are those of these entries. */
  ghost predicate Lies(rs: seq<Record>, ss: seq<Source>, parent: int, at: nat) {
    at + CountAll(ss) <= |rs| && rs[at..at + CountAll(ss)] == Flat(ss, parent, at)
  }

  lemma Middle(rs: seq<Record>, a: seq<Record>, b: seq<Record>, at: nat)
    requires at + |a| + |b| <= |rs| && rs[at..at + |a| + |b|] == a + b
    ensures rs[at..at + |a|] == a && rs[at + |a|..at + |a| + |b|] == b
  {
    var m := rs[at..at + |a| + |b|];
    assert m[..|a|] == a && m[|a|..] == b;
    assert rs[at..at + |a|] == m[..|a|] && rs[at + |a|..at + |a| + |b|] == m[|a|..];
  }

  lemma LiesStep(rs: seq<Record>, ss: seq<Source>, parent: int, at: nat)
    requires ss != [] && Lies(rs, ss, parent, at)
    ensures at < |rs| && rs[at] == RecordOf(ss[0], parent) && Lies(rs, ss[1..], parent, at + Count(ss[0]))
    ensures ss[0].SourceDir? ==> Lies(rs, ss[0].entries, at, at + 1)
  {
    var s := ss[0];
    hide Flat;
    FlatCons(ss, parent, at);
    Middle(rs, FlatOf(s, parent, at), Flat(ss[1..], parent, at + Count(s)), at);
    var below := if s.SourceDir? then Flat(s.entries, at, at + 1) else [];
    assert FlatOf(s, parent, at) == [RecordOf(s, parent)] + below;
    Middle(rs, [RecordOf(s, parent)], below, at);
    assert rs[at..at + 1][0] == rs[at];
  }

  lemma FlatCons(ss: seq<Source>, parent: int, at: nat)
    requires ss != []
    ensures Flat(ss, parent, at) == FlatOf(ss[0], parent, at) + Flat(ss[1..], parent, at + Count(ss[0]))
  {
  }

  lemma {:induction false} LiesAll(ss: seq<Source>)
    ensures Lies(Flat(ss, -1, 0), ss, -1, 0)
  {
    assert Flat(ss, -1, 0)[0..CountAll(ss)] == Flat(ss, -1, 0);
  }

  /** The directory of a record is the one around the entries, or among them and before it. */
  lemma {:induction false} ParentsLie(rs: seq<Record>, ss: seq<Source>, parent: int, at: nat, j: nat)
    requires Lies(rs, ss, parent, at) && at <= j < at + CountAll(ss)
    ensures rs[j].parent == parent || at <= rs[j].parent < j
    decreases ss, j
  {
    hide Lies;
    LiesLong(rs, ss, parent, at);
    LiesStep(rs, ss, parent, at);
    var next := at + Count(ss[0]);
    if next <= j {
      ParentsLie(rs, ss[1..], parent, next, j);
    } else if at < j {
      ParentsLie(rs, ss[0].entries, at, at + 1, j);
    }
  }

  lemma {:induction false} LiesLong(rs: seq<Record>, ss: seq<Source>, parent: int, at: nat)
    requires Lies(rs, ss, parent, at)
    ensures at + CountAll(ss) <= |rs|
  {
  }

  // Copying an inventory: a stack of what is still to copy of each directory.

  datatype Frame = Frame(next: seq<Source>, parent: int)

  ghost function PendingRecords(stack: seq<Frame>, at: nat): seq<Record> {
    if stack == [] then [] else Flat(stack[0].next, stack[0].parent, at) + PendingRecords(stack[1..], at + CountAll(stack[0].next))
  }

  ghost predicate PendingOk(stack: seq<Frame>) {
    stack == [] || (AllInputOk(stack[0].next) && PendingOk(stack[1..]))
  }

  ghost function PendingCount(stack: seq<Frame>): nat {
    if stack == [] then 0 else 1 + 2 * CountAll(stack[0].next) + PendingCount(stack[1..])
  }

  /** What is pending once the entry at the top of the stack has been taken. */
  function Taken(stack: seq<Frame>, at: nat): seq<Frame>
    requires stack != [] && stack[0].next != []
  {
    var s := stack[0].next[0];
    (if s.SourceDir? then [Frame(s.entries, at)] else []) + [Advanced(stack[0])] + stack[1..]
  }

  lemma Assoc<T>(a: seq<T>, b: seq<T>, c: seq<T>)
    ensures a + (b + c) == a + b + c
  {
  }

  lemma {:induction false} ConsFrame(f: Frame, stack: seq<Frame>, at: nat)
    ensures PendingRecords([f] + stack, at) == Flat(f.next, f.parent, at) + PendingRecords(stack, at + CountAll(f.next))
    ensures PendingOk([f] + stack) <==> AllInputOk(f.next) && PendingOk(stack)
    ensures PendingCount([f] + stack) == 1 + 2 * CountAll(f.next) + PendingCount(stack)
  {
    assert ([f] + stack)[1..] == stack;
  }

  lemma PendingTaken(stack: seq<Frame>, at: nat)
    requires stack != [] && stack[0].next != []
    ensures PendingRecords(stack, at) == [RecordOf(stack[0].next[0], stack[0].parent)] + PendingRecords(Taken(stack, at), at + 1)
    ensures var s := stack[0].next[0]; PendingOk(stack) <==> NameOk(s.name, s.physical) && PendingOk(Taken(stack, at))
    ensures PendingCount(Taken(stack, at)) < PendingCount(stack)
  {
    hide Flat, FlatOf, NameOk, AllInputOk, InputOk, PendingRecords, PendingOk, PendingCount;
    var f, rest := stack[0], stack[1..];
    var s := f.next[0];
    var after := [Advanced(f)] + rest;
    assert stack == [f] + rest;
    ConsFrame(f, rest, at);
    ConsFrame(Advanced(f), rest, at + Count(s));
    InputCons(f.next);
    TopTaken(f, rest, at);
    Assoc([RecordOf(s, f.parent)], Below(s, at), PendingRecords(after, at + Count(s)));
    if s.SourceDir? {
      assert Taken(stack, at) == [Frame(s.entries, at)] + after;
      ConsFrame(Frame(s.entries, at), after, at + 1);
    } else {
      assert Taken(stack, at) == after;
      assert Below(s, at) + PendingRecords(after, at + 1) == PendingRecords(after, at + 1);
    }
  }

  /** A frame past its first entry. */
  function Advanced(f: Frame): Frame
    requires f.next != []
  {
    f.(next := f.next[1..])
  }

  lemma {:induction false} TopTaken(f: Frame, rest: seq<Frame>, at: nat)
    requires f.next != []
    ensures var s := f.next[0];
      PendingRecords([f] + rest, at) == [RecordOf(s, f.parent)] + Below(s, at) + PendingRecords([Advanced(f)] + rest, at + Count(s))
  {
    hide Flat, FlatOf, PendingRecords, PendingOk, PendingCount;
    var s := f.next[0];
    ConsFrame(f, rest, at);
    ConsFrame(Advanced(f), rest, at + Count(s));
    FlatCons(f.next, f.parent, at);
    FlatEntry(s, f.parent, at);
    Assoc(FlatOf(s, f.parent, at), Flat(f.next[1..], f.parent, at + Count(s)), PendingRecords(rest, at + CountAll(f.next)));
  }

  ghost function Below(s: Source, at: nat): seq<Record> {
    if s.SourceDir? then Flat(s.entries, at, at + 1) else []
  }

  lemma {:induction false} FlatEntry(s: Source, parent: int, at: nat)
    ensures FlatOf(s, parent, at) == [RecordOf(s, parent)] + Below(s, at)
  {
  }

  lemma {:induction false} InputCons(ss: seq<Source>)
    requires ss != []
    ensures AllInputOk(ss) <==> NameOk(ss[0].name, ss[0].physical) && (ss[0].SourceDir? ==> AllInputOk(ss[0].entries)) && AllInputOk(ss[1..])
  {
  }

  method CheckNames(name: string, physical: string) returns (ok: bool)
    ensures ok <==> NameOk(name, physical)
  {
    hide IsComponent, Fold;
    ok := CheckComponent(name);
    if ok { ok := IsFolded(name); }
    if ok { ok := CheckComponent(physical); }
    if ok { ok := CaseEqual(name, physical); }
  }

  datatype Failure = InvalidInput | AllocationFailed | SizeQueryFailed | ReadFailed | NoContent | TooLarge | BakeFailed | ValidationFailed

  /** A failure that comes from outside: no memory, or a file that cannot be looked at or read. */
  predicate Refused(f: Failure) {
    f.AllocationFailed? || f.SizeQueryFailed? || f.ReadFailed? || f.BakeFailed?
  }

  /** Copies entries in preorder, checking each; an allocation may fail at any of them. */
  method CopyInventory(ss: seq<Source>, granted: bool) returns (failed: Option<Failure>, rs: seq<Record>)
    ensures failed.None? ==> AllInputOk(ss) && rs == Flat(ss, -1, 0)
    ensures failed.Some? ==> (failed.value == AllocationFailed && !granted) || (failed.value == InvalidInput && !AllInputOk(ss))
  {
    hide NameOk, AllInputOk, Flat, PendingRecords, PendingOk, PendingCount, Taken;
    rs := [];
    var stack := [Frame(ss, -1)];
    StackBegins(ss);
    while stack != []
      invariant Flat(ss, -1, 0) == rs + PendingRecords(stack, |rs|)
      invariant AllInputOk(ss) <==> PendingOk(stack)
      decreases PendingCount(stack)
    {
      var frame := stack[0];
      if frame.next == [] {
        FrameEnds(stack, |rs|);
        stack := stack[1..];
        continue;
      }
      var entry := frame.next[0];
      PendingTaken(stack, |rs|);
      var sound := CheckNames(entry.name, entry.physical);
      if !sound { return Some(InvalidInput), rs; }
      var ok := Requests.Ask(granted);
      if !ok { return Some(AllocationFailed), rs; }
      var record := RecordOf(entry, frame.parent);
      stack := Taken(stack, |rs|);
      Assoc(rs, [record], PendingRecords(stack, |rs| + 1));
      rs := rs + [record];
    }
    StackEnds(rs);
    failed := None;
  }

  lemma {:induction false} StackBegins(ss: seq<Source>)
    ensures Flat(ss, -1, 0) == [] + PendingRecords([Frame(ss, -1)], 0)
    ensures AllInputOk(ss) <==> PendingOk([Frame(ss, -1)])
  {
    var f := Frame(ss, -1);
    assert [f] + [] == [f];
    ConsFrame(f, [], 0);
  }

  lemma {:induction false} FrameEnds(stack: seq<Frame>, at: nat)
    requires stack != [] && stack[0].next == []
    ensures PendingRecords(stack, at) == PendingRecords(stack[1..], at) && (PendingOk(stack) <==> PendingOk(stack[1..]))
    ensures PendingCount(stack[1..]) < PendingCount(stack)
  {
  }

  lemma {:induction false} StackEnds(rs: seq<Record>)
    ensures rs + PendingRecords([], |rs|) == rs && PendingOk([])
  {
  }

  // Sizes.

  predicate AllSmall(ss: seq<Source>)
    decreases ss, 0
  {
    ss == [] || (Small(ss[0]) && AllSmall(ss[1..]))
  }

  /** No file reaches the size that nothing may reach. */
  predicate Small(s: Source)
    decreases s, 1
  {
    match s
    case SourceFile(_, _, content) => |content| < CEILING
    case SourceOther(_, _) => true
    case SourceDir(_, _, entries) => AllSmall(entries)
  }

  predicate SmallRecord(r: Record) {
    r.kind.FileKind? ==> |r.content| < CEILING
  }

  ghost predicate SmallRecords(rs: seq<Record>) {
    forall i :: 0 <= i < |rs| ==> SmallRecord(rs[i])
  }

  lemma JoinSmall(a: seq<Record>, b: seq<Record>)
    ensures SmallRecords(a + b) <==> SmallRecords(a) && SmallRecords(b)
  {
    hide SmallRecord;
    if SmallRecords(a + b) {
      forall i | 0 <= i < |a| ensures SmallRecord(a[i]) { assert (a + b)[i] == a[i]; }
      forall i | 0 <= i < |b| ensures SmallRecord(b[i]) { assert (a + b)[|a| + i] == b[i]; }
    }
  }

  lemma {:induction false} FlatSmall(ss: seq<Source>, parent: int, at: nat)
    ensures SmallRecords(Flat(ss, parent, at)) <==> AllSmall(ss)
    decreases ss, 0
  {
    if ss != [] {
      hide SmallRecords;
      EntrySmall(ss[0], parent, at);
      FlatSmall(ss[1..], parent, at + Count(ss[0]));
      JoinSmall(FlatOf(ss[0], parent, at), Flat(ss[1..], parent, at + Count(ss[0])));
    }
  }

  lemma {:induction false} EntrySmall(s: Source, parent: int, at: nat)
    ensures SmallRecords(FlatOf(s, parent, at)) <==> Small(s)
    decreases s, 1
  {
    FlatEntry(s, parent, at);
    JoinSmall([RecordOf(s, parent)], Below(s, at));
    OneSmall(RecordOf(s, parent));
    hide SmallRecords;
    if s.SourceDir? { FlatSmall(s.entries, at, at + 1); } else { NoneSmall(); }
  }

  lemma OneSmall(r: Record)
    ensures SmallRecords([r]) <==> SmallRecord(r)
  {
    assert [r][0] == r;
  }

  lemma NoneSmall()
    ensures SmallRecords([])
  {
  }

  /** Asks for the size of each file; the question may fail. */
  method QuerySizes(rs: seq<Record>, granted: bool) returns (failed: Option<Failure>, sizes: seq<nat>)
    ensures failed.None? ==> SmallRecords(rs) && |sizes| == |rs| && forall i :: 0 <= i < |rs| ==> sizes[i] == |rs[i].content|
    ensures failed.Some? ==> (!granted && Refused(failed.value)) || (failed.value == TooLarge && !SmallRecords(rs))
  {
    sizes := [];
    for i := 0 to |rs|
      invariant |sizes| == i && forall k :: 0 <= k < i ==> sizes[k] == |rs[k].content| && SmallRecord(rs[k])
    {
      if rs[i].kind.FileKind? {
        var ok := Requests.Ask(granted);
        if !ok { return Some(SizeQueryFailed), sizes; }
        var size := |rs[i].content|;
        if size >= CEILING { return Some(TooLarge), sizes; }
        ok := Requests.Ask(granted);
        if !ok { return Some(AllocationFailed), sizes; }
      }
      sizes := sizes + [|rs[i].content|];
    }
    failed := None;
  }

  // ---------------------------------------------------------------------
  // Pruning

  /** How many entries of a directory are still there. */
  function Remaining(alive: seq<bool>, rs: seq<Record>, k: int): nat
    requires |alive| == |rs|
  {
    if alive == [] then 0 else Remaining(alive[1..], rs[1..], k) + One(alive[0] && rs[0].parent == k)
  }

  lemma {:induction false} RemainingSome(alive: seq<bool>, rs: seq<Record>, k: int)
    requires |alive| == |rs|
    ensures Remaining(alive, rs, k) > 0 <==> exists j :: 0 <= j < |alive| && alive[j] && rs[j].parent == k
  {
    if alive != [] {
      RemainingSome(alive[1..], rs[1..], k);
      if j :| 0 <= j < |alive[1..]| && alive[1..][j] && rs[1..][j].parent == k { assert alive[j + 1] && rs[j + 1].parent == k; }
      if j :| 0 < j < |alive| && alive[j] && rs[j].parent == k { assert alive[1..][j - 1] && rs[1..][j - 1].parent == k; }
    }
  }

  /** A record is worth keeping if it is a file with content, or a directory that some record worth keeping is in. */
  ghost predicate KeptAt(rs: seq<Record>, k: nat)
    requires k < |rs|
    decreases |rs| - k
  {
    match rs[k].kind
    case FileKind => rs[k].content != []
    case OtherKind => false
    case DirectoryKind => exists j :: k < j < |rs| && rs[j].parent == k && KeptAt(rs, j)
  }

  ghost predicate Climbing(rs: seq<Record>) {
    forall j :: 0 <= j < |rs| ==> rs[j].parent < j
  }

  /** Erases from the end of a preorder, so that a directory is looked at after everything in it. */
  method Prune(rs: seq<Record>, sizes: seq<nat>) returns (alive: seq<bool>)
    requires Climbing(rs) && |sizes| == |rs| && forall i :: 0 <= i < |rs| ==> sizes[i] == |rs[i].content|
    ensures |alive| == |rs| && forall k :: 0 <= k < |rs| ==> (alive[k] <==> KeptAt(rs, k))
  {
    hide Remaining;
    alive := seq(|rs|, _ => true);
    for i := |rs| downto 0
      invariant |alive| == |rs| && forall k :: 0 <= k < i ==> alive[k]
      invariant forall k :: i <= k < |rs| ==> (alive[k] <==> KeptAt(rs, k))
    {
      RemainingSome(alive, rs, i);
      if rs[i].kind.OtherKind? || (rs[i].kind.FileKind? && sizes[i] == 0) || (rs[i].kind.DirectoryKind? && Remaining(alive, rs, i) == 0) {
        alive := alive[i := false];
      }
    }
  }

  /** The entries that are still there, of the directory whose record is `k`, among the records of a range. */
  function Grown(rs: seq<Record>, alive: seq<bool>, k: int, lo: nat, hi: nat): seq<Source>
    requires lo <= hi <= |rs| == |alive|
    decreases hi - lo, 1
  {
    if lo == hi then [] else (if alive[lo] && rs[lo].parent == k then [Node(rs, alive, lo, hi)] else []) + Grown(rs, alive, k, lo + 1, hi)
  }

  function Node(rs: seq<Record>, alive: seq<bool>, i: nat, hi: nat): Source
    requires i < hi <= |rs| == |alive|
    decreases hi - i, 0
  {
    match rs[i].kind
    case FileKind => SourceFile(rs[i].name, rs[i].physical, rs[i].content)
    case OtherKind => SourceOther(rs[i].name, rs[i].physical)
    case DirectoryKind => SourceDir(rs[i].name, rs[i].physical, Grown(rs, alive, i, i + 1, hi))
  }

  lemma {:induction false} GrownSkips(rs: seq<Record>, alive: seq<bool>, k: int, lo: nat, mid: nat, hi: nat)
    requires lo <= mid <= hi <= |rs| == |alive| && forall j :: lo <= j < mid ==> rs[j].parent != k
    ensures Grown(rs, alive, k, lo, hi) == Grown(rs, alive, k, mid, hi)
    decreases mid - lo
  {
    if lo < mid { GrownSkips(rs, alive, k, lo + 1, mid, hi); }
  }

  lemma {:induction false} GrownStops(rs: seq<Record>, alive: seq<bool>, k: int, lo: nat, mid: nat, hi: nat)
    requires lo <= mid <= hi <= |rs| == |alive|
    requires forall j :: mid <= j < hi ==> rs[j].parent != k && !(lo <= rs[j].parent < mid)
    ensures Grown(rs, alive, k, lo, hi) == Grown(rs, alive, k, lo, mid)
    decreases mid - lo
  {
    if lo == mid {
      GrownSkips(rs, alive, k, lo, hi, hi);
    } else {
      GrownStops(rs, alive, k, lo + 1, mid, hi);
      if rs[lo].kind.DirectoryKind? { GrownStops(rs, alive, lo, lo + 1, mid, hi); }
    }
  }

  /** No record after a range is in a directory of the range. */
  ghost predicate Closed(rs: seq<Record>, lo: nat, hi: nat) {
    forall j :: hi <= j < |rs| ==> !(lo <= rs[j].parent < hi)
  }

  /** A record is kept exactly when what it was copied from is worth keeping, and what is left below a directory is what pruning leaves of it. */
  lemma {:induction false} RecordsPruned(rs: seq<Record>, alive: seq<bool>, ss: seq<Source>, parent: int, at: nat)
    requires |alive| == |rs| && forall k :: 0 <= k < |rs| ==> (alive[k] <==> KeptAt(rs, k))
    requires parent < at && Lies(rs, ss, parent, at) && Closed(rs, at, at + CountAll(ss))
    ensures at + CountAll(ss) <= |rs| && Grown(rs, alive, parent, at, at + CountAll(ss)) == PruneAll(ss)
    ensures KeptAmong(ss) <==> exists j :: at <= j < at + CountAll(ss) && rs[j].parent == parent && KeptAt(rs, j)
    decreases ss
  {
    hide Lies, KeptAt, Closed, Kept, KeptAmong;
    LiesLong(rs, ss, parent, at);
    if ss == [] {
      NoneKept();
    } else {
      var s, next, end := ss[0], at + Count(ss[0]), at + CountAll(ss);
      LiesStep(rs, ss, parent, at);
      RestClosed(rs, ss, parent, at);
      RecordsPruned(rs, alive, ss[1..], parent, next);
      FirstKept(rs, ss, parent, at);
      ParentsInside(rs, ss, parent, at);
      GrownSkips(rs, alive, parent, at + 1, next, end);
      if s.SourceDir? {
        RecordsPruned(rs, alive, s.entries, at, at + 1);
        FolderKept(rs, s, parent, at);
        GrownStops(rs, alive, at, at + 1, next, end);
      } else {
        LeafKept(rs, s, parent, at);
      }
      assert KeptAt(rs, at) <==> Kept(s);
      assert Node(rs, alive, at, end) == Pruned(s);
      AmongCons(ss);
    }
  }

  lemma NoneKept()
    ensures !KeptAmong([])
  {
  }

  lemma {:induction false} AmongCons(ss: seq<Source>)
    requires ss != []
    ensures KeptAmong(ss) <==> Kept(ss[0]) || KeptAmong(ss[1..])
  {
    hide Kept;
    if s :| s in ss && Kept(s) { if s != ss[0] { assert s in ss[1..]; } }
    if Kept(ss[0]) { assert ss[0] in ss; }
  }

  lemma {:induction false} RestClosed(rs: seq<Record>, ss: seq<Source>, parent: int, at: nat)
    requires ss != [] && parent < at && Lies(rs, ss, parent, at) && Closed(rs, at, at + CountAll(ss))
    ensures Closed(rs, at + Count(ss[0]), at + CountAll(ss)) && Closed(rs, at, at + Count(ss[0])) && Closed(rs, at + 1, at + Count(ss[0]))
  {
    hide Lies;
    var next, end := at + Count(ss[0]), at + CountAll(ss);
    LiesStep(rs, ss, parent, at);
    forall j | next <= j < |rs| ensures !(at <= rs[j].parent < next) {
      if j < end { ParentsLie(rs, ss[1..], parent, next, j); }
    }
  }

  /** What lies in a first entry is not directly in the directory around it; what follows is in neither the entry nor anything in it. */
  lemma {:induction false} ParentsInside(rs: seq<Record>, ss: seq<Source>, parent: int, at: nat)
    requires ss != [] && parent < at && Lies(rs, ss, parent, at)
    ensures forall j :: at < j < at + Count(ss[0]) ==> at <= rs[j].parent
    ensures forall j :: at + Count(ss[0]) <= j < at + CountAll(ss) ==> rs[j].parent == parent || at + Count(ss[0]) <= rs[j].parent
  {
    hide Lies;
    var next := at + Count(ss[0]);
    LiesStep(rs, ss, parent, at);
    LiesLong(rs, ss, parent, at);
    forall j | at < j < next ensures at <= rs[j].parent { ParentsLie(rs, ss[0].entries, at, at + 1, j); }
    forall j | next <= j < at + CountAll(ss) ensures rs[j].parent == parent || next <= rs[j].parent { ParentsLie(rs, ss[1..], parent, next, j); }
  }

  lemma {:induction false} FirstKept(rs: seq<Record>, ss: seq<Source>, parent: int, at: nat)
    requires ss != [] && parent < at && Lies(rs, ss, parent, at)
    ensures at + CountAll(ss) <= |rs| && ((exists j :: at <= j < at + CountAll(ss) && rs[j].parent == parent && KeptAt(rs, j)) <==>
      KeptAt(rs, at) || (exists j :: at + Count(ss[0]) <= j < at + CountAll(ss) && rs[j].parent == parent && KeptAt(rs, j)))
  {
    hide Lies, KeptAt;
    LiesLong(rs, ss, parent, at);
    LiesStep(rs, ss, parent, at);
    ParentsInside(rs, ss, parent, at);
    assert rs[at].parent == parent;
  }

  lemma {:induction false} FolderKept(rs: seq<Record>, s: Source, parent: int, at: nat)
    requires s.SourceDir? && at + Count(s) <= |rs| && rs[at] == RecordOf(s, parent) && Closed(rs, at, at + Count(s))
    requires KeptAmong(s.entries) <==> exists j :: at + 1 <= j < at + 1 + CountAll(s.entries) && rs[j].parent == at && KeptAt(rs, j)
    ensures KeptAt(rs, at) <==> Kept(s)
  {
  }

  lemma {:induction false} LeafKept(rs: seq<Record>, s: Source, parent: int, at: nat)
    requires !s.SourceDir? && at < |rs| && rs[at] == RecordOf(s, parent)
    ensures KeptAt(rs, at) <==> Kept(s)
  {
  }

  /** The records of an inventory, pruned from the end, stand for the pruned inventory. */
  lemma {:induction false} FlatPruned(ss: seq<Source>, rs: seq<Record>, alive: seq<bool>)
    requires rs == Flat(ss, -1, 0) && |alive| == |rs| && forall k :: 0 <= k < |rs| ==> (alive[k] <==> KeptAt(rs, k))
    ensures Grown(rs, alive, -1, 0, |rs|) == PruneAll(ss)
  {
    hide Lies, KeptAt, Flat, Grown, PruneAll;
    LiesAll(ss);
    RecordsPruned(rs, alive, ss, -1, 0);
  }

  lemma {:induction false} FlatClimbs(ss: seq<Source>)
    ensures Climbing(Flat(ss, -1, 0))
  {
    hide Lies, Flat;
    var rs := Flat(ss, -1, 0);
    LiesAll(ss);
    forall j | 0 <= j < |rs| ensures rs[j].parent < j { ParentsLie(rs, ss, -1, 0, j); }
  }

  // ---------------------------------------------------------------------
  // Planning with a running end

  lemma {:induction false} PlanJoins(a: seq<Source>, b: seq<Source>, start: nat)
    ensures PlanAll(a + b, start) == PlanAll(a, start) + PlanAll(b, EndAll(a, start)) && EndAll(a + b, start) == EndAll(b, EndAll(a, start))
    ensures ContentsAll(a + b) == ContentsAll(a) + ContentsAll(b)
  {
    hide Planned, End, ContentsOf;
    if a == [] {
      assert a + b == b && [] + ContentsAll(b) == ContentsAll(b);
    } else {
      var next := End(a[0], start);
      PlanJoins(a[1..], b, next);
      assert (a + b)[1..] == a[1..] + b;
      Assoc([Planned(a[0], start)], PlanAll(a[1..], next), PlanAll(b, EndAll(a, start)));
      Assoc(ContentsOf(a[0]), ContentsAll(a[1..]), ContentsAll(b));
    }
  }

  /** What is still to plan, from a running end on: its extents, its contents, and where it ends. */
  lemma {:induction false} PlanOpens(pending: seq<Source>, end: nat)
    requires pending != [] && pending[0].SourceDir?
    ensures var below := pending[0].entries + pending[1..];
      && ExtentsAll(PlanAll(pending, end)) == ExtentsAll(PlanAll(below, end))
      && ContentsAll(pending) == ContentsAll(below) && EndAll(pending, end) == EndAll(below, end)
      && CountAll(below) < CountAll(pending)
  {
    hide ExtentsAll, ContentsAll, PlanAll, EndAll, ExtentsOf;
    var s, rest := pending[0], pending[1..];
    var next := EndAll(s.entries, end);
    PlanJoins(s.entries, rest, end);
    JoinExtents(PlanAll(s.entries, end), PlanAll(rest, next));
    PlanFirst(pending, end);
    CountJoins(s.entries, rest);
  }

  lemma {:induction false} PlanFirst(pending: seq<Source>, end: nat)
    requires pending != []
    ensures ExtentsAll(PlanAll(pending, end)) == ExtentsOf(Planned(pending[0], end)) + ExtentsAll(PlanAll(pending[1..], End(pending[0], end)))
    ensures ContentsAll(pending) == ContentsOf(pending[0]) + ContentsAll(pending[1..])
    ensures EndAll(pending, end) == EndAll(pending[1..], End(pending[0], end))
    ensures pending[0].SourceDir? ==> (
      && ExtentsOf(Planned(pending[0], end)) == ExtentsAll(PlanAll(pending[0].entries, end))
      && ContentsOf(pending[0]) == ContentsAll(pending[0].entries) && End(pending[0], end) == EndAll(pending[0].entries, end))
  {
    assert PlanAll(pending, end)[1..] == PlanAll(pending[1..], End(pending[0], end));
  }

  lemma {:induction false} CountJoins(a: seq<Source>, b: seq<Source>)
    ensures CountAll(a + b) == CountAll(a) + CountAll(b)
  {
    if a == [] { assert a + b == b; } else {
      CountJoins(a[1..], b);
      assert (a + b)[1..] == a[1..] + b;
    }
  }

  /** Walks what was kept in preorder and gives each file its extent; nothing may end beyond the ceiling. */
  method PlanPayload(ss: seq<Source>, base: nat, granted: bool) returns (failed: Option<Failure>, extents: seq<Extent>, contents: seq<seq<bv8>>, end: nat)
    requires AllReady(ss) && ss != []
    ensures failed.None? ==> end == EndAll(ss, base) <= CEILING && extents == ExtentsAll(PlanAll(ss, base)) && contents == ContentsAll(ss)
    ensures failed.Some? ==> (!granted && Refused(failed.value)) || (failed.value == TooLarge && EndAll(ss, base) > CEILING)
  {
    hide ExtentsAll, ContentsAll, ContentsOf, PlanAll, Planned, EndAll, AllReady, CountAll, Reserved;
    extents, contents, end := [], [], base;
    var pending := ss;
    PendingStarts(ss, base);
    while pending != []
      invariant ExtentsAll(PlanAll(ss, base)) == extents + ExtentsAll(PlanAll(pending, end))
      invariant ContentsAll(ss) == contents + ContentsAll(pending)
      invariant EndAll(ss, base) == EndAll(pending, end) && AllReady(pending)
      invariant if pending == [] then end <= CEILING else true
      decreases CountAll(pending)
    {
      var s, rest := pending[0], pending[1..];
      ReadyFirst(pending);
      if s.SourceDir? {
        PlanOpens(pending, end);
        ReadyJoins(s.entries, rest);
        pending := s.entries + rest;
        continue;
      }
      PlanFile(pending, end);
      var reserved := Reserved(|s.content|);
      if end > CEILING || reserved > CEILING - end { return Some(TooLarge), extents, contents, end; }
      var ok := Requests.Ask(granted);
      if !ok { return Some(AllocationFailed), extents, contents, end; }
      Assoc(extents, [Extent(end, end + reserved)], ExtentsAll(PlanAll(rest, end + reserved)));
      Assoc(contents, [s.content], ContentsAll(rest));
      extents, contents := extents + [Extent(end, end + reserved)], contents + [s.content];
      end := end + reserved;
      pending := rest;
    }
    PendingStops(extents, contents, end);
    failed := None;
  }

  lemma {:induction false} PendingStarts(ss: seq<Source>, base: nat)
    ensures ExtentsAll(PlanAll(ss, base)) == [] + ExtentsAll(PlanAll(ss, base)) && ContentsAll(ss) == [] + ContentsAll(ss)
  {
  }

  lemma {:induction false} PendingStops(extents: seq<Extent>, contents: seq<seq<bv8>>, end: nat)
    ensures extents + ExtentsAll(PlanAll([], end)) == extents && contents + ContentsAll([]) == contents && EndAll([], end) == end
  {
  }

  lemma {:induction false} ReadyFirst(pending: seq<Source>)
    requires AllReady(pending) && pending != []
    ensures !pending[0].SourceOther? && AllReady(pending[1..])
    ensures pending[0].SourceDir? ==> pending[0].entries != [] && AllReady(pending[0].entries)
  {
  }

  lemma {:induction false} ReadyJoins(a: seq<Source>, b: seq<Source>)
    requires AllReady(a) && AllReady(b)
    ensures AllReady(a + b)
  {
    hide Ready;
    if a == [] { assert a + b == b; } else {
      ReadyJoins(a[1..], b);
      assert (a + b)[1..] == a[1..] + b;
    }
  }

  lemma PlanFile(pending: seq<Source>, end: nat)
    requires pending != [] && pending[0].SourceFile?
    ensures var reserved := Reserved(|pending[0].content|);
      && ExtentsAll(PlanAll(pending, end)) == [Extent(end, end + reserved)] + ExtentsAll(PlanAll(pending[1..], end + reserved))
      && ContentsAll(pending) == [pending[0].content] + ContentsAll(pending[1..])
      && EndAll(pending, end) == EndAll(pending[1..], end + reserved) && end + reserved <= EndAll(pending, end)
      && CountAll(pending[1..]) < CountAll(pending)
  {
    PlanFirst(pending, end);
    PlanGrows(pending[1..], End(pending[0], end));
  }

  /** The directory with the planned offsets written into its files, in preorder. */
  function Fill(ss: seq<Source>, extents: seq<Extent>): seq<Entry>
    requires |extents| == |ContentsAll(ss)|
    decreases ss, 0
  {
    if ss == [] then [] else
    var n := |ContentsOf(ss[0])|;
    [FillEntry(ss[0], extents[..n])] + Fill(ss[1..], extents[n..])
  }

  function FillEntry(s: Source, extents: seq<Extent>): Entry
    requires |extents| == |ContentsOf(s)|
    decreases s, 1
  {
    match s
    case SourceFile(name, physical, content) => Blob(name, physical, extents[0].offset, |content|)
    case SourceOther(name, physical) => Folder(name, physical, [])
    case SourceDir(name, physical, entries) => Folder(name, physical, Fill(entries, extents))
  }

  /** Writing the offsets of the planned extents gives the planned directory. */
  lemma {:induction false} FillPlans(ss: seq<Source>, start: nat)
    ensures |ExtentsAll(PlanAll(ss, start))| == |ContentsAll(ss)| && Fill(ss, ExtentsAll(PlanAll(ss, start))) == PlanAll(ss, start)
    decreases ss, 0
  {
    ContentsAllFit(ss, start);
    if ss != [] {
      var next := End(ss[0], start);
      PlanFirst(ss, start);
      ContentsFit(ss[0], start);
      FillPlansEntry(ss[0], start);
      FillPlans(ss[1..], next);
      var a, b := ExtentsOf(Planned(ss[0], start)), ExtentsAll(PlanAll(ss[1..], next));
      assert (a + b)[..|a|] == a && (a + b)[|a|..] == b;
    }
  }

  lemma {:induction false} FillPlansEntry(s: Source, start: nat)
    ensures |ExtentsOf(Planned(s, start))| == |ContentsOf(s)| && FillEntry(s, ExtentsOf(Planned(s, start))) == Planned(s, start)
    decreases s, 1
  {
    ContentsFit(s, start);
    if s.SourceDir? { FillPlans(s.entries, start); }
  }

  // ---------------------------------------------------------------------
  // Building

  datatype Built = Built(directory: seq<Entry>, base: nat, bytes: seq<bv8>)

  /** Where the contents begin after a directory document of this size. */
  function Base(size: nat): (r: nat)
    ensures size <= r < size + ALIGNMENT && r % ALIGNMENT == 0
  {
    (size + 127) / 128 * 128
  }

  /** The bytes that looking a path up finds. */
  function FileRead(directory: seq<Entry>, bytes: seq<bv8>, components: seq<string>): Option<seq<bv8>>
    requires components != []
  {
    match Find(directory, components)
    case Found(offset, size) => if offset + size <= |bytes| then Some(bytes[offset..offset + size]) else None
    case _ => None
  }

  /** Every path finds exactly the content that the inventory has, not empty, at the folded path; and no other path finds any. */
  ghost predicate Faithful(ss: seq<Source>, directory: seq<Entry>, bytes: seq<bv8>) {
    forall cs: seq<string>, content: seq<bv8> | cs != [] ::
      FileRead(directory, bytes, cs) == Some(content) <==> content != [] && HasFile(ss, FoldAll(cs), content)
  }

  /** What is asked of an inventory, beyond what is outside: sound names, no file too large, something to keep, and a plan that fits. */
  ghost predicate Buildable(ss: seq<Source>, base: nat) {
    AllInputOk(ss) && AllSmall(ss) && KeptAmong(ss) && TotalSize(ss, base) <= CEILING
  }

  /** The reason that an inventory cannot be built. */
  ghost predicate Rejected(ss: seq<Source>, base: nat, f: Failure) {
    match f
    case InvalidInput => !AllInputOk(ss)
    case TooLarge => AllInputOk(ss) && (!AllSmall(ss) || (KeptAmong(ss) && TotalSize(ss, base) > CEILING))
    case NoContent => AllInputOk(ss) && !KeptAmong(ss)
    case _ => false
  }

  lemma BlankAfter(bytes: seq<bv8>, size: nat, base: nat)
    requires size <= base && forall p :: size <= p < |bytes| ==> bytes[p] == 0
    ensures Blank(bytes, base)
  {
  }

  /** Every planned extent has room for its content and a zero after it. */
  lemma {:induction false} PlanRoom(ss: seq<Source>, start: nat)
    ensures var es, cs := ExtentsAll(PlanAll(ss, start)), ContentsAll(ss);
      Chain(es, start, EndAll(ss, start)) && |es| == |cs| && forall i :: 0 <= i < |es| ==> es[i].offset + |cs[i]| < es[i].end
    decreases ss, 0
  {
    hide Reserved;
    PlanAllChains(ss, start);
    ContentsAllFit(ss, start);
    if ss != [] {
      PlanFirst(ss, start);
      ContentsFit(ss[0], start);
      PlanRoomEntry(ss[0], start);
      PlanRoom(ss[1..], End(ss[0], start));
    }
  }

  lemma {:induction false} PlanRoomEntry(s: Source, start: nat)
    ensures var es, cs := ExtentsOf(Planned(s, start)), ContentsOf(s);
      |es| == |cs| && forall i :: 0 <= i < |es| ==> es[i].offset + |cs[i]| < es[i].end
    decreases s, 1
  {
    ContentsFit(s, start);
    if s.SourceDir? { PlanRoom(s.entries, start); }
  }

  lemma {:induction false} BuiltAscends(ss: seq<Source>, base: nat)
    requires NamesApart(ss)
    ensures Ascending(Directory(ss, base))
  {
    hide NamesApart, Ascending, AscendingNames;
    PrunedApart(ss);
    SortedAscend(PruneAll(ss));
    PlanAscends(SortNames(PruneAll(ss)), base);
  }

  /** Looking up a path in what is built reads a content if and only if the inventory has that content, not empty, there. */
  lemma {:induction false} BuiltFaithful(ss: seq<Source>, base: nat, bytes: seq<bv8>)
    requires AllInputOk(ss) && NamesApart(ss) && AllInPlace(bytes, ExtentsAll(Directory(ss, base)), Kepts(ss))
    ensures Faithful(ss, Directory(ss, base), bytes)
  {
    hide AllInputOk, NamesApart, AllInPlace, FileRead, HasFile, Directory, FoldAll;
    forall cs: seq<string>, content: seq<bv8> | cs != []
      ensures FileRead(Directory(ss, base), bytes, cs) == Some(content) <==> content != [] && HasFile(ss, FoldAll(cs), content)
    {
      BuiltRead(ss, base, bytes, cs, content);
    }
  }

  lemma {:induction false} BuiltRead(ss: seq<Source>, base: nat, bytes: seq<bv8>, cs: seq<string>, content: seq<bv8>)
    requires AllInputOk(ss) && NamesApart(ss) && AllInPlace(bytes, ExtentsAll(Directory(ss, base)), Kepts(ss)) && cs != []
    ensures FileRead(Directory(ss, base), bytes, cs) == Some(content) <==> content != [] && HasFile(ss, FoldAll(cs), content)
  {
    hide AllInputOk, NamesApart, AllInPlace, AllReady, HasFile, HasBlob, Find, Named, PlanAll, FoldAll, Directory;
    DirectoryNamed(ss, base);
    BuiltFiles(ss, base, bytes, FoldAll(cs), content);
    forall offset: nat ensures Find(Directory(ss, base), cs) == Found(offset, |content|) <==> HasBlob(Directory(ss, base), FoldAll(cs), offset, |content|) {
      FindExact(Directory(ss, base), cs, offset, |content|);
    }
  }

  lemma {:induction false} DirectoryNamed(ss: seq<Source>, base: nat)
    requires AllInputOk(ss) && NamesApart(ss)
    ensures Named(Directory(ss, base))
  {
    hide AllInputOk, NamesApart, AllReady, Named, PlanAll;
    PrunedReady(ss);
    SortedReady(PruneAll(ss));
    PrunedApart(ss);
    SortedApart(PruneAll(ss));
    PlanNamed(SortNames(PruneAll(ss)), base);
  }

  /** Copies, sizes, prunes and sorts an inventory. */
  method Gather(ss: seq<Source>, granted: bool) returns (failed: Option<Failure>, sorted: seq<Source>)
    ensures failed.None? ==> AllInputOk(ss) && AllSmall(ss) && KeptAmong(ss) && sorted == SortNames(PruneAll(ss))
    ensures failed.Some? ==> (
      || (!granted && Refused(failed.value)) || (failed.value == InvalidInput && !AllInputOk(ss))
      || (failed.value == TooLarge && AllInputOk(ss) && !AllSmall(ss)) || (failed.value == NoContent && AllInputOk(ss) && !KeptAmong(ss)))
  {
    hide AllInputOk, KeptAmong, KeptAt, Flat, Grown, PruneAll, SortNames, SmallRecords, AllSmall, Climbing;
    sorted := [];
    var records, sizes;
    failed, records := CopyInventory(ss, granted);
    if failed.Some? { return; }
    failed, sizes := QuerySizes(records, granted);
    FlatSmall(ss, -1, 0);
    if failed.Some? { return; }
    FlatClimbs(ss);
    var alive := Prune(records, sizes);
    FlatPruned(ss, records, alive);
    var kept := Grown(records, alive, -1, 0, |records|);
    PrunedSome(ss);
    if kept == [] { return Some(NoContent), sorted; }
    var ok := Requests.Ask(granted);
    if !ok { return Some(AllocationFailed), sorted; }
    sorted := SortNames(kept);
  }

  /** A bundle with the document at its beginning and the contents where they are planned. */
  method Assemble(document: seq<bv8>, base: nat, extents: seq<Extent>, contents: seq<seq<bv8>>, end: nat, granted: bool)
    returns (failed: Option<Failure>, bundle: seq<bv8>)
    requires |document| <= base && |extents| == |contents| && Chain(extents, base, end)
    requires forall i :: 0 <= i < |extents| ==> extents[i].offset + |contents[i]| < extents[i].end
    ensures failed.None? ==> |document| <= |bundle| == end && bundle[..|document|] == document && AllInPlace(bundle, extents, contents)
    ensures failed.Some? ==> !granted && Refused(failed.value)
  {
    hide Chain, AllInPlace;
    bundle := [];
    var ok := Requests.Ask(granted);
    if !ok { return Some(AllocationFailed), bundle; }
    ChainInside(extents, base, end);
    var bytes := new bv8[end](i => if 0 <= i < |document| then document[i] else 0);
    assert bytes[..|document|] == document;
    ok := Requests.Ask(granted);
    if !ok { return Some(ReadFailed), bundle; }
    BlankAfter(bytes[..], |document|, base);
    ghost var before := bytes[..];
    ReadContents(extents, contents, base, bytes);
    PrefixKept(before, bytes[..], base, |document|);
    failed, bundle := None, bytes[..];
  }

  /**
   Builds a bundle from an inventory, whose directory's document bakes to `document`. Whenever nothing outside refuses,
   the bundle is built if and only if the inventory is buildable. What is built is valid, keeps its document, has its
   siblings in order, and every path reads exactly the content that the inventory has there.
   */
  method Build(ss: seq<Source>, document: seq<bv8>, granted: bool) returns (failed: Option<Failure>, built: Built)
    requires NamesApart(ss)
    ensures failed.None? ==> (
      && Buildable(ss, Base(|document|)) && built.base == Base(|document|)
      && ValidBundle(built.directory, built.base, built.bytes) && |document| <= |built.bytes| && built.bytes[..|document|] == document
      && Ascending(built.directory) && Faithful(ss, built.directory, built.bytes))
    ensures failed.Some? ==> (!granted && Refused(failed.value)) || Rejected(ss, Base(|document|), failed.value)
    ensures granted ==> (failed.None? <==> Buildable(ss, Base(|document|)))
  {
    hide AllInputOk, AllReady, NamesApart, KeptAmong, PruneAll, SortNames, PlanAll, EndAll, ExtentsAll,
      ContentsAll, Fill, AllSmall, ValidBundle, Ascending, Faithful, AllInPlace, Chain;
    var base := Base(|document|);
    built := Built([], base, []);
    var sorted, extents, contents, end, bytes;
    failed, sorted := Gather(ss, granted);
    if failed.Some? { return; }
    SortedPruneReady(ss);
    var ok := Requests.Ask(granted);
    if !ok { return Some(BakeFailed), built; }
    failed, extents, contents, end := PlanPayload(sorted, base, granted);
    if failed.Some? { return; }
    FillPlans(sorted, base);
    var directory := Fill(sorted, extents);
    PlanRoom(sorted, base);
    failed, bytes := Assemble(document, base, extents, contents, end, granted);
    if failed.Some? { return; }
    built := Built(directory, base, bytes);
    BuiltValid(ss, base, bytes);
    BuiltAscends(ss, base);
    BuiltFaithful(ss, base, bytes);
    ok := Validate(directory, base, bytes);
    failed := if ok then None else Some(ValidationFailed);
  }
}
