/**
 The parser places values in a document by append_child and extend_object_child
 (core/data_model/document_parser.cpp). What those do to the tree of a live
 document, read as a value, is what placing an entry does to a value.
 */
module Extending {
  import opened LiveNode
  import opened Forest
  import opened Traversal
  import opened DocumentState
  import opened Content
  import L = LiveDocument
  import M = Merging
  import V = TextValues
  import W = TextWriter

  /** A merged member reads as the merger of what was there and what comes. */
  lemma MergeReads(receiver: Tree, incoming: Tree, names: seq<string>, strings: seq<string>)
    ensures W.ValueOf(M.Merge(receiver, incoming), names, strings) == V.Merge(W.ValueOf(receiver, names, strings), W.ValueOf(incoming, names, strings))
  {
    var merged := M.Merge(receiver, incoming);
    var es := W.EntriesOf(merged.kids, names, strings);
    var r, i := W.ValueOf(receiver, names, strings), W.ValueOf(incoming, names, strings);
    AnonymousReads(receiver, names, strings);
    AnonymousReads(incoming, names, strings);
    if receiver.payload.vtype.Array? && !incoming.payload.vtype.Array? {
      assert es == r.entries + [V.Entry(false, "", i)];
    } else {
      assert es == [V.Entry(false, "", r), V.Entry(false, "", i)];
    }
  }

  lemma AnonymousReads(t: Tree, names: seq<string>, strings: seq<string>)
    ensures W.EntryOf(M.Anonymous(t), names, strings) == V.Entry(false, "", W.ValueOf(t, names, strings))
  {
  }

  /** Decoded names that differ where their identifiers do. */
  ghost predicate NamesDiffer(names: seq<string>) {
    forall i, j :: 0 <= i < j < |names| ==> names[i] != names[j]
  }

  /** The members of an object as entries. */
  ghost function MembersOf(f: Shape, d: Slot, names: seq<string>, strings: seq<string>): seq<V.Entry>
    requires Wf(f) && IsValue(f.nodes, d)
  {
    W.EntriesOf(ContentOf(f, d).kids, names, strings)
  }

  lemma MemberAt(f: Shape, d: Slot, names: seq<string>, strings: seq<string>, i: nat)
    requires Wf(f) && IsValue(f.nodes, d) && i < |KidsOf(f.nodes, f.kids, d)|
    ensures var k := KidsOf(f.nodes, f.kids, d)[i];
      && |MembersOf(f, d, names, strings)| == |KidsOf(f.nodes, f.kids, d)| && IsValue(f.nodes, k)
      && MembersOf(f, d, names, strings)[i] == W.EntryOf(ContentOf(f, k), names, strings)
  {
    hide W.EntryOf, W.ValueOf;
    ContentKids(f, d);
  }

  lemma EntryNamed(f: Shape, v: Slot, names: seq<string>, strings: seq<string>)
    requires Wf(f) && IsValue(f.nodes, v)
    ensures W.EntryOf(ContentOf(f, v), names, strings) ==
      V.Entry(f.nodes[v].named, if f.nodes[v].named then W.TextIn(names, f.nodes[v].name) else "", W.ValueOf(ContentOf(f, v), names, strings))
  {
    hide W.ValueOf;
  }

  /** Members with identifiers in the table, found by text where they are found by identifier. */
  ghost predicate Tabled(f: Shape, d: Slot, names: seq<string>)
    requires IsValue(f.nodes, d)
  {
    forall i :: 0 <= i < |KidsOf(f.nodes, f.kids, d)| ==> NameAt(f.nodes, KidsOf(f.nodes, f.kids, d)[i]) <= |names|
  }

  lemma TextsDiffer(names: seq<string>, a: nat, b: nat)
    requires NamesDiffer(names) && "" !in names && a <= |names| && b <= |names| && a != b
    ensures W.TextIn(names, a) != W.TextIn(names, b)
  {
    if a > 0 { assert names[a - 1] in names; }
    if b > 0 { assert names[b - 1] in names; }
  }

  /** The entry with the text of a name is the member with that name. */
  lemma FoundByText(f: Shape, d: Slot, names: seq<string>, strings: seq<string>, name: nat, at: nat)
    requires Wf(f) && IsValue(f.nodes, d) && f.nodes[d].payload.vtype.Object? && Tabled(f, d, names) && NamesDiffer(names) && "" !in names
    requires name <= |names| && at <= |KidsOf(f.nodes, f.kids, d)|
    requires if at < |KidsOf(f.nodes, f.kids, d)| then NameAt(f.nodes, KidsOf(f.nodes, f.kids, d)[at]) == name else M.MemberNamed(f, d, name) == NO_SLOT
    ensures V.Find(MembersOf(f, d, names, strings), W.TextIn(names, name)) == at
  {
    hide Wf, W.ValueOf, W.EntryOf, W.TextIn;
    var ks, es := KidsOf(f.nodes, f.kids, d), MembersOf(f, d, names, strings);
    MembersSize(f, d, names, strings);
    forall i | 0 <= i < |es| ensures IsValue(f.nodes, ks[i]) && es[i].name == W.TextIn(names, f.nodes[ks[i]].name) && (i != at ==> es[i].name != W.TextIn(names, name)) {
      MemberAt(f, d, names, strings, i);
      M.MemberIsNamed(f, d, i);
      EntryNamed(f, ks[i], names, strings);
      if i != at {
        if at < |ks| { M.MemberFound(f, d, name, at); }
        if NameAt(f.nodes, ks[i]) == name {
          M.MemberFound(f, d, name, i);
          SameKid(f, d, i, at);
        }
        TextsDiffer(names, f.nodes[ks[i]].name, name);
      }
    }
  }

  lemma MembersSize(f: Shape, d: Slot, names: seq<string>, strings: seq<string>)
    requires Wf(f) && IsValue(f.nodes, d)
    ensures |MembersOf(f, d, names, strings)| == |KidsOf(f.nodes, f.kids, d)|
  {
    ContentKids(f, d);
  }

  /** A child stands in one place. */
  lemma SameKid(f: Shape, d: Slot, i: nat, j: nat)
    requires Wf(f) && IsValue(f.nodes, d) && i < |KidsOf(f.nodes, f.kids, d)| && j < |KidsOf(f.nodes, f.kids, d)|
    requires KidsOf(f.nodes, f.kids, d)[i] == KidsOf(f.nodes, f.kids, d)[j]
    ensures i == j
  {
    ContainerFacts(f.nodes, f.kids, f.rank, f.bound, d);
  }

  /** A detached value is inside nothing else. */
  lemma DetachedInside(f: Shape, c: Slot, v: Slot)
    requires Wf(f) && IsValue(f.nodes, c) && Unattached(f.nodes[c]) && v != c
    ensures !Under(f.nodes, c, v)
  {
    UnderStep(f.nodes, c, v);
  }

  /** A child is not inside another child of the same value, nor is what holds it. */
  lemma KidsApart(f: Shape, d: Slot, i: nat, j: nat)
    requires Wf(f) && IsValue(f.nodes, d) && i < |KidsOf(f.nodes, f.kids, d)| && j < |KidsOf(f.nodes, f.kids, d)| && i != j
    ensures !Under(f.nodes, KidsOf(f.nodes, f.kids, d)[i], KidsOf(f.nodes, f.kids, d)[j])
    ensures !Under(f.nodes, d, KidsOf(f.nodes, f.kids, d)[j])
  {
    var a, b := KidsOf(f.nodes, f.kids, d)[i], KidsOf(f.nodes, f.kids, d)[j];
    UnderStep(f.nodes, d, d);
    NotTop(f, d, d, i);
    NotTop(f, d, d, j);
    if a == b { SameKid(f, d, i, j); }
    NotTopSelf(f, d, j);
    if Under(f.nodes, d, b) { UnderRank(f.nodes, f.kids, f.rank, f.bound, d, b); }
    UnderStep(f.nodes, a, b);
  }

  /** A value that is linked under another becomes the last of its children, read as it was. */
  lemma LinkAppends(f: Shape, f': Shape, d: Slot, c: Slot, names: seq<string>, strings: seq<string>)
    requires Wf(f) && Wf(f') && IsValue(f.nodes, d) && IsValue(f.nodes, c) && Unattached(f.nodes[c]) && !Under(f.nodes, d, c)
    requires LinkedUnder(f.nodes, f.kids, f'.nodes, f'.kids, d, c, |KidsOf(f.nodes, f.kids, d)|)
    ensures IsValue(f'.nodes, d) && MembersOf(f', d, names, strings) == MembersOf(f, d, names, strings) + [W.EntryOf(ContentOf(f, c), names, strings)]
  {
    hide Wf, W.ValueOf, W.EntryOf, Under;
    var ks, es := KidsOf(f.nodes, f.kids, d), MembersOf(f, d, names, strings);
    LinkedKids(f, f', d, c);
    var es' := MembersOf(f', d, names, strings);
    MembersSize(f, d, names, strings);
    MembersSize(f', d, names, strings);
    forall i | 0 <= i < |es'| ensures es'[i] == (es + [W.EntryOf(ContentOf(f, c), names, strings)])[i] {
      MemberAt(f', d, names, strings, i);
      if i < |ks| { MemberAt(f, d, names, strings, i); }
    }
    assert es' == es + [W.EntryOf(ContentOf(f, c), names, strings)];
  }

  /** Where no member has the name, that is placing the entry. */
  lemma LinkPlaces(f: Shape, f': Shape, d: Slot, c: Slot, names: seq<string>, strings: seq<string>)
    requires Wf(f) && Wf(f') && IsValue(f.nodes, d) && f.nodes[d].payload.vtype.Object? && IsValue(f.nodes, c) && Unattached(f.nodes[c]) && f.nodes[c].named
    requires !Under(f.nodes, d, c) && M.MemberNamed(f, d, f.nodes[c].name) == NO_SLOT
    requires Tabled(f, d, names) && NamesDiffer(names) && "" !in names && f.nodes[c].name <= |names|
    requires LinkedUnder(f.nodes, f.kids, f'.nodes, f'.kids, d, c, |KidsOf(f.nodes, f.kids, d)|)
    ensures IsValue(f'.nodes, d) && MembersOf(f', d, names, strings) == V.Place(true, MembersOf(f, d, names, strings), W.EntryOf(ContentOf(f, c), names, strings))
  {
    hide Wf, W.ValueOf, W.EntryOf, Under, MembersOf, LinkedUnder, M.MemberNamed, Tabled, NamesDiffer;
    FoundByText(f, d, names, strings, f.nodes[c].name, |KidsOf(f.nodes, f.kids, d)|);
    MembersSize(f, d, names, strings);
    EntryNamed(f, c, names, strings);
    LinkAppends(f, f', d, c, names, strings);
  }

  lemma LinkedKids(f: Shape, f': Shape, d: Slot, c: Slot)
    requires Wf(f) && Wf(f') && IsValue(f.nodes, d) && IsValue(f.nodes, c) && Unattached(f.nodes[c]) && !Under(f.nodes, d, c)
    requires LinkedUnder(f.nodes, f.kids, f'.nodes, f'.kids, d, c, |KidsOf(f.nodes, f.kids, d)|)
    ensures IsValue(f'.nodes, d) && KidsOf(f'.nodes, f'.kids, d) == KidsOf(f.nodes, f.kids, d) + [c]
    ensures IsValue(f'.nodes, c) && ContentOf(f', c) == ContentOf(f, c)
    ensures forall i :: 0 <= i < |KidsOf(f.nodes, f.kids, d)| ==>
      var k := KidsOf(f.nodes, f.kids, d)[i]; IsValue(f.nodes, k) && IsValue(f'.nodes, k) && ContentOf(f', k) == ContentOf(f, k)
  {
    LinkedOthers(f, f', d, c);
    hide LinkedUnder, Wf;
    ContentElsewhere(f, f', {d}, c);
    forall i | 0 <= i < |KidsOf(f.nodes, f.kids, d)|
      ensures var k := KidsOf(f.nodes, f.kids, d)[i]; IsValue(f.nodes, k) && IsValue(f'.nodes, k) && ContentOf(f', k) == ContentOf(f, k) {
      NotTopSelf(f, d, i);
      var k := KidsOf(f.nodes, f.kids, d)[i];
      if Under(f.nodes, d, k) { UnderRank(f.nodes, f.kids, f.rank, f.bound, d, k); }
      ContentElsewhere(f, f', {d}, k);
    }
  }

  /** A link changes the children of one value only. */
  lemma LinkedOthers(f: Shape, f': Shape, d: Slot, c: Slot)
    requires Wf(f) && Wf(f') && IsValue(f.nodes, d) && LinkedUnder(f.nodes, f.kids, f'.nodes, f'.kids, d, c, |KidsOf(f.nodes, f.kids, d)|)
    ensures forall x :: IsValue(f.nodes, x) && x != d ==> SameNode(f, f', x)
    ensures IsValue(f'.nodes, d) && KidsOf(f'.nodes, f'.kids, d) == KidsOf(f.nodes, f.kids, d) + [c]
  {
    assert Paired(f.nodes, d);
    assert SameButLinks(f.nodes[d], f'.nodes[d]);
    forall x | IsValue(f.nodes, x) && x != d ensures SameNode(f, f', x) {
      assert Paired(f.nodes, x);
      assert SameButLinks(f.nodes[x], f'.nodes[x]);
    }
  }

  /** Where a member has the name: it keeps its place and takes the value in. */
  lemma ExtensionPlaces(f: Shape, f': Shape, d: Slot, e: Slot, c: Slot, names: seq<string>, strings: seq<string>)
    requires M.Colliding(f, d, e, c) && f.nodes[d].payload.vtype.Object? && f.nodes[c].named && f.nodes[e].named && f.nodes[e].name == f.nodes[c].name
    requires Tabled(f, d, names) && NamesDiffer(names) && "" !in names && f.nodes[c].name <= |names|
    requires M.Extended(f, f', e, c)
    ensures IsValue(f'.nodes, d) && MembersOf(f', d, names, strings) == V.Place(true, MembersOf(f, d, names, strings), W.EntryOf(ContentOf(f, c), names, strings))
  {
    hide Wf, W.ValueOf, W.EntryOf, Under;
    var ks, es := KidsOf(f.nodes, f.kids, d), MembersOf(f, d, names, strings);
    var j := Collided(f, f', d, e, c);
    FoundByText(f, d, names, strings, f.nodes[c].name, j);
    EntryNamed(f, c, names, strings);
    EntryNamed(f, e, names, strings);
    EntryNamed(f', e, names, strings);
    MergeReads(ContentOf(f, e), ContentOf(f, c), names, strings);
    var es' := MembersOf(f', d, names, strings);
    MembersSize(f, d, names, strings);
    MembersSize(f', d, names, strings);
    forall i | 0 <= i < |es'| ensures es'[i] == V.Place(true, es, W.EntryOf(ContentOf(f, c), names, strings))[i] {
      MemberAt(f', d, names, strings, i);
      MemberAt(f, d, names, strings, i);
    }
  }

  /** What a collision leaves alone, and where it happens. */
  lemma Collided(f: Shape, f': Shape, d: Slot, e: Slot, c: Slot) returns (j: nat)
    requires M.Colliding(f, d, e, c) && M.Extended(f, f', e, c)
    ensures j < |KidsOf(f.nodes, f.kids, d)| && KidsOf(f.nodes, f.kids, d)[j] == e
    ensures IsValue(f'.nodes, d) && KidsOf(f'.nodes, f'.kids, d) == KidsOf(f.nodes, f.kids, d)
    ensures IsValue(f'.nodes, e) && f'.nodes[e].named == f.nodes[e].named && f'.nodes[e].name == f.nodes[e].name
    ensures forall i :: 0 <= i < |KidsOf(f.nodes, f.kids, d)| && i != j ==>
      var k := KidsOf(f.nodes, f.kids, d)[i]; IsValue(f.nodes, k) && IsValue(f'.nodes, k) && ContentOf(f', k) == ContentOf(f, k)
  {
    UnderStep(f.nodes, d, d);
    UpIsValue(f.nodes, f.kids, e);
    UnderStep(f.nodes, d, c);
    var ks := KidsOf(f.nodes, f.kids, d);
    j :| 0 <= j < |ks| && ks[j] == e;
    NotTopSelf(f, d, j);
    assert SameNode(f, f', d);
    forall i | 0 <= i < |ks| && i != j ensures IsValue(f.nodes, ks[i]) && IsValue(f'.nodes, ks[i]) && ContentOf(f', ks[i]) == ContentOf(f, ks[i]) {
      NotTopSelf(f, d, i);
      KidsApart(f, d, j, i);
      KidsUp(f.nodes, f.kids, d, i);
      DetachedInside(f, c, ks[i]);
      ContentElsewhere(f, f', {c, e}, ks[i]);
    }
    MergeNames(f, f', e, c);
  }

  lemma MergeNames(f: Shape, f': Shape, e: Slot, c: Slot)
    requires Wf(f) && IsValue(f.nodes, e) && IsValue(f.nodes, c) && M.Extended(f, f', e, c)
    ensures f'.nodes[e].named == f.nodes[e].named && f'.nodes[e].name == f.nodes[e].name
  {
    assert ContentOf(f', e).name == f'.nodes[e].name && ContentOf(f', e).named == f'.nodes[e].named;
    assert ContentOf(f, e).name == f.nodes[e].name && ContentOf(f, e).named == f.nodes[e].named;
  }

  lemma NamesakeFacts(f: Shape, d: Slot, c: Slot, e: Slot)
    requires Wf(f) && IsValue(f.nodes, d) && f.nodes[d].payload.vtype.Object? && IsValue(f.nodes, c) && Unattached(f.nodes[c]) && !Under(f.nodes, d, c)
    requires e == M.MemberNamed(f, d, f.nodes[c].name) && e != NO_SLOT
    ensures M.Colliding(f, d, e, c) && f.nodes[e].named && f.nodes[e].name == f.nodes[c].name
  {
    var ks := KidsOf(f.nodes, f.kids, d);
    var i :| 0 <= i < |ks| && NameAt(f.nodes, ks[i]) == f.nodes[c].name && ks[i] == e;
    KidsUp(f.nodes, f.kids, d, i);
    M.MemberIsNamed(f, d, i);
  }

  lemma NamesTabled(doc: L.LiveDocument, d: Slot)
    requires doc.Inv() && IsValue(doc.nodes, d)
    ensures doc.nodes[d].name <= |doc.names|
    ensures forall i :: 0 <= i < |KidsOf(doc.nodes, doc.kids, d)| ==> NameAt(doc.nodes, KidsOf(doc.nodes, doc.kids, d)[i]) <= |doc.names|
  {
    forall i | 0 <= i < |KidsOf(doc.nodes, doc.kids, d)| ensures NameAt(doc.nodes, KidsOf(doc.nodes, doc.kids, d)[i]) <= |doc.names| {
      KidsUp(doc.nodes, doc.kids, d, i);
    }
  }
}
