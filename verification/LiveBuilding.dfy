/**
 A document under construction (core/data_model/document_parser.cpp, CParser): the
 containers that are open are values at the top of trees of their own in a live document.
 What each step of construction does to them, read as entries, is what the step does to
 a stack of lists of entries.
 */
module LiveBuilding {
  import opened LiveNode
  import opened Forest
  import opened Traversal
  import opened DocumentState
  import opened Content
  import opened Extending
  import opened Sequences
  import L = LiveDocument
  import M = Merging
  import V = TextValues
  import B = TextBuilding
  import W = TextWriter
  import Rebuilding

  // ---------------------------------------------------------------------
  // Trees at the top

  /** A value at the top of its tree. */
  predicate Top(f: Shape, v: Slot) {
    IsValue(f.nodes, v) && Unattached(f.nodes[v])
  }

  ghost predicate StaysTop(f: Shape, f': Shape, v: Slot)
    requires Wf(f) && Wf(f') && IsValue(f.nodes, v)
  {
    Top(f', v) && ContentOf(f', v) == ContentOf(f, v)
  }

  /** The values at the top, but for some, keep their keys and their whole trees. */
  ghost predicate TopsKept(f: Shape, f': Shape, slotOf: map<Key, Slot>, slotOf': map<Key, Slot>, touched: set<Slot>)
    requires Wf(f) && Wf(f')
  {
    forall k :: k in slotOf && Top(f, slotOf[k]) && slotOf[k] !in touched ==>
      k in slotOf' && slotOf'[k] == slotOf[k] && StaysTop(f, f', slotOf[k])
  }

  lemma TopHasNoParent(f: Shape, v: Slot)
    requires Wf(f) && Top(f, v)
    ensures Up(f.nodes, v) == NO_SLOT
  {
  }

  lemma {:induction false} OneTop(f: Shape, x: Slot, v: Slot, w: Slot)
    requires Wf(f) && IsValue(f.nodes, x) && Top(f, v) && Top(f, w) && Under(f.nodes, x, v) && Under(f.nodes, x, w)
    ensures v == w
    decreases f.rank[x]
  {
    TopHasNoParent(f, v);
    TopHasNoParent(f, w);
    UnderStep(f.nodes, x, v);
    UnderStep(f.nodes, x, w);
    if x != v && x != w {
      UpIsValue(f.nodes, f.kids, x);
      OneTop(f, Up(f.nodes, x), v, w);
    }
  }

  /** A new value leaves every tree as it was. */
  lemma GrowthKeeps(f: Shape, f': Shape, keyAt: map<Slot, Key>, keyAt': map<Slot, Key>, slotOf: map<Key, Slot>, slotOf': map<Key, Slot>)
    requires Wf(f) && Wf(f') && Grows(f, f', keyAt, keyAt', slotOf, slotOf')
    ensures TopsKept(f, f', slotOf, slotOf', {})
  {
    forall x | IsValue(f.nodes, x) ensures SameNode(f, f', x) { Rebuilding.KeptKids(f, f', x); }
    forall k | k in slotOf && Top(f, slotOf[k]) ensures StaysTop(f, f', slotOf[k]) { ContentElsewhere(f, f', {}, slotOf[k]); }
  }

  /** Linking one top under another changes the tree of that one only. */
  lemma LinkKeeps(f: Shape, f': Shape, slotOf: map<Key, Slot>, d: Slot, c: Slot)
    requires Wf(f) && Wf(f') && Top(f, d) && LinkedUnder(f.nodes, f.kids, f'.nodes, f'.kids, d, c, |KidsOf(f.nodes, f.kids, d)|)
    ensures TopsKept(f, f', slotOf, slotOf, {d, c})
  {
    LinkedOthers(f, f', d, c);
    forall k | k in slotOf && Top(f, slotOf[k]) && slotOf[k] !in {d, c} ensures StaysTop(f, f', slotOf[k]) {
      DetachedInside(f, d, slotOf[k]);
      ContentElsewhere(f, f', {d}, slotOf[k]);
    }
  }

  /** So does merging into one of its children. */
  lemma MergeKeeps(f: Shape, f': Shape, slotOf: map<Key, Slot>, slotOf': map<Key, Slot>, d: Slot, e: Slot, c: Slot)
    requires M.Colliding(f, d, e, c) && Top(f, d) && Top(f, c) && M.Extended(f, f', e, c)
    requires forall k :: k in slotOf && slotOf[k] != c ==> k in slotOf' && slotOf'[k] == slotOf[k]
    ensures Wf(f') && TopsKept(f, f', slotOf, slotOf', {d, c})
  {
    forall k | k in slotOf && Top(f, slotOf[k]) && slotOf[k] !in {d, c} ensures StaysTop(f, f', slotOf[k]) {
      var w := slotOf[k];
      TopHasNoParent(f, w);
      TopHasNoParent(f, d);
      DetachedInside(f, d, w);
      DetachedInside(f, c, w);
      UpIsValue(f.nodes, f.kids, e);
      UnderStep(f.nodes, e, w);
      ContentElsewhere(f, f', {c, e}, w);
    }
  }

  /** Detaching a child of a top changes the tree of that top only; the child keeps what it holds. */
  lemma DetachKeeps(f: Shape, f': Shape, slotOf: map<Key, Slot>, p: Slot, c: Slot)
    requires Wf(f) && Wf(f') && Top(f, p) && IsValue(f.nodes, c) && Up(f.nodes, c) == p && LinkedOutOf(f.nodes, f.kids, f'.nodes, f'.kids, c)
    ensures TopsKept(f, f', slotOf, slotOf, {p}) && Top(f', p) && StaysTop(f, f', c)
  {
    UpIsValue(f.nodes, f.kids, c);
    forall x | IsValue(f.nodes, x) && x != p ensures SameNode(f, f', x) {
      assert Paired(f.nodes, x);
      assert Paired(f.nodes, p);
      assert SameButLinks(f.nodes[x], f'.nodes[x]);
    }
    assert SameButLinks(f.nodes[p], f'.nodes[p]);
    forall k | k in slotOf && Top(f, slotOf[k]) && slotOf[k] != p ensures StaysTop(f, f', slotOf[k]) {
      DetachedInside(f, p, slotOf[k]);
      ContentElsewhere(f, f', {p}, slotOf[k]);
    }
    TopHasNoParent(f, p);
    DetachedInside(f, p, c);
    ContentElsewhere(f, f', {p}, c);
  }

  /** Erasing a top takes its own tree away and no other. */
  lemma EraseKeeps(f: Shape, f': Shape, keyAt: map<Slot, Key>, keyAt': map<Slot, Key>, slotOf: map<Key, Slot>, slotOf': map<Key, Slot>, p: Slot)
    requires Wf(f) && Wf(f') && Top(f, p) && TreeGone(f, f'.nodes, f'.kids, keyAt, keyAt', slotOf, slotOf', p)
    ensures TopsKept(f, f', slotOf, slotOf', {p})
  {
    var dead := RecordsOf(f, Whole(f, p));
    assert NO_SLOT !in f.nodes && NO_SLOT !in f.kids;
    forall k | k in slotOf && Top(f, slotOf[k]) && slotOf[k] != p
      ensures k in slotOf' && slotOf'[k] == slotOf[k] && StaysTop(f, f', slotOf[k]) {
      var w := slotOf[k];
      forall x | IsValue(f.nodes, x) && Under(f.nodes, x, w) ensures SameNode(f, f', x) && x !in dead {
        if Under(f.nodes, x, p) { OneTop(f, x, p, w); }
        LiveIfKept(f, f'.nodes, Whole(f, p), x);
        KeptRecord(f, f', p, x);
      }
      UnderStep(f.nodes, w, w);
      ContentSame(f, f', w);
    }
  }

  lemma KeptRecord(f: Shape, f': Shape, p: Slot, x: Slot)
    requires Wf(f) && IsValue(f.nodes, x) && !Under(f.nodes, x, p)
    requires f'.nodes == f.nodes - RecordsOf(f, Whole(f, p)) && f'.kids == f.kids - RecordsOf(f, Whole(f, p))
    ensures SameNode(f, f', x) && x !in RecordsOf(f, Whole(f, p))
  {
    assert Paired(f.nodes, x);
    assert x !in Whole(f, p);
    assert x !in RecordsOf(f, Whole(f, p));
    assert f.nodes[x].owned in f.nodes ==> f.nodes[x].owned !in RecordsOf(f, Whole(f, p));
  }

  // ---------------------------------------------------------------------
  // Texts in tables

  /** How text is kept: different texts as different bytes, and the empty text as none. */
  ghost predicate Coding(encode: string -> Bytes) {
    encode("") == [] && forall a, b :: encode(a) == encode(b) ==> a == b
  }

  /** The law can be met: a run of zeros, as many as its number, and a one for each character. */
  ghost function PlainCode(s: string): Bytes {
    if s == "" then [] else Run(s[0] as int) + PlainCode(s[1..])
  }

  function Run(n: nat): Bytes {
    seq(n, _ => 0) + [1]
  }

  lemma {:induction false} PlainApart(a: string, b: string)
    requires PlainCode(a) == PlainCode(b)
    ensures a == b
  {
    if a != "" && b != "" {
      RunsApart(a[0] as int, PlainCode(a[1..]), b[0] as int, PlainCode(b[1..]));
      PlainApart(a[1..], b[1..]);
      assert a == [a[0]] + a[1..] && b == [b[0]] + b[1..];
    }
  }

  lemma RunsApart(m: nat, x: Bytes, n: nat, y: Bytes)
    requires Run(m) + x == Run(n) + y
    ensures m == n && x == y
  {
    var s, t := Run(m) + x, Run(n) + y;
    assert s[m] == 1 && t[n] == 1 && (forall i :: 0 <= i < m ==> s[i] == 0) && (forall i :: 0 <= i < n ==> t[i] == 0);
    assert x == s[m + 1..] && y == t[n + 1..];
  }

  lemma CodingMet()
    ensures Coding(PlainCode)
  {
    forall a, b | PlainCode(a) == PlainCode(b) ensures a == b { PlainApart(a, b); }
  }

  /** A table keeps these texts. */
  ghost predicate Keeps(encode: string -> Bytes, table: seq<Bytes>, texts: seq<string>) {
    |texts| == |table| && forall i :: 0 <= i < |texts| ==> table[i] == encode(texts[i])
  }

  lemma KeptApart(encode: string -> Bytes, table: seq<Bytes>, texts: seq<string>)
    requires Coding(encode) && Keeps(encode, table, texts) && Distinct(table) && forall i :: 0 <= i < |table| ==> table[i] != []
    ensures NamesDiffer(texts) && "" !in texts
  {
    forall i, j | 0 <= i < j < |texts| ensures texts[i] != texts[j] { assert table[i] != table[j]; }
    forall i | 0 <= i < |texts| ensures texts[i] != "" { assert table[i] != []; }
  }

  lemma KeptText(encode: string -> Bytes, table: seq<Bytes>, texts: seq<string>, id: nat, text: string)
    requires Coding(encode) && Keeps(encode, table, texts) && id <= |table| && TextAt(table, id) == encode(text)
    ensures W.TextIn(texts, id) == text
  {
  }

  /** What a table keeps when it has grown by a text, or has had it already. */
  function Entered(table: seq<Bytes>, table': seq<Bytes>, texts: seq<string>, text: string): seq<string> {
    if |table'| == |table| then texts else texts + [text]
  }

  lemma EnteredKept(encode: string -> Bytes, table: seq<Bytes>, table': seq<Bytes>, texts: seq<string>, text: string)
    requires Keeps(encode, table, texts) && (table' == table || table' == table + [encode(text)])
    ensures Keeps(encode, table', Entered(table, table', texts, text)) && texts <= Entered(table, table', texts, text)
  {
  }

  /** Every identifier in a tree is in its table. */
  predicate Within(t: Tree, names: nat, strings: nat) {
    t.name <= names && (t.payload.vtype.Text? ==> t.payload.bits <= strings) && forall i :: 0 <= i < |t.kids| ==> Within(t.kids[i], names, strings)
  }

  lemma {:induction false} ContentWithin(f: Shape, v: Slot, names: nat, strings: nat)
    requires Wf(f) && PayloadsValid(f.nodes, names, strings) && IsValue(f.nodes, v)
    ensures Within(ContentOf(f, v), names, strings)
    decreases f.bound - f.rank[v]
  {
    ContentKids(f, v);
    KidsBelow(f, v);
    var ks := KidsOf(f.nodes, f.kids, v);
    forall i | 0 <= i < |ks| ensures Within(ContentOf(f, v).kids[i], names, strings) { ContentWithin(f, ks[i], names, strings); }
  }

  /** A tree reads the same when its tables grow. */
  lemma {:induction false} ReadsSame(t: Tree, names: seq<string>, strings: seq<string>, names': seq<string>, strings': seq<string>)
    requires Within(t, |names|, |strings|) && names <= names' && strings <= strings'
    ensures W.EntryOf(t, names', strings') == W.EntryOf(t, names, strings)
    ensures W.EntriesOf(t.kids, names', strings') == W.EntriesOf(t.kids, names, strings)
    decreases t
  {
    forall i | 0 <= i < |t.kids| ensures W.EntriesOf(t.kids, names', strings')[i] == W.EntriesOf(t.kids, names, strings)[i] {
      ReadsSame(t.kids[i], names, strings, names', strings');
    }
    assert W.EntriesOf(t.kids, names', strings') == W.EntriesOf(t.kids, names, strings);
  }

  // ---------------------------------------------------------------------
  // The stack as trees

  /** A container under construction, read from its tree. */
  function OpenOf(t: Tree, names: seq<string>, strings: seq<string>): B.Open {
    var e := W.EntryOf(t, names, strings);
    B.Open(t.payload.vtype.Object?, e.named, e.name, W.EntriesOf(t.kids, names, strings))
  }

  ghost function OpensOf(f: Shape, slots: seq<Slot>, names: seq<string>, strings: seq<string>): (opens: seq<B.Open>)
    requires Wf(f) && forall i :: 0 <= i < |slots| ==> IsValue(f.nodes, slots[i])
    ensures |opens| == |slots| && forall i :: 0 <= i < |slots| ==> opens[i] == OpenOf(ContentOf(f, slots[i]), names, strings)
  {
    seq(|slots|, i requires 0 <= i < |slots| => OpenOf(ContentOf(f, slots[i]), names, strings))
  }

  /** Keys and slots of containers, each at the top of a tree of its own; what is to go into an object has a name. */
  ghost predicate Stacked(f: Shape, slotOf: map<Key, Slot>, keys: seq<Key>, slots: seq<Slot>) {
    && |keys| == |slots| && Distinct(slots)
    && (forall i :: 0 <= i < |keys| ==> keys[i] != NO_KEY && keys[i] in slotOf && slotOf[keys[i]] == slots[i])
    && (forall i :: 0 <= i < |slots| ==> Top(f, slots[i]) && IsContainer(f.nodes[slots[i]].payload.vtype))
    && (forall i :: 0 < i < |slots| ==> f.nodes[slots[i - 1]].payload.vtype.Object? ==> f.nodes[slots[i]].named)
  }

  /** What leaves a stack alone does not change what it reads as. */
  lemma StackKept(f: Shape, f': Shape, slotOf: map<Key, Slot>, slotOf': map<Key, Slot>, touched: set<Slot>, keys: seq<Key>, slots: seq<Slot>,
                  names: seq<string>, strings: seq<string>)
    requires Wf(f) && Wf(f') && TopsKept(f, f', slotOf, slotOf', touched) && Stacked(f, slotOf, keys, slots)
    requires forall i :: 0 <= i < |slots| ==> slots[i] !in touched
    ensures Stacked(f', slotOf', keys, slots) && OpensOf(f', slots, names, strings) == OpensOf(f, slots, names, strings)
  {
    hide Wf, W.EntryOf;
    forall i | 0 <= i < |slots| ensures StaysTop(f, f', slots[i]) && keys[i] in slotOf' && slotOf'[keys[i]] == slots[i] {
      assert keys[i] in slotOf && Top(f, slotOf[keys[i]]) && slotOf[keys[i]] !in touched;
    }
    forall i | 0 <= i < |slots| ensures f'.nodes[slots[i]].payload == f.nodes[slots[i]].payload && f'.nodes[slots[i]].named == f.nodes[slots[i]].named {
      assert ContentOf(f', slots[i]).payload == ContentOf(f, slots[i]).payload && ContentOf(f', slots[i]).named == ContentOf(f, slots[i]).named;
    }
  }

  lemma StackReads(f: Shape, slots: seq<Slot>, names: seq<string>, strings: seq<string>, names': seq<string>, strings': seq<string>)
    requires Wf(f) && PayloadsValid(f.nodes, |names|, |strings|) && names <= names' && strings <= strings'
    requires forall i :: 0 <= i < |slots| ==> IsValue(f.nodes, slots[i])
    ensures OpensOf(f, slots, names', strings') == OpensOf(f, slots, names, strings)
  {
    forall i | 0 <= i < |slots| ensures OpenOf(ContentOf(f, slots[i]), names', strings') == OpenOf(ContentOf(f, slots[i]), names, strings) {
      ContentWithin(f, slots[i], |names|, |strings|);
      ReadsSame(ContentOf(f, slots[i]), names, strings, names', strings');
    }
  }
}
