/**
 The interned string table of containers/StringBuffers.hpp (CStableStrings): five
 side tables that together stand for a list of different texts, numbered from one
 in the order they first came.
 */
module StableStrings {
  import opened DocumentState
  import opened Sequences
  import opened StringTables
  import Q = Quotients
  import P = Permutations
  import Requests

  /** The five tables: packed bytes, references into them, both directions of the numbering, and the ranks. */
  datatype Table = Table(bytes: Bytes, refs: seq<Reference>, refToId: seq<nat>, idToRef: seq<nat>, sorted: seq<nat>)

  /** A text in the packed bytes, between two terminators. */
  predicate Packed(bytes: Bytes, r: Reference) {
    && 0 < r.offset && r.offset + r.length < |bytes|
    && bytes[r.offset - 1] == 0 && bytes[r.offset + r.length] == 0
  }

  function TextIn(bytes: Bytes, r: Reference): Bytes
    requires Packed(bytes, r)
  {
    bytes[r.offset..r.offset + r.length]
  }

  ghost predicate AllPacked(t: Table) {
    forall r :: 0 < r < |t.refs| ==> Packed(t.bytes, t.refs[r])
  }

  function TextOf(t: Table, r: nat): Bytes
    requires 0 < r < |t.refs| && Packed(t.bytes, t.refs[r])
  {
    TextIn(t.bytes, t.refs[r])
  }

  /** `to` and `from` number each other. */
  predicate PairedAt(to: seq<nat>, from: seq<nat>, i: nat) {
    i < |to| && 0 < to[i] < |from| && from[to[i]] == i
  }

  ghost predicate Paired(to: seq<nat>, from: seq<nat>) {
    |to| == |from| && forall i :: 0 < i < |to| ==> PairedAt(to, from, i) && PairedAt(from, to, i)
  }

  ghost predicate HasRank(sorted: seq<nat>, r: nat) {
    exists k :: 0 < k < |sorted| && sorted[k] == r
  }

  /** Every reference but the sentinel has a rank. */
  ghost predicate Ranked(sorted: seq<nat>) {
    && (forall k :: 0 < k < |sorted| ==> 0 < sorted[k] < |sorted|)
    && (forall r :: 0 < r < |sorted| ==> HasRank(sorted, r))
  }

  /** The text at a rank is less than the text at the next. */
  ghost predicate InOrder(t: Table)
    requires AllPacked(t) && Ranked(t.sorted) && |t.sorted| == |t.refs|
  {
    forall k :: 0 < k && k + 1 < |t.sorted| ==> Less(TextOf(t, t.sorted[k]), TextOf(t, t.sorted[k + 1]))
  }

  /** A buffer of packed texts is empty or lies between two terminators. */
  predicate Buffered(bytes: Bytes) {
    |bytes| == 0 || (|bytes| >= 2 && bytes[0] == 0 && bytes[|bytes| - 1] == 0)
  }

  ghost predicate Sound(t: Table) {
    && Buffered(t.bytes) && |t.refToId| == |t.idToRef| == |t.sorted| == |t.refs|
    && (t.refs != [] ==> t.refs[0] == Reference(0, 0) && t.refToId[0] == 0 && t.idToRef[0] == 0 && t.sorted[0] == 0)
    && AllPacked(t) && Paired(t.refToId, t.idToRef) && Ranked(t.sorted) && InOrder(t)
  }

  /** The number of texts. */
  function Count(t: Table): nat {
    if t.refs == [] then 0 else |t.refs| - 1
  }

  /** The text with a number. */
  ghost function NumberedText(t: Table, id: nat): Bytes
    requires Sound(t) && 0 < id <= Count(t)
  {
    assert PairedAt(t.idToRef, t.refToId, id);
    TextOf(t, t.idToRef[id])
  }

  /** What the table stands for: its texts in the order of their numbers. */
  ghost function Texts(t: Table): (texts: seq<Bytes>)
    requires Sound(t)
    ensures |texts| == Count(t)
  {
    seq(Count(t), i requires 0 <= i < Count(t) => NumberedText(t, i + 1))
  }

  // ---------------------------------------------------------------------
  // Order

  /** The text at a rank. */
  ghost function RankText(t: Table, k: nat): Bytes
    requires Sound(t) && 0 < k < |t.sorted|
  {
    TextOf(t, t.sorted[k])
  }

  lemma {:induction false} RanksAscend(t: Table, j: nat, k: nat)
    requires Sound(t) && 0 < j < k < |t.sorted|
    ensures Less(RankText(t, j), RankText(t, k))
    decreases k
  {
    hide Less, TextIn, Packed;
    if j < k - 1 {
      RanksAscend(t, j, k - 1);
      LessTransitive(RankText(t, j), RankText(t, k - 1), RankText(t, k));
    }
  }

  /** Where a text would be placed: what is before is less, what is from there on is greater. */
  ghost predicate Fits(t: Table, text: Bytes, at: nat)
    requires Sound(t)
  {
    && 0 < at <= |t.sorted|
    && (forall k :: 0 < k < at ==> Less(RankText(t, k), text)) && (forall k :: at <= k < |t.sorted| ==> Less(text, RankText(t, k)))
  }

  lemma TextDiffers(t: Table, text: Bytes, at: nat, id: nat)
    requires Sound(t) && Fits(t, text, at) && 0 < id <= Count(t)
    ensures NumberedText(t, id) != text
  {
    hide Less, TextIn, Packed;
    assert PairedAt(t.idToRef, t.refToId, id);
    var r := t.idToRef[id];
    assert HasRank(t.sorted, r);
    var k :| 0 < k < |t.sorted| && t.sorted[k] == r;
    LessIrreflexive(text);
    if k < at { assert Less(RankText(t, k), text); } else { assert Less(text, RankText(t, k)); }
  }

  lemma FitsNowhere(t: Table, text: Bytes, at: nat)
    requires Sound(t) && Fits(t, text, at)
    ensures text !in Texts(t)
  {
    hide Sound, Fits, NumberedText;
    forall i | 0 <= i < Count(t) ensures Texts(t)[i] != text { TextDiffers(t, text, at, i + 1); }
  }

  /** No text is there twice. */
  lemma TextsApart(t: Table, i: nat, j: nat)
    requires Sound(t) && 0 < i < j <= Count(t)
    ensures NumberedText(t, i) != NumberedText(t, j)
  {
    hide Less, TextIn, Packed;
    assert PairedAt(t.idToRef, t.refToId, i) && PairedAt(t.idToRef, t.refToId, j);
    assert HasRank(t.sorted, t.idToRef[i]) && HasRank(t.sorted, t.idToRef[j]);
    var a :| 0 < a < |t.sorted| && t.sorted[a] == t.idToRef[i];
    var b :| 0 < b < |t.sorted| && t.sorted[b] == t.idToRef[j];
    LessIrreflexive(NumberedText(t, i));
    if a < b { RanksAscend(t, a, b); }
    if b < a { RanksAscend(t, b, a); }
  }

  /** The numbers of the texts in the order of their ranks. */
  ghost function Order(t: Table): (order: seq<nat>)
    requires Sound(t)
    ensures |order| == Count(t)
  {
    seq(Count(t), k requires 0 <= k < Count(t) => NumberAt(t, k + 1))
  }

  ghost function NumberAt(t: Table, k: nat): nat
    requires Sound(t) && 0 < k < |t.sorted|
  {
    t.refToId[t.sorted[k]]
  }

  lemma NumberFacts(t: Table, k: nat)
    requires Sound(t) && 0 < k < |t.sorted|
    ensures 0 < NumberAt(t, k) <= Count(t) && NumberedText(t, NumberAt(t, k)) == RankText(t, k)
  {
    hide Packed, TextIn, Less;
    assert PairedAt(t.refToId, t.idToRef, t.sorted[k]);
  }

  /** The table is what a live document and a baker take it for: its texts differ, and its ranks order them. */
  lemma TableOrders(t: Table)
    requires Sound(t)
    ensures Distinct(Texts(t)) && RankOrder(Order(t), Texts(t))
  {
    hide Sound, Less, NumberAt, NumberedText, RankText;
    var order, texts := Order(t), Texts(t);
    forall i, j | 0 <= i < j < |texts| ensures texts[i] != texts[j] { TextsApart(t, i + 1, j + 1); }
    if Count(t) > 0 { SortedCount(t); }
    forall k | 0 <= k < |order| ensures 1 <= order[k] <= |texts| && texts[order[k] - 1] == RankText(t, k + 1) { NumberFacts(t, k + 1); }
    forall j, k | 0 <= j < k < |order| ensures Less(texts[order[j] - 1], texts[order[k] - 1]) { RanksAscend(t, j + 1, k + 1); }
    forall j, k | 0 <= j < k < |order| ensures order[j] != order[k] { LessIrreflexive(texts[order[j] - 1]); }
  }

  lemma SortedCount(t: Table)
    requires Sound(t) && Count(t) > 0
    ensures |t.sorted| == Count(t) + 1
  {
  }

  /** Compares two texts byte by byte, then by length. */
  method Compare(a: Bytes, b: Bytes) returns (relationship: int)
    ensures relationship == 0 <==> a == b
    ensures relationship < 0 <==> Less(a, b)
    ensures relationship > 0 <==> Less(b, a)
  {
    var count := if |a| <= |b| then |a| else |b|;
    for index := 0 to count
      invariant a[..index] == b[..index]
      invariant Less(a, b) <==> Less(a[index..], b[index..])
      invariant Less(b, a) <==> Less(b[index..], a[index..])
    {
      LessHead(a[index..], b[index..]);
      if a[index] != b[index] {
        assert a[index..][0] != b[index..][0];
        return if a[index] > b[index] then 1 else -1;
      }
      assert a[index..][1..] == a[index + 1..] && b[index..][1..] == b[index + 1..];
    }
    LessHead(a[count..], b[count..]);
    relationship := if |a| == |b| then 0 else if |a| > |b| then 1 else -1;
    assert a == a[..count] + a[count..] && b == b[..count] + b[count..];
  }

  lemma {:induction false} LessHead(a: Bytes, b: Bytes)
    ensures Less(a, b) <==> b != [] && (a == [] || a[0] < b[0] || (a[0] == b[0] && Less(a[1..], b[1..])))
    ensures Less(b, a) <==> a != [] && (b == [] || b[0] < a[0] || (a[0] == b[0] && Less(b[1..], a[1..])))
  {
  }

  // ---------------------------------------------------------------------
  // Appending

  function Inserted(s: seq<nat>, at: nat, x: nat): seq<nat>
    requires at <= |s|
  {
    s[..at] + [x] + s[at..]
  }

  /** The table with a new text at the end of everything but the ranks. */
  function Appended(t: Table, text: Bytes, at: nat): Table
    requires at <= |t.sorted|
  {
    var id := |t.refs|;
    Table(t.bytes + ([0] + text + [0]), t.refs + [Reference(|t.bytes| + 1, |text|)], t.refToId + [id], t.idToRef + [id], Inserted(t.sorted, at, id))
  }

  lemma PackedStays(bytes: Bytes, more: Bytes, r: Reference)
    requires Packed(bytes, r)
    ensures Packed(bytes + more, r) && TextIn(bytes + more, r) == TextIn(bytes, r)
  {
  }

  lemma PackedNew(bytes: Bytes, text: Bytes)
    ensures var r := Reference(|bytes| + 1, |text|); Packed(bytes + ([0] + text + [0]), r) && TextIn(bytes + ([0] + text + [0]), r) == text
  {
    var b := bytes + ([0] + text + [0]);
    forall k | 0 <= k < |text| ensures b[|bytes| + 1 + k] == text[k] {}
  }

  lemma AppendedTexts(t: Table, text: Bytes, at: nat)
    requires AllPacked(t) && at <= |t.sorted| && t.refs != []
    ensures AllPacked(Appended(t, text, at)) && TextOf(Appended(t, text, at), |t.refs|) == text
    ensures forall r :: 0 < r < |t.refs| ==> TextOf(Appended(t, text, at), r) == TextOf(t, r)
  {
    hide Packed, TextIn;
    var t' := Appended(t, text, at);
    PackedNew(t.bytes, text);
    forall r | 0 < r < |t.refs| ensures Packed(t'.bytes, t'.refs[r]) && TextIn(t'.bytes, t'.refs[r]) == TextIn(t.bytes, t.refs[r]) {
      PackedStays(t.bytes, [0] + text + [0], t.refs[r]);
    }
  }

  lemma PairedGrows(to: seq<nat>, from: seq<nat>)
    requires Paired(to, from) && to != []
    ensures Paired(to + [|to|], from + [|to|])
  {
    var to', from' := to + [|to|], from + [|to|];
    forall i | 0 < i < |to'| ensures PairedAt(to', from', i) && PairedAt(from', to', i) {
      if i < |to| { assert PairedAt(to, from, i) && PairedAt(from, to, i); }
    }
  }

  lemma RankedGrows(sorted: seq<nat>, at: nat)
    requires Ranked(sorted) && 0 < at <= |sorted|
    ensures Ranked(Inserted(sorted, at, |sorted|))
  {
    var s := Inserted(sorted, at, |sorted|);
    forall r | 0 < r < |s| ensures HasRank(s, r) {
      if r < |sorted| {
        assert HasRank(sorted, r);
        var k :| 0 < k < |sorted| && sorted[k] == r;
        assert s[if k < at then k else k + 1] == r;
      } else {
        assert s[at] == r;
      }
    }
  }

  /** A new text, put where it fits, leaves a sound table with one more text. */
  lemma AppendSound(t: Table, text: Bytes, at: nat)
    requires Sound(t) && t.refs != [] && Fits(t, text, at)
    ensures var t' := Appended(t, text, at); Sound(t') && Texts(t') == Texts(t) + [text]
  {
    hide Packed, TextIn, Less;
    var t' := Appended(t, text, at);
    AppendedTexts(t, text, at);
    PairedGrows(t.refToId, t.idToRef);
    RankedGrows(t.sorted, at);
    AppendOrder(t, text, at);
    BufferGrows(t.bytes, text);
    assert Sound(t');
    AppendTexts(t, text, at);
  }

  lemma AppendOrder(t: Table, text: Bytes, at: nat)
    requires Sound(t) && t.refs != [] && Fits(t, text, at)
    requires AllPacked(Appended(t, text, at)) && Ranked(Appended(t, text, at).sorted)
    requires TextOf(Appended(t, text, at), |t.refs|) == text
    requires forall r :: 0 < r < |t.refs| ==> TextOf(Appended(t, text, at), r) == TextOf(t, r)
    ensures InOrder(Appended(t, text, at))
  {
    hide Packed, TextIn, Less;
    var t' := Appended(t, text, at);
    forall k | 0 < k && k + 1 < |t'.sorted| ensures Less(TextOf(t', t'.sorted[k]), TextOf(t', t'.sorted[k + 1])) {
      if k + 1 < at {
        assert Less(TextOf(t, t.sorted[k]), TextOf(t, t.sorted[k + 1]));
      } else if k + 1 == at {
        assert Less(RankText(t, k), text);
      } else if k == at {
        assert Less(text, RankText(t, at));
      } else {
        assert Less(TextOf(t, t.sorted[k - 1]), TextOf(t, t.sorted[k - 1 + 1]));
      }
    }
  }

  lemma AppendTexts(t: Table, text: Bytes, at: nat)
    requires Sound(t) && t.refs != [] && at <= |t.sorted| && Sound(Appended(t, text, at))
    requires TextOf(Appended(t, text, at), |t.refs|) == text
    requires forall r :: 0 < r < |t.refs| ==> TextOf(Appended(t, text, at), r) == TextOf(t, r)
    ensures Texts(Appended(t, text, at)) == Texts(t) + [text]
  {
    hide Packed, TextIn, InOrder, Ranked;
    var t' := Appended(t, text, at);
    forall i | 0 <= i < Count(t') ensures Texts(t')[i] == (Texts(t) + [text])[i] {
      assert PairedAt(t'.idToRef, t'.refToId, i + 1);
      if i < Count(t) { assert PairedAt(t.idToRef, t.refToId, i + 1); }
    }
  }

  /** A table with its sentinels alone. */
  function Started(bytes: Bytes): Table {
    Table(bytes, [Reference(0, 0)], [0], [0], [0])
  }

  lemma StartedSound(bytes: Bytes, text: Bytes)
    requires Buffered(bytes)
    ensures Sound(Started(bytes)) && Texts(Started(bytes)) == [] && Fits(Started(bytes), text, 1)
  {
  }

  lemma BufferGrows(bytes: Bytes, text: Bytes)
    requires Buffered(bytes)
    ensures Buffered(bytes + ([0] + text + [0]))
  {
  }

  // ---------------------------------------------------------------------
  // Sorting

  /** The first `n` references are those of the ranks, in order. */
  ghost predicate SortedUpTo(t: Table, u: Table, n: nat)
    requires Sound(t)
  {
    && |u.refs| == |u.refToId| == |u.idToRef| == |u.sorted| == |t.refs| && 0 < n <= |t.refs|
    && Buffered(u.bytes) && u.refs[0] == Reference(0, 0) && u.refToId[0] == 0 && u.idToRef[0] == 0 && u.sorted[0] == 0
    && forall k :: 0 < k < n ==> RankDone(t, u, k)
  }

  ghost predicate RankDone(t: Table, u: Table, k: nat)
    requires Sound(t) && 0 < k < |t.sorted|
  {
    && k < |u.refs| && k < |u.refToId| && k < |u.sorted| && Packed(u.bytes, u.refs[k]) && TextIn(u.bytes, u.refs[k]) == RankText(t, k)
    && u.refToId[k] == t.refToId[t.sorted[k]] && u.sorted[k] == k && PairedAt(u.refToId, u.idToRef, k)
  }

  /** The rank of a reference. */
  lemma RankOfId(t: Table, id: nat) returns (k: nat)
    requires Sound(t) && 0 < id <= Count(t)
    ensures 0 < k < |t.sorted| && t.refToId[t.sorted[k]] == id && t.sorted[k] == t.idToRef[id]
  {
    assert PairedAt(t.idToRef, t.refToId, id);
    assert HasRank(t.sorted, t.idToRef[id]);
    k :| 0 < k < |t.sorted| && t.sorted[k] == t.idToRef[id];
  }

  lemma SortPaired(t: Table, u: Table)
    requires Sound(t) && t.refs != [] && SortedUpTo(t, u, |t.refs|)
    ensures Paired(u.refToId, u.idToRef)
  {
    hide Packed, TextIn, Less, InOrder;
    forall i | 0 < i < |u.refToId| ensures PairedAt(u.refToId, u.idToRef, i) && PairedAt(u.idToRef, u.refToId, i) {
      assert RankDone(t, u, i);
      var k := RankOfId(t, i);
      assert RankDone(t, u, k);
    }
  }

  lemma SortSound(t: Table, u: Table)
    requires Sound(t) && t.refs != [] && SortedUpTo(t, u, |t.refs|)
    ensures Sound(u) && Texts(u) == Texts(t)
    ensures forall k :: 0 < k < |u.sorted| ==> u.sorted[k] == k
  {
    hide Packed, TextIn, Less;
    forall k | 0 < k < |u.refs| ensures Packed(u.bytes, u.refs[k]) && u.sorted[k] == k && TextIn(u.bytes, u.refs[k]) == RankText(t, k) {
      assert RankDone(t, u, k);
    }
    SortPaired(t, u);
    forall r | 0 < r < |u.sorted| ensures HasRank(u.sorted, r) { assert u.sorted[r] == r; }
    forall k | 0 < k && k + 1 < |u.sorted| ensures Less(TextOf(u, u.sorted[k]), TextOf(u, u.sorted[k + 1])) {
      assert Less(TextOf(t, t.sorted[k]), TextOf(t, t.sorted[k + 1]));
    }
    assert Sound(u);
    forall i | 0 <= i < Count(u) ensures Texts(u)[i] == Texts(t)[i] {
      var k := RankOfId(t, i + 1);
      assert RankDone(t, u, k);
      assert u.refToId[k] == i + 1 && u.idToRef[i + 1] == k;
    }
  }

  /** Packing the text at the next rank: references, numbers and ranks move up by one. */
  function Packing(t: Table, u: Table, k: nat, text: Bytes): Table
    requires k < |u.refs| && k < |u.refToId| && k < |u.sorted| && k < |t.sorted| && t.sorted[k] < |t.refToId| && t.refToId[t.sorted[k]] < |u.idToRef|
  {
    var id := t.refToId[t.sorted[k]];
    Table(u.bytes + ([0] + text + [0]), u.refs[k := Reference(|u.bytes| + 1, |text|)], u.refToId[k := id], u.idToRef[id := k], u.sorted[k := k])
  }

  lemma NumbersApart(t: Table, j: nat, k: nat)
    requires Sound(t) && 0 < j < k < |t.sorted|
    ensures 0 < t.sorted[j] < |t.refToId| && 0 < t.sorted[k] < |t.refToId| && t.refToId[t.sorted[j]] != t.refToId[t.sorted[k]]
    ensures 0 < t.refToId[t.sorted[k]] < |t.refs|
  {
    hide Packed, TextIn, Less;
    RanksAscend(t, j, k);
    LessIrreflexive(RankText(t, j));
    assert PairedAt(t.refToId, t.idToRef, t.sorted[j]) && PairedAt(t.refToId, t.idToRef, t.sorted[k]);
  }

  lemma RankRange(t: Table, k: nat)
    requires Sound(t) && 0 < k < |t.sorted|
    ensures 0 < t.sorted[k] < |t.refs| && 0 < t.refToId[t.sorted[k]] < |t.refs|
  {
    assert PairedAt(t.refToId, t.idToRef, t.sorted[k]);
  }

  lemma SortStep(t: Table, u: Table, k: nat)
    requires Sound(t) && k < |t.refs| && SortedUpTo(t, u, k)
    ensures 0 < k < |t.sorted| && t.sorted[k] < |t.refToId| && 0 < t.refToId[t.sorted[k]] < |u.idToRef|
    ensures SortedUpTo(t, Packing(t, u, k, RankText(t, k)), k + 1)
  {
    hide Packed, TextIn, Less, Sound, RankText;
    RankLengths(t);
    RankRange(t, k);
    var text := RankText(t, k);
    var u' := Packing(t, u, k, text);
    PackedNew(u.bytes, text);
    BufferGrows(u.bytes, text);
    forall j | 0 < j < k + 1 ensures RankDone(t, u', j) {
      if j < k {
        assert RankDone(t, u, j);
        NumbersApart(t, j, k);
        PackedStays(u.bytes, [0] + text + [0], u.refs[j]);
      }
    }
  }

  lemma RankLengths(t: Table)
    requires Sound(t)
    ensures |t.refToId| == |t.idToRef| == |t.sorted| == |t.refs|
  {
  }

  // ---------------------------------------------------------------------
  // What an integrity check looks at

  /** Everything but the order of the texts: the ranks are a permutation. */
  ghost predicate Shaped(t: Table) {
    && Buffered(t.bytes) && |t.refToId| == |t.idToRef| == |t.sorted| == |t.refs|
    && (t.refs != [] ==>
          && t.refs[0] == Reference(0, 0) && t.refToId[0] == 0 && t.idToRef[0] == 0 && t.sorted[0] == 0
          && AllPacked(t) && Paired(t.refToId, t.idToRef) && P.IsPermutation(t.sorted, 0))
  }

  /** A permutation that starts with zero gives every other number a rank. */
  lemma PermutedRanks(sorted: seq<nat>)
    requires sorted != [] && sorted[0] == 0 && P.IsPermutation(sorted, 0)
    ensures Ranked(sorted)
  {
    P.PermutationMeans(sorted, 0);
    forall k | 0 < k < |sorted| ensures 0 < sorted[k] < |sorted| { assert sorted[0] != sorted[k]; }
    forall r | 0 < r < |sorted| ensures HasRank(sorted, r) {
      assert P.Once(sorted, r);
      var k := P.CountFound(sorted, r);
      assert sorted[k] == r;
    }
  }

  lemma RanksPermuted(t: Table)
    requires Sound(t) && t.refs != []
    ensures P.IsPermutation(t.sorted, 0)
  {
    hide Less, Packed, TextIn, InOrder;
    forall i, j | 0 <= i < j < |t.sorted| ensures t.sorted[i] != t.sorted[j] {
      if i > 0 {
        RanksAscend(t, i, j);
        LessIrreflexive(RankText(t, i));
      }
    }
    P.PermutationMeans(t.sorted, 0);
  }

  lemma ShapedRanks(t: Table)
    requires Shaped(t)
    ensures AllPacked(t) && Ranked(t.sorted)
  {
    if t.refs != [] { PermutedRanks(t.sorted); }
  }

  /** A table is sound if and only if it has the shape and its texts are in order. */
  lemma ShapedSound(t: Table)
    ensures Sound(t) <==> Shaped(t) && (ShapedRanks(t); InOrder(t))
  {
    hide Packed, TextIn, Less, P.IsPermutation;
    if Sound(t) && t.refs != [] { RanksPermuted(t); }
    if Shaped(t) { ShapedRanks(t); }
  }

  // ---------------------------------------------------------------------
  // The table object

  class Strings {
    /** Whether memory is there whenever it is asked for, and no size is too large. */
    const granted: bool

    var bytes: Bytes
    var refs: seq<Reference>
    var refToId: seq<nat>
    var idToRef: seq<nat>
    var sorted: seq<nat>

    ghost function State(): Table
      reads this
    {
      Table(bytes, refs, refToId, idToRef, sorted)
    }

    ghost predicate Valid()
      reads this
    {
      Sound(State())
    }

    /** The texts that have been added, in the order they came. */
    ghost function Contents(): seq<Bytes>
      reads this
      requires Valid()
    {
      Texts(State())
    }

    constructor (granted: bool)
      ensures Valid() && Contents() == [] && this.granted == granted
    {
      this.granted := granted;
      bytes, refs, refToId, idToRef, sorted := [], [], [], [], [];
    }

    /** The text with a number, nothing for a number that is not in use. */
    method View(id: nat) returns (text: Bytes)
      requires Valid()
      ensures text == if 0 < id <= |Contents()| then Contents()[id - 1] else []
    {
      if id == 0 || id >= |idToRef| { return []; }
      assert PairedAt(idToRef, refToId, id);
      var r := refs[idToRef[id]];
      text := bytes[r.offset..r.offset + r.length];
    }

    /** Binary search over the ranks: the reference of a text, or where its rank would be. */
    method FindReference(text: Bytes) returns (ref: nat, at: nat)
      requires Valid() && |refs| > 0
      ensures ref != 0 ==> ref < |refs| && TextOf(State(), ref) == text
      ensures ref == 0 ==> Fits(State(), text, at)
    {
      hide Less, Packed, TextIn;
      ghost var t := State();
      var lower, upper := 1, |sorted|;
      while lower < upper
        invariant 1 <= lower <= upper <= |sorted|
        invariant forall k :: 0 < k < lower ==> Less(RankText(t, k), text)
        invariant forall k :: upper <= k < |sorted| ==> Less(text, RankText(t, k))
      {
        var pivot := (lower + upper) / 2;
        RankRange(t, pivot);
        var r := refs[sorted[pivot]];
        assert Packed(bytes, r);
        ReferenceBounds(bytes, r);
        var relationship := Compare(text, bytes[r.offset..r.offset + r.length]);
        Pivot(t, pivot, text);
        if relationship == 0 { return sorted[pivot], 0; }
        if relationship < 0 { upper := pivot; } else { lower := pivot + 1; }
      }
      ref, at := 0, lower;
    }

    lemma ReferenceBounds(bytes: Bytes, r: Reference)
      requires Packed(bytes, r)
      ensures r.offset + r.length <= |bytes| && TextIn(bytes, r) == bytes[r.offset..r.offset + r.length]
    {
    }

    /** A comparison at one rank decides it for all ranks on one side. */
    lemma {:induction false} Pivot(t: Table, pivot: nat, text: Bytes)
      requires Sound(t) && 0 < pivot < |t.sorted|
      ensures Less(text, RankText(t, pivot)) ==> forall k :: pivot <= k < |t.sorted| ==> Less(text, RankText(t, k))
      ensures Less(RankText(t, pivot), text) ==> forall k :: 0 < k <= pivot ==> Less(RankText(t, k), text)
    {
      hide Sound, Less, RankText;
      RankLengths(t);
      forall k | 0 < k < |t.sorted| ensures k > pivot && Less(text, RankText(t, pivot)) ==> Less(text, RankText(t, k))
        ensures k < pivot && Less(RankText(t, pivot), text) ==> Less(RankText(t, k), text)
      {
        if k > pivot {
          RanksAscend(t, pivot, k);
          if Less(text, RankText(t, pivot)) { LessTransitive(text, RankText(t, pivot), RankText(t, k)); }
        }
        if k < pivot {
          RanksAscend(t, k, pivot);
          if Less(RankText(t, pivot), text) { LessTransitive(RankText(t, k), RankText(t, pivot), text); }
        }
      }
    }

    lemma NumberOf(t: Table, r: nat)
      requires Sound(t) && 0 < r < |t.refs|
      ensures var id := t.refToId[r]; 0 < id <= Count(t) && NumberedText(t, id) == TextOf(t, r) == Texts(t)[id - 1]
    {
      assert PairedAt(t.refToId, t.idToRef, r);
    }

    /** The number of a text; zero when it is not there. */
    method FindId(text: Bytes) returns (id: nat)
      requires Valid()
      ensures if text in Contents() then 0 < id <= |Contents()| && Contents()[id - 1] == text else id == 0
    {
      hide Less, Packed, TextIn, Fits, NumberedText;
      id := 0;
      if |refs| > 1 {
        var ref, at := FindReference(text);
        if ref != 0 {
          NumberOf(State(), ref);
          id := refToId[ref];
        } else {
          FitsNowhere(State(), text, at);
        }
      }
    }

    /**
     Adds a text. One that is there keeps its number; a new one gets the next number, and no number changes its text;
     when memory is short nothing changes.
     */
    method Append(text: Bytes) returns (id: nat)
      requires Valid()
      modifies this
      ensures Valid()
      ensures text in old(Contents()) ==> Contents() == old(Contents()) && 0 < id <= |Contents()| && Contents()[id - 1] == text
      ensures text !in old(Contents()) ==>
        if id == 0 then !granted && Contents() == old(Contents()) else Contents() == old(Contents()) + [text] && id == |Contents()|
    {
      hide Less, Packed, TextIn, Fits, NumberedText, Inserted;
      ghost var t := State();
      id := 0;
      if |refs| != 0 {
        var ref, at := FindReference(text);
        if ref != 0 {
          NumberOf(t, ref);
          id := refToId[ref];
          return;
        }
        FitsNowhere(t, text, at);
        var met := Requests.Ask(granted);
        if met {
          AppendSound(t, text, at);
          FitsRange(t, text, at);
          id := |refs|;
          Store(text, at);
        }
      } else {
        var met := Requests.Ask(granted);
        if met {
          StartedSound(bytes, text);
          AppendSound(Started(bytes), text, 1);
          refs, refToId, idToRef, sorted := [Reference(0, 0)], [0], [0], [0];
          id := 1;
          Store(text, 1);
        }
      }
    }

    lemma FitsRange(t: Table, text: Bytes, at: nat)
      requires Sound(t) && Fits(t, text, at)
      ensures 0 < at <= |t.sorted|
    {
    }

    /** The writes of an append, none of which can fail any more. */
    method Store(text: Bytes, at: nat)
      requires at <= |sorted|
      modifies this
      ensures State() == Appended(old(State()), text, at)
    {
      var id := |refs|;
      var offset := |bytes| + 1;
      bytes := bytes + ([0] + text + [0]);
      refs := refs + [Reference(offset, |text|)];
      refToId := refToId + [id];
      idToRef := idToRef + [id];
      sorted := sorted[..at] + [id] + sorted[at..];
    }

    /** Rewrites the bytes in the order of the texts, so that references are ranks; numbers keep their texts. */
    method Sort() returns (ok: bool)
      requires Valid()
      modifies this
      ensures Valid() && Contents() == old(Contents())
      ensures if ok then forall k :: 0 < k < |sorted| ==> sorted[k] == k else !granted && State() == old(State())
    {
      ok := true;
      if |refs| > 2 {
        var met := Requests.Ask(granted);
        if !met { return false; }
        ok := Rewrite();
      } else if |refs| == 2 {
        assert HasRank(sorted, 1);
      }
    }

    method Rewrite() returns (ok: bool)
      requires Valid() && |refs| > 0
      modifies this
      ensures Valid() && Contents() == old(Contents())
      ensures if ok then forall k :: 0 < k < |sorted| ==> sorted[k] == k else !granted && State() == old(State())
    {
      hide Less, Packed, TextIn, Sound, SortedUpTo, RankText;
      ghost var t := State();
      RankLengths(t);
      var count := |refs|;
      var newRefs := seq(count, _ => Reference(0, 0));
      var newRefToId: seq<nat>, newIdToRef: seq<nat>, newSorted: seq<nat> := seq(count, _ => 0), seq(count, _ => 0), seq(count, _ => 0);
      var newBytes: Bytes := [];
      Unsorted(t, Table(newBytes, newRefs, newRefToId, newIdToRef, newSorted));
      for index := 1 to count
        invariant State() == t && SortedUpTo(t, Table(newBytes, newRefs, newRefToId, newIdToRef, newSorted), index)
      {
        ghost var u := Table(newBytes, newRefs, newRefToId, newIdToRef, newSorted);
        SortStep(t, u, index);
        SizesOf(t, u, index);
        RankBounds(t, index);
        var oldRef := sorted[index];
        var id := refToId[oldRef];
        var r := refs[oldRef];
        var text := bytes[r.offset..r.offset + r.length];
        var met := Requests.Ask(granted);
        if !met { return false; }
        newRefs := newRefs[index := Reference(|newBytes| + 1, r.length)];
        newBytes := newBytes + ([0] + text + [0]);
        newRefToId := newRefToId[index := id];
        newIdToRef := newIdToRef[id := index];
        newSorted := newSorted[index := index];
      }
      ghost var u := Table(newBytes, newRefs, newRefToId, newIdToRef, newSorted);
      SizesOf(t, u, count);
      SortSound(t, u);
      bytes, refs, refToId, idToRef, sorted := newBytes, newRefs, newRefToId, newIdToRef, newSorted;
      ok := true;
    }

    lemma Unsorted(t: Table, u: Table)
      requires Sound(t) && |t.refs| > 0 && |u.refs| == |u.refToId| == |u.idToRef| == |u.sorted| == |t.refs|
      requires u.bytes == [] && u.refs[0] == Reference(0, 0) && u.refToId[0] == 0 && u.idToRef[0] == 0 && u.sorted[0] == 0
      ensures SortedUpTo(t, u, 1)
    {
    }

    lemma SizesOf(t: Table, u: Table, n: nat)
      requires Sound(t) && SortedUpTo(t, u, n)
      ensures |u.refs| == |u.refToId| == |u.idToRef| == |u.sorted| == |t.refs|
    {
    }

    lemma RankBounds(t: Table, k: nat)
      requires Sound(t) && 0 < k < |t.sorted|
      ensures 0 < t.sorted[k] < |t.refs| && |t.refToId| == |t.refs| && 0 < t.refToId[t.sorted[k]] < |t.refs|
      ensures var r := t.refs[t.sorted[k]]; r.offset + r.length <= |t.bytes| && t.bytes[r.offset..r.offset + r.length] == RankText(t, k)
    {
      RankRange(t, k);
      assert Packed(t.bytes, t.refs[t.sorted[k]]);
    }

    /** The rank of a reference: at once when the table is sorted, else by looking for it. */
    method RankOfReference(ref: nat) returns (rank: nat)
      requires Valid()
      ensures if 0 < ref < |refs| then 0 < rank < |sorted| && sorted[rank] == ref else rank == 0
    {
      hide Less, Packed, TextIn, InOrder;
      if ref == 0 || ref >= |sorted| { return 0; }
      if sorted[ref] == ref { return ref; }
      assert HasRank(sorted, ref);
      rank := 1;
      while rank < |sorted|
        invariant 1 <= rank && forall k :: 0 < k < rank && k < |sorted| ==> sorted[k] != ref
      {
        if sorted[rank] == ref { return; }
        rank := rank + 1;
      }
      assert false;
    }

    /** Both numberings agree on every entry but the sentinel. */
    method CheckPairs() returns (ok: bool)
      requires |refToId| == |idToRef| > 0
      ensures ok <==> Paired(refToId, idToRef)
    {
      for index := 1 to |refToId|
        invariant forall i :: 0 < i < index && i < |refToId| ==> PairedAt(refToId, idToRef, i) && PairedAt(idToRef, refToId, i)
      {
        var id, ref := refToId[index], idToRef[index];
        if id == 0 || id >= |refToId| || ref == 0 || ref >= |refToId| {
          assert !(PairedAt(refToId, idToRef, index) && PairedAt(idToRef, refToId, index));
          return false;
        }
        if idToRef[id] != index || refToId[ref] != index {
          assert !(PairedAt(refToId, idToRef, index) && PairedAt(idToRef, refToId, index));
          return false;
        }
      }
      return true;
    }

    method CheckReferences() returns (ok: bool)
      requires |refs| > 0
      ensures ok <==> AllPacked(State())
    {
      for ref := 1 to |refs|
        invariant forall r :: 0 < r < ref && r < |refs| ==> Packed(bytes, refs[r])
      {
        var r := refs[ref];
        if r.offset == 0 || r.offset >= |bytes| || bytes[r.offset - 1] != 0 { return false; }
        if r.length > |bytes| - r.offset - 1 { return false; }
        if bytes[r.offset + r.length] != 0 { return false; }
      }
      return true;
    }

    /** Every text is greater than the one before it. */
    method CheckOrder() returns (ok: bool)
      requires AllPacked(State()) && Ranked(sorted) && |sorted| == |refs| >= 2
      ensures ok <==> InOrder(State())
    {
      hide Less, Packed, TextIn;
      for index := 2 to |sorted|
        invariant forall k :: 0 < k && k + 1 < index && k + 1 < |sorted| ==> Less(TextOf(State(), sorted[k]), TextOf(State(), sorted[k + 1]))
      {
        var previous, current := refs[sorted[index - 1]], refs[sorted[index]];
        assert Packed(bytes, refs[sorted[index - 1]]) && Packed(bytes, refs[sorted[index]]);
        ReferenceBounds(bytes, previous);
        ReferenceBounds(bytes, current);
        var relationship := Compare(bytes[previous.offset..previous.offset + previous.length], bytes[current.offset..current.offset + current.length]);
        if relationship >= 0 {
          assert !Less(TextOf(State(), sorted[index - 1]), TextOf(State(), sorted[index - 1 + 1]));
          return false;
        }
      }
      return true;
    }

    /** Decides whether the five tables are sound; without the order when that is not asked for. Words have 64 bits. */
    method CheckIntegrity(checkOrder: bool) returns (ok: bool)
      requires |sorted| < Q.Pow2(64) && forall k :: 0 <= k < |sorted| ==> sorted[k] < Q.Pow2(64)
      ensures ok && checkOrder ==> Valid()
      ensures Valid() ==> ok
      ensures !checkOrder ==> (ok <==> Shaped(State()))
    {
      hide Q.Pow2, P.IsPermutation, Packed, Paired;
      ghost var t := State();
      ShapedSound(t);
      if !Buffered(bytes) || |refToId| != |refs| || |idToRef| != |refs| || |sorted| != |refs| { return false; }
      if |refs| == 0 { return true; }
      if refs[0] != Reference(0, 0) || refToId[0] != 0 || idToRef[0] != 0 || sorted[0] != 0 { return false; }
      ok := CheckPairs();
      if !ok { return; }
      ok := CheckReferences();
      if !ok { return; }
      SmallBase();
      ghost var cost;
      ok, cost := P.ValidateExtracted(sorted, 0, 64);
      if !ok { return; }
      PermutedRanks(sorted);
      if checkOrder && |refs| > 2 { ok := CheckOrder(); }
    }

    lemma SmallBase()
      ensures 0 < Q.Pow2(64)
    {
    }
  }
}
