/**
 String tables of a baked document: references into one run of terminated
 texts, in strictly ascending order (core/data_model/baked_document.cpp,
 validate_string_table; core/data_model/document_baking.cpp, emit_strings).
 */
module StringTables {
  import opened DocumentState
  import opened Forest
  import opened Sequences

  datatype Reference = Reference(offset: nat, length: nat)

  /** Texts in the order of their bytes, a shorter text before those it begins. */
  predicate Less(a: Bytes, b: Bytes) {
    b != [] && (a == [] || a[0] < b[0] || (a[0] == b[0] && Less(a[1..], b[1..])))
  }

  lemma {:induction false} LessIrreflexive(a: Bytes)
    ensures !Less(a, a)
  {
    if a != [] { LessIrreflexive(a[1..]); }
  }

  lemma {:induction false} LessTransitive(a: Bytes, b: Bytes, c: Bytes)
    requires Less(a, b) && Less(b, c)
    ensures Less(a, c)
  {
    if a != [] && a[0] == b[0] && b[0] == c[0] { LessTransitive(a[1..], b[1..], c[1..]); }
  }

  predicate Ascending(texts: seq<Bytes>) {
    forall i :: 0 < i < |texts| ==> Less(texts[i - 1], texts[i])
  }

  lemma {:induction false} AscendingApart(texts: seq<Bytes>, i: nat, j: nat)
    requires Ascending(texts) && i < j < |texts|
    ensures Less(texts[i], texts[j]) && texts[i] != texts[j]
    decreases j
  {
    if i < j - 1 {
      AscendingApart(texts, i, j - 1);
      LessTransitive(texts[i], texts[j - 1], texts[j]);
    }
    LessIrreflexive(texts[i]);
  }

  /** What a table may hold: texts that are not empty, admitted as text, and in order. */
  ghost predicate Holdable(texts: seq<Bytes>, admitted: Bytes -> bool) {
    Ascending(texts) && forall i :: 0 <= i < |texts| ==> texts[i] != [] && admitted(texts[i])
  }

  /** The bytes of a table: a terminator, then each text and its terminator. */
  function BytesOf(texts: seq<Bytes>): (b: Bytes)
    ensures |b| > 0
  {
    if texts == [] then [0] else BytesOf(texts[..|texts| - 1]) + texts[|texts| - 1] + [0]
  }

  /** The references of a table: the empty text, then each text where it stands. */
  function ReferencesOf(texts: seq<Bytes>): (r: seq<Reference>)
    ensures |r| == |texts| + 1
  {
    if texts == [] then [Reference(0, 0)]
    else
      var before := texts[..|texts| - 1];
      ReferencesOf(before) + [Reference(|BytesOf(before)|, |texts[|texts| - 1]|)]
  }

  /** References and bytes are those of the texts. */
  ghost predicate TableOf(references: seq<Reference>, bytes: Bytes, texts: seq<Bytes>) {
    references == ReferencesOf(texts) && bytes == BytesOf(texts)
  }

  lemma {:induction false} ReferencePrefix(texts: seq<Bytes>, n: nat)
    requires n <= |texts|
    ensures ReferencesOf(texts)[..n + 1] == ReferencesOf(texts[..n])
    ensures |BytesOf(texts[..n])| <= |BytesOf(texts)| && BytesOf(texts)[..|BytesOf(texts[..n])|] == BytesOf(texts[..n])
  {
    if n == |texts| {
      assert texts[..n] == texts;
      assert ReferencesOf(texts)[..n + 1] == ReferencesOf(texts);
    } else {
      var before := texts[..|texts| - 1];
      ReferencePrefix(before, n);
      assert before[..n] == texts[..n];
      assert ReferencesOf(texts)[..n + 1] == ReferencesOf(before)[..n + 1];
      var some, more := BytesOf(before), texts[|texts| - 1] + [0];
      assert BytesOf(texts) == some + more;
    }
  }

  /** Where text `n` of a table stands. */
  lemma ReferenceAt(texts: seq<Bytes>, n: nat)
    requires n < |texts|
    ensures var r := ReferencesOf(texts)[n + 1]; var b := BytesOf(texts);
      && r == Reference(|BytesOf(texts[..n])|, |texts[n]|) && r.offset + r.length < |b|
      && b[r.offset..r.offset + r.length] == texts[n] && b[r.offset + r.length] == 0
      && |BytesOf(texts[..n + 1])| == r.offset + r.length + 1
  {
    ReferencePrefix(texts, n);
    ReferencePrefix(texts, n + 1);
    var upTo := texts[..n + 1];
    assert upTo[..n] == texts[..n] && upTo[n] == texts[n];
    assert ReferencesOf(texts)[n + 1] == ReferencesOf(texts)[..n + 2][n + 1];
    var head := BytesOf(texts[..n]);
    assert BytesOf(upTo) == head + texts[n] + [0];
    var b := BytesOf(texts);
    assert b[..|BytesOf(upTo)|] == head + texts[n] + [0];
    forall k | 0 <= k < |texts[n]| ensures b[|head| + k] == texts[n][k] { assert b[..|BytesOf(upTo)|][|head| + k] == texts[n][k]; }
    assert b[..|BytesOf(upTo)|][|head| + |texts[n]|] == 0;
  }

  /** The table is determined by its texts and determines them. */
  lemma {:induction false} TextsUnique(texts: seq<Bytes>, texts': seq<Bytes>)
    requires ReferencesOf(texts) == ReferencesOf(texts') && BytesOf(texts) == BytesOf(texts')
    ensures texts == texts'
  {
    assert |texts| == |texts'|;
    forall n | 0 <= n < |texts| ensures texts[n] == texts'[n] {
      ReferenceAt(texts, n);
      ReferenceAt(texts', n);
    }
  }

  lemma EmptyTable()
    ensures ReferencesOf([]) == [Reference(0, 0)] && BytesOf([]) == [0]
  {
  }

  /** Accepts exactly the tables of holdable texts. */
  method ValidateTable(references: seq<Reference>, bytes: Bytes, admitted: Bytes -> bool) returns (ok: bool, ghost texts: seq<Bytes>)
    requires references != [] && bytes != []
    ensures ok ==> TableOf(references, bytes, texts) && Holdable(texts, admitted)
    ensures !ok ==> forall other :: Holdable(other, admitted) ==> !TableOf(references, bytes, other)
  {
    texts := [];
    EmptyTable();
    hide Less, BytesOf, ReferencesOf;
    if references[0].offset != 0 || references[0].length != 0 || bytes[0] != 0 {
      forall other | Holdable(other, admitted) ensures !TableOf(references, bytes, other) { FirstReference(other); }
      return false, [];
    }
    var expected := 1;
    var previous: Bytes := [];
    var index := 1;
    while index < |references|
      invariant 1 <= index <= |references| && |texts| == index - 1
      invariant references[..index] == ReferencesOf(texts) && expected == |BytesOf(texts)| <= |bytes| && bytes[..expected] == BytesOf(texts)
      invariant Holdable(texts, admitted) && (index > 1 ==> previous == texts[|texts| - 1])
    {
      var r := references[index];
      var terminator := r.offset + r.length;
      var bad := r.offset != expected || r.length == 0 || terminator >= |bytes|;
      if bad || bytes[terminator] != 0 || !admitted(bytes[r.offset..terminator]) || (index > 1 && !Less(previous, bytes[r.offset..terminator])) {
        forall other | Holdable(other, admitted) ensures !TableOf(references, bytes, other) {
          if TableOf(references, bytes, other) { StepForced(references, bytes, other, texts, index, admitted); }
        }
        return false, texts;
      }
      var text := bytes[r.offset..terminator];
      TableGrows(references, bytes, texts, text, index);
      texts := texts + [text];
      previous := text;
      expected := terminator + 1;
      index := index + 1;
    }
    ok := expected == |bytes|;
    assert references[..index] == references;
    if !ok {
      forall other | Holdable(other, admitted) ensures !TableOf(references, bytes, other) {
        if TableOf(references, bytes, other) {
          SameTexts(references, bytes, other, texts, index);
        }
      }
    } else {
      assert bytes[..expected] == bytes;
    }
  }

  lemma {:induction false} FirstReference(texts: seq<Bytes>)
    ensures ReferencesOf(texts)[0] == Reference(0, 0) && BytesOf(texts)[0] == 0
  {
    if texts != [] { FirstReference(texts[..|texts| - 1]); }
  }

  lemma {:induction false} TableGrows(references: seq<Reference>, bytes: Bytes, texts: seq<Bytes>, text: Bytes, index: nat)
    requires 1 <= index < |references| && references[..index] == ReferencesOf(texts) && |BytesOf(texts)| <= |bytes| && bytes[..|BytesOf(texts)|] == BytesOf(texts)
    requires var r := references[index];
      && r.offset == |BytesOf(texts)| && r.length == |text| && r.offset + r.length < |bytes|
      && bytes[r.offset..r.offset + r.length] == text && bytes[r.offset + r.length] == 0
    ensures references[..index + 1] == ReferencesOf(texts + [text])
    ensures var e := references[index].offset + references[index].length + 1; e == |BytesOf(texts + [text])| && bytes[..e] == BytesOf(texts + [text])
  {
    hide BytesOf, ReferencesOf;
    TextsStep(texts, text);
    var o, n := |BytesOf(texts)|, |text|;
    assert references[..index + 1] == references[..index] + [references[index]];
    SliceStep(bytes, o, n);
  }

  lemma {:induction false} TextsStep(texts: seq<Bytes>, text: Bytes)
    ensures BytesOf(texts + [text]) == BytesOf(texts) + text + [0]
    ensures ReferencesOf(texts + [text]) == ReferencesOf(texts) + [Reference(|BytesOf(texts)|, |text|)]
  {
    assert (texts + [text])[..|texts|] == texts;
  }

  lemma SliceStep(bytes: Bytes, o: nat, n: nat)
    requires o + n < |bytes|
    ensures bytes[..o + n + 1] == bytes[..o] + bytes[o..o + n] + [bytes[o + n]]
  {
  }

  /** Any reading of the table agrees with what was read so far. */
  lemma {:induction false} SameTexts(references: seq<Reference>, bytes: Bytes, other: seq<Bytes>, texts: seq<Bytes>, index: nat)
    requires TableOf(references, bytes, other) && 1 <= index <= |references| && |texts| == index - 1
    requires references[..index] == ReferencesOf(texts) && |BytesOf(texts)| <= |bytes| && bytes[..|BytesOf(texts)|] == BytesOf(texts)
    ensures |other| == |references| - 1 && other[..index - 1] == texts && (index == |references| ==> other == texts)
  {
    hide BytesOf, ReferencesOf;
    var n := index - 1;
    forall k | 0 <= k < n ensures other[k] == texts[k] { SameText(references, bytes, other, texts, index, k); }
    assert other[..n] == texts;
  }

  lemma {:induction false} SameText(references: seq<Reference>, bytes: Bytes, other: seq<Bytes>, texts: seq<Bytes>, index: nat, k: nat)
    requires TableOf(references, bytes, other) && 1 <= index <= |references| && |texts| == index - 1 && k < |texts|
    requires references[..index] == ReferencesOf(texts) && |BytesOf(texts)| <= |bytes| && bytes[..|BytesOf(texts)|] == BytesOf(texts)
    ensures other[k] == texts[k]
  {
    hide BytesOf, ReferencesOf;
    ReferenceAt(other, k);
    ReferenceAt(texts, k);
    var r := ReferencesOf(texts)[k + 1];
    assert references[..index][k + 1] == references[k + 1];
    PrefixSlice(bytes, |BytesOf(texts)|, r.offset, r.offset + r.length);
  }

  lemma PrefixSlice(bytes: Bytes, n: nat, from: nat, to: nat)
    requires from <= to <= n <= |bytes|
    ensures bytes[..n][from..to] == bytes[from..to]
  {
  }

  lemma {:induction false} StepForced(references: seq<Reference>, bytes: Bytes, other: seq<Bytes>, texts: seq<Bytes>, index: nat, admitted: Bytes -> bool)
    requires TableOf(references, bytes, other) && Holdable(other, admitted) && 1 <= index < |references| && |texts| == index - 1
    requires references[..index] == ReferencesOf(texts) && |BytesOf(texts)| <= |bytes| && bytes[..|BytesOf(texts)|] == BytesOf(texts)
    ensures var r := references[index];
      && r.offset == |BytesOf(texts)| && r.length > 0 && r.offset + r.length < |bytes| && bytes[r.offset + r.length] == 0
      && admitted(bytes[r.offset..r.offset + r.length])
      && (index > 1 ==> Less(texts[index - 2], bytes[r.offset..r.offset + r.length]))
  {
    SameTexts(references, bytes, other, texts, index);
    ReferenceAt(other, index - 1);
    assert other[index - 1] != [];
    if index > 1 { assert other[..index - 1][index - 2] == texts[index - 2]; }
  }

  // ---------------------------------------------------------------------
  // Writing a table from the strings a live document uses

  /** The identifiers of a string domain (from 1) in the order of their texts. */
  ghost predicate RankOrder(order: seq<nat>, table: seq<Bytes>) {
    && |order| == |table| && Distinct(order)
    && (forall i :: 0 <= i < |order| ==> 1 <= order[i] <= |table|)
    && (forall i :: 0 < i < |order| ==> Less(table[order[i - 1] - 1], table[order[i] - 1]))
  }

  /** The identifiers that are referenced, in rank order. */
  function Kept(order: seq<nat>, references: seq<nat>): seq<nat>
    requires forall i :: 0 <= i < |order| ==> order[i] < |references|
  {
    if order == [] then []
    else Kept(order[..|order| - 1], references) + (if references[order[|order| - 1]] != 0 then [order[|order| - 1]] else [])
  }

  function TextsFor(ids: seq<nat>, table: seq<Bytes>): (texts: seq<Bytes>)
    requires forall i :: 0 <= i < |ids| ==> 1 <= ids[i] <= |table|
    ensures |texts| == |ids| && forall i :: 0 <= i < |ids| ==> texts[i] == table[ids[i] - 1]
  {
    seq(|ids|, i requires 0 <= i < |ids| => table[ids[i] - 1])
  }

  lemma {:induction false} KeptMembers(order: seq<nat>, references: seq<nat>, id: nat)
    requires forall i :: 0 <= i < |order| ==> order[i] < |references|
    ensures id in Kept(order, references) <==> id in order && references[id] != 0
  {
    if order != [] {
      var before := order[..|order| - 1];
      assert order == before + [order[|order| - 1]];
      KeptMembers(before, references, id);
    }
  }

  /** Part of a rank order: ascending, without repetition. */
  ghost predicate InRank(order: seq<nat>, table: seq<Bytes>) {
    && (forall i :: 0 <= i < |order| ==> 1 <= order[i] <= |table|)
    && (forall i, j :: 0 <= i < j < |order| ==> Precedes(table, order[i], order[j]))
  }

  predicate Precedes(table: seq<Bytes>, x: nat, y: nat) {
    Less(TextAt(table, x), TextAt(table, y))
  }

  lemma OrderRanked(order: seq<nat>, table: seq<Bytes>)
    requires RankOrder(order, table)
    ensures InRank(order, table)
  {
    forall i, j | 0 <= i < j < |order| ensures Precedes(table, order[i], order[j]) { RankApart(order, table, i, j); }
  }

  lemma RankedMore(ids: seq<nat>, last: nat, table: seq<Bytes>)
    requires InRank(ids, table) && 1 <= last <= |table| && forall x :: x in ids ==> Precedes(table, x, last)
    ensures InRank(ids + [last], table)
  {
    hide Precedes;
  }

  lemma RankedLess(order: seq<nat>, table: seq<Bytes>)
    requires InRank(order, table) && order != []
    ensures InRank(order[..|order| - 1], table) && 1 <= order[|order| - 1] <= |table|
    ensures var last, before := order[|order| - 1], order[..|order| - 1];
      forall x :: x in before ==> Precedes(table, x, last)
  {
    hide Precedes;
  }

  lemma {:induction false} KeptRanked(order: seq<nat>, table: seq<Bytes>, references: seq<nat>)
    requires InRank(order, table) && |references| == |table| + 1
    ensures InRank(Kept(order, references), table)
  {
    if order != [] {
      var last, before := order[|order| - 1], order[..|order| - 1];
      RankedLess(order, table);
      KeptRanked(before, table, references);
      assert forall i :: 0 <= i < |before| ==> before[i] < |references|;
      hide InRank, Precedes;
      var ids := Kept(before, references);
      forall x | x in ids ensures Precedes(table, x, last) { KeptMembers(before, references, x); }
      if references[last] != 0 { RankedMore(ids, last, table); }
    }
  }

  /** The texts that are kept stay in ascending order. */
  lemma {:induction false} KeptAscending(order: seq<nat>, table: seq<Bytes>, references: seq<nat>)
    requires RankOrder(order, table) && |references| == |table| + 1
    ensures InRank(Kept(order, references), table) && Ascending(TextsFor(Kept(order, references), table))
  {
    OrderRanked(order, table);
    KeptRanked(order, table, references);
  }

  lemma {:induction false} RankApart(order: seq<nat>, table: seq<Bytes>, i: nat, j: nat)
    requires RankOrder(order, table) && i < j < |order|
    ensures Less(table[order[i] - 1], table[order[j] - 1])
    decreases j
  {
    if i < j - 1 {
      RankApart(order, table, i, j - 1);
      LessTransitive(table[order[i] - 1], table[order[j - 1] - 1], table[order[j] - 1]);
    }
  }

  /** `baked` sends each referenced identifier to its place in the table, and everything else to zero. */
  ghost predicate Renumbers(baked: seq<nat>, references: seq<nat>, ids: seq<nat>) {
    && |baked| == |references| > 0 && baked[0] == 0
    && (forall id :: 0 < id < |references| ==>
          if references[id] == 0 then baked[id] == 0 else 1 <= baked[id] <= |ids| && ids[baked[id] - 1] == id)
  }

  /** Writes the texts in use, in rank order, and turns the reference counts into new identifiers in place. */
  method EmitStrings(order: seq<nat>, table: seq<Bytes>, counts: seq<nat>)
    returns (references: seq<Reference>, bytes: Bytes, liveToBaked: seq<nat>)
    requires RankOrder(order, table) && |counts| == |table| + 1
    ensures var ids := Kept(order, counts);
      && InRank(ids, table) && TableOf(references, bytes, TextsFor(ids, table)) && Ascending(TextsFor(ids, table))
      && Renumbers(liveToBaked, counts, ids)
  {
    hide RankOrder, TableOf, TextsFor, Less, Renumbered, Kept, Renumbers, InRank, Ascending;
    references, bytes := [Reference(0, 0)], [0];
    liveToBaked := counts[0 := 0];
    var bakedId := 1;
    ghost var ids: seq<nat> := [];
    StartRenumbering(order, table, counts);
    for rank := 0 to |order|
      invariant forall i :: 0 <= i < |ids| ==> 1 <= ids[i] <= |table|
      invariant bakedId == |ids| + 1 && TableOf(references, bytes, TextsFor(ids, table))
      invariant Renumbered(order, table, counts, liveToBaked, ids, rank)
    {
      var id := order[rank];
      RenumberStep(order, table, counts, liveToBaked, ids, rank);
      if liveToBaked[id] != 0 {
        var text := table[id - 1];
        EmitStep(references, bytes, ids, table, id);
        references := references + [Reference(|bytes|, |text|)];
        bytes := bytes + text + [0];
        liveToBaked := liveToBaked[id := bakedId];
        bakedId := bakedId + 1;
        ids := ids + [id];
      }
    }
    EndRenumbering(order, table, counts, liveToBaked, ids);
    KeptAscending(order, table, counts);
  }

  /** The table of counts with the first `rank` identifiers turned into new ones. */
  ghost predicate Renumbered(order: seq<nat>, table: seq<Bytes>, counts: seq<nat>, liveToBaked: seq<nat>, ids: seq<nat>, rank: nat)
    requires RankOrder(order, table) && |counts| == |table| + 1
  {
    && |liveToBaked| == |counts| && liveToBaked[0] == 0 && rank <= |order|
    && ids == Kept(order[..rank], counts)
    && (forall k :: 0 <= k < |order| ==>
          if rank <= k then liveToBaked[order[k]] == counts[order[k]]
          else if counts[order[k]] == 0 then liveToBaked[order[k]] == 0
          else 1 <= liveToBaked[order[k]] <= |ids| && ids[liveToBaked[order[k]] - 1] == order[k])
  }

  lemma StartRenumbering(order: seq<nat>, table: seq<Bytes>, counts: seq<nat>)
    requires RankOrder(order, table) && |counts| == |table| + 1
    ensures Renumbered(order, table, counts, counts[0 := 0], [], 0) && TableOf([Reference(0, 0)], [0], TextsFor([], table))
  {
    assert order[..0] == [] && TextsFor([], table) == [];
  }

  lemma RenumberStep(order: seq<nat>, table: seq<Bytes>, counts: seq<nat>, liveToBaked: seq<nat>, ids: seq<nat>, rank: nat)
    requires RankOrder(order, table) && |counts| == |table| + 1 && rank < |order| && Renumbered(order, table, counts, liveToBaked, ids, rank)
    ensures 1 <= order[rank] <= |table| && |liveToBaked| == |counts|
    ensures var id := order[rank];
      if liveToBaked[id] != 0 then Renumbered(order, table, counts, liveToBaked[id := |ids| + 1], ids + [id], rank + 1)
      else Renumbered(order, table, counts, liveToBaked, ids, rank + 1)
  {
    var id := order[rank];
    assert order[..rank + 1][..rank] == order[..rank];
    forall k | 0 <= k < |order| && k != rank ensures order[k] != id {
      if k < rank { assert order[k] != order[rank]; }
    }
  }

  lemma {:induction false} EndRenumbering(order: seq<nat>, table: seq<Bytes>, counts: seq<nat>, liveToBaked: seq<nat>, ids: seq<nat>)
    requires RankOrder(order, table) && |counts| == |table| + 1 && Renumbered(order, table, counts, liveToBaked, ids, |order|)
    ensures ids == Kept(order, counts) && Renumbers(liveToBaked, counts, ids)
  {
    assert order[..|order|] == order;
    forall id | 0 < id < |counts|
      ensures if counts[id] == 0 then liveToBaked[id] == 0 else 1 <= liveToBaked[id] <= |ids| && ids[liveToBaked[id] - 1] == id {
      var k := RankOf(order, table, id);
    }
  }

  lemma EmitStep(references: seq<Reference>, bytes: Bytes, ids: seq<nat>, table: seq<Bytes>, id: nat)
    requires forall i :: 0 <= i < |ids| ==> 1 <= ids[i] <= |table|
    requires 1 <= id <= |table| && TableOf(references, bytes, TextsFor(ids, table))
    ensures TableOf(references + [Reference(|bytes|, |table[id - 1]|)], bytes + table[id - 1] + [0], TextsFor(ids + [id], table))
  {
    var texts, more := TextsFor(ids, table), TextsFor(ids + [id], table);
    assert more[..|more| - 1] == texts;
  }

  /** Every identifier has a rank. */
  lemma RankOf(order: seq<nat>, table: seq<Bytes>, id: nat) returns (k: nat)
    requires RankOrder(order, table) && 1 <= id <= |table|
    ensures k < |order| && order[k] == id
  {
    if id !in order {
      var all := UpTo(|table|);
      forall x | x in order ensures x in all - {id} {}
      DistinctSize(order, all - {id});
      assert false;
    }
    k :| 0 <= k < |order| && order[k] == id;
  }

  ghost function UpTo(n: nat): (s: set<nat>)
    ensures |s| == n && forall x :: x in s <==> 1 <= x <= n
  {
    if n == 0 then {} else UpTo(n - 1) + {n}
  }
}
