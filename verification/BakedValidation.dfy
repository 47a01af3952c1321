/**
 Validation of the records of a baked document (core/data_model/baked_document.cpp,
 CBakedDocument::validate): marks over names and strings, and one range of
 children after another.
 */
module BakedValidation {
  import opened LiveNode
  import opened Content
  import opened BreadthFirst
  import opened ValueFlags
  import opened BakedRecords

  /** `rs` is the breadth-first encoding of `t`, a tree that uses each of its names and strings. */
  ghost predicate Encodes(rs: seq<Record>, t: Tree, names: nat, strings: nat) {
    Bakeable(t, names, strings) && Encoding(t, names, strings) == rs
  }

  /** Validation accepts exactly the breadth-first encodings of trees. */
  lemma SoundIsEncoding(rs: seq<Record>, names: U32, strings: U32, n: nat, m: nat)
    requires n + 1 == names < NONE && m + 1 == strings < NONE
    ensures RecordsSound(rs, names, strings) <==> exists t :: Encodes(rs, t, n, m)
  {
    hide RecordsSound, Bakeable, Encoding;
    if RecordsSound(rs, names, strings) {
      SoundSize(rs, names, strings);
      SoundEncodes(rs, names, strings);
      assert Encodes(rs, TreeAt(rs, names, strings, 0), n, m);
    }
    if t :| Encodes(rs, t, n, m) { EncodingSound(t, n, m); }
  }

  /** An encoding belongs to one tree only. */
  lemma EncodingUnique(rs: seq<Record>, t: Tree, t': Tree, names: nat, strings: nat)
    requires Encodes(rs, t, names, strings) && Encodes(rs, t', names, strings) && names + 1 < NONE && strings + 1 < NONE
    ensures t == t'
  {
    hide Bakeable, Encoding, RecordsSound;
    EncodingTree(t, names, strings);
    EncodingTree(t', names, strings);
  }

  method ClearMarks(marks: array<nat>)
    modifies marks
    ensures forall n :: 0 <= n < marks.Length ==> marks[n] == 0
  {
    for n := 0 to marks.Length
      invariant forall m :: 0 <= m < n ==> marks[m] == 0
    {
      marks[n] := 0;
    }
  }

  /** The first pass: every record by itself, marking the names in use. */
  method CheckEncodings(rs: seq<Record>, names: U32, strings: U32, marks: array<nat>) returns (ok: bool)
    requires names <= marks.Length && forall n :: 0 <= n < marks.Length ==> marks[n] == 0
    modifies marks
    ensures ok <==> forall i :: 0 <= i < |rs| ==> FirstPass(rs, i, names, strings)
    ensures ok ==> forall n :: 0 <= n < names ==> (marks[n] != 0 <==> NameUsed(rs, n))
  {
    hide RecordSound;
    for index := 0 to |rs|
      invariant forall i :: 0 <= i < index ==> FirstPass(rs, i, names, strings)
      invariant forall n :: 0 <= n < names ==> (marks[n] != 0 <==> NameUsed(rs[..index], n))
    {
      if !FirstPass(rs, index, names, strings) { return false; }
      marks[rs[index].name] := 1;
      forall n | 0 <= n < names ensures NameUsed(rs[..index + 1], n) <==> NameUsed(rs[..index], n) || rs[index].name == n {
        NameUsedStep(rs, index, n);
      }
    }
    assert rs[..|rs|] == rs;
    return true;
  }

  lemma NameUsedStep(rs: seq<Record>, k: nat, n: nat)
    requires k < |rs|
    ensures NameUsed(rs[..k + 1], n) <==> NameUsed(rs[..k], n) || rs[k].name == n
  {
    if NameUsed(rs[..k + 1], n) {
      var i :| 0 <= i < k + 1 && rs[..k + 1][i].name == n;
      if i < k { assert rs[..k][i].name == n; }
    }
    if NameUsed(rs[..k], n) {
      var i :| 0 <= i < k && rs[..k][i].name == n;
      assert rs[..k + 1][i].name == n;
    }
    if rs[k].name == n { assert rs[..k + 1][k].name == n; }
  }

  lemma StringUsedStep(rs: seq<Record>, k: nat, n: nat)
    requires k < |rs|
    ensures StringUsed(rs[..k + 1], n) <==> StringUsed(rs[..k], n) || (rs[k].tag == 5 && rs[k].bits == n)
  {
    if StringUsed(rs[..k + 1], n) {
      var i :| 0 <= i < k + 1 && rs[..k + 1][i].tag == 5 && rs[..k + 1][i].bits == n;
      if i < k { assert rs[..k][i].tag == 5 && rs[..k][i].bits == n; }
    }
    if StringUsed(rs[..k], n) {
      var i :| 0 <= i < k && rs[..k][i].tag == 5 && rs[..k][i].bits == n;
      assert rs[..k + 1][i].tag == 5 && rs[..k + 1][i].bits == n;
    }
    if rs[k].tag == 5 && rs[k].bits == n { assert rs[..k + 1][k].tag == 5 && rs[..k + 1][k].bits == n; }
  }

  /** Whether every mark but the first is set. */
  method AllMarked(marks: array<nat>, count: nat) returns (ok: bool)
    requires count <= marks.Length
    ensures ok <==> forall n :: 0 < n < count ==> marks[n] != 0
  {
    var n := 1;
    while n < count
      invariant 1 <= n && forall m :: 0 < m < n && m < count ==> marks[m] != 0
    {
      if marks[n] == 0 { return false; }
      n := n + 1;
    }
    return true;
  }

  /** The children of container `index`: parent, place among siblings, and names told apart by
      stamping each with the container's number. */
  method CheckChildren(rs: seq<Record>, index: nat, names: U32, marks: array<nat>) returns (ok: bool)
    requires index < |rs| && names <= marks.Length && 0 < rs[index].count && rs[index].first == RangeStart(rs, index) && RangeStart(rs, index + 1) <= |rs|
    requires forall i :: 0 <= i < |rs| ==> rs[i].name < names
    requires forall n :: 0 <= n < marks.Length ==> marks[n] <= index
    modifies marks
    ensures ok <==> SecondPass(rs, index)
    ensures forall n :: 0 <= n < marks.Length ==> marks[n] <= index + 1
  {
    var container := rs[index];
    var start, end := container.first, container.first + container.count;
    var stamp := index + 1;
    var k: nat := start;
    while k < end
      invariant start <= k <= end
      invariant forall j :: start <= j < k ==> ChildSound(rs, index, j, start, end)
      invariant forall n :: 0 <= n < marks.Length ==> marks[n] <= stamp
      invariant forall n :: 0 <= n < names ==> (marks[n] == stamp <==> container.tag == 7 && NameIn(rs, start, k, n))
    {
      var child := rs[k];
      if child.parent != index || !Positioned(child.flags, k == start, k + 1 == end)
         || (container.tag == 7 && (!Named(child.flags) || marks[child.name] == stamp)) {
        if container.tag == 7 && marks[child.name] == stamp {
          assert NameIn(rs, start, k, child.name);
          var j :| start <= j < k && rs[j].name == child.name;
        }
        assert !ChildSound(rs, index, k, start, end);
        return false;
      }
      forall j | start <= j < k ensures container.tag == 7 ==> rs[j].name != child.name {
        if container.tag == 7 && rs[j].name == child.name { assert NameIn(rs, start, k, child.name); }
      }
      if container.tag == 7 { marks[child.name] := stamp; }
      forall n | 0 <= n < names ensures NameIn(rs, start, k + 1, n) <==> NameIn(rs, start, k, n) || child.name == n { NameInStep(rs, start, k, n); }
      k := k + 1;
    }
    return true;
  }

  ghost predicate NameIn(rs: seq<Record>, start: nat, end: nat, n: nat) {
    exists j :: start <= j < end && j < |rs| && rs[j].name == n
  }

  lemma NameInStep(rs: seq<Record>, start: nat, k: nat, n: nat)
    requires start <= k < |rs|
    ensures NameIn(rs, start, k + 1, n) <==> NameIn(rs, start, k, n) || rs[k].name == n
  {
  }

  /** The second pass: the ranges of children follow one another from the first record after the root. */
  method CheckRanges(rs: seq<Record>, names: U32, strings: U32, marks: array<nat>) returns (ok: bool)
    requires names <= marks.Length && forall n :: 0 <= n < marks.Length ==> marks[n] == 0
    requires forall i :: 0 <= i < |rs| ==> FirstPass(rs, i, names, strings)
    modifies marks
    ensures ok <==> (forall i :: 0 <= i < |rs| ==> SecondPass(rs, i)) && RangeStart(rs, |rs|) == |rs|
  {
    var expected := 1;
    for index := 0 to |rs|
      invariant expected == RangeStart(rs, index)
      invariant forall i :: 0 <= i < index ==> SecondPass(rs, i)
      invariant forall n :: 0 <= n < marks.Length ==> marks[n] <= index
    {
      hide RecordSound, SecondPass, Positioned;
      assert FirstPass(rs, index, names, strings);
      Childless(rs, index, strings);
      if !IsContainerTag(rs[index].tag) || rs[index].count == 0 { continue; }
      var end := rs[index].first + rs[index].count;
      if rs[index].first != expected || end > |rs| { BadRange(rs, index); return false; }
      forall i | 0 <= i < |rs| ensures rs[i].name < names { assert FirstPass(rs, i, names, strings); }
      ok := CheckChildren(rs, index, names, marks);
      if !ok { return false; }
      expected := end;
    }
    return expected == |rs|;
  }

  lemma Childless(rs: seq<Record>, i: nat, strings: U32)
    requires i < |rs| && RecordSound(rs[i], strings)
    ensures !IsContainerTag(rs[i].tag) ==> rs[i].count == 0
    ensures rs[i].count == 0 ==> SecondPass(rs, i)
  {
  }

  lemma {:induction false} BadRange(rs: seq<Record>, i: nat)
    requires i < |rs| && rs[i].count > 0
    requires rs[i].first != RangeStart(rs, i) || rs[i].first + rs[i].count > |rs|
    ensures !SecondPass(rs, i)
  {
  }

  /** The last pass: marks the strings in use. */
  method MarkStrings(rs: seq<Record>, names: U32, strings: U32, marks: array<nat>)
    requires strings <= marks.Length && forall n :: 0 <= n < marks.Length ==> marks[n] == 0
    requires forall i :: 0 <= i < |rs| ==> FirstPass(rs, i, names, strings)
    modifies marks
    ensures forall n :: 0 <= n < strings ==> (marks[n] != 0 <==> StringUsed(rs, n))
  {
    for index := 0 to |rs|
      invariant forall n :: 0 <= n < strings ==> (marks[n] != 0 <==> StringUsed(rs[..index], n))
    {
      assert FirstPass(rs, index, names, strings);
      if rs[index].tag == 5 { marks[rs[index].bits] := 1; }
      forall n | 0 <= n < strings ensures StringUsed(rs[..index + 1], n) <==> StringUsed(rs[..index], n) || (rs[index].tag == 5 && rs[index].bits == n) {
        StringUsedStep(rs, index, n);
      }
    }
    assert rs[..|rs|] == rs;
  }

  method CheckRecords(rs: seq<Record>, names: U32, strings: U32) returns (ok: bool)
    requires 0 < |rs| < NONE && 0 < names && 0 < strings
    ensures ok <==> RecordsSound(rs, names, strings)
  {
    hide FirstPass, SecondPass, NameUsed, StringUsed, RangeStart;
    var marks := new nat[if names > strings then names else strings];
    ClearMarks(marks);
    ok := CheckEncodings(rs, names, strings, marks);
    if !ok { return; }
    ok := AllMarked(marks, names);
    if !ok {
      ghost var n :| 0 < n < names && marks[n] == 0;
      assert !NameUsed(rs, n);
      return;
    }
    forall n | 0 < n < names ensures NameUsed(rs, n) { assert marks[n] != 0; }
    ClearMarks(marks);
    ok := CheckRanges(rs, names, strings, marks);
    if !ok { return; }
    ClearMarks(marks);
    MarkStrings(rs, names, strings, marks);
    ok := AllMarked(marks, strings);
    if !ok {
      ghost var n :| 0 < n < strings && marks[n] == 0;
      assert !StringUsed(rs, n);
      return;
    }
    forall n | 0 < n < strings ensures StringUsed(rs, n) { assert marks[n] != 0; }
  }

  /** The whole of validation, as far as the records go. */
  method ValidateRecords(rs: seq<Record>, names: U32, strings: U32) returns (ok: bool)
    requires 0 < |rs| < NONE && 0 < names < NONE && 0 < strings < NONE
    ensures var n, m := names - 1, strings - 1; ok <==> exists t :: Encodes(rs, t, n, m)
  {
    hide RecordsSound, Encodes;
    SoundIsEncoding(rs, names, strings, names - 1, strings - 1);
    ok := CheckRecords(rs, names, strings);
  }
}
