/**
 Writing scalar values into a validated baked document
 (core/data_model/baked_document.cpp, CMutableBakedDocument): each setter takes
 exactly the replacements that leave the document valid.
 */
module BakedEditing {
  import opened LiveNode
  import opened Content
  import opened ValueFlags
  import opened BakedRecords

  /** A record with another payload: its links, its name and its type are as they were. */
  predicate SamePlace(r: Record, r': Record) {
    && r'.parent == r.parent && r'.first == r.first && r'.count == r.count && r'.name == r.name && r'.tag == r.tag && r'.reserved == r.reserved
    && r'.flags & !METADATA == r.flags & !METADATA
  }

  lemma FlagsKept(a: bv16, b: bv16)
    requires a & !METADATA == b & !METADATA
    ensures Named(a) == Named(b) && Suppressed(a) == Suppressed(b) && a & SIBLING_POSITION == b & SIBLING_POSITION && Clean(a) == Clean(b)
  {
    FlagsOutside(a);
    FlagsOutside(b);
  }

  /** The other flags lie outside the metadata. */
  lemma FlagsOutside(a: bv16)
    ensures (a & !METADATA) & NAME_PRESENT == a & NAME_PRESENT && (a & !METADATA) & SUPPRESS == a & SUPPRESS
    ensures (a & !METADATA) & SIBLING_POSITION == a & SIBLING_POSITION && (a & !METADATA) & !BAKED == a & !BAKED
  {
  }

  /** Writing metadata over metadata leaves the other flags. */
  lemma MetadataWritten(flags: bv16, meta: bv16)
    requires Meta(meta) == meta
    ensures var f := (flags & !METADATA) | meta; Meta(f) == meta && f & !METADATA == flags & !METADATA
  {
  }

  // ---------------------------------------------------------------------
  // What one replacement does to a document

  lemma {:induction false} SameRanges(rs: seq<Record>, rs': seq<Record>, n: nat)
    requires |rs'| == |rs| && n <= |rs| && forall k :: 0 <= k < |rs| ==> rs'[k].count == rs[k].count
    ensures RangeStart(rs', n) == RangeStart(rs, n)
  {
    if n > 0 { SameRanges(rs, rs', n - 1); }
  }

  /** `rs'` is `rs` but for the payload of record `i`. */
  predicate Replaced(rs: seq<Record>, rs': seq<Record>, i: nat) {
    i < |rs| == |rs'| && SamePlace(rs[i], rs'[i]) && forall k :: 0 <= k < |rs| && k != i ==> rs'[k] == rs[k]
  }

  lemma PlacesKept(rs: seq<Record>, rs': seq<Record>, i: nat, k: nat)
    requires Replaced(rs, rs', i) && k < |rs|
    ensures SamePlace(rs[k], rs'[k]) && Named(rs'[k].flags) == Named(rs[k].flags)
    ensures forall first, last :: Positioned(rs'[k].flags, first, last) == Positioned(rs[k].flags, first, last)
  {
    FlagsKept(rs[k].flags, rs'[k].flags);
  }

  lemma RangesKept(rs: seq<Record>, rs': seq<Record>, i: nat, n: nat)
    requires Replaced(rs, rs', i) && n <= |rs|
    ensures RangeStart(rs', n) == RangeStart(rs, n)
  {
    SameRanges(rs, rs', n);
  }

  lemma SecondKept(rs: seq<Record>, rs': seq<Record>, i: nat, k: nat)
    requires Replaced(rs, rs', i) && k < |rs| && SecondPass(rs, k)
    ensures SecondPass(rs', k)
  {
    hide Named, Positioned, RangeStart;
    RangesKept(rs, rs', i, k);
    RangesKept(rs, rs', i, k + 1);
    PlacesKept(rs, rs', i, k);
    var start, end := RangeStart(rs, k), RangeStart(rs, k + 1);
    if rs[k].count > 0 {
      forall j | start <= j < end ensures ChildSound(rs', k, j, start, end) {
        assert ChildSound(rs, k, j, start, end);
        PlacesKept(rs, rs', i, j);
        forall l | start <= l < j ensures rs'[l].name == rs[l].name { PlacesKept(rs, rs', i, l); }
      }
    }
  }

  lemma FirstKept(rs: seq<Record>, rs': seq<Record>, i: nat, k: nat, names: U32, strings: U32)
    requires Replaced(rs, rs', i) && k < |rs| && FirstPass(rs, k, names, strings) && RecordSound(rs'[i], strings)
    ensures FirstPass(rs', k, names, strings)
  {
    hide RecordSound, Named, Positioned;
    PlacesKept(rs, rs', i, k);
  }

  /** Every string that was used is used still. */
  ghost predicate StringsKept(rs': seq<Record>, strings: U32) {
    forall n :: 0 < n < strings ==> StringUsed(rs', n)
  }

  /** A replacement keeps a document valid if and only if the record is sound and no string loses its last use. */
  lemma ReplacedSound(rs: seq<Record>, rs': seq<Record>, i: nat, names: U32, strings: U32)
    requires RecordsSound(rs, names, strings) && Replaced(rs, rs', i)
    ensures RecordsSound(rs', names, strings) <==> RecordSound(rs'[i], strings) && StringsKept(rs', strings)
  {
    hide RecordSound, SecondPass, StringUsed, RangeStart, Replaced;
    SizeKept(rs, rs', i);
    if RecordSound(rs'[i], strings) && StringsKept(rs', strings) {
      forall k | 0 <= k < |rs'| ensures FirstPass(rs', k, names, strings) && SecondPass(rs', k) {
        FirstKept(rs, rs', i, k, names, strings);
        SecondKept(rs, rs', i, k);
      }
      forall n | 0 < n < names ensures NameUsed(rs', n) {
        assert NameUsed(rs, n);
        var k :| 0 <= k < |rs| && rs[k].name == n;
        PlacesKept(rs, rs', i, k);
        assert rs'[k].name == n;
      }
      RangesKept(rs, rs', i, |rs|);
    }
    if RecordsSound(rs', names, strings) { assert FirstPass(rs', i, names, strings); }
  }

  lemma SizeKept(rs: seq<Record>, rs': seq<Record>, i: nat)
    requires Replaced(rs, rs', i)
    ensures i < |rs| == |rs'|
  {
  }

  /** A string keeps a use unless the record was its last one. */
  lemma UsesKept(rs: seq<Record>, rs': seq<Record>, i: nat, names: U32, strings: U32)
    requires RecordsSound(rs, names, strings) && Replaced(rs, rs', i)
    ensures StringsKept(rs', strings) <==> rs[i].tag != 5 || rs[i].bits == 0 || rs'[i].bits == rs[i].bits || Shared(rs, i)
  {
    FirstPassAt(rs, names, strings, i);
    if rs[i].tag == 5 && rs[i].bits != 0 && rs'[i].bits != rs[i].bits && StringsKept(rs', strings) {
      assert StringUsed(rs', rs[i].bits);
      var k :| 0 <= k < |rs'| && rs'[k].tag == 5 && rs'[k].bits == rs[i].bits;
      assert SharedAt(rs, i, k);
    }
    if rs[i].tag != 5 || rs[i].bits == 0 || rs'[i].bits == rs[i].bits || Shared(rs, i) {
      forall n | 0 < n < strings ensures StringUsed(rs', n) {
        assert StringUsed(rs, n);
        var k :| 0 <= k < |rs| && rs[k].tag == 5 && rs[k].bits == n;
        if k == i && rs'[i].bits != n {
          var j :| 0 <= j < |rs| && SharedAt(rs, i, j);
          assert rs'[j].tag == 5 && rs'[j].bits == n;
        } else {
          assert rs'[k].tag == 5 && rs'[k].bits == n;
        }
      }
    }
  }

  lemma FirstPassAt(rs: seq<Record>, names: U32, strings: U32, i: nat)
    requires RecordsSound(rs, names, strings) && i < |rs|
    ensures RecordSound(rs[i], strings) && (rs[i].tag == 5 ==> rs[i].bits < strings)
  {
    assert FirstPass(rs, i, names, strings);
  }

  predicate SharedAt(rs: seq<Record>, i: nat, k: nat)
    requires i < |rs| && k < |rs|
  {
    k != i && rs[k].tag == 5 && rs[k].bits == rs[i].bits
  }

  /** Another value uses the string of record `i`. */
  ghost predicate Shared(rs: seq<Record>, i: nat)
    requires i < |rs|
  {
    exists k :: 0 <= k < |rs| && SharedAt(rs, i, k)
  }

  /** A valid replacement changes one payload of the tree, and nothing else: every value has the children it had. */
  lemma ReplacedTree(rs: seq<Record>, rs': seq<Record>, i: nat, names: U32, strings: U32, k: nat)
    requires RecordsSound(rs, names, strings) && RecordsSound(rs', names, strings) && Replaced(rs, rs', i) && k < |rs|
    ensures var t, t' := TreeAt(rs, names, strings, k), TreeAt(rs', names, strings, k);
      && t'.name == t.name && t'.named == t.named && |t'.kids| == |t.kids| && (k != i ==> t'.payload == t.payload)
      && RangeStart(rs', k) == RangeStart(rs, k)
  {
    hide RecordsSound, PayloadOf, Named;
    PlacesKept(rs, rs', i, k);
    RangesKept(rs, rs', i, k);
    KidsStart(rs, names, strings, k);
    KidsStart(rs', names, strings, k);
    TreeParts(rs, names, strings, k);
    TreeParts(rs', names, strings, k);
  }

  /** A subtree without the value is as it was. */
  lemma {:induction false} ReplacedElsewhere(rs: seq<Record>, rs': seq<Record>, i: nat, names: U32, strings: U32, k: nat)
    requires RecordsSound(rs, names, strings) && RecordsSound(rs', names, strings) && Replaced(rs, rs', i) && i < k < |rs|
    ensures TreeAt(rs', names, strings, k) == TreeAt(rs, names, strings, k)
    decreases |rs| - k
  {
    hide RecordsSound, PayloadOf, Named, Replaced;
    SizeKept(rs, rs', i);
    ReplacedTree(rs, rs', i, names, strings, k);
    KidsStart(rs, names, strings, k);
    KidsStart(rs', names, strings, k);
    RangeAhead(rs, names, strings, k);
    var t, t' := TreeAt(rs, names, strings, k), TreeAt(rs', names, strings, k);
    forall j | 0 <= j < |t.kids| ensures t'.kids[j] == t.kids[j] { ReplacedElsewhere(rs, rs', i, names, strings, RangeStart(rs, k) + j); }
    assert t'.kids == t.kids;
  }

  // ---------------------------------------------------------------------
  // The setters

  class Editor {
    const names: U32
    const strings: U32
    var records: seq<Record>

    ghost predicate Valid()
      reads this
    {
      RecordsSound(records, names, strings)
    }

    constructor (records: seq<Record>, names: U32, strings: U32)
      requires RecordsSound(records, names, strings)
      ensures Valid() && this.records == records && this.names == names && this.strings == strings
    {
      this.records, this.names, this.strings := records, names, strings;
    }

    /** A value of this type. */
    predicate Writable(i: nat, tag: nat)
      reads this
    {
      i < |records| && records[i].tag == tag
    }

    method SetBoolean(i: nat, value: bool) returns (ok: bool)
      requires Valid()
      modifies this
      ensures Valid() && ok == old(Writable(i, 2)) && (!ok ==> records == old(records))
      ensures ok ==> Replaced(old(records), records, i) && PayloadOf(records[i]) == old(PayloadOf(records[i])).(bits := if value then 1 else 0)
    {
      if !Writable(i, 2) { return false; }
      FirstPassAt(records, names, strings, i);
      ok := Put(i, records[i].(bits := if value then 1 else 0));
    }

    /** A signed integer keeps its notation; its width is the least that holds it. */
    method SetSigned(i: nat, value: int) returns (ok: bool)
      requires Valid() && -0x8000_0000_0000_0000 <= value < 0x8000_0000_0000_0000
      modifies this
      ensures Valid() && (!ok ==> records == old(records))
      ensures ok == old(Writable(i, 3) && PayloadOf(records[i]).meta.domain.Signed?)
      ensures ok ==>
        && Replaced(old(records), records, i) && SignedFromBits(records[i].bits) == value
        && PayloadOf(records[i]) == old(PayloadOf(records[i])).(bits := records[i].bits, meta := PayloadOf(records[i]).meta)
        && PayloadOf(records[i]).meta == old(PayloadOf(records[i])).meta.(width := SmallestSignedWidth(value))
    {
      if !Writable(i, 3) { return false; }
      FirstPassAt(records, names, strings, i);
      var m := Decode(Meta(records[i].flags)).value;
      if !m.domain.Signed? { return false; }
      ok := PutInteger(i, if value < 0 then value + 0x1_0000_0000_0000_0000 else value, m.(width := SmallestSignedWidth(value)));
    }

    method SetUnsigned(i: nat, value: Bits) returns (ok: bool)
      requires Valid()
      modifies this
      ensures Valid() && (!ok ==> records == old(records))
      ensures ok == old(Writable(i, 3) && PayloadOf(records[i]).meta.domain.Unsigned?)
      ensures ok ==>
        && Replaced(old(records), records, i)
        && PayloadOf(records[i]) == old(PayloadOf(records[i])).(bits := value, meta := old(PayloadOf(records[i])).meta.(width := SmallestUnsignedWidth(value)))
    {
      if !Writable(i, 3) { return false; }
      FirstPassAt(records, names, strings, i);
      var m := Decode(Meta(records[i].flags)).value;
      if !m.domain.Unsigned? { return false; }
      ok := PutInteger(i, value, m.(width := SmallestUnsignedWidth(value)));
    }

    method SetFloating(i: nat, bits: Bits) returns (ok: bool)
      requires Valid()
      modifies this
      ensures Valid() && ok == (old(Writable(i, 4)) && FiniteBits(bits)) && (!ok ==> records == old(records))
      ensures ok ==> Replaced(old(records), records, i) && PayloadOf(records[i]) == old(PayloadOf(records[i])).(bits := bits)
    {
      if !Writable(i, 4) || !FiniteBits(bits) { return false; }
      FirstPassAt(records, names, strings, i);
      FloatingRecord(records[i], bits);
      hide RecordSound, FiniteBits, PayloadOf, SamePlace;
      ok := Put(i, records[i].(bits := bits));
    }

    /** A string value takes exactly the identifiers that leave every string of the table in use. */
    method SetString(i: nat, id: U32) returns (ok: bool)
      requires Valid()
      modifies this
      ensures Valid() && (!ok ==> records == old(records))
      ensures ok <==> old(Writable(i, 5)) && id < strings && RecordsSound(old(records)[i := old(records)[i].(bits := id)], names, strings)
      ensures ok ==> Replaced(old(records), records, i) && PayloadOf(records[i]) == old(PayloadOf(records[i])).(bits := id)
    {
      if !Writable(i, 5) || id >= strings { return false; }
      var r := records[i].(bits := id);
      FirstPassAt(records, names, strings, i);
      PutSound(i, r);
      if records[i].bits != 0 && records[i].bits != id {
        var shared := IsShared(i);
        if !shared { return false; }
      }
      records := records[i := r];
      return true;
    }

    /** Whether another value uses the string of a value. */
    method IsShared(i: nat) returns (shared: bool)
      requires i < |records|
      ensures shared <==> Shared(records, i)
    {
      for k := 0 to |records|
        invariant forall j :: 0 <= j < k ==> !SharedAt(records, i, j)
      {
        if k != i && records[k].tag == 5 && records[k].bits == records[i].bits {
          assert SharedAt(records, i, k);
          return true;
        }
      }
      return false;
    }

    lemma PutSound(i: nat, r: Record)
      requires Valid() && i < |records| && SamePlace(records[i], r) && RecordSound(r, strings)
      ensures RecordsSound(records[i := r], names, strings) <==>
        records[i].tag != 5 || records[i].bits == 0 || r.bits == records[i].bits || Shared(records, i)
      ensures Replaced(records, records[i := r], i)
    {
      hide RecordsSound, RecordSound, Shared;
      ReplacedSound(records, records[i := r], i, names, strings);
      UsesKept(records, records[i := r], i, names, strings);
    }

    method Put(i: nat, r: Record) returns (ok: bool)
      requires Valid() && i < |records| && SamePlace(records[i], r) && RecordSound(r, strings) && records[i].tag != 5
      modifies this
      ensures ok && Valid() && records == old(records)[i := r] && Replaced(old(records), records, i)
    {
      hide RecordsSound, RecordSound, Shared, Replaced, SamePlace;
      PutSound(i, r);
      records := records[i := r];
      ok := true;
    }

    method PutInteger(i: nat, bits: Bits, m: Metadata) returns (ok: bool)
      requires Valid() && i < |records| && records[i].tag == 3 && IntegerValid(bits, m)
      modifies this
      ensures ok && Valid() && Replaced(old(records), records, i) && records[i].bits == bits
      ensures PayloadOf(records[i]) == old(PayloadOf(records[i])).(bits := bits, meta := m)
    {
      var r := records[i].(bits := bits, flags := (records[i].flags & !METADATA) | Encode(m));
      IntegerRecord(records[i], bits, m);
      hide RecordsSound, RecordSound, Shared, Replaced, SamePlace, PayloadOf, Encode, IntegerValid;
      FirstPassAt(records, names, strings, i);
      PutSound(i, r);
      records := records[i := r];
      ok := true;
    }

    lemma FloatingRecord(r: Record, bits: Bits)
      requires r.tag == 4 && RecordSound(r, strings) && FiniteBits(bits)
      ensures SamePlace(r, r.(bits := bits)) && RecordSound(r.(bits := bits), strings) && PayloadOf(r.(bits := bits)) == PayloadOf(r).(bits := bits)
    {
      hide FiniteBits, Named, Suppressed, Clean, Meta;
    }

    lemma IntegerRecord(r: Record, bits: Bits, m: Metadata)
      requires r.tag == 3 && IntegerValid(bits, m)
      ensures var r' := r.(bits := bits, flags := (r.flags & !METADATA) | Encode(m));
        && SamePlace(r, r') && PayloadOf(r') == PayloadOf(r).(bits := bits, meta := m)
        && (RecordSound(r, strings) ==> RecordSound(r', strings))
    {
      DecodeEncode(m);
      MetadataWritten(r.flags, Encode(m));
      FlagsKept(r.flags, (r.flags & !METADATA) | Encode(m));
      hide Encode, Decode, IntegerValid, Named, Suppressed, Clean, Meta;
    }
  }
}
