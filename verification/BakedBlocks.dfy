/**
 Whole baked blocks: a header that places five sections end to end, value
 records, and the two string tables (core/data_model/baked_document.cpp,
 validate, validate_layout; core/data_model/document_baking.cpp, derive_layout).

 A block is held as its header and its sections, cut where the header says.
 */
module BakedBlocks {
  import opened LiveNode
  import opened Content
  import opened DocumentState
  import opened BakedRecords
  import opened BakedValidation
  import opened StringTables

  const MAGIC := 0x3244424d
  const VERSION := 5
  const HEADER_SIZE := 64
  const RECORD_SIZE := 32
  const REFERENCE_SIZE := 8
  const CEILING := 0x8000_0000
  const MIN_SIZE := HEADER_SIZE + RECORD_SIZE + 2 * REFERENCE_SIZE + 2

  datatype Header = Header(
    magic: nat, version: nat, headerSize: nat, totalSize: nat, values: nat, names: nat, nameSize: nat, strings: nat, stringSize: nat,
    valuesAt: nat, namesAt: nat, stringsAt: nat, nameBytesAt: nat, stringBytesAt: nat, reserved: nat)

  datatype Block = Block(header: Header, records: seq<Record>, names: seq<Reference>, nameBytes: Bytes, strings: seq<Reference>, stringBytes: Bytes)

  /** The sections have the sizes the header gives. */
  predicate Cut(b: Block) {
    && |b.records| == b.header.values && |b.names| == b.header.names && |b.nameBytes| == b.header.nameSize
    && |b.strings| == b.header.strings && |b.stringBytes| == b.header.stringSize
  }

  /** The one header for sections of these sizes. */
  function HeaderFor(values: nat, names: nat, nameSize: nat, strings: nat, stringSize: nat): Header {
    var valuesAt := HEADER_SIZE;
    var namesAt := valuesAt + values * RECORD_SIZE;
    var stringsAt := namesAt + names * REFERENCE_SIZE;
    var nameBytesAt := stringsAt + strings * REFERENCE_SIZE;
    var stringBytesAt := nameBytesAt + nameSize;
    Header(MAGIC, VERSION, HEADER_SIZE, stringBytesAt + stringSize, values, names, nameSize, strings, stringSize,
           valuesAt, namesAt, stringsAt, nameBytesAt, stringBytesAt, 0)
  }

  predicate SectionsSound(h: Header) {
    && h.values > 0 && h.names > 0 && h.nameSize > 0 && h.strings > 0 && h.stringSize > 0
    && h == HeaderFor(h.values, h.names, h.nameSize, h.strings, h.stringSize) && h.totalSize <= CEILING
  }

  /** Whether one section starts where the last one ended and stays under the ceiling. */
  method CheckSection(offset: nat, count: nat, stride: nat, at: nat) returns (ok: bool, end: nat)
    ensures ok <==> at == offset && offset + count * stride <= CEILING
    ensures ok ==> end == offset + count * stride
  {
    if at != offset { return false, offset; }
    end := offset + count * stride;
    ok := end <= CEILING;
  }

  method ValidateLayout(h: Header, supplied: nat) returns (ok: bool)
    ensures ok <==> SectionsSound(h.(magic := MAGIC, version := VERSION, headerSize := HEADER_SIZE)) && h.totalSize == supplied
  {
    if supplied > CEILING || h.totalSize != supplied || h.values == 0 || h.names == 0 || h.nameSize == 0 || h.strings == 0 || h.stringSize == 0 {
      return false;
    }
    if h.reserved != 0 { return false; }
    var offset := HEADER_SIZE;
    ok, offset := CheckSection(offset, h.values, RECORD_SIZE, h.valuesAt);
    if !ok { return; }
    ok, offset := CheckSection(offset, h.names, REFERENCE_SIZE, h.namesAt);
    if !ok { return; }
    ok, offset := CheckSection(offset, h.strings, REFERENCE_SIZE, h.stringsAt);
    if !ok { return; }
    ok, offset := CheckSection(offset, h.nameSize, 1, h.nameBytesAt);
    if !ok { return; }
    ok, offset := CheckSection(offset, h.stringSize, 1, h.stringBytesAt);
    if !ok { return; }
    ok := offset == h.totalSize;
  }

  ghost predicate Unbroken(texts: seq<Bytes>, breaks: LineBreaks) {
    forall i :: 0 <= i < |texts| ==> !breaks(texts[i])
  }

  /** The block is the encoding of tree `t` over these names and strings. */
  ghost predicate Holds(b: Block, t: Tree, names: seq<Bytes>, strings: seq<Bytes>, admitted: Bytes -> bool, breaks: LineBreaks) {
    && Cut(b) && SectionsSound(b.header)
    && TableOf(b.names, b.nameBytes, names) && Holdable(names, admitted) && Unbroken(names, breaks)
    && TableOf(b.strings, b.stringBytes, strings) && Holdable(strings, admitted)
    && Encodes(b.records, t, |names|, |strings|)
  }

  /** Whether no name breaks a line. */
  method CheckNames(references: seq<Reference>, bytes: Bytes, breaks: LineBreaks, ghost texts: seq<Bytes>) returns (ok: bool)
    requires TableOf(references, bytes, texts)
    ensures ok <==> Unbroken(texts, breaks)
  {
    NameTexts(references, bytes, texts);
    hide TableOf;
    for index := 0 to |references|
      invariant forall i :: 0 <= i < index - 1 ==> !breaks(texts[i])
    {
      var r := references[index];
      if breaks(bytes[r.offset..r.offset + r.length]) {
        assert index > 0;
        return false;
      }
    }
    return true;
  }

  lemma NameTexts(references: seq<Reference>, bytes: Bytes, texts: seq<Bytes>)
    requires TableOf(references, bytes, texts)
    ensures |references| == |texts| + 1
    ensures forall i :: 0 <= i < |references| ==>
      var r := references[i];
      r.offset + r.length <= |bytes| && bytes[r.offset..r.offset + r.length] == if i == 0 then [] else texts[i - 1]
  {
    FirstReference(texts);
    forall i | 0 < i < |references|
      ensures var r := references[i]; r.offset + r.length <= |bytes| && bytes[r.offset..r.offset + r.length] == texts[i - 1] {
      ReferenceAt(texts, i - 1);
    }
  }

  /** Sections that fit under the ceiling are few enough to index. */
  lemma FewEnough(h: Header)
    requires SectionsSound(h)
    ensures h.values < NONE && h.names < NONE && h.strings < NONE && h.totalSize >= MIN_SIZE
  {
  }

  /** The whole of validation: true exactly for the canonical encodings of trees. */
  method Validate(b: Block, supplied: nat, admitted: Bytes -> bool, breaks: LineBreaks)
    returns (ok: bool, ghost t: Tree, ghost names: seq<Bytes>, ghost strings: seq<Bytes>)
    requires Cut(b)
    ensures ok ==> Holds(b, t, names, strings, admitted, breaks) && supplied == b.header.totalSize
    ensures ok <==> supplied == b.header.totalSize && exists t, names, strings :: Holds(b, t, names, strings, admitted, breaks)
  {
    hide Holdable, Encodes, HeaderFor;
    t, names, strings := Tree(EMPTY_PAYLOAD, 0, false, []), [], [];
    var h := b.header;
    if SectionsSound(h) { FewEnough(h); }
    if supplied < MIN_SIZE || supplied > CEILING { return false, t, names, strings; }
    FixedFields(h);
    if h.magic != MAGIC || h.version != VERSION || h.headerSize != HEADER_SIZE { return false, t, names, strings; }
    ok := ValidateLayout(h, supplied);
    if !ok { return; }
    FewEnough(h);
    ok, names := ValidateTable(b.names, b.nameBytes, admitted);
    if !ok { return; }
    ok, strings := ValidateTable(b.strings, b.stringBytes, admitted);
    if !ok { return; }
    OneReading(b, names, strings);
    ok := CheckNames(b.names, b.nameBytes, breaks, names);
    if !ok { return; }
    ok := ValidateRecords(b.records, h.names, h.strings);
    if ok {
      t :| Encodes(b.records, t, |names|, |strings|);
    }
  }

  lemma FixedFields(h: Header)
    ensures SectionsSound(h) ==> h.magic == MAGIC && h.version == VERSION && h.headerSize == HEADER_SIZE
  {
  }

  /** The tables have one reading. */
  lemma OneReading(b: Block, names: seq<Bytes>, strings: seq<Bytes>)
    requires TableOf(b.names, b.nameBytes, names) && TableOf(b.strings, b.stringBytes, strings)
    ensures forall names' :: TableOf(b.names, b.nameBytes, names') ==> names' == names
    ensures forall strings' :: TableOf(b.strings, b.stringBytes, strings') ==> strings' == strings
    ensures |b.names| == |names| + 1 && |b.strings| == |strings| + 1
  {
    forall names' | TableOf(b.names, b.nameBytes, names') ensures names' == names { TextsUnique(names, names'); }
    forall strings' | TableOf(b.strings, b.stringBytes, strings') ensures strings' == strings { TextsUnique(strings, strings'); }
  }
}
