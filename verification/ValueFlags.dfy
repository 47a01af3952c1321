/**
 The sixteen-bit flag word shared by live and baked values
 (core/data_model/data_model_types.hpp, document_value_flags).
 */
module ValueFlags {
  import opened LiveNode

  const METADATA: bv16 := 0x0c3f
  const FIRST_SIBLING: bv16 := 0x0040
  const LAST_SIBLING: bv16 := 0x0080
  const SIBLING_POSITION: bv16 := 0x00c0
  const NAME_PRESENT: bv16 := 0x0100
  const SUPPRESS: bv16 := 0x0200
  const BAKED: bv16 := 0x0fff

  datatype Decoded = Decoded(value: Metadata) | Refused

  function WidthCode(w: Width): bv16 {
    match w case Bits8 => 0 case Bits16 => 1 case Bits32 => 2 case Bits64 => 3
  }

  function WidthOf(code: bv16): Width {
    if code == 0 then Bits8 else if code == 1 then Bits16 else if code == 2 then Bits32 else Bits64
  }

  function NotationCode(n: Notation): bv16 {
    match n
    case Decimal => 0
    case Hexadecimal2 => 1
    case Binary8 => 2
    case Hexadecimal4 => 3
    case Hexadecimal8 => 4
    case Hexadecimal16 => 5
    case DecimalOrHexadecimal => 6
    case Binary16 => 7
    case Binary32 => 8
    case Binary64 => 9
  }

  function NotationOf(code: bv16): Notation {
    if code == 0 then Decimal
    else if code == 1 then Hexadecimal2
    else if code == 2 then Binary8
    else if code == 3 then Hexadecimal4
    else if code == 4 then Hexadecimal8
    else if code == 5 then Hexadecimal16
    else if code == 6 then DecimalOrHexadecimal
    else if code == 7 then Binary16
    else if code == 8 then Binary32
    else Binary64
  }

  /** Notation takes bits 3-4 and 10-11, around the prefix and the structural flags. */
  function Encode(m: Metadata): bv16 {
    (if m.domain.Unsigned? then 0x01 else 0) | (WidthCode(m.width) << 1) | ((NotationCode(m.notation) & 0x03) << 3)
    | ((NotationCode(m.notation) & 0x0c) << 8) | (if m.prefix.Alternate? then 0x20 else 0)
  }

  function Decode(flags: bv16): Decoded {
    var notation := ((flags >> 3) & 0x03) | ((flags >> 8) & 0x0c);
    if flags & !METADATA != 0 || notation > 9 then Refused else
    var m := Metadata(if flags & 0x01 != 0 then Unsigned else Signed, WidthOf((flags >> 1) & 0x03), NotationOf(notation),
                      if flags & 0x20 != 0 then Alternate else Standard);
    if MetadataValid(m) then Decoded(m) else Refused
  }

  lemma CodesInverse(w: Width, n: Notation)
    ensures WidthOf(WidthCode(w)) == w && NotationOf(NotationCode(n)) == n && WidthCode(w) <= 3 && NotationCode(n) <= 9
  {
  }

  lemma FieldsOf(a: bv16, w: bv16, n: bv16, p: bv16)
    requires (a == 0 || a == 1) && w <= 3 && n <= 9 && (p == 0 || p == 0x20)
    ensures var flags := a | (w << 1) | ((n & 0x03) << 3) | ((n & 0x0c) << 8) | p;
      && flags & !METADATA == 0 && flags & 0x01 == a && (flags >> 1) & 0x03 == w
      && ((flags >> 3) & 0x03) | ((flags >> 8) & 0x0c) == n && flags & 0x20 == p && flags & METADATA == flags
  {
  }

  /** Decoding an encoding gives back any valid metadata. */
  lemma DecodeEncode(m: Metadata)
    ensures Decode(Encode(m)) == if MetadataValid(m) then Decoded(m) else Refused
    ensures Meta(Encode(m)) == Encode(m)
  {
    CodesInverse(m.width, m.notation);
    FieldsOf(if m.domain.Unsigned? then 0x01 else 0, WidthCode(m.width), NotationCode(m.notation), if m.prefix.Alternate? then 0x20 else 0);
  }

  lemma FieldsJoin(flags: bv16)
    requires flags & !METADATA == 0
    ensures flags == (flags & 0x01) | (((flags >> 1) & 0x03) << 1) | (((((flags >> 3) & 0x03) | ((flags >> 8) & 0x0c)) & 0x03) << 3)
                     | (((((flags >> 3) & 0x03) | ((flags >> 8) & 0x0c)) & 0x0c) << 8) | (flags & 0x20)
  {
  }

  lemma CodesOnto(w: bv16, n: bv16)
    ensures w <= 3 ==> WidthCode(WidthOf(w)) == w
    ensures n <= 9 ==> NotationCode(NotationOf(n)) == n
  {
  }

  lemma Low(flags: bv16)
    ensures flags & 0x01 == 0 || flags & 0x01 == 1
    ensures flags & 0x20 == 0 || flags & 0x20 == 0x20
    ensures (flags >> 1) & 0x03 <= 3
  {
  }

  /** No two flag words decode to the same metadata. */
  lemma EncodeDecode(flags: bv16)
    requires Decode(flags).Decoded?
    ensures Encode(Decode(flags).value) == flags && MetadataValid(Decode(flags).value)
  {
    Low(flags);
    CodesOnto((flags >> 1) & 0x03, ((flags >> 3) & 0x03) | ((flags >> 8) & 0x0c));
    FieldsJoin(flags);
  }

  /** The flag word of a value: metadata, name, suppression and place among siblings. */
  function Pack(meta: bv16, named: bool, suppress: bool, first: bool, last: bool): bv16 {
    meta | (if named then NAME_PRESENT else 0) | (if suppress then SUPPRESS else 0)
    | (if first then FIRST_SIBLING else 0) | (if last then LAST_SIBLING else 0)
  }

  predicate Named(flags: bv16) { flags & NAME_PRESENT != 0 }

  predicate Suppressed(flags: bv16) { flags & SUPPRESS != 0 }

  function Meta(flags: bv16): bv16 { flags & METADATA }

  /** No bits but those that baked values use. */
  predicate Clean(flags: bv16) { flags & !BAKED == 0 }

  /** The sibling flags say exactly whether a value is the first and whether it is the last. */
  predicate Positioned(flags: bv16, first: bool, last: bool) {
    flags & SIBLING_POSITION == (if first then FIRST_SIBLING else 0) | (if last then LAST_SIBLING else 0)
  }

  lemma PackFields(meta: bv16, named: bool, suppress: bool, first: bool, last: bool)
    requires Meta(meta) == meta
    ensures var flags := Pack(meta, named, suppress, first, last);
      && Clean(flags) && Meta(flags) == meta && Named(flags) == named && Suppressed(flags) == suppress && Positioned(flags, first, last)
  {
  }

  /** A clean flag word is determined by its fields. */
  lemma PackWhole(flags: bv16, first: bool, last: bool)
    requires Clean(flags) && Positioned(flags, first, last)
    ensures flags == Pack(Meta(flags), Named(flags), Suppressed(flags), first, last)
  {
  }

  /** Both sets of flags. */
  function Join(a: bv16, b: bv16): bv16 { a | b }

  /** Place flags and the rest, set at different times, make the whole word. */
  lemma JoinPlace(meta: bv16, named: bool, suppress: bool, first: bool, last: bool)
    ensures Join(Join(if first then FIRST_SIBLING else 0, if last then LAST_SIBLING else 0), Pack(meta, named, suppress, false, false))
            == Pack(meta, named, suppress, first, last)
  {
  }
}
