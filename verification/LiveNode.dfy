/**
 Slot records of the live document and their node-local predicates
 (core/data_model/live_document_node.hpp, core/data_model/data_model_types.hpp).

 A record is either a value or the aggregate that holds the children of one
 container value. Links are slot numbers; -1 is the absent link.
 */
module LiveNode {

  type Slot = int
  const NO_SLOT: Slot := -1

  type Bits = x: nat | x < 0x1_0000_0000_0000_0000

  datatype ValueType =
    | EmptyValue | NullValue | Boolean | Integer | FloatingPoint | Text | Array | Object

  datatype Kind = ArrayKind | ObjectKind

  datatype Domain = Signed | Unsigned

  datatype Width = Bits8 | Bits16 | Bits32 | Bits64

  datatype Notation =
    | Decimal | Binary8 | Binary16 | Binary32 | Binary64
    | Hexadecimal2 | Hexadecimal4 | Hexadecimal8 | Hexadecimal16 | DecimalOrHexadecimal

  datatype Prefix = Standard | Alternate

  datatype Metadata = Metadata(domain: Domain, width: Width, notation: Notation, prefix: Prefix)

  const PLAIN: Metadata := Metadata(Signed, Bits8, Decimal, Standard)

  /** What a value carries besides its name and its place in the tree. */
  datatype Payload = Payload(vtype: ValueType, bits: Bits, suppress: bool, meta: Metadata)

  const EMPTY_PAYLOAD: Payload := Payload(EmptyValue, 0, false, PLAIN)

  datatype Node =
    | Value(parent: Slot, prev: Slot, next: Slot, owned: Slot, payload: Payload, name: nat, named: bool)
    | Aggregate(owner: Slot, first: Slot, last: Slot, count: nat, kind: Kind)

  type Nodes = map<Slot, Node>

  predicate IsContainer(t: ValueType) {
    t.Array? || t.Object?
  }

  function KindOf(t: ValueType): Kind
    requires IsContainer(t)
  {
    if t.Array? then ArrayKind else ObjectKind
  }

  predicate Unattached(n: Node) {
    n.Value? && n.parent == NO_SLOT && n.prev == NO_SLOT && n.next == NO_SLOT
  }

  /** The mutual link between a container value and its aggregate. */
  predicate FormsPair(value: Node, aggregate: Node, valueSlot: Slot, aggregateSlot: Slot) {
    && value.Value? && aggregate.Aggregate? && IsContainer(value.payload.vtype)
    && value.owned == aggregateSlot && aggregate.owner == valueSlot
    && aggregate.kind == KindOf(value.payload.vtype)
  }

  predicate Accepts(aggregate: Node, child: Node) {
    aggregate.Aggregate? && child.Value? && (aggregate.kind.ObjectKind? ==> child.named)
  }

  /** Aggregate links that agree with the child count, whatever the children are. */
  predicate RangeConsistent(n: Node) {
    && n.Aggregate?
    && (if n.count == 0 then n.first == NO_SLOT && n.last == NO_SLOT else n.first >= 0 && n.last >= 0)
  }

  predicate AggregateValid(n: Node) {
    n.Aggregate? && n.owner >= 0 && RangeConsistent(n)
  }

  predicate IsPreviousOf(left: Node, right: Node, leftSlot: Slot, rightSlot: Slot) {
    && left.Value? && right.Value? && left.parent >= 0 && left.parent == right.parent
    && left.next == rightSlot && right.prev == leftSlot
  }

  predicate HasFirst(aggregate: Node, child: Node, aggregateSlot: Slot, childSlot: Slot) {
    && aggregate.Aggregate? && child.Value?
    && aggregate.first == childSlot && child.parent == aggregateSlot && child.prev == NO_SLOT
  }

  predicate HasLast(aggregate: Node, child: Node, aggregateSlot: Slot, childSlot: Slot) {
    && aggregate.Aggregate? && child.Value?
    && aggregate.last == childSlot && child.parent == aggregateSlot && child.next == NO_SLOT
  }

  function MinimumHexDigits(n: Notation): nat {
    match n
    case Hexadecimal2 | DecimalOrHexadecimal => 2
    case Hexadecimal4 => 4
    case Hexadecimal8 => 8
    case Hexadecimal16 => 16
    case _ => 0
  }

  predicate MetadataValid(m: Metadata) {
    MinimumHexDigits(m.notation) != 0 || m.prefix.Standard?
  }

  function SignedFromBits(bits: Bits): int {
    if bits < 0x8000_0000_0000_0000 then bits else bits - 0x1_0000_0000_0000_0000
  }

  function SmallestSignedWidth(x: int): Width {
    if -0x80 <= x <= 0x7f then Bits8
    else if -0x8000 <= x <= 0x7fff then Bits16
    else if -0x8000_0000 <= x <= 0x7fff_ffff then Bits32
    else Bits64
  }

  function SmallestUnsignedWidth(x: nat): Width {
    if x <= 0xff then Bits8 else if x <= 0xffff then Bits16 else if x <= 0xffff_ffff then Bits32 else Bits64
  }

  predicate IntegerValid(bits: Bits, m: Metadata) {
    && MetadataValid(m)
    && m.width == (if m.domain.Signed? then SmallestSignedWidth(SignedFromBits(bits)) else SmallestUnsignedWidth(bits))
  }

  /** The eleven exponent bits of a binary64 value are not all ones. */
  predicate FiniteBits(bits: Bits) {
    (bits / 0x10_0000_0000_0000) % 0x800 != 0x7ff
  }

  /** A payload whose bits, flags and metadata fit its type; `strings` counts the string-value table. */
  predicate PayloadValid(p: Payload, strings: nat) {
    && (p.suppress ==> p.vtype.Text?)
    && match p.vtype
       case EmptyValue | NullValue | Array | Object => p.bits == 0 && p.meta == PLAIN
       case Boolean => p.bits <= 1 && p.meta == PLAIN
       case Integer => IntegerValid(p.bits, p.meta)
       case FloatingPoint => FiniteBits(p.bits) && p.meta == PLAIN
       case Text => p.bits <= strings && p.bits < 0xffff_ffff && p.meta == PLAIN
  }

  /** Zero is the empty name, which every unnamed value carries; `names` counts the name table. */
  predicate NameValid(name: nat, named: bool, names: nat) {
    name <= names && name < 0xffff_ffff && (!named ==> name == 0)
  }
}
