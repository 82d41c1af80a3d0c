/**
 * The codes of a value's sub-type byte: the low nibble selects the base, the high nibble
 * the modifier.
 */
module ValueDetail {
  const BaseMask: bv8 := 0x0f
  const ModifierMask: bv8 := 0xf0

  const UnknownType: bv8 := 0x00
  const BinaryType: bv8 := 0x01
  const DecimalType: bv8 := 0x02
  const HexadecimalType: bv8 := 0x03
  const CharacterType: bv8 := 0x04
  const ReferenceType: bv8 := 0x05

  const NotType: bv8 := 0x10
  const NegateType: bv8 := 0x20
}

/**
 * The single-address cells the architecture renders: instructions, values, characters and
 * strings, plus any cell whose type tag is none of these four.
 */
module Cells {
  import opened Types
  import opened Documents
  import ValueDetail

  /** The operand type code of an absent operand. */
  const O_NONE: nat := 0

  /**
   * An operand: its type code and, when the instruction can tell, the address the operand
   * refers to (what `Instruction::GetOperandReference` answers for it).
   */
  datatype Operand = Operand(typ: nat, reference: Option<Address>)

  /** An instruction: its mnemonic and its operand slots in index order; None is a null slot. */
  datatype Instruction = Instruction(name: string, operands: seq<Option<Operand>>)

  /** `Value::Modify` for each read width; its effect is left abstract. */
  datatype ValueModifiers = ValueModifiers(
    on8: u8 -> u8,
    on16: u16 -> u16,
    on32: u32 -> u32,
    on64: u64 -> u64)

  /** A value cell: its length in bytes, its sub-type byte and its modify hook. */
  datatype ValueCell = ValueCell(length: nat, subType: bv8, modifier: ValueModifiers)
  {
    function BaseField(): bv8 { subType & ValueDetail.BaseMask }

    function ModifierField(): bv8 { subType & ValueDetail.ModifierMask }
  }

  /** A character cell; every sub-type is read and rendered as a single byte. */
  datatype CharacterCell = CharacterCell(subType: nat)

  datatype StringSubType = AsciiType | Utf16Type

  /** A string encoding: how a buffer of raw bytes converts to UTF-8 text (left abstract). */
  datatype StringTrait = StringTrait(convertToUtf8: seq<u8> -> string)

  /** A string cell: its sub-type, its length in bytes and its trait (None stands for a null trait). */
  datatype StringCell = StringCell(subType: StringSubType, length: nat, encoding: Option<StringTrait>)

  datatype Cell =
    | InstructionType(insn: Instruction)
    | ValueType(value: ValueCell)
    | CharacterType(character: CharacterCell)
    | StringType(str: StringCell)
    | OtherType(tag: nat)
}
