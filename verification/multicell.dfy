/**
 * The multicell record: a group of cells identified by an id, a one-byte type tag and a
 * 16-bit byte size. The record has no mutators, so it is a value: once built, its fields
 * never change.
 */
module MultiCells {
  import opened Types

  /** The `Type` enumeration; each enumerator's code is its position, starting at 0. */
  datatype MultiCellType = UnknownType | FunctionType | StructType | ArrayType
  {
    function Code(): u8
    {
      match this
      case UnknownType => 0
      case FunctionType => 1
      case StructType => 2
      case ArrayType => 3
    }
  }

  /** The enumerator whose code is c, if there is one. */
  function TypeFromCode(c: u8): Option<MultiCellType>
  {
    if c == 0 then Some(UnknownType)
    else if c == 1 then Some(FunctionType)
    else if c == 2 then Some(StructType)
    else if c == 3 then Some(ArrayType)
    else None
  }

  /**
   * The stored fields. The type is kept as the raw byte the constructor was given: any u8
   * is accepted, not only the four enumerators.
   */
  datatype MultiCell = MultiCell(id: Uuid, typ: u8, size: u16)
  {
    function GetSize(): u16 { size }

    function GetType(): u8 { typ }

    /** Whether a user interface should show the cells the multicell groups. */
    function DisplayCell(): bool { false }
  }

  /** The constructor, with its default arguments: the nil id, UnknownType and size 0. */
  function NewMultiCell(id: Uuid := NilUuid, typ: u8 := UnknownType.Code(), size: u16 := 0): MultiCell
  {
    MultiCell(id, typ, size)
  }

  /** The constructor stores id, type and size unchanged and the getters return them. */
  lemma ConstructorStoresFields(id: Uuid, typ: u8, size: u16)
    ensures NewMultiCell(id, typ, size).id == id
    ensures NewMultiCell(id, typ, size).GetType() == typ
    ensures NewMultiCell(id, typ, size).GetSize() == size
  {
  }

  /** A default-constructed multicell has the nil id, type UnknownType and size 0. */
  lemma DefaultMultiCell()
    ensures NewMultiCell().id == NilUuid
    ensures TypeFromCode(NewMultiCell().GetType()) == Some(UnknownType)
    ensures NewMultiCell().GetSize() == 0
  {
  }

  /** The enumerators carry the codes 0 to 3, and codes and enumerators convert both ways. */
  lemma TypeCodes(t: MultiCellType, c: u8)
    ensures UnknownType.Code() == 0 && FunctionType.Code() == 1
    ensures StructType.Code() == 2 && ArrayType.Code() == 3
    ensures TypeFromCode(t.Code()) == Some(t)
    ensures TypeFromCode(c).Some? ==> TypeFromCode(c).value.Code() == c
    ensures TypeFromCode(c).None? <==> c > 3
  {
  }

  /** The size is a 16-bit unsigned value. */
  lemma SizeBound(m: MultiCell)
    ensures 0 <= m.GetSize() <= 0xFFFF
  {
  }

  /** The base multicell never asks for its cells to be displayed. */
  lemma DisplayCellIsFalse(m: MultiCell)
    ensures !m.DisplayCell()
  {
  }
}
