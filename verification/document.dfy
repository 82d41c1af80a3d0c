/**
 * The document, seen from the rendering layer: one immutable value that answers the
 * queries the formatters make (file offsets, byte reads, labels, comments, detail ids and
 * function signatures). How the document is filled in is not part of this model.
 */
module Documents {
  import opened Types

  /** A segmented location: a base selector and an offset within that base. */
  datatype Address = Addr(base: nat, offset: nat)
  {
    /** A copy of this address whose offset is replaced; the original is left as it was. */
    function WithOffset(off: nat): Address
    {
      this.(offset := off)
    }
  }

  /** A label's type; every type other than Unknown marks a label that was really found. */
  datatype LabelType = Unknown | Known(code: nat)

  datatype Label = LabelOf(name: string, kind: LabelType)

  /** What the document answers for an address that carries no label. */
  const UnknownLabel: Label := LabelOf("", Unknown)

  /** The kind of a described type; PlainType stands for every kind the formatter does not decorate. */
  datatype TypeKind = ClassType | EnumType | StructureType | PointerType | ReferenceType | PlainType

  datatype TypeDetail = TypeDetail(name: string, kind: TypeKind)

  /** One parameter of a signature: its type and the name of its value. */
  datatype TypedValue = TypedValue(typ: TypeDetail, name: string)

  /** A recorded function signature. */
  datatype FunctionDetail = FunctionDetail(name: string, returnType: TypeDetail, parameters: seq<TypedValue>)

  type Offset = nat

  /**
   * The read-only byte source, one reader per width the formatters use. A reader answers
   * None when the read fails (for instance past the end of the file). The byte order of the
   * wider reads is the stream's business and is left abstract.
   */
  datatype BinaryStream = BinaryStream(
    readU8: Offset -> Option<u8>,
    readU16: Offset -> Option<u16>,
    readU32: Offset -> Option<u32>,
    readU64: Offset -> Option<u64>,
    readBytes: (Offset, nat) -> Option<seq<u8>>)

  datatype Document = Document(
    fileOffsets: map<Address, Offset>,
    stream: BinaryStream,
    labels: map<Address, Label>,
    labelText: Label -> string,
    comments: map<Address, string>,
    detailIds: map<Address, Uuid>,
    functionDetails: map<Uuid, FunctionDetail>)
  {
    /** The file offset backing an address, or None when the address is not backed by the file. */
    function ConvertAddressToFileOffset(a: Address): Option<Offset>
    {
      if a in fileOffsets then Some(fileOffsets[a]) else None
    }

    function GetLabelFromAddress(a: Address): Label
    {
      if a in labels then labels[a] else UnknownLabel
    }

    /** The comment at an address; the empty text when there is none. */
    function GetComment(a: Address): string
    {
      if a in comments then comments[a] else ""
    }

    /** The detail id recorded for an address (detail kind 0, the only kind the formatters ask for). */
    function RetrieveDetailId(a: Address): Option<Uuid>
    {
      if a in detailIds then Some(detailIds[a]) else None
    }

    function GetFunctionDetail(id: Uuid): Option<FunctionDetail>
    {
      if id in functionDetails then Some(functionDetails[id]) else None
    }

    /** The signature recorded for an address: both the detail id and the detail must resolve. */
    function SignatureAt(a: Address): Option<FunctionDetail>
    {
      match RetrieveDetailId(a)
      case None => None
      case Some(id) => GetFunctionDetail(id)
    }
  }
}
