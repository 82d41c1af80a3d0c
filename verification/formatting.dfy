/**
 * What each formatter of the architecture-independent rendering layer appends to the print
 * sink, as functions of the document, the address and the cell; and the properties of those
 * token streams. The imperative formatters in module Architectures are proved to append
 * exactly these tokens.
 */
module Formatting {
  import opened Types
  import opened Documents
  import opened Cells
  import opened Printing
  import opened Layouts
  import opened Signatures
  import opened TextFormat
  import opened MultiCells
  import ValueDetail

  /** What a formatter did: whether it reports success, and every token it appended. */
  datatype Rendering = Rendering(ok: bool, tokens: seq<Token>)

  /** An architecture's operand formatter (the overridable `FormatOperand`). */
  type OperandFormatter = (Document, Address, Instruction, Operand, nat) -> Rendering

  /** An architecture: its tag, its named modes (what `GetModes` lists) and its operand formatter. */
  datatype Architecture = Architecture(tag: nat, modes: seq<(string, u8)>, formatOperand: OperandFormatter)

  /** The base operand formatter: it looks up the binary stream, then fails without appending. */
  function BaseFormatOperand(doc: Document, addr: Address, insn: Instruction, op: Operand, i: nat): Rendering
  {
    Rendering(false, [])
  }

  /** Operand slot j holds an operand the loop formats: not null and not of type O_NONE. */
  predicate Present(insn: Instruction, j: nat)
  {
    j < |insn.operands| && insn.operands[j].Some? && insn.operands[j].value.typ != O_NONE
  }

  /** The first slot at or after i that stops the operand loop. */
  function FirstAbsent(insn: Instruction, i: nat): (r: nat)
    ensures i <= r && !Present(insn, r)
    ensures forall j | i <= j < r :: Present(insn, j)
    decreases |insn.operands| - i
  {
    if !Present(insn, i) then i else FirstAbsent(insn, i + 1)
  }

  /** The number of operands the loop visits. */
  function OperandCount(insn: Instruction): nat
  {
    FirstAbsent(insn, 0)
  }

  /**
   * The comment column of the signature comment after each operand slot. The source computes
   * it from the length of the text rendered so far, which the token model does not have.
   */
  type CommentColumns = nat -> nat

  /** The signature comment an operand earns: only when the address has no comment of its own. */
  function ReferenceComment(doc: Document, addr: Address, op: Operand, cmtOff: nat): seq<Token>
  {
    if doc.GetComment(addr) == "" && op.reference.Some? then
      match doc.SignatureAt(op.reference.value)
      case None => []
      case Some(fd) => InstructionSignature(fd, cmtOff)
    else []
  }

  /**
   * The operand loop from slot i on: operands in index order with nothing between them,
   * stopping at the first absent slot or at the first operand its formatter fails on.
   */
  function OperandsFrom(arch: Architecture, doc: Document, addr: Address, insn: Instruction, columns: CommentColumns, i: nat): Rendering
    decreases |insn.operands| - i
  {
    if !Present(insn, i) then Rendering(true, [])
    else
      var op := insn.operands[i].value;
      var f := arch.formatOperand(doc, addr, insn, op, i);
      if !f.ok then Rendering(false, f.tokens)
      else
        var rest := OperandsFrom(arch, doc, addr, insn, columns, i + 1);
        Rendering(rest.ok, f.tokens + ReferenceComment(doc, addr, op, columns(i)) + rest.tokens)
  }

  /** The operand loop stops, with success, at a slot that holds no operand. */
  lemma OperandsFromStops(arch: Architecture, doc: Document, addr: Address, insn: Instruction, columns: CommentColumns, i: nat)
    requires !Present(insn, i)
    ensures OperandsFrom(arch, doc, addr, insn, columns, i) == Rendering(true, [])
  {
  }

  /** The operand loop stops, with failure, after the tokens of an operand its formatter fails on. */
  lemma OperandsFromFails(arch: Architecture, doc: Document, addr: Address, insn: Instruction, columns: CommentColumns, i: nat)
    requires Present(insn, i) && !OperandFormatted(arch, doc, addr, insn, i)
    ensures OperandsFrom(arch, doc, addr, insn, columns, i)
      == Rendering(false, arch.formatOperand(doc, addr, insn, insn.operands[i].value, i).tokens)
  {
  }

  /** After an operand its formatter succeeds on, the loop goes on with the next slot. */
  lemma OperandsFromContinues(arch: Architecture, doc: Document, addr: Address, insn: Instruction, columns: CommentColumns, i: nat)
    requires OperandFormatted(arch, doc, addr, insn, i)
    ensures var op := insn.operands[i].value;
      var rest := OperandsFrom(arch, doc, addr, insn, columns, i + 1);
      OperandsFrom(arch, doc, addr, insn, columns, i)
        == Rendering(rest.ok, arch.formatOperand(doc, addr, insn, op, i).tokens + ReferenceComment(doc, addr, op, columns(i)) + rest.tokens)
  {
  }

  /** What `FormatInstruction` appends: the mnemonic, then the operands. */
  function InstructionRendering(arch: Architecture, doc: Document, addr: Address, insn: Instruction, columns: CommentColumns): (r: Rendering)
    ensures |r.tokens| >= 1 && r.tokens[0] == Mnemonic(insn.name)
  {
    var ops := OperandsFrom(arch, doc, addr, insn, columns, 0);
    Rendering(ops.ok, [Mnemonic(insn.name)] + ops.tokens)
  }

  /** The operand formatter succeeds on slot j. */
  predicate OperandFormatted(arch: Architecture, doc: Document, addr: Address, insn: Instruction, j: nat)
  {
    Present(insn, j) && arch.formatOperand(doc, addr, insn, insn.operands[j].value, j).ok
  }

  lemma {:induction false} OperandsFromOk(arch: Architecture, doc: Document, addr: Address, insn: Instruction, columns: CommentColumns, i: nat)
    ensures OperandsFrom(arch, doc, addr, insn, columns, i).ok
        <==> forall j | i <= j < FirstAbsent(insn, i) :: OperandFormatted(arch, doc, addr, insn, j)
    decreases |insn.operands| - i
  {
    if Present(insn, i) {
      assert FirstAbsent(insn, i) == FirstAbsent(insn, i + 1);
      var f := arch.formatOperand(doc, addr, insn, insn.operands[i].value, i);
      assert OperandFormatted(arch, doc, addr, insn, i) == f.ok;
      if f.ok {
        OperandsFromOk(arch, doc, addr, insn, columns, i + 1);
      }
    }
  }

  /**
   * An instruction renders successfully exactly when its operand formatter succeeds on every
   * operand the loop visits; the loop gives up at the first failure.
   */
  lemma InstructionOkIff(arch: Architecture, doc: Document, addr: Address, insn: Instruction, columns: CommentColumns)
    ensures InstructionRendering(arch, doc, addr, insn, columns).ok
        <==> forall j | 0 <= j < OperandCount(insn) :: OperandFormatted(arch, doc, addr, insn, j)
  {
    OperandsFromOk(arch, doc, addr, insn, columns, 0);
  }

  /**
   * With the base operand formatter an instruction renders as its mnemonic alone, and
   * succeeds only when it has no operand at all.
   */
  lemma BaseInstructionRendering(tag: nat, modes: seq<(string, u8)>, doc: Document, addr: Address, insn: Instruction, columns: CommentColumns)
    ensures InstructionRendering(Architecture(tag, modes, BaseFormatOperand), doc, addr, insn, columns)
         == Rendering(!Present(insn, 0), [Mnemonic(insn.name)])
  {
  }

  /** Operand slot j holds an operand whose own tokens or whose signature comment hold a comma. */
  predicate CommaAt(arch: Architecture, doc: Document, addr: Address, insn: Instruction, columns: CommentColumns, j: nat)
  {
    && Present(insn, j)
    && (|| Operator(",") in arch.formatOperand(doc, addr, insn, insn.operands[j].value, j).tokens
        || Operator(",") in ReferenceComment(doc, addr, insn.operands[j].value, columns(j)))
  }

  /**
   * The operand loop from slot i puts no comma of its own between operands: every comma it
   * emits belongs to a visited operand's tokens or to that operand's signature comment; and
   * when the loop succeeds, every such comma is emitted.
   */
  lemma {:induction false} OperandsFromCommas(arch: Architecture, doc: Document, addr: Address, insn: Instruction, columns: CommentColumns, i: nat)
    ensures Operator(",") in OperandsFrom(arch, doc, addr, insn, columns, i).tokens ==>
      exists j | i <= j < FirstAbsent(insn, i) :: CommaAt(arch, doc, addr, insn, columns, j)
    ensures (&& OperandsFrom(arch, doc, addr, insn, columns, i).ok
             && exists j | i <= j < FirstAbsent(insn, i) :: CommaAt(arch, doc, addr, insn, columns, j)) ==>
      Operator(",") in OperandsFrom(arch, doc, addr, insn, columns, i).tokens
    decreases |insn.operands| - i
  {
    if Present(insn, i) {
      var op := insn.operands[i].value;
      var f := arch.formatOperand(doc, addr, insn, op, i);
      assert FirstAbsent(insn, i) == FirstAbsent(insn, i + 1);
      if f.ok {
        OperandsFromCommas(arch, doc, addr, insn, columns, i + 1);
        var rest := OperandsFrom(arch, doc, addr, insn, columns, i + 1);
        var rc := ReferenceComment(doc, addr, op, columns(i));
        assert OperandsFrom(arch, doc, addr, insn, columns, i).tokens == f.tokens + rc + rest.tokens;
        if Operator(",") in f.tokens || Operator(",") in rc {
          assert CommaAt(arch, doc, addr, insn, columns, i);
        }
        if rest.ok && exists j | i <= j < FirstAbsent(insn, i) :: CommaAt(arch, doc, addr, insn, columns, j) {
          var j :| i <= j < FirstAbsent(insn, i) && CommaAt(arch, doc, addr, insn, columns, j);
          if j > i {
            assert i + 1 <= j < FirstAbsent(insn, i + 1);
          }
        }
      } else {
        if Operator(",") in f.tokens {
          assert CommaAt(arch, doc, addr, insn, columns, i);
        }
      }
    }
  }

  /**
   * No separator is ever put between two operands: a comma in an instruction's tokens comes
   * from an operand or from its signature comment; and when the instruction renders
   * successfully, every such comma appears.
   */
  lemma InstructionCommas(arch: Architecture, doc: Document, addr: Address, insn: Instruction, columns: CommentColumns)
    ensures Operator(",") in InstructionRendering(arch, doc, addr, insn, columns).tokens ==>
      exists j | 0 <= j < OperandCount(insn) :: CommaAt(arch, doc, addr, insn, columns, j)
    ensures (&& InstructionRendering(arch, doc, addr, insn, columns).ok
             && exists j | 0 <= j < OperandCount(insn) :: CommaAt(arch, doc, addr, insn, columns, j)) ==>
      Operator(",") in InstructionRendering(arch, doc, addr, insn, columns).tokens
  {
    OperandsFromCommas(arch, doc, addr, insn, columns, 0);
    var ops := OperandsFrom(arch, doc, addr, insn, columns, 0);
    assert Operator(",") in InstructionRendering(arch, doc, addr, insn, columns).tokens <==> Operator(",") in ops.tokens;
  }

  /**
   * At an address that carries a comment no signature comment is added, so when no operand's
   * tokens hold a comma, the instruction's tokens hold none.
   */
  lemma CommentedInstructionHasNoComma(arch: Architecture, doc: Document, addr: Address, insn: Instruction, columns: CommentColumns)
    requires doc.GetComment(addr) != ""
    requires forall j | 0 <= j < OperandCount(insn) && Present(insn, j) ::
      Operator(",") !in arch.formatOperand(doc, addr, insn, insn.operands[j].value, j).tokens
    ensures Operator(",") !in InstructionRendering(arch, doc, addr, insn, columns).tokens
  {
    InstructionCommas(arch, doc, addr, insn, columns);
    forall j | 0 <= j < OperandCount(insn) && Present(insn, j) ensures !CommaAt(arch, doc, addr, insn, columns, j) {
      assert ReferenceComment(doc, addr, insn.operands[j].value, columns(j)) == [];
    }
  }

  // ---- characters and strings ---------------------------------------------------------

  /** The byte behind an address, when the address is mapped and the read succeeds. */
  function ByteAt(doc: Document, addr: Address): Option<u8>
  {
    match doc.ConvertAddressToFileOffset(addr)
    case None => None
    case Some(off) => doc.stream.readU8(off)
  }

  /** What `FormatCharacter` appends: one character token, or nothing on failure. */
  function CharacterRendering(doc: Document, addr: Address, c: CharacterCell): (r: Rendering)
    ensures r.ok <==> ByteAt(doc, addr).Some?
    ensures !r.ok ==> r.tokens == []
    ensures r.ok ==> |r.tokens| == 1 && r.tokens[0].Character?
    ensures r.ok ==> CharacterUnescape(r.tokens[0].text) == Some(ByteAt(doc, addr).value as char)
  {
    match ByteAt(doc, addr)
    case None => Rendering(false, [])
    case Some(b) =>
      CharacterRoundTrip(b as char);
      Rendering(true, [Character(CharacterEscape(b as char))])
  }

  /** The decoded text of a string cell; None when the trait is null, the address unmapped, the read short or the text empty. */
  function StringText(doc: Document, addr: Address, s: StringCell): Option<string>
  {
    if s.encoding.None? then None
    else
      match doc.ConvertAddressToFileOffset(addr)
      case None => None
      case Some(off) =>
        match doc.stream.readBytes(off, s.length)
        case None => None
        case Some(buf) =>
          var text := s.encoding.value.convertToUtf8(buf);
          if text == [] then None else Some(text)
  }

  /** What `FormatString` appends: an optional wide marker and the escaped text between double quotes. */
  function StringRendering(doc: Document, addr: Address, s: StringCell): (r: Rendering)
    ensures r.ok <==> StringText(doc, addr, s).Some?
    ensures !r.ok ==> r.tokens == []
    ensures r.ok ==> |r.tokens| == (if s.subType == Utf16Type then 4 else 3)
    ensures r.ok ==> (r.tokens[0] == Keyword("L") <==> s.subType == Utf16Type)
    ensures r.ok ==> r.tokens[|r.tokens| - 3] == Operator("\"") && r.tokens[|r.tokens| - 1] == Operator("\"")
    ensures r.ok ==> (r.tokens[|r.tokens| - 2].String?
      && Unescape(r.tokens[|r.tokens| - 2].text) == StringText(doc, addr, s))
  {
    match StringText(doc, addr, s)
    case None => Rendering(false, [])
    case Some(text) =>
      UnescapeEscape(text);
      Rendering(true, (if s.subType == Utf16Type then [Keyword("L")] else []) + [Operator("\""), String(Escape(text)), Operator("\"")])
  }

  /** A string cell fails to render exactly in the four failure cases of the source, and then appends nothing. */
  lemma StringFailures(doc: Document, addr: Address, s: StringCell)
    ensures !StringRendering(doc, addr, s).ok <==>
      || s.encoding.None?
      || doc.ConvertAddressToFileOffset(addr).None?
      || doc.stream.readBytes(doc.ConvertAddressToFileOffset(addr).value, s.length).None?
      || s.encoding.value.convertToUtf8(doc.stream.readBytes(doc.ConvertAddressToFileOffset(addr).value, s.length).value) == []
  {
  }

  // ---- values -------------------------------------------------------------------------

  function SizeKeyword(len: nat): string
  {
    if len == 1 then "db" else if len == 2 then "dw" else if len == 4 then "dd" else if len == 8 then "dq" else "d?"
  }

  /** The numeric base of a value: binary, decimal, or hexadecimal for every other base code. */
  function ValueBase(v: ValueCell): nat
  {
    if v.BaseField() == ValueDetail.BinaryType then 2
    else if v.BaseField() == ValueDetail.DecimalType then 10
    else 16
  }

  /** The sign written before the data: `~` exactly for the not modifier, `-` exactly for negate. */
  function ModifierTokens(v: ValueCell): (r: seq<Token>)
    ensures r == [Operator("~")] <==> v.ModifierField() == ValueDetail.NotType
    ensures r == [Operator("-")] <==> v.ModifierField() == ValueDetail.NegateType
    ensures r == [] <==> v.ModifierField() != ValueDetail.NotType && v.ModifierField() != ValueDetail.NegateType
  {
    if v.ModifierField() == ValueDetail.NotType then [Operator("~")]
    else if v.ModifierField() == ValueDetail.NegateType then [Operator("-")]
    else []
  }

  /** A reference to the current address with its offset replaced: a label when one is known, else the address. */
  function ReferenceTokens(doc: Document, addr: Address, target: nat): seq<Token>
  {
    var a := addr.WithOffset(target);
    var l := doc.GetLabelFromAddress(a);
    if l.kind != Unknown then [Label(doc.labelText(l))] else [Address(a)]
  }

  /** The reference test of a 2-byte value: any bit in common with the reference code. */
  predicate WordIsReference(v: ValueCell)
  {
    v.BaseField() & ValueDetail.ReferenceType != 0
  }

  /** The reference test of a 4- or 8-byte value: the base code equals the reference code. */
  predicate WideIsReference(v: ValueCell)
  {
    v.BaseField() == ValueDetail.ReferenceType
  }

  /** The tokens for the read data; None when the length is unsupported or the read fails. */
  function ValueBody(doc: Document, addr: Address, v: ValueCell, off: Offset): Option<seq<Token>>
  {
    if v.length == 1 then
      match doc.stream.readU8(off)
      case None => None
      case Some(d) =>
        var data := v.modifier.on8(d);
        if v.BaseField() == ValueDetail.CharacterType then
          Some([Operator("'"), Character(EscapeChar(data as char)), Operator("'")])
        else Some([Immediate(data, 8, ValueBase(v))])
    else if v.length == 2 then
      match doc.stream.readU16(off)
      case None => None
      case Some(d) =>
        var data := v.modifier.on16(d);
        if WordIsReference(v) then Some(ReferenceTokens(doc, addr, data)) else Some([Immediate(data, 16, ValueBase(v))])
    else if v.length == 4 then
      match doc.stream.readU32(off)
      case None => None
      case Some(d) =>
        var data := v.modifier.on32(d);
        if WideIsReference(v) then Some(ReferenceTokens(doc, addr, data)) else Some([Immediate(data, 32, ValueBase(v))])
    else if v.length == 8 then
      match doc.stream.readU64(off)
      case None => None
      case Some(d) =>
        var data := v.modifier.on64(d);
        if WideIsReference(v) then Some(ReferenceTokens(doc, addr, data)) else Some([Immediate(data, 64, ValueBase(v))])
    else None
  }

  /** What `FormatValue` appends. */
  function ValueRendering(doc: Document, addr: Address, v: ValueCell): (r: Rendering)
    ensures |r.tokens| >= 2 && r.tokens[0] == Keyword(SizeKeyword(v.length)) && r.tokens[1] == Space(1)
    ensures doc.ConvertAddressToFileOffset(addr).None? ==> r.ok && r.tokens[2..] == [Operator("(?)")]
    ensures !r.ok ==> r.tokens[2..] == ModifierTokens(v)
    ensures doc.ConvertAddressToFileOffset(addr).Some? ==>
      |r.tokens| >= 2 + |ModifierTokens(v)| && r.tokens[2..2 + |ModifierTokens(v)|] == ModifierTokens(v)
  {
    var head := [Keyword(SizeKeyword(v.length)), Space(1)];
    match doc.ConvertAddressToFileOffset(addr)
    case None => Rendering(true, head + [Operator("(?)")])
    case Some(off) =>
      match ValueBody(doc, addr, v, off)
      case None => Rendering(false, head + ModifierTokens(v))
      case Some(body) => Rendering(true, head + ModifierTokens(v) + body)
  }

  /** Whether a read of the value's width at the address's offset succeeds. */
  predicate ValueReadSucceeds(doc: Document, v: ValueCell, off: Offset)
  {
    if v.length == 1 then doc.stream.readU8(off).Some?
    else if v.length == 2 then doc.stream.readU16(off).Some?
    else if v.length == 4 then doc.stream.readU32(off).Some?
    else if v.length == 8 then doc.stream.readU64(off).Some?
    else false
  }

  /**
   * A value fails only at a mapped address, and exactly when its length is not 1, 2, 4 or 8
   * or the read of that width fails; the size keyword and the modifier are appended anyway.
   */
  lemma ValueFailures(doc: Document, addr: Address, v: ValueCell)
    ensures !ValueRendering(doc, addr, v).ok <==>
      doc.ConvertAddressToFileOffset(addr).Some? && !ValueReadSucceeds(doc, v, doc.ConvertAddressToFileOffset(addr).value)
    ensures v.length !in {1, 2, 4, 8} && doc.ConvertAddressToFileOffset(addr).Some? ==>
      ValueRendering(doc, addr, v) == Rendering(false, [Keyword("d?"), Space(1)] + ModifierTokens(v))
  {
  }

  /** The exclusive upper bound of an unsigned integer of the given width in bits. */
  function WidthBound(bits: nat): nat
  {
    if bits == 8 then 0x100
    else if bits == 16 then 0x1_0000
    else if bits == 32 then 0x1_0000_0000
    else 0x1_0000_0000_0000_0000
  }

  /** An immediate token of the given width: a value that fits it, in base 2, 10 or 16. */
  predicate FitsWidth(t: Token, bits: nat)
  {
    t.Immediate? ==> t.bits == bits && t.value < WidthBound(bits) && t.base in {2, 10, 16}
  }

  /** Every immediate among the tokens of the read data fits the value's width. */
  lemma BodyImmediatesFit(doc: Document, addr: Address, v: ValueCell, off: Offset)
    requires ValueBody(doc, addr, v, off).Some?
    ensures forall k | 0 <= k < |ValueBody(doc, addr, v, off).value| :: FitsWidth(ValueBody(doc, addr, v, off).value[k], 8 * v.length)
  {
  }

  /**
   * Every immediate a value renders has the width of the value's length (8, 16, 32 or 64
   * bits), a value that fits that width, and the base 2, 10 or 16.
   */
  lemma ValueImmediatesFit(doc: Document, addr: Address, v: ValueCell)
    ensures forall k | 0 <= k < |ValueRendering(doc, addr, v).tokens| :: FitsWidth(ValueRendering(doc, addr, v).tokens[k], 8 * v.length)
  {
    var r := ValueRendering(doc, addr, v);
    var off := doc.ConvertAddressToFileOffset(addr);
    if off.Some? && ValueBody(doc, addr, v, off.value).Some? {
      var prefix := [Keyword(SizeKeyword(v.length)), Space(1)] + ModifierTokens(v);
      var body := ValueBody(doc, addr, v, off.value).value;
      BodyImmediatesFit(doc, addr, v, off.value);
      assert r.tokens == prefix + body;
      forall k | 0 <= k < |r.tokens| ensures FitsWidth(r.tokens[k], 8 * v.length) {
        if k >= |prefix| {
          assert r.tokens[k] == body[k - |prefix|];
        }
      }
    }
  }

  /** A one-byte value never renders as a reference: it becomes a quoted character or an immediate. */
  lemma OneByteHasNoReference(doc: Document, addr: Address, v: ValueCell)
    requires v.length == 1
    ensures forall k | 0 <= k < |ValueRendering(doc, addr, v).tokens| ::
      !ValueRendering(doc, addr, v).tokens[k].Label? && !ValueRendering(doc, addr, v).tokens[k].Address?
  {
    var r := ValueRendering(doc, addr, v);
    var head := [Keyword(SizeKeyword(v.length)), Space(1)];
    forall k | 0 <= k < |r.tokens| ensures !r.tokens[k].Label? && !r.tokens[k].Address? {
      var off := doc.ConvertAddressToFileOffset(addr);
      if off.Some? && ValueBody(doc, addr, v, off.value).Some? {
        var body := ValueBody(doc, addr, v, off.value).value;
        assert r.tokens == head + ModifierTokens(v) + body;
        if k >= |head + ModifierTokens(v)| {
          assert r.tokens[k] == body[k - |head + ModifierTokens(v)|];
        }
      }
    }
  }

  /** A one-byte character value renders the (modified) byte between single quotes, escaped as in strings. */
  lemma OneByteCharacter(doc: Document, addr: Address, v: ValueCell)
    requires v.length == 1 && v.BaseField() == ValueDetail.CharacterType
    requires ByteAt(doc, addr).Some?
    ensures var r := ValueRendering(doc, addr, v);
      var c := v.modifier.on8(ByteAt(doc, addr).value) as char;
      && r.ok
      && r.tokens[|r.tokens| - 3] == Operator("'") && r.tokens[|r.tokens| - 1] == Operator("'")
      && r.tokens[|r.tokens| - 2] == Character(EscapeChar(c))
      && Unescape(r.tokens[|r.tokens| - 2].text) == Some([c])
  {
    var c := v.modifier.on8(ByteAt(doc, addr).value) as char;
    UnescapeEscape([c]);
    assert Escape([c]) == EscapeChar(c) + Escape([]);
  }

  /**
   * The value renders as a reference to `target`, an offset in the current address's base:
   * after the keyword, the space and the modifier, the label's text when the label there is
   * known, else the target address itself.
   */
  predicate RendersReference(doc: Document, addr: Address, v: ValueCell, target: nat)
  {
    var r := ValueRendering(doc, addr, v);
    var a := Addr(addr.base, target);
    var l := doc.GetLabelFromAddress(a);
    && r.ok
    && r.tokens[2 + |ModifierTokens(v)|..] == (if l.kind != Unknown then [Label(doc.labelText(l))] else [Address(a)])
  }

  /**
   * A value whose reference test holds and whose read succeeds renders as a reference to the
   * modified data, read in the base of the current address.
   */
  lemma ReferenceRendering(doc: Document, addr: Address, v: ValueCell)
    ensures v.length == 2 && WordIsReference(v) && WordAt(doc, addr).Some? ==>
      RendersReference(doc, addr, v, v.modifier.on16(WordAt(doc, addr).value))
    ensures v.length == 4 && WideIsReference(v) && DwordAt(doc, addr).Some? ==>
      RendersReference(doc, addr, v, v.modifier.on32(DwordAt(doc, addr).value))
    ensures v.length == 8 && WideIsReference(v) && QwordAt(doc, addr).Some? ==>
      RendersReference(doc, addr, v, v.modifier.on64(QwordAt(doc, addr).value))
  {
    var head := [Keyword(SizeKeyword(v.length)), Space(1)];
    var off := doc.ConvertAddressToFileOffset(addr);
    if off.Some? && ValueBody(doc, addr, v, off.value).Some? {
      var body := ValueBody(doc, addr, v, off.value).value;
      assert ValueRendering(doc, addr, v).tokens == (head + ModifierTokens(v)) + body;
    }
  }

  /**
   * The value renders successfully as its size keyword, a space, its modifier and one immediate
   * of the value's width holding `data`, in base 2 for the binary base code, 10 for the decimal
   * one and 16 for every other.
   */
  predicate RendersImmediate(doc: Document, addr: Address, v: ValueCell, data: nat)
  {
    var b := if v.BaseField() == ValueDetail.BinaryType then 2
             else if v.BaseField() == ValueDetail.DecimalType then 10
             else 16;
    ValueRendering(doc, addr, v)
      == Rendering(true, [Keyword(SizeKeyword(v.length)), Space(1)] + ModifierTokens(v) + [Immediate(data, 8 * v.length, b)])
  }

  /**
   * A value that is neither a one-byte character nor a reference, and whose read succeeds,
   * renders as one immediate holding the modified data.
   */
  lemma ImmediateRendering(doc: Document, addr: Address, v: ValueCell)
    ensures v.length == 1 && v.BaseField() != ValueDetail.CharacterType && ByteAt(doc, addr).Some? ==>
      RendersImmediate(doc, addr, v, v.modifier.on8(ByteAt(doc, addr).value))
    ensures v.length == 2 && !WordIsReference(v) && WordAt(doc, addr).Some? ==>
      RendersImmediate(doc, addr, v, v.modifier.on16(WordAt(doc, addr).value))
    ensures v.length == 4 && !WideIsReference(v) && DwordAt(doc, addr).Some? ==>
      RendersImmediate(doc, addr, v, v.modifier.on32(DwordAt(doc, addr).value))
    ensures v.length == 8 && !WideIsReference(v) && QwordAt(doc, addr).Some? ==>
      RendersImmediate(doc, addr, v, v.modifier.on64(QwordAt(doc, addr).value))
  {
  }

  /** The word (2-byte) read of a value, when it succeeds. */
  function WordAt(doc: Document, addr: Address): Option<u16>
  {
    match doc.ConvertAddressToFileOffset(addr)
    case None => None
    case Some(off) => doc.stream.readU16(off)
  }

  function DwordAt(doc: Document, addr: Address): Option<u32>
  {
    match doc.ConvertAddressToFileOffset(addr)
    case None => None
    case Some(off) => doc.stream.readU32(off)
  }

  function QwordAt(doc: Document, addr: Address): Option<u64>
  {
    match doc.ConvertAddressToFileOffset(addr)
    case None => None
    case Some(off) => doc.stream.readU64(off)
  }

  /**
   * Under the sub-type codes of this model, the 2-byte reference test accepts the binary,
   * hexadecimal, character and reference bases, and rejects the unknown and decimal ones.
   */
  lemma WordReferenceBases(v: ValueCell)
    requires v.BaseField() <= ValueDetail.ReferenceType
    ensures WordIsReference(v) <==>
      || v.BaseField() == ValueDetail.BinaryType
      || v.BaseField() == ValueDetail.HexadecimalType
      || v.BaseField() == ValueDetail.CharacterType
      || v.BaseField() == ValueDetail.ReferenceType
  {
  }

  /**
   * The reference test differs by width: a base code that shares a bit with the reference
   * code without being equal to it makes a 2-byte value a reference but leaves a 4-byte value
   * an immediate.
   */
  lemma ReferenceTestDiffersByWidth(doc: Document, addr: Address, v: ValueCell)
    requires v.BaseField() & ValueDetail.ReferenceType != 0 && v.BaseField() != ValueDetail.ReferenceType
    ensures v.length == 2 && WordAt(doc, addr).Some? ==>
      ValueRendering(doc, addr, v).tokens[2 + |ModifierTokens(v)|..]
        == ReferenceTokens(doc, addr, v.modifier.on16(WordAt(doc, addr).value))
    ensures v.length == 4 && DwordAt(doc, addr).Some? ==>
      ValueRendering(doc, addr, v).tokens[2 + |ModifierTokens(v)|..]
        == [Immediate(v.modifier.on32(DwordAt(doc, addr).value), 32, ValueBase(v))]
  {
    var head := [Keyword(SizeKeyword(v.length)), Space(1)];
    var off := doc.ConvertAddressToFileOffset(addr);
    if off.Some? && ValueBody(doc, addr, v, off.value).Some? {
      var body := ValueBody(doc, addr, v, off.value).value;
      assert ValueRendering(doc, addr, v).tokens == (head + ModifierTokens(v)) + body;
    }
  }

  // ---- multicells ---------------------------------------------------------------------

  /** A function multicell: the multicell fields and the instruction counter. */
  datatype Function = Function(cell: MultiCell, insnCnt: nat)

  /** A multicell as the formatter receives it: a function, or any other kind of multicell. */
  datatype MultiCellObject = FunctionObject(fn: Function) | OtherObject(other: MultiCell)
  {
    function Base(): MultiCell
    {
      match this
      case FunctionObject(f) => f.cell
      case OtherObject(m) => m
    }
  }

  const HeaderPrefix := "; size="
  const HeaderMiddle := ", insn_cnt="

  /** The first comment of a function: its size and instruction count, or "imported". */
  function FunctionHeader(size: nat, count: nat): string
  {
    if size != 0 && count != 0 then HeaderPrefix + HexText(size) + HeaderMiddle + HexText(count)
    else "; imported"
  }

  /** The displayed name of a function: the label at its address when known, else the recorded name. */
  function FunctionName(doc: Document, addr: Address, fd: FunctionDetail): string
  {
    var l := doc.GetLabelFromAddress(addr);
    if l.kind == Unknown then fd.name else l.name
  }

  /** What `FormatFunction` appends; it always succeeds. */
  function FunctionRendering(doc: Document, addr: Address, f: Function): (r: seq<Token>)
    ensures |r| >= 1 && r[0] == Comment(FunctionHeader(f.cell.GetSize(), f.insnCnt))
    ensures |r| == 1 <==> doc.SignatureAt(addr).None?
  {
    var header := [Comment(FunctionHeader(f.cell.GetSize(), f.insnCnt))];
    match doc.SignatureAt(addr)
    case None => header
    case Some(fd) => header + FunctionSignature(FunctionName(doc, addr, fd), fd)
  }

  /**
   * The labels of a function's rendering: none when no signature is recorded; otherwise the
   * displayed name (the label's name when the address has a known label, else the recorded
   * name) and then the parameter names, in order.
   */
  lemma FunctionRenderingLabels(doc: Document, addr: Address, f: Function)
    ensures doc.SignatureAt(addr).None? ==> Labels(FunctionRendering(doc, addr, f)) == []
    ensures doc.SignatureAt(addr).Some? ==>
      var fd := doc.SignatureAt(addr).value;
      var l := doc.GetLabelFromAddress(addr);
      Labels(FunctionRendering(doc, addr, f))
        == [if l.kind == Unknown then fd.name else l.name] + ParameterNames(fd.parameters)
  {
    var header := [Comment(FunctionHeader(f.cell.GetSize(), f.insnCnt))];
    NoLabels(header);
    if doc.SignatureAt(addr).Some? {
      var fd := doc.SignatureAt(addr).value;
      FunctionSignatureLabels(FunctionName(doc, addr, fd), fd);
      LabelsAppend(header, FunctionSignature(FunctionName(doc, addr, fd), fd));
    }
  }

  /** A function is reported as imported exactly when its size or its instruction count is zero. */
  lemma FunctionImportedIff(size: nat, count: nat)
    ensures FunctionHeader(size, count) == "; imported" <==> size == 0 || count == 0
  {
    if size != 0 && count != 0 {
      assert FunctionHeader(size, count)[2] == 's';
    }
  }

  /** In a + mid + b, where a holds no comma and mid starts with one, the first comma is at |a|. */
  lemma FirstComma(a: string, mid: string, b: string)
    requires ',' !in a && |mid| > 0 && mid[0] == ','
    ensures forall k | 0 <= k < |a| :: (a + mid + b)[k] != ','
    ensures |a| < |a + mid + b| && (a + mid + b)[|a|] == ','
  {
  }

  lemma SplitAtComma(a: string, b: string, a': string, b': string, mid: string)
    requires ',' !in a && ',' !in a' && |mid| > 0 && mid[0] == ','
    requires a + mid + b == a' + mid + b'
    ensures a == a' && b == b'
  {
    FirstComma(a, mid, b);
    FirstComma(a', mid, b');
    assert |a| == |a'|;
    var s := a + mid + b;
    assert a == s[..|a|] == a';
    assert b == s[|a| + |mid|..] == b';
  }

  /** Equal strings with the same prefix have equal remainders. */
  lemma StripPrefix(p: string, x: string, y: string)
    requires p + x == p + y
    ensures x == y
  {
    assert x == (p + x)[|p|..];
    assert y == (p + y)[|p|..];
  }

  /** A header with both counts nonzero is the prefix followed by the two hexadecimal numbers around the middle text. */
  lemma HeaderShape(size: nat, count: nat)
    requires size != 0 && count != 0
    ensures FunctionHeader(size, count) == HeaderPrefix + (HexText(size) + HeaderMiddle + HexText(count))
  {
  }

  /** A function's header comment determines its size and instruction count. */
  lemma FunctionHeaderDeterminesCounts(s1: nat, c1: nat, s2: nat, c2: nat)
    requires s1 != 0 && c1 != 0 && s2 != 0 && c2 != 0
    requires FunctionHeader(s1, c1) == FunctionHeader(s2, c2)
    ensures s1 == s2 && c1 == c2
  {
    var h1, k1, h2, k2 := HexText(s1), HexText(c1), HexText(s2), HexText(c2);
    HeaderShape(s1, c1);
    HeaderShape(s2, c2);
    StripPrefix(HeaderPrefix, h1 + HeaderMiddle + k1, h2 + HeaderMiddle + k2);
    HexTextHasNoComma(s1);
    HexTextHasNoComma(s2);
    SplitAtComma(h1, k1, h2, k2, HeaderMiddle);
    HexTextInjective(s1, s2);
    HexTextInjective(c1, c2);
  }

  /** What `FormatMultiCell` does: only function multicells are formatted; every other type fails and appends nothing. */
  function MultiCellRendering(doc: Document, addr: Address, obj: MultiCellObject): (r: Rendering)
    requires obj.Base().GetType() == FunctionType.Code() ==> obj.FunctionObject?
    ensures r.ok <==> obj.Base().GetType() == FunctionType.Code()
    ensures !r.ok ==> r.tokens == []
    ensures r.ok ==> |r.tokens| >= 1 && r.tokens[0] == Comment(FunctionHeader(obj.Base().GetSize(), obj.fn.insnCnt))
  {
    if obj.Base().GetType() == FunctionType.Code() then Rendering(true, FunctionRendering(doc, addr, obj.fn))
    else Rendering(false, [])
  }

  /** The comment of a structure: a placeholder name and its size in hexadecimal. */
  function StructureComment(st: MultiCell): string
  {
    "; <structure_name>: size=" + HexText(st.GetSize())
  }

  /** A structure's comment determines its size. */
  lemma StructureCommentDeterminesSize(s1: MultiCell, s2: MultiCell)
    ensures StructureComment(s1) == StructureComment(s2) ==> s1.GetSize() == s2.GetSize()
  {
    var pre := "; <structure_name>: size=";
    if StructureComment(s1) == StructureComment(s2) {
      assert HexText(s1.GetSize()) == StructureComment(s1)[|pre|..];
      assert HexText(s2.GetSize()) == StructureComment(s2)[|pre|..];
      HexTextInjective(s1.GetSize(), s2.GetSize());
    }
  }

  // ---- cells --------------------------------------------------------------------------

  /** What `FormatCell` does: dispatch on the cell's type; any other type fails and appends nothing. */
  function CellRendering(arch: Architecture, doc: Document, addr: Address, cell: Cell, columns: CommentColumns): (r: Rendering)
    ensures cell.OtherType? ==> r == Rendering(false, [])
    ensures cell.InstructionType? ==> |r.tokens| >= 1 && r.tokens[0] == Mnemonic(cell.insn.name)
    ensures cell.ValueType? ==> |r.tokens| >= 1 && r.tokens[0] == Keyword(SizeKeyword(cell.value.length))
  {
    match cell
    case InstructionType(insn) => InstructionRendering(arch, doc, addr, insn, columns)
    case ValueType(v) => ValueRendering(doc, addr, v)
    case CharacterType(c) => CharacterRendering(doc, addr, c)
    case StringType(s) => StringRendering(doc, addr, s)
    case OtherType(_) => Rendering(false, [])
  }
}
