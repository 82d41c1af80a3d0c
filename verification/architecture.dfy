/**
 * The architecture's formatters as the step-by-step procedures they are: each appends to a
 * print sink and reports success, and each is proved to append exactly the tokens its
 * rendering function in module Formatting describes, with the same verdict.
 */
module Architectures {
  import opened Types
  import opened Documents
  import opened Cells
  import opened Printing
  import opened Signatures
  import opened TextFormat
  import opened MultiCells
  import opened Formatting
  import ValueDetail

  /**
   * The code of the first mode whose name is the given name, or 0 when no mode has that
   * name.
   */
  method GetModeByName(arch: Architecture, name: string) returns (code: u8)
    ensures (exists k | 0 <= k < |arch.modes| :: arch.modes[k].0 == name) ==>
      exists k | 0 <= k < |arch.modes| ::
        && arch.modes[k].0 == name && code == arch.modes[k].1
        && forall j | 0 <= j < k :: arch.modes[j].0 != name
    ensures (forall k | 0 <= k < |arch.modes| :: arch.modes[k].0 != name) ==> code == 0
  {
    var i := 0;
    while i < |arch.modes|
      invariant 0 <= i <= |arch.modes|
      invariant forall j | 0 <= j < i :: arch.modes[j].0 != name
    {
      if arch.modes[i].0 == name {
        return arch.modes[i].1;
      }
      i := i + 1;
    }
    return 0;
  }

  /** Appends a type: the tag keyword of classes, enums and structures, the name, then `*` or `&`. */
  method FormatType(t: TypeDetail, pd: PrintData) returns (ok: bool)
    modifies pd
    ensures pd.tokens == old(pd.tokens) + TypeTokens(t) && ok
  {
    match t.kind {
      case ClassType => pd.AppendKeyword("class"); pd.AppendSpace();
      case EnumType => pd.AppendKeyword("enum"); pd.AppendSpace();
      case StructureType => pd.AppendKeyword("struct"); pd.AppendSpace();
      case _ =>
    }
    pd.AppendKeyword(t.name);
    match t.kind {
      case PointerType => pd.AppendOperator("*"); pd.AppendSpace();
      case ReferenceType => pd.AppendOperator("&"); pd.AppendSpace();
      case _ =>
    }
    ok := true;
  }

  /** The appends of a formatter, regrouped: appending a piece to what was appended so far. */
  lemma Grow(start: seq<Token>, acc: seq<Token>, piece: seq<Token>)
    ensures start + acc + piece == start + (acc + piece)
  {
  }

  /** Appends one parameter: its type, a space and its name as a label. */
  method AppendParameter(p: TypedValue, pd: PrintData)
    modifies pd
    ensures pd.tokens == old(pd.tokens) + ParamTokens(p)
  {
    ghost var start := pd.tokens;
    var _ := FormatType(p.typ, pd);
    pd.AppendSpace();
    pd.AppendLabel(p.name);
    Grow(start, TypeTokens(p.typ), [Space(1), Label(p.name)]);
  }

  /** The parameter loop both signature writers share: every parameter but the first is preceded by sep. */
  method AppendParameters(ps: seq<TypedValue>, sep: seq<Token>, pd: PrintData)
    modifies pd
    ensures pd.tokens == old(pd.tokens) + JoinParams(ps, sep)
  {
    ghost var start := pd.tokens;
    var firstParam := true;
    var i := 0;
    while i < |ps|
      invariant 0 <= i <= |ps|
      invariant firstParam <==> i == 0
      invariant pd.tokens == start + JoinParams(ps[..i], sep)
    {
      ghost var acc := JoinParams(ps[..i], sep);
      ghost var lead: seq<Token> := if i == 0 then [] else sep;
      if firstParam {
        firstParam := false;
      } else {
        pd.AppendTokens(sep);
      }
      assert pd.tokens == start + acc + lead;
      AppendParameter(ps[i], pd);
      Grow(start, acc, lead);
      Grow(start, acc + lead, ParamTokens(ps[i]));
      assert ps[..i + 1][..i] == ps[..i];
      assert JoinParams(ps[..i + 1], sep) == acc + lead + ParamTokens(ps[i]);
      i := i + 1;
    }
    assert ps[..i] == ps;
  }

  /** Appends a function's name as a label, preceded by a space and followed by the opening parenthesis. */
  method AppendNameOpener(name: string, pd: PrintData)
    modifies pd
    ensures pd.tokens == old(pd.tokens) + NameOpener(name)
  {
    pd.AppendSpace();
    pd.AppendLabel(name);
    pd.AppendOperator("(");
  }

  /** Appends the comment line break that precedes a parameter of an operand's signature comment. */
  method AppendCommentLineBreak(cmtOff: nat, pd: PrintData)
    modifies pd
    ensures pd.tokens == old(pd.tokens) + CommentLineBreak(cmtOff)
  {
    pd.AppendNewLine();
    pd.AppendSpace(cmtOff);
    pd.AppendComment(";");
    pd.AppendSpace(3);
  }

  /** Appends the signature comment of an operand's referenced function. */
  method AppendInstructionSignature(fd: FunctionDetail, cmtOff: nat, pd: PrintData)
    modifies pd
    ensures pd.tokens == old(pd.tokens) + InstructionSignature(fd, cmtOff)
  {
    ghost var start := pd.tokens;
    pd.AppendSpace();
    pd.AppendComment(";");
    pd.AppendSpace();
    ghost var acc := CommentOpener;
    assert pd.tokens == start + acc;
    var _ := FormatType(fd.returnType, pd);
    Grow(start, acc, TypeTokens(fd.returnType));
    acc := acc + TypeTokens(fd.returnType);
    AppendNameOpener(fd.name, pd);
    Grow(start, acc, NameOpener(fd.name));
    acc := acc + NameOpener(fd.name);
    ghost var lineBreak: seq<Token> := if |fd.parameters| > 0 then CommentLineBreak(cmtOff) else [];
    if |fd.parameters| > 0 {
      AppendCommentLineBreak(cmtOff, pd);
    }
    assert pd.tokens == start + acc + lineBreak;
    Grow(start, acc, lineBreak);
    acc := acc + lineBreak;
    AppendParameters(fd.parameters, CommentParamSeparator(cmtOff), pd);
    Grow(start, acc, JoinParams(fd.parameters, CommentParamSeparator(cmtOff)));
    acc := acc + JoinParams(fd.parameters, CommentParamSeparator(cmtOff));
    pd.AppendOperator(");");
    Grow(start, acc, SignatureCloser);
  }

  /** The operand formatter of the architecture: what it emits is appended as is. */
  method FormatOperand(arch: Architecture, doc: Document, addr: Address, insn: Instruction, op: Operand, i: nat, pd: PrintData)
    returns (ok: bool)
    modifies pd
    ensures pd.tokens == old(pd.tokens) + arch.formatOperand(doc, addr, insn, op, i).tokens
    ensures ok == arch.formatOperand(doc, addr, insn, op, i).ok
  {
    var f := arch.formatOperand(doc, addr, insn, op, i);
    pd.AppendTokens(f.tokens);
    ok := f.ok;
  }

  /**
   * After an operand, when the address has no comment of its own and the operand refers to
   * an address whose detail id and function detail both resolve, the signature comment.
   */
  method AppendReferenceComment(doc: Document, addr: Address, op: Operand, opRefCmt: string, cmtOff: nat, pd: PrintData)
    requires opRefCmt == doc.GetComment(addr)
    modifies pd
    ensures pd.tokens == old(pd.tokens) + ReferenceComment(doc, addr, op, cmtOff)
  {
    if opRefCmt == "" && op.reference.Some? {
      var id := doc.RetrieveDetailId(op.reference.value);
      if id.Some? {
        var fd := doc.GetFunctionDetail(id.value);
        if fd.Some? {
          AppendInstructionSignature(fd.value, cmtOff, pd);
        }
      }
    }
  }

  /**
   * One turn of the operand loop on a present operand: the operand, then, when it was
   * formatted, its reference comment.
   */
  method FormatOperandAndReference(arch: Architecture, doc: Document, addr: Address, insn: Instruction, opRefCmt: string,
                                   columns: CommentColumns, i: nat, pd: PrintData) returns (ok: bool)
    requires Present(insn, i) && opRefCmt == doc.GetComment(addr)
    modifies pd
    ensures ok == OperandFormatted(arch, doc, addr, insn, i)
    ensures var op := insn.operands[i].value;
      var f := arch.formatOperand(doc, addr, insn, op, i).tokens;
      pd.tokens == old(pd.tokens) + (if ok then f + ReferenceComment(doc, addr, op, columns(i)) else f)
  {
    ghost var start := pd.tokens;
    var op := insn.operands[i].value;
    ok := FormatOperand(arch, doc, addr, insn, op, i, pd);
    if ok {
      ghost var f := arch.formatOperand(doc, addr, insn, op, i).tokens;
      AppendReferenceComment(doc, addr, op, opRefCmt, columns(i), pd);
      Grow(start, f, ReferenceComment(doc, addr, op, columns(i)));
    }
  }

  /**
   * Appends the mnemonic, then each operand in slot order until a null or O_NONE slot; an
   * operand whose formatter fails ends the call with failure. When the address has no
   * comment, an operand that refers to a function with a recorded signature is followed by
   * that signature as a comment. No separator is ever put between two operands.
   */
  method FormatInstruction(arch: Architecture, doc: Document, addr: Address, insn: Instruction, columns: CommentColumns, pd: PrintData)
    returns (ok: bool)
    modifies pd
    ensures pd.tokens == old(pd.tokens) + InstructionRendering(arch, doc, addr, insn, columns).tokens
    ensures ok == InstructionRendering(arch, doc, addr, insn, columns).ok
  {
    ghost var start := pd.tokens;
    ghost var whole := InstructionRendering(arch, doc, addr, insn, columns);
    pd.AppendMnemonic(insn.name);
    var opRefCmt := doc.GetComment(addr);
    ghost var done: seq<Token> := [Mnemonic(insn.name)];
    var i := 0;
    while i < |insn.operands|
      invariant 0 <= i <= |insn.operands|
      invariant pd.tokens == start + done
      invariant done + OperandsFrom(arch, doc, addr, insn, columns, i).tokens == whole.tokens
      invariant OperandsFrom(arch, doc, addr, insn, columns, i).ok == whole.ok
      decreases |insn.operands| - i
    {
      if insn.operands[i].None? || insn.operands[i].value.typ == O_NONE {
        break;
      }
      var formatted := FormatOperandAndReference(arch, doc, addr, insn, opRefCmt, columns, i, pd);
      if !formatted {
        OperandsFromFails(arch, doc, addr, insn, columns, i);
        return false;
      }
      OperandsFromContinues(arch, doc, addr, insn, columns, i);
      ghost var op := insn.operands[i].value;
      ghost var step := arch.formatOperand(doc, addr, insn, op, i).tokens + ReferenceComment(doc, addr, op, columns(i));
      Grow(start, done, step);
      Grow(done, step, OperandsFrom(arch, doc, addr, insn, columns, i + 1).tokens);
      done := done + step;
      i := i + 1;
    }
    OperandsFromStops(arch, doc, addr, insn, columns, i);
    assert done + [] == done;
    return true;
  }

  /** The characters of a text escaped one by one with the string table. */
  method EscapeText(s: string) returns (fmt: string)
    ensures fmt == Escape(s)
  {
    fmt := "";
    var i := 0;
    while i < |s|
      invariant 0 <= i <= |s|
      invariant fmt == Escape(s[..i])
    {
      var c := s[i];
      if c == 0 as char { fmt := fmt + "\\0"; }
      else if c == '\\' { fmt := fmt + "\\\\"; }
      else if c == 7 as char { fmt := fmt + "\\a"; }
      else if c == 8 as char { fmt := fmt + "\\b"; }
      else if c == 9 as char { fmt := fmt + "\\t"; }
      else if c == 10 as char { fmt := fmt + "\\n"; }
      else if c == 11 as char { fmt := fmt + "\\v"; }
      else if c == 12 as char { fmt := fmt + "\\f"; }
      else if c == 13 as char { fmt := fmt + "\\r"; }
      else { fmt := fmt + [c]; }
      EscapeAppend(s[..i], [c]);
      assert Escape([c]) == EscapeChar(c) + Escape([]);
      assert s[..i + 1] == s[..i] + [c];
      i := i + 1;
    }
    assert s[..i] == s;
  }

  /** Reads one byte at the address and appends it as a character, escaped with the character-cell table. */
  method FormatCharacter(doc: Document, addr: Address, c: CharacterCell, pd: PrintData) returns (ok: bool)
    modifies pd
    ensures pd.tokens == old(pd.tokens) + CharacterRendering(doc, addr, c).tokens
    ensures ok == CharacterRendering(doc, addr, c).ok
  {
    var off := doc.ConvertAddressToFileOffset(addr);
    if off.None? {
      return false;
    }
    var ch := doc.stream.readU8(off.value);
    if ch.None? {
      return false;
    }
    var text: string;
    var b := ch.value as char;
    if b == 0 as char { text := "\\0"; }
    else if b == 7 as char { text := "\\a"; }
    else if b == 8 as char { text := "\\b"; }
    else if b == 9 as char { text := "\\t"; }
    else if b == 10 as char { text := "\\n"; }
    else if b == 11 as char { text := "\\v"; }
    else if b == 12 as char { text := "\\f"; }
    else if b == 13 as char { text := "\\r"; }
    else { text := [b]; }
    pd.AppendCharacter(text);
    return true;
  }

  /**
   * Reads the string's bytes, converts them with its trait and appends the escaped text
   * between double quotes, preceded by `L` for a UTF-16 string.
   */
  method FormatString(doc: Document, addr: Address, s: StringCell, pd: PrintData) returns (ok: bool)
    modifies pd
    ensures pd.tokens == old(pd.tokens) + StringRendering(doc, addr, s).tokens
    ensures ok == StringRendering(doc, addr, s).ok
  {
    if s.encoding.None? {
      return false;
    }
    var off := doc.ConvertAddressToFileOffset(addr);
    if off.None? {
      return false;
    }
    var buf := doc.stream.readBytes(off.value, s.length);
    if buf.None? {
      return false;
    }
    var orgStr := s.encoding.value.convertToUtf8(buf.value);
    if orgStr == [] {
      return false;
    }
    if s.subType == Utf16Type {
      pd.AppendKeyword("L");
    }
    pd.AppendOperator("\"");
    var fmtStr := EscapeText(orgStr);
    pd.AppendString(fmtStr);
    pd.AppendOperator("\"");
    return true;
  }

  /** Appends a reference: the label of the target when known, else the target address. */
  method AppendReference(doc: Document, addr: Address, data: nat, pd: PrintData)
    modifies pd
    ensures pd.tokens == old(pd.tokens) + ReferenceTokens(doc, addr, data)
  {
    var target := addr.WithOffset(data);
    var lbl := doc.GetLabelFromAddress(target);
    if lbl.kind != Unknown {
      pd.AppendLabel(doc.labelText(lbl));
    } else {
      pd.AppendAddress(target);
    }
  }

  /** Appends the size keyword of a value's length and a space. */
  method AppendSizeKeyword(length: nat, pd: PrintData)
    modifies pd
    ensures pd.tokens == old(pd.tokens) + [Keyword(SizeKeyword(length)), Space(1)]
  {
    if length == 1 { pd.AppendKeyword("db"); }
    else if length == 2 { pd.AppendKeyword("dw"); }
    else if length == 4 { pd.AppendKeyword("dd"); }
    else if length == 8 { pd.AppendKeyword("dq"); }
    else { pd.AppendKeyword("d?"); }
    pd.AppendSpace();
  }

  /** Appends `~` for the not modifier, `-` for the negate modifier, and nothing otherwise. */
  method AppendModifier(v: ValueCell, valueModifier: bv8, pd: PrintData)
    requires valueModifier == v.ModifierField()
    modifies pd
    ensures pd.tokens == old(pd.tokens) + ModifierTokens(v)
  {
    if valueModifier == ValueDetail.NotType { pd.AppendOperator("~"); }
    else if valueModifier == ValueDetail.NegateType { pd.AppendOperator("-"); }
  }

  /** Reads one byte; appends it as a quoted character for the character base, else as an 8-bit immediate. */
  method FormatByteData(doc: Document, addr: Address, v: ValueCell, off: Offset, valueType: bv8, base: nat, pd: PrintData)
    returns (ok: bool)
    requires v.length == 1 && valueType == v.BaseField() && base == ValueBase(v)
    modifies pd
    ensures ok == ValueBody(doc, addr, v, off).Some?
    ensures pd.tokens == old(pd.tokens) + (if ok then ValueBody(doc, addr, v, off).value else [])
  {
    var d := doc.stream.readU8(off);
    if d.None? {
      return false;
    }
    var data := v.modifier.on8(d.value);
    if valueType == ValueDetail.CharacterType {
      var fmtChr := EscapeText([data as char]);
      assert Escape([data as char]) == EscapeChar(data as char) + Escape([]);
      assert fmtChr == EscapeChar(data as char);
      pd.AppendOperator("'");
      pd.AppendCharacter(fmtChr);
      pd.AppendOperator("'");
      assert ValueBody(doc, addr, v, off) == Some([Operator("'"), Character(fmtChr), Operator("'")]);
    } else {
      pd.AppendImmediate(data, 8, base);
      assert ValueBody(doc, addr, v, off) == Some([Immediate(data, 8, base)]);
    }
    return true;
  }

  /** Reads a word; appends it as a reference when its base code shares a bit with the reference code, else as a 16-bit immediate. */
  method FormatWordData(doc: Document, addr: Address, v: ValueCell, off: Offset, valueType: bv8, base: nat, pd: PrintData)
    returns (ok: bool)
    requires v.length == 2 && valueType == v.BaseField() && base == ValueBase(v)
    modifies pd
    ensures ok == ValueBody(doc, addr, v, off).Some?
    ensures pd.tokens == old(pd.tokens) + (if ok then ValueBody(doc, addr, v, off).value else [])
  {
    var d := doc.stream.readU16(off);
    if d.None? {
      return false;
    }
    var data := v.modifier.on16(d.value);
    if valueType & ValueDetail.ReferenceType != 0 {
      AppendReference(doc, addr, data, pd);
    } else {
      pd.AppendImmediate(data, 16, base);
    }
    return true;
  }

  /** Reads a double word; appends it as a reference when its base code is the reference code, else as a 32-bit immediate. */
  method FormatDwordData(doc: Document, addr: Address, v: ValueCell, off: Offset, valueType: bv8, base: nat, pd: PrintData)
    returns (ok: bool)
    requires v.length == 4 && valueType == v.BaseField() && base == ValueBase(v)
    modifies pd
    ensures ok == ValueBody(doc, addr, v, off).Some?
    ensures pd.tokens == old(pd.tokens) + (if ok then ValueBody(doc, addr, v, off).value else [])
  {
    var d := doc.stream.readU32(off);
    if d.None? {
      return false;
    }
    var data := v.modifier.on32(d.value);
    if valueType == ValueDetail.ReferenceType {
      AppendReference(doc, addr, data, pd);
    } else {
      pd.AppendImmediate(data, 32, base);
    }
    return true;
  }

  /** Reads a quad word; appends it as a reference when its base code is the reference code, else as a 64-bit immediate. */
  method FormatQwordData(doc: Document, addr: Address, v: ValueCell, off: Offset, valueType: bv8, base: nat, pd: PrintData)
    returns (ok: bool)
    requires v.length == 8 && valueType == v.BaseField() && base == ValueBase(v)
    modifies pd
    ensures ok == ValueBody(doc, addr, v, off).Some?
    ensures pd.tokens == old(pd.tokens) + (if ok then ValueBody(doc, addr, v, off).value else [])
  {
    var d := doc.stream.readU64(off);
    if d.None? {
      return false;
    }
    var data := v.modifier.on64(d.value);
    if valueType == ValueDetail.ReferenceType {
      AppendReference(doc, addr, data, pd);
    } else {
      pd.AppendImmediate(data, 64, base);
    }
    return true;
  }

  /**
   * The part of `FormatValue` after the address resolved to a file offset: the modifier
   * operator, then the data read at the value's width.
   */
  method FormatValueData(doc: Document, addr: Address, v: ValueCell, off: Offset, valueModifier: bv8, valueType: bv8, pd: PrintData)
    returns (ok: bool)
    requires valueModifier == v.ModifierField() && valueType == v.BaseField()
    modifies pd
    ensures ok == ValueBody(doc, addr, v, off).Some?
    ensures pd.tokens == old(pd.tokens) + ModifierTokens(v) + (if ok then ValueBody(doc, addr, v, off).value else [])
  {
    var base: nat;
    if valueType == ValueDetail.BinaryType { base := 2; }
    else if valueType == ValueDetail.DecimalType { base := 10; }
    else { base := 16; }
    AppendModifier(v, valueModifier, pd);
    if v.length == 1 {
      ok := FormatByteData(doc, addr, v, off, valueType, base, pd);
    } else if v.length == 2 {
      ok := FormatWordData(doc, addr, v, off, valueType, base, pd);
    } else if v.length == 4 {
      ok := FormatDwordData(doc, addr, v, off, valueType, base, pd);
    } else if v.length == 8 {
      ok := FormatQwordData(doc, addr, v, off, valueType, base, pd);
    } else {
      ok := false;
    }
  }

  /**
   * Appends the size keyword; at an unmapped address `(?)` and success; otherwise the
   * modifier operator, then the data read at the value's width as an immediate, a quoted
   * character or a reference. An unsupported length or a failed read ends with failure.
   */
  method FormatValue(doc: Document, addr: Address, v: ValueCell, pd: PrintData) returns (ok: bool)
    modifies pd
    ensures pd.tokens == old(pd.tokens) + ValueRendering(doc, addr, v).tokens
    ensures ok == ValueRendering(doc, addr, v).ok
  {
    ghost var start := pd.tokens;
    var valueModifier := v.subType & ValueDetail.ModifierMask;
    var valueType := v.subType & ValueDetail.BaseMask;
    AppendSizeKeyword(v.length, pd);
    ghost var head := [Keyword(SizeKeyword(v.length)), Space(1)];
    var off := doc.ConvertAddressToFileOffset(addr);
    if off.None? {
      pd.AppendOperator("(?)");
      return true;
    }
    ok := FormatValueData(doc, addr, v, off.value, valueModifier, valueType, pd);
    ghost var body := if ok then ValueBody(doc, addr, v, off.value).value else [];
    Grow(start, head, ModifierTokens(v));
    Grow(start, head + ModifierTokens(v), body);
    assert !ok ==> head + ModifierTokens(v) + body == head + ModifierTokens(v);
  }

  /** Appends a function's header comment: its size and instruction count in hexadecimal, or "imported". */
  method AppendFunctionHeader(size: nat, count: nat, pd: PrintData)
    modifies pd
    ensures pd.tokens == old(pd.tokens) + [Comment(FunctionHeader(size, count))]
  {
    if size != 0 && count != 0 {
      pd.AppendComment("; size=" + HexText(size) + ", insn_cnt=" + HexText(count));
    } else {
      pd.AppendComment("; imported");
    }
  }

  /** Appends the signature line under a function header, with the parameters joined by ", ". */
  method AppendFunctionSignature(name: string, fd: FunctionDetail, pd: PrintData)
    modifies pd
    ensures pd.tokens == old(pd.tokens) + FunctionSignature(name, fd)
  {
    ghost var start := pd.tokens;
    pd.AppendNewLine();
    pd.AppendSpace(2);
    pd.AppendComment(";");
    pd.AppendSpace();
    ghost var acc := FunctionSignatureOpener;
    assert pd.tokens == start + acc;
    var _ := FormatType(fd.returnType, pd);
    Grow(start, acc, TypeTokens(fd.returnType));
    acc := acc + TypeTokens(fd.returnType);
    AppendNameOpener(name, pd);
    Grow(start, acc, NameOpener(name));
    acc := acc + NameOpener(name);
    AppendParameters(fd.parameters, FunctionParamSeparator, pd);
    Grow(start, acc, JoinParams(fd.parameters, FunctionParamSeparator));
    acc := acc + JoinParams(fd.parameters, FunctionParamSeparator);
    pd.AppendOperator(");");
    Grow(start, acc, SignatureCloser);
  }

  /**
   * Appends a function's header comment, then, when the document records a signature for
   * the address, the signature on its own line under the label's name (the recorded name
   * when the address has no known label); it always succeeds.
   */
  method FormatFunction(doc: Document, addr: Address, f: Function, pd: PrintData) returns (ok: bool)
    modifies pd
    ensures pd.tokens == old(pd.tokens) + FunctionRendering(doc, addr, f) && ok
  {
    ghost var start := pd.tokens;
    AppendFunctionHeader(f.cell.GetSize(), f.insnCnt, pd);
    ghost var header := [Comment(FunctionHeader(f.cell.GetSize(), f.insnCnt))];
    var curId := doc.RetrieveDetailId(addr);
    if curId.None? {
      return true;
    }
    var funcDtl := doc.GetFunctionDetail(curId.value);
    if funcDtl.None? {
      return true;
    }
    var funcName: string;
    var curLbl := doc.GetLabelFromAddress(addr);
    if curLbl.kind == Unknown {
      funcName := funcDtl.value.name;
    } else {
      funcName := curLbl.name;
    }
    AppendFunctionSignature(funcName, funcDtl.value, pd);
    Grow(start, header, FunctionSignature(funcName, funcDtl.value));
    return true;
  }

  /** Formats a multicell: a function multicell through `FormatFunction`; any other type fails. */
  method FormatMultiCell(doc: Document, addr: Address, obj: MultiCellObject, pd: PrintData) returns (ok: bool)
    requires obj.Base().GetType() == FunctionType.Code() ==> obj.FunctionObject?
    modifies pd
    ensures pd.tokens == old(pd.tokens) + MultiCellRendering(doc, addr, obj).tokens
    ensures ok == MultiCellRendering(doc, addr, obj).ok
  {
    if obj.Base().GetType() == FunctionType.Code() {
      ok := FormatFunction(doc, addr, obj.fn, pd);
    } else {
      ok := false;
    }
  }

  /** Appends a structure's comment, a placeholder name and its size; it always succeeds. */
  method FormatStructure(doc: Document, addr: Address, st: MultiCell, pd: PrintData) returns (ok: bool)
    modifies pd
    ensures pd.tokens == old(pd.tokens) + [Comment(StructureComment(st))] && ok
  {
    pd.AppendComment("; <structure_name>: size=" + HexText(st.GetSize()));
    return true;
  }

  /** Formats a cell by its type; a cell of any other type fails and appends nothing. */
  method FormatCell(arch: Architecture, doc: Document, addr: Address, cell: Cell, columns: CommentColumns, pd: PrintData)
    returns (ok: bool)
    modifies pd
    ensures pd.tokens == old(pd.tokens) + CellRendering(arch, doc, addr, cell, columns).tokens
    ensures ok == CellRendering(arch, doc, addr, cell, columns).ok
  {
    match cell {
      case InstructionType(insn) => ok := FormatInstruction(arch, doc, addr, insn, columns, pd);
      case ValueType(v) => ok := FormatValue(doc, addr, v, pd);
      case CharacterType(c) => ok := FormatCharacter(doc, addr, c, pd);
      case StringType(s) => ok := FormatString(doc, addr, s, pd);
      case OtherType(_) => ok := false;
    }
  }
}
