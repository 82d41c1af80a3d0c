# medusa rendering layer, in Dafny

This project models the architecture-independent rendering layer of the medusa interactive
disassembler (`src/core/architecture.cpp`), together with the multicell record it renders
(`inc/medusa/multicell.hpp`).

An `Architecture` turns what the disassembler has decoded into an ordered stream of typed
print tokens: keywords, operators, spaces, line breaks, comments, labels, addresses,
characters, strings, mnemonics and immediates. It covers:

- instructions: the mnemonic, the operands, and an optional signature comment for an operand
  that refers to a known function;
- data values, single characters and strings;
- function and structure multicells;
- the lookup of a mode code by name, and the rendering of a type.

The model has two layers.

1. **Rendering functions** (modules `Formatting` and `Signatures`). For each formatter, a
   function of the document, the address and the cell gives the formatter's verdict and the
   tokens it appends. These functions are the model's reference definitions; the lemmas about
   them state what the rendering means: round trips, failure conditions, layout, labels.
2. **Imperative formatters** (module `Architectures`). The formatters work the way the source
   does: methods that append to a `PrintData` sink (a class whose `tokens` field only grows)
   and loop over operands, parameters and characters. Each is proved to append exactly the
   tokens of its rendering function and to return the same verdict.

Other modules:

- `Documents`: the document as one immutable value answering the queries the formatters make
  (file offsets, reads, labels, comments, detail ids and function details).
- `Cells`: the cell kinds.
- `TextFormat`: the two escape tables, and numbers printed as `std::hex << std::showbase`
  prints them.
- `Layouts`: the labels and the chosen-token occurrences of a token stream.
- `MultiCells`: the multicell record.

Behaviour worth noting:

- No separator is ever put between two operands. `Sep` starts as `'\0'` and is never assigned
  (architecture.cpp:61, :76), so no `", "` appears between operands.
- The signature comment follows every operand that refers to a function with a recorded
  signature, not only the last such operand, and only when the instruction's address carries
  no comment.
- A function is reported as imported when its size **or** its instruction count is zero, not
  only when both are zero.
- A function's signature line keeps all its parameters on one line, joined by `, `. Only the
  signature comment after an instruction operand puts each parameter on its own line.
- A value renders as a reference because of its sub-type, not because a label resolves. A
  reference whose target has no label renders as the target address.
- The reference test differs by width. A 2-byte value is a reference when its base code
  shares a bit with the reference code; a 4- or 8-byte value only when the base code equals
  it.
- The structure comment is `; <structure_name>: size=<hex>`.

## Model

| member | source | states |
|---|---|---|
| Architectures.GetModeByName | src/core/architecture.cpp:10-17 | the result is the code of the first mode whose name matches, and 0 when no mode matches |
| Architectures.FormatType | src/core/architecture.cpp:19-37 | always succeeds, and appends exactly the type's tokens: tag keyword and space, name, then `*`/`&` and space |
| Signatures.TypeTokens | src/core/architecture.cpp:19-37 | a rendered type has 1 token, or 3 exactly when the kind is decorated, and its name keyword sits after the tag |
| Signatures.TypeTokensRoundTrip | src/core/architecture.cpp:19-37 | a rendered type reads back to the type, so different types never render alike |
| Formatting.CellRendering | src/core/architecture.cpp:39-53 | a cell of an unlisted type fails and appends nothing; an instruction starts with its mnemonic, a value with its size keyword |
| Architectures.FormatCell | src/core/architecture.cpp:39-53 | dispatches on the cell type, and appends and returns what the cell's rendering says |
| Formatting.InstructionRendering | src/core/architecture.cpp:55-118 | the first token of an instruction is its mnemonic |
| Architectures.FormatInstruction | src/core/architecture.cpp:55-118 | the operand loop appends the mnemonic, then operands in slot order up to the first null or O_NONE slot, stopping with failure at the first operand that fails, each formatted operand followed by its signature comment at that slot's own comment column; it returns the rendering's verdict |
| Architectures.FormatOperandAndReference | src/core/architecture.cpp:79-114 | one turn of the operand loop: the operand's tokens, then its reference comment only when the operand was formatted |
| Architectures.AppendReferenceComment | src/core/architecture.cpp:82-114 | the signature comment is appended only when the address has no comment and the operand's reference, detail id and function detail all resolve |
| Formatting.OperandsFromOk | src/core/architecture.cpp:68-80 | the operand loop from a slot succeeds exactly when every operand it visits is formatted |
| Formatting.InstructionOkIff | src/core/architecture.cpp:68-80 | an instruction succeeds exactly when the formatter succeeds on every operand before the first absent slot |
| Formatting.OperandsFromCommas | src/core/architecture.cpp:61-114 | from any slot on, every comma the loop emits lies in a visited operand's tokens or in its signature comment, and when the loop succeeds every such comma is emitted: the loop adds no separator of its own |
| Formatting.InstructionCommas | src/core/architecture.cpp:55-118 | a comma appears in an instruction's tokens only from an operand or its signature comment, and on success every such comma appears |
| Formatting.CommentedInstructionHasNoComma | src/core/architecture.cpp:61-114 | at an address that carries a comment, comma-free operands give an instruction without any comma |
| Formatting.BaseInstructionRendering | src/core/architecture.cpp:120-130 | with the base operand formatter an instruction renders as its mnemonic alone, and succeeds only when it has no operand |
| Architectures.FormatOperand | src/core/architecture.cpp:120-130 | appends exactly what the architecture's operand formatter emits, and returns its verdict |
| Architectures.AppendInstructionSignature | src/core/architecture.cpp:92-111 | appends exactly the instruction signature comment |
| Architectures.AppendParameters | src/core/architecture.cpp:101-110 | the FirstParam loop appends the parameters joined by the separator |
| Architectures.AppendParameter | src/core/architecture.cpp:108-109 | one parameter: its type, a space and its name as a label |
| Architectures.AppendNameOpener | src/core/architecture.cpp:96 | a space, the name as a label, and `(` |
| Architectures.AppendCommentLineBreak | src/core/architecture.cpp:98-99 | a line break, the comment column, `;` and three spaces |
| Signatures.JoinParamsLabels | src/core/architecture.cpp:101-110 | the labels of a joined parameter list are exactly the parameter names, in order |
| Signatures.JoinParamsCount | src/core/architecture.cpp:101-110 | line breaks and commas in a joined list come only from the separators, one between each two parameters |
| Signatures.InstructionSignatureLabels | src/core/architecture.cpp:92-111 | the labels of the signature comment are the function name, then the parameter names |
| Signatures.InstructionSignatureCount | src/core/architecture.cpp:92-111 | only the optional first line break and the joined parameters contribute line breaks or commas |
| Signatures.InstructionSignatureLines | src/core/architecture.cpp:98-107 | the signature comment holds one line break per parameter and one comma between each two |
| Formatting.CharacterRendering | src/core/architecture.cpp:133-170 | fails with nothing appended exactly when the byte cannot be read; otherwise one character token that reads back to the byte |
| Architectures.FormatCharacter | src/core/architecture.cpp:133-170 | appends and returns what the character's rendering says |
| TextFormat.CharacterRoundTrip | src/core/architecture.cpp:154-165 | the character-cell text of a byte reads back to the byte |
| TextFormat.CharacterEscapeVersusEscapeChar | src/core/architecture.cpp:154-165 | the character-cell table and the string table agree except on the backslash, which only strings escape |
| Formatting.StringRendering | src/core/architecture.cpp:172-229 | on success: `L` exactly for UTF-16, then a quote, the escaped text that unescapes to the decoded text, and a quote; on failure nothing |
| Formatting.StringFailures | src/core/architecture.cpp:183-199 | a string fails exactly when the trait is null, the address unmapped, the read short or the decoded text empty |
| Architectures.FormatString | src/core/architecture.cpp:172-229 | appends and returns what the string's rendering says |
| Architectures.EscapeText | src/core/architecture.cpp:207-224 | the character loop builds exactly the string-table escape of the text |
| TextFormat.EscapeAppend | src/core/architecture.cpp:209-224 | escaping distributes over concatenation |
| TextFormat.UnescapeEscape | src/core/architecture.cpp:209-224 | unescaping undoes escaping |
| TextFormat.EscapeInjective | src/core/architecture.cpp:209-224 | different texts never escape to the same text |
| TextFormat.EscapeLength | src/core/architecture.cpp:209-224 | the escaped text is between one and two times as long as the text |
| TextFormat.EscapeCharShape | src/core/architecture.cpp:211-223 | each character escapes to itself, or to a backslash and a letter when it is special |
| TextFormat.LetterValueInvertsEscapeLetter | src/core/architecture.cpp:211-223 | every escape letter reads back to the character it stands for |
| Formatting.ValueRendering | src/core/architecture.cpp:231-439 | always starts with the size keyword and a space; an unmapped address gives `(?)` and success; at a mapped address the modifier follows the space; on failure only the modifier follows |
| Formatting.ModifierTokens | src/core/architecture.cpp:267-272 | the sign is `~` exactly for the not modifier, `-` exactly for negate, and nothing for any other modifier |
| Formatting.ImmediateRendering | src/core/architecture.cpp:258-432 | a 1-byte non-character value, a 2-byte value failing the bit test, or a 4- or 8-byte value failing the equality test, whose read succeeds, renders successfully as the size keyword, a space, the modifier and one immediate of the value's width holding the modified read data, in base 2 for binary, 10 for decimal and 16 otherwise |
| Formatting.ValueFailures | src/core/architecture.cpp:253-280 | a value fails exactly at a mapped address whose length is unsupported or whose read fails; an unsupported length gives `d?` and the modifier |
| Formatting.BodyImmediatesFit | src/core/architecture.cpp:274-436 | every immediate of the read data has the value's width in bits, fits it, and has base 2, 10 or 16 |
| Formatting.ValueImmediatesFit | src/core/architecture.cpp:258-436 | every immediate a value renders has the value's width in bits, fits it, and has base 2, 10 or 16 |
| Formatting.OneByteHasNoReference | src/core/architecture.cpp:274-303 | a one-byte value never renders a label or an address |
| Formatting.OneByteCharacter | src/core/architecture.cpp:282-298 | a one-byte character value renders its byte between quotes, escaped so that it reads back |
| Formatting.ReferenceRendering | src/core/architecture.cpp:304-432 | a mapped 2-byte value passing the bit test, or a mapped 4- or 8-byte value passing the equality test, whose read succeeds renders successfully, and after the keyword, space and modifier comes the label text of the modified data taken as an offset in the current base when that label is known, else that address |
| Formatting.WordReferenceBases | src/core/architecture.cpp:330 | with the model's sub-type codes, the 2-byte bit test accepts exactly the binary, hexadecimal, character and reference bases among the six |
| Formatting.ReferenceTestDiffersByWidth | src/core/architecture.cpp:330-387 | a base code that shares a bit with the reference code without equalling it is a reference at 2 bytes and an immediate at 4 |
| Architectures.FormatValue | src/core/architecture.cpp:231-439 | appends and returns what the value's rendering says |
| Architectures.FormatValueData | src/core/architecture.cpp:258-436 | after the offset resolved: the modifier, then the read data, with success exactly when the read succeeds |
| Architectures.AppendSizeKeyword | src/core/architecture.cpp:244-251 | the size keyword of the length, and a space |
| Architectures.AppendModifier | src/core/architecture.cpp:267-272 | `~` for not, `-` for negate, nothing otherwise |
| Architectures.FormatByteData | src/core/architecture.cpp:276-303 | one byte as a quoted character or an 8-bit immediate; fails exactly when the read fails |
| Architectures.FormatWordData | src/core/architecture.cpp:304-346 | a word as a reference or a 16-bit immediate; fails exactly when the read fails |
| Architectures.FormatDwordData | src/core/architecture.cpp:347-389 | a double word as a reference or a 32-bit immediate; fails exactly when the read fails |
| Architectures.FormatQwordData | src/core/architecture.cpp:390-432 | a quad word as a reference or a 64-bit immediate; fails exactly when the read fails |
| Architectures.AppendReference | src/core/architecture.cpp:332-338 | the target's label when known, else the target address |
| Formatting.MultiCellRendering | src/core/architecture.cpp:441-452 | a multicell succeeds exactly when its type is FunctionType, then starting with the header comment; otherwise nothing is appended |
| Architectures.FormatMultiCell | src/core/architecture.cpp:441-452 | appends and returns what the multicell's rendering says |
| Formatting.FunctionRendering | src/core/architecture.cpp:454-513 | the first token is the header comment, and it is the only token exactly when no signature is recorded |
| Formatting.FunctionImportedIff | src/core/architecture.cpp:462-473 | the header says imported exactly when the size or the instruction count is zero |
| Formatting.FunctionHeaderDeterminesCounts | src/core/architecture.cpp:462-471 | two non-imported headers are equal only when their sizes and their instruction counts are equal |
| Formatting.FunctionRenderingLabels | src/core/architecture.cpp:475-510 | the labels are none without a signature; else the label's name when known (the recorded name otherwise), then the parameter names |
| Signatures.FunctionSignatureLabels | src/core/architecture.cpp:483-510 | the labels of the signature line are the displayed name, then the parameter names |
| Signatures.FunctionSignatureCount | src/core/architecture.cpp:483-510 | only the opening and the joined parameters contribute line breaks or commas |
| Signatures.FunctionSignatureLines | src/core/architecture.cpp:483-510 | the signature line has exactly one line break, the opening one, and one comma between each two parameters |
| Architectures.AppendFunctionHeader | src/core/architecture.cpp:462-473 | the header comment |
| Architectures.AppendFunctionSignature | src/core/architecture.cpp:483-510 | appends exactly the function signature line |
| Architectures.FormatFunction | src/core/architecture.cpp:454-513 | always succeeds, and appends exactly the function's rendering |
| Formatting.StructureCommentDeterminesSize | src/core/architecture.cpp:521-528 | two structure comments are equal only when the sizes are |
| Architectures.FormatStructure | src/core/architecture.cpp:515-530 | always succeeds, and appends the one structure comment |
| TextFormat.HexDigitsRoundTrip | src/core/architecture.cpp:466-468 | the hexadecimal digits of a positive number have no leading zero and read back to the number |
| TextFormat.HexTextInjective | src/core/architecture.cpp:466-468 | different numbers print differently |
| TextFormat.HexTextHasNoComma | src/core/architecture.cpp:466-468 | a printed number holds no comma |
| MultiCells.TypeCodes | inc/medusa/multicell.hpp:24-30 | the type tags are 0 to 3, and tags and codes convert both ways |
| MultiCells.ConstructorStoresFields | inc/medusa/multicell.hpp:32-44 | the constructor stores id, type and size unchanged, and the getters return them |
| MultiCells.DefaultMultiCell | inc/medusa/multicell.hpp:32-36 | a default multicell has the nil id, UnknownType and size 0 |
| MultiCells.SizeBound | inc/medusa/multicell.hpp:41 | the size is at most 0xFFFF |
| MultiCells.DisplayCellIsFalse | inc/medusa/multicell.hpp:47 | the base multicell never asks for its cells to be displayed |

## Left out

- The `Architecture` constructor's configuration option ("Disassembly only basic block", architecture.cpp:5-8). It is set and never read by the rendering layer.
- The comment column `CmtOff` (architecture.cpp:92). It is computed again before each operand's signature comment from the text rendered so far and from `Address::ToString`, with 16-bit wrap-around. The model has no rendered text, so `FormatInstruction` takes the column of each operand slot `i` as `columns(i)`.
- The byte order of 2-, 4- and 8-byte reads. The binary stream is a set of abstract readers, each answering a value of its width or a failure.
- `Value::Modify`, `StringTrait::ConvertToUtf8` and `Label::GetLabel` are opaque. They are function-valued fields of the value, the string trait and the document.
- How the sink turns an `Immediate` or an `Address` token into characters. The model stops at tokens.
- Architecture-specific `FormatOperand` overrides are not part of this model. The hook is a function-valued field of `Architecture`, and `BaseFormatOperand` is the base stub.
- The value sub-type codes. `detail.hpp` is not part of this model, so the codes in module `ValueDetail` are placeholders: bases 0 to 5 (unknown, binary, decimal, hexadecimal, character, reference) in the low nibble, NotType 0x10 and NegateType 0x20, masks 0x0f and 0xf0. Under these codes the 2-byte test `base & ReferenceType` (ReferenceType 0x05) holds for binary (1), hexadecimal (3), character (4) and reference (5), so a 2-byte binary, hexadecimal or character value renders as a reference; with the real codes the accepted bases may differ.
- The value of `O_NONE`, taken as 0. `operand.hpp` is not part of this model.
- The bound `OPERAND_NO` is the number of operand slots of the instruction.
- `Instruction::GetOperandReference` is a per-operand optional target address.
- Character sub-types. Every character cell is read as one byte, which is what the only case of the source's switch does.
- The commented-out wide-character branches of `FormatValue` are not modelled, as they are not compiled.
- `MultiCell::Dump` and the `Map` typedef. Dump's body is not part of this model. The `Id` typedef is modelled as the 16-byte `Types.Uuid`, with `NilUuid` for `Id()`.
- Concurrency, the user interface, and the document's own mutation are outside the rendering layer.
