/**
 * The print sink: an append-only, ordered stream of typed tokens. How a presentation layer
 * turns the tokens into characters (immediates in their base, addresses as text) is not
 * part of this model.
 */
module Printing {
  import Documents

  datatype Token =
    | Keyword(text: string)
    | Operator(text: string)
    | Space(count: nat)
    | NewLine
    | Comment(text: string)
    | Label(text: string)
    | Address(addr: Documents.Address)
    | Character(text: string)
    | String(text: string)
    | Mnemonic(text: string)
    | Immediate(value: nat, bits: nat, base: nat)

  class PrintData {
    var tokens: seq<Token>

    constructor ()
      ensures tokens == []
    {
      tokens := [];
    }

    method AppendKeyword(s: string)
      modifies this
      ensures tokens == old(tokens) + [Keyword(s)]
    {
      tokens := tokens + [Keyword(s)];
    }

    method AppendOperator(s: string)
      modifies this
      ensures tokens == old(tokens) + [Operator(s)]
    {
      tokens := tokens + [Operator(s)];
    }

    method AppendSpace(n: nat := 1)
      modifies this
      ensures tokens == old(tokens) + [Space(n)]
    {
      tokens := tokens + [Space(n)];
    }

    method AppendNewLine()
      modifies this
      ensures tokens == old(tokens) + [NewLine]
    {
      tokens := tokens + [NewLine];
    }

    method AppendComment(s: string)
      modifies this
      ensures tokens == old(tokens) + [Comment(s)]
    {
      tokens := tokens + [Comment(s)];
    }

    method AppendLabel(s: string)
      modifies this
      ensures tokens == old(tokens) + [Label(s)]
    {
      tokens := tokens + [Label(s)];
    }

    method AppendAddress(a: Documents.Address)
      modifies this
      ensures tokens == old(tokens) + [Address(a)]
    {
      tokens := tokens + [Address(a)];
    }

    method AppendCharacter(s: string)
      modifies this
      ensures tokens == old(tokens) + [Character(s)]
    {
      tokens := tokens + [Character(s)];
    }

    method AppendString(s: string)
      modifies this
      ensures tokens == old(tokens) + [String(s)]
    {
      tokens := tokens + [String(s)];
    }

    method AppendMnemonic(s: string)
      modifies this
      ensures tokens == old(tokens) + [Mnemonic(s)]
    {
      tokens := tokens + [Mnemonic(s)];
    }

    method AppendImmediate(value: nat, bits: nat, base: nat)
      modifies this
      ensures tokens == old(tokens) + [Immediate(value, bits, base)]
    {
      tokens := tokens + [Immediate(value, bits, base)];
    }

    /** Appends a run of tokens at once (what an architecture's operand formatter emits). */
    method AppendTokens(ts: seq<Token>)
      modifies this
      ensures tokens == old(tokens) + ts
    {
      tokens := tokens + ts;
    }
  }
}
