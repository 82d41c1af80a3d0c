/**
 * The token streams of types and signatures: how `FormatType` renders a type, how the
 * parameter loops join parameters, and the two signature layouts (the comment after an
 * instruction operand and the line under a function header).
 */
module Signatures {
  import opened Types
  import opened Documents
  import opened Printing
  import opened Layouts

  // ---- types and parameter lists ------------------------------------------------------

  function TagPrefix(k: TypeKind): seq<Token>
  {
    match k
    case ClassType => [Keyword("class"), Space(1)]
    case EnumType => [Keyword("enum"), Space(1)]
    case StructureType => [Keyword("struct"), Space(1)]
    case _ => []
  }

  function IndirectionSuffix(k: TypeKind): seq<Token>
  {
    match k
    case PointerType => [Operator("*"), Space(1)]
    case ReferenceType => [Operator("&"), Space(1)]
    case _ => []
  }

  /** The tokens `FormatType` appends for a type. */
  function TypeTokens(t: TypeDetail): (r: seq<Token>)
    ensures |r| == |TagPrefix(t.kind)| + 1 + |IndirectionSuffix(t.kind)|
    ensures |r| == 1 || |r| == 3
    ensures r[|TagPrefix(t.kind)|] == Keyword(t.name)
    ensures |r| == 3 <==> t.kind != PlainType
  {
    TagPrefix(t.kind) + [Keyword(t.name)] + IndirectionSuffix(t.kind)
  }

  function TagOfKeyword(s: string): Option<TypeKind>
  {
    if s == "class" then Some(ClassType)
    else if s == "enum" then Some(EnumType)
    else if s == "struct" then Some(StructureType)
    else None
  }

  function IndirectionOfOperator(s: string): Option<TypeKind>
  {
    if s == "*" then Some(PointerType) else if s == "&" then Some(ReferenceType) else None
  }

  /** Reads a rendered type back. */
  function ParseTypeTokens(ts: seq<Token>): Option<TypeDetail>
  {
    if |ts| == 1 && ts[0].Keyword? then Some(TypeDetail(ts[0].text, PlainType))
    else if |ts| == 3 && ts[0].Keyword? && ts[1] == Space(1) && ts[2].Keyword? && TagOfKeyword(ts[0].text).Some? then
      Some(TypeDetail(ts[2].text, TagOfKeyword(ts[0].text).value))
    else if |ts| == 3 && ts[0].Keyword? && ts[1].Operator? && ts[2] == Space(1) && IndirectionOfOperator(ts[1].text).Some? then
      Some(TypeDetail(ts[0].text, IndirectionOfOperator(ts[1].text).value))
    else None
  }

  /** A rendered type reads back to the type: different types never render alike. */
  lemma TypeTokensRoundTrip(t: TypeDetail)
    ensures ParseTypeTokens(TypeTokens(t)) == Some(t)
  {
  }

  /** A rendered type holds no label. */
  lemma TypeTokensHaveNoLabel(t: TypeDetail)
    ensures Labels(TypeTokens(t)) == []
  {
    NoLabels(TypeTokens(t));
  }

  /** A rendered type holds no line break and no comma. */
  lemma TypeTokensHaveNo(t: TypeDetail, x: Token)
    requires x == NewLine || x == Operator(",")
    ensures Only(TypeTokens(t), x) == []
  {
    NoneOf(TypeTokens(t), x);
  }

  /** One parameter: its type, a space and its name as a label. */
  function ParamTokens(p: TypedValue): seq<Token>
  {
    TypeTokens(p.typ) + [Space(1), Label(p.name)]
  }

  /**
   * A parameter list as the formatters' loops emit it: the first parameter as is, every later
   * one preceded by sep.
   */
  function JoinParams(ps: seq<TypedValue>, sep: seq<Token>): seq<Token>
  {
    if |ps| == 0 then []
    else if |ps| == 1 then ParamTokens(ps[0])
    else JoinParams(ps[..|ps| - 1], sep) + sep + ParamTokens(ps[|ps| - 1])
  }

  function ParameterNames(ps: seq<TypedValue>): seq<string>
  {
    if ps == [] then [] else ParameterNames(ps[..|ps| - 1]) + [ps[|ps| - 1].name]
  }

  lemma ParamTokensLabels(p: TypedValue)
    ensures Labels(ParamTokens(p)) == [p.name]
  {
    TypeTokensHaveNoLabel(p.typ);
    ConsLabels(Label(p.name), []);
    ConsLabels(Space(1), [Label(p.name)]);
    assert [Space(1), Label(p.name)] == [Space(1)] + [Label(p.name)];
    assert [Label(p.name)] == [Label(p.name)] + [];
    LabelsAppend(TypeTokens(p.typ), [Space(1), Label(p.name)]);
  }

  lemma ParamTokensHaveNo(p: TypedValue, x: Token)
    requires x == NewLine || x == Operator(",")
    ensures Only(ParamTokens(p), x) == []
  {
    TypeTokensHaveNo(p.typ, x);
    NoneOf([Space(1), Label(p.name)], x);
    OnlyAppend(TypeTokens(p.typ), [Space(1), Label(p.name)], x);
  }

  /** In a joined parameter list the labels are exactly the parameter names, in order. */
  lemma {:induction false} JoinParamsLabels(ps: seq<TypedValue>, sep: seq<Token>)
    requires Labels(sep) == []
    ensures Labels(JoinParams(ps, sep)) == ParameterNames(ps)
  {
    if |ps| == 0 {
      assert JoinParams(ps, sep) == [];
    } else if |ps| == 1 {
      ParamTokensLabels(ps[0]);
      assert ps[..0] == [];
    } else {
      var init, last := ps[..|ps| - 1], ps[|ps| - 1];
      JoinParamsLabels(init, sep);
      ParamTokensLabels(last);
      LabelsAppend(JoinParams(init, sep), sep);
      LabelsAppend(JoinParams(init, sep) + sep, ParamTokens(last));
      assert ParameterNames(init) + [] + [last.name] == ParameterNames(ps);
    }
  }

  /**
   * In a joined parameter list line breaks and commas come only from the separators: one
   * separator between each two parameters.
   */
  lemma {:induction false} JoinParamsCount(ps: seq<TypedValue>, sep: seq<Token>, x: Token)
    requires x == NewLine || x == Operator(",")
    requires |Only(sep, x)| <= 1
    ensures |ps| == 0 ==> Only(JoinParams(ps, sep), x) == []
    ensures |ps| > 0 ==> |Only(JoinParams(ps, sep), x)| == if Only(sep, x) == [] then 0 else |ps| - 1
  {
    if |ps| == 0 {
      assert JoinParams(ps, sep) == [];
    } else if |ps| == 1 {
      ParamTokensHaveNo(ps[0], x);
    } else {
      var init, last := ps[..|ps| - 1], ps[|ps| - 1];
      JoinParamsCount(init, sep, x);
      ParamTokensHaveNo(last, x);
      OnlyAppend(JoinParams(init, sep), sep, x);
      OnlyAppend(JoinParams(init, sep) + sep, ParamTokens(last), x);
    }
  }

  /** The line break before each parameter of an instruction's signature comment. */
  function CommentLineBreak(cmtOff: nat): seq<Token>
  {
    [NewLine, Space(cmtOff), Comment(";"), Space(3)]
  }

  /** What separates two parameters in an instruction's signature comment. */
  function CommentParamSeparator(cmtOff: nat): seq<Token>
  {
    [Operator(",")] + CommentLineBreak(cmtOff)
  }

  /** The name of a signature and its opening parenthesis. */
  function NameOpener(name: string): seq<Token>
  {
    [Space(1), Label(name), Operator("(")]
  }

  /** The opening of an instruction's signature comment. */
  const CommentOpener: seq<Token> := [Space(1), Comment(";"), Space(1)]

  const SignatureCloser: seq<Token> := [Operator(");")]

  /** The signature comment appended after an operand that refers to a known function. */
  function InstructionSignature(fd: FunctionDetail, cmtOff: nat): seq<Token>
  {
    CommentOpener + TypeTokens(fd.returnType) + NameOpener(fd.name)
    + (if |fd.parameters| > 0 then CommentLineBreak(cmtOff) else [])
    + JoinParams(fd.parameters, CommentParamSeparator(cmtOff))
    + SignatureCloser
  }

  /** The opening of a function's signature line. */
  const FunctionSignatureOpener: seq<Token> := [NewLine, Space(2), Comment(";"), Space(1)]

  /** What separates two parameters in a function's signature line. */
  const FunctionParamSeparator: seq<Token> := [Operator(","), Space(1)]

  /** The signature line of a function: its parameters on one line, separated by a comma and a space. */
  function FunctionSignature(name: string, fd: FunctionDetail): seq<Token>
  {
    FunctionSignatureOpener + TypeTokens(fd.returnType)
    + NameOpener(name)
    + JoinParams(fd.parameters, FunctionParamSeparator)
    + SignatureCloser
  }

  // ---- labels of the signatures -------------------------------------------------------

  /** The labels of a signature assembled from pieces of which only the name and the parameters carry labels. */
  lemma SignaturePiecesLabels(a: seq<Token>, t: seq<Token>, b: seq<Token>, c: seq<Token>, j: seq<Token>, e: seq<Token>)
    requires Labels(a) == [] && Labels(t) == [] && Labels(c) == [] && Labels(e) == []
    ensures Labels(a + t + b + c + j + e) == Labels(b) + Labels(j)
  {
    LabelsAppend(a, t);
    LabelsAppend(a + t, b);
    LabelsAppend(a + t + b, c);
    LabelsAppend(a + t + b + c, j);
    LabelsAppend(a + t + b + c + j, e);
    assert [] + [] + Labels(b) + [] + Labels(j) + [] == Labels(b) + Labels(j);
  }

  lemma NameOpenerLabels(name: string)
    ensures Labels(NameOpener(name)) == [name]
  {
    ConsLabels(Operator("("), []);
    ConsLabels(Label(name), [Operator("(")]);
    ConsLabels(Space(1), [Label(name)] + [Operator("(")]);
    assert [Operator("(")] == [Operator("(")] + [];
    assert NameOpener(name) == [Space(1)] + ([Label(name)] + [Operator("(")]);
  }

  lemma CommentPiecesHaveNoLabel(cmtOff: nat, hasParams: bool)
    ensures Labels(CommentOpener) == [] && Labels(SignatureCloser) == []
    ensures Labels(if hasParams then CommentLineBreak(cmtOff) else []) == []
    ensures Labels(CommentParamSeparator(cmtOff)) == []
  {
    NoLabels(CommentOpener);
    NoLabels(SignatureCloser);
    NoLabels(if hasParams then CommentLineBreak(cmtOff) else []);
    NoLabels(CommentParamSeparator(cmtOff));
  }

  lemma FunctionPiecesHaveNoLabel()
    ensures Labels(FunctionSignatureOpener) == [] && Labels(FunctionParamSeparator) == []
    ensures Labels(SignatureCloser) == [] && Labels([]) == []
  {
    NoLabels(FunctionSignatureOpener);
    NoLabels(FunctionParamSeparator);
    NoLabels(SignatureCloser);
  }

  /**
   * The labels of an instruction's signature comment are the function name and then the
   * parameter names.
   */
  lemma InstructionSignatureLabels(fd: FunctionDetail, cmtOff: nat)
    ensures Labels(InstructionSignature(fd, cmtOff)) == [fd.name] + ParameterNames(fd.parameters)
  {
    var ps := fd.parameters;
    CommentPiecesHaveNoLabel(cmtOff, |ps| > 0);
    TypeTokensHaveNoLabel(fd.returnType);
    NameOpenerLabels(fd.name);
    JoinParamsLabels(ps, CommentParamSeparator(cmtOff));
    SignaturePiecesLabels(CommentOpener, TypeTokens(fd.returnType), NameOpener(fd.name),
      if |ps| > 0 then CommentLineBreak(cmtOff) else [], JoinParams(ps, CommentParamSeparator(cmtOff)), SignatureCloser);
  }

  /**
   * The labels of a function's signature line are the displayed name and then the parameter
   * names.
   */
  lemma FunctionSignatureLabels(name: string, fd: FunctionDetail)
    ensures Labels(FunctionSignature(name, fd)) == [name] + ParameterNames(fd.parameters)
  {
    var ps := fd.parameters;
    FunctionPiecesHaveNoLabel();
    TypeTokensHaveNoLabel(fd.returnType);
    NameOpenerLabels(name);
    JoinParamsLabels(ps, FunctionParamSeparator);
    SignaturePiecesLabels(FunctionSignatureOpener, TypeTokens(fd.returnType), NameOpener(name), [],
      JoinParams(ps, FunctionParamSeparator), SignatureCloser);
    assert FunctionSignature(name, fd) == FunctionSignatureOpener + TypeTokens(fd.returnType) + NameOpener(name) + []
      + JoinParams(ps, FunctionParamSeparator) + SignatureCloser;
  }

  // ---- line breaks and commas of the signatures ---------------------------------------

  lemma OnlyPieces(a: seq<Token>, t: seq<Token>, b: seq<Token>, c: seq<Token>, j: seq<Token>, e: seq<Token>, x: Token)
    requires Only(t, x) == [] && Only(b, x) == [] && Only(e, x) == []
    ensures |Only(a + t + b + c + j + e, x)| == |Only(a, x)| + |Only(c, x)| + |Only(j, x)|
  {
    OnlyAppend(a, t, x);
    OnlyAppend(a + t, b, x);
    OnlyAppend(a + t + b, c, x);
    OnlyAppend(a + t + b + c, j, x);
    OnlyAppend(a + t + b + c + j, e, x);
  }

  lemma CommentLineBreakCount(cmtOff: nat, x: Token)
    requires x == NewLine || x == Operator(",")
    ensures |Only(CommentLineBreak(cmtOff), x)| == if x == NewLine then 1 else 0
    ensures |Only(CommentParamSeparator(cmtOff), x)| == 1
  {
    var tail := [Space(cmtOff), Comment(";"), Space(3)];
    NoneOf(tail, x);
    ConsOnly(NewLine, tail, x);
    assert CommentLineBreak(cmtOff) == [NewLine] + tail;
    ConsOnly(Operator(","), CommentLineBreak(cmtOff), x);
  }

  lemma PiecesHaveNo(name: string, x: Token)
    requires x == NewLine || x == Operator(",")
    ensures Only(CommentOpener, x) == [] && Only(NameOpener(name), x) == [] && Only(SignatureCloser, x) == []
  {
    NoneOf(CommentOpener, x);
    NoneOf(NameOpener(name), x);
    NoneOf(SignatureCloser, x);
  }

  lemma FunctionPiecesCount(x: Token)
    requires x == NewLine || x == Operator(",")
    ensures |Only(FunctionSignatureOpener, x)| == if x == NewLine then 1 else 0
    ensures |Only(FunctionParamSeparator, x)| == if x == NewLine then 0 else 1
  {
    var tail := [Space(2), Comment(";"), Space(1)];
    NoneOf(tail, x);
    ConsOnly(NewLine, tail, x);
    assert FunctionSignatureOpener == [NewLine] + tail;
    NoneOf([Space(1)], x);
    ConsOnly(Operator(","), [Space(1)], x);
    assert FunctionParamSeparator == [Operator(",")] + [Space(1)];
  }

  /** Only the optional first line break and the joined parameters contribute line breaks or commas. */
  lemma InstructionSignatureCount(fd: FunctionDetail, cmtOff: nat, x: Token)
    requires x == NewLine || x == Operator(",")
    ensures |Only(InstructionSignature(fd, cmtOff), x)|
      == |Only(if |fd.parameters| > 0 then CommentLineBreak(cmtOff) else [], x)|
       + |Only(JoinParams(fd.parameters, CommentParamSeparator(cmtOff)), x)|
  {
    var ps := fd.parameters;
    PiecesHaveNo(fd.name, x);
    TypeTokensHaveNo(fd.returnType, x);
    OnlyPieces(CommentOpener, TypeTokens(fd.returnType), NameOpener(fd.name),
      if |ps| > 0 then CommentLineBreak(cmtOff) else [], JoinParams(ps, CommentParamSeparator(cmtOff)), SignatureCloser, x);
  }

  /**
   * In an instruction's signature comment every parameter sits on a line of its own: there
   * are exactly as many line breaks as parameters, and one comma between each two.
   */
  lemma InstructionSignatureLines(fd: FunctionDetail, cmtOff: nat)
    ensures |Only(InstructionSignature(fd, cmtOff), NewLine)| == |fd.parameters|
    ensures |Only(InstructionSignature(fd, cmtOff), Operator(","))| == if |fd.parameters| == 0 then 0 else |fd.parameters| - 1
  {
    var ps := fd.parameters;
    var sep := CommentParamSeparator(cmtOff);
    InstructionSignatureCount(fd, cmtOff, NewLine);
    InstructionSignatureCount(fd, cmtOff, Operator(","));
    CommentLineBreakCount(cmtOff, NewLine);
    CommentLineBreakCount(cmtOff, Operator(","));
    NoneOf([], NewLine);
    NoneOf([], Operator(","));
    JoinParamsCount(ps, sep, NewLine);
    JoinParamsCount(ps, sep, Operator(","));
  }

  /** Only the opening and the joined parameters contribute line breaks or commas. */
  lemma FunctionSignatureCount(name: string, fd: FunctionDetail, x: Token)
    requires x == NewLine || x == Operator(",")
    ensures |Only(FunctionSignature(name, fd), x)|
      == |Only(FunctionSignatureOpener, x)| + |Only(JoinParams(fd.parameters, FunctionParamSeparator), x)|
  {
    var ps := fd.parameters;
    PiecesHaveNo(name, x);
    TypeTokensHaveNo(fd.returnType, x);
    var a, t, b, j, e := FunctionSignatureOpener, TypeTokens(fd.returnType), NameOpener(name),
      JoinParams(ps, FunctionParamSeparator), SignatureCloser;
    OnlyAppend(a, t, x);
    OnlyAppend(a + t, b, x);
    OnlyAppend(a + t + b, j, x);
    OnlyAppend(a + t + b + j, e, x);
  }

  /**
   * A function's signature line keeps all its parameters on one line: its only line break is
   * the one that opens it, and one comma separates each two parameters.
   */
  lemma FunctionSignatureLines(name: string, fd: FunctionDetail)
    ensures |Only(FunctionSignature(name, fd), NewLine)| == 1
    ensures |Only(FunctionSignature(name, fd), Operator(","))| == if |fd.parameters| == 0 then 0 else |fd.parameters| - 1
  {
    FunctionSignatureCount(name, fd, NewLine);
    FunctionSignatureCount(name, fd, Operator(","));
    FunctionPiecesCount(NewLine);
    FunctionPiecesCount(Operator(","));
    JoinParamsCount(fd.parameters, FunctionParamSeparator, NewLine);
    JoinParamsCount(fd.parameters, FunctionParamSeparator, Operator(","));
  }
}
