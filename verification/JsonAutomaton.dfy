/** The transition function of the streaming array validator, on values. */
module JsonAutomaton {
  import opened JsonGrammar
  import opened Options

  datatype Container =
    | ArrFirst   // array, firstValueOrEnd
    | ArrValue   // array, value
    | ArrComma   // array, commaOrEnd
    | ObjFirst   // object, firstKeyOrEnd
    | ObjKey     // object, key
    | ObjColon   // object, colon
    | ObjValue   // object, value
    | ObjComma   // object, commaOrEnd
  {
    predicate IsArr() { ArrFirst? || ArrValue? || ArrComma? }

    /** A value may be finished inside this container. */
    predicate Awaiting() { ArrFirst? || ArrValue? || ObjValue? }

    function Finished(): Container
      requires Awaiting()
    {
      if IsArr() then ArrComma else ObjComma
    }
  }

  datatype StringKind = KeyString | ValueString

  datatype NumberState = Sign | Zero | Integer | Dot | Fraction | Exponent | ExponentSign | ExponentDigits
  {
    predicate Terminal() { Zero? || Integer? || Fraction? || ExponentDigits? }
  }

  datatype State = State(
    stack: seq<Container>,
    complete: bool,
    possible: bool,
    stringKind: Option<StringKind>,
    escaped: bool,
    unicodeDigits: nat,
    literalRemainder: string,
    numberState: Option<NumberState>)

  const Init := Outside([ArrFirst])

  /** Between tokens, with the given containers open. */
  function Outside(stack: seq<Container>): State {
    State(stack, false, true, None, false, 0, "", None)
  }

  const Closed := Outside([]).(complete := true)

  function Fail(s: State): State { s.(possible := false) }

  function SetTop(stack: seq<Container>, c: Container): seq<Container>
    requires |stack| > 0
  {
    stack[..|stack| - 1] + [c]
  }

  function Top(stack: seq<Container>): Container
    requires |stack| > 0
  {
    stack[|stack| - 1]
  }

  function FinishValue(s: State): State {
    if s.stack != [] && Top(s.stack).Awaiting()
    then s.(stack := SetTop(s.stack, Top(s.stack).Finished()))
    else Fail(s)
  }

  function CloseContainer(s: State, arr: bool): State {
    if s.stack == [] || Top(s.stack).IsArr() != arr then Fail(s)
    else
      var popped := s.(stack := s.stack[..|s.stack| - 1]);
      if popped.stack == [] then popped.(complete := true) else FinishValue(popped)
  }

  function StartValue(s: State, c: char): State {
    if c == '"' then s.(stringKind := Some(ValueString))
    else if c == '{' then s.(stack := s.stack + [ObjFirst])
    else if c == '[' then s.(stack := s.stack + [ArrFirst])
    else if c == 't' then s.(literalRemainder := "rue")
    else if c == 'f' then s.(literalRemainder := "alse")
    else if c == 'n' then s.(literalRemainder := "ull")
    else if c == '-' then s.(numberState := Some(Sign))
    else if c == '0' then s.(numberState := Some(Zero))
    else if IsNonZeroDigit(c) then s.(numberState := Some(Integer))
    else Fail(s)
  }

  function ProcessOutsideToken(s: State, c: char): State {
    if s.complete || !s.possible || s.stack == [] then Fail(s)
    else if IsWsChar(c) then s
    else
      match Top(s.stack)
      case ArrComma =>
        if c == ',' then s.(stack := SetTop(s.stack, ArrValue))
        else if c == ']' then CloseContainer(s, true)
        else Fail(s)
      case ArrFirst => if c == ']' then CloseContainer(s, true) else StartValue(s, c)
      case ArrValue => StartValue(s, c)
      case ObjComma =>
        if c == ',' then s.(stack := SetTop(s.stack, ObjKey))
        else if c == '}' then CloseContainer(s, false)
        else Fail(s)
      case ObjFirst =>
        if c == '}' then CloseContainer(s, false)
        else if c == '"' then s.(stringKind := Some(KeyString))
        else Fail(s)
      case ObjKey => if c == '"' then s.(stringKind := Some(KeyString)) else Fail(s)
      case ObjColon => if c == ':' then s.(stack := SetTop(s.stack, ObjValue)) else Fail(s)
      case ObjValue => StartValue(s, c)
  }

  /** The state of a number after one more of its characters; None when the
      character does not belong to it. */
  function NumberStep(n: NumberState, c: char): Option<NumberState> {
    match n
    case Sign => if c == '0' then Some(Zero) else if IsNonZeroDigit(c) then Some(Integer) else None
    case Zero => if c == '.' then Some(Dot) else if c == 'e' || c == 'E' then Some(Exponent) else None
    case Integer =>
      if IsDigit(c) then Some(Integer)
      else if c == '.' then Some(Dot) else if c == 'e' || c == 'E' then Some(Exponent) else None
    case Dot => if IsDigit(c) then Some(Fraction) else None
    case Fraction =>
      if IsDigit(c) then Some(Fraction) else if c == 'e' || c == 'E' then Some(Exponent) else None
    case Exponent =>
      if c == '+' || c == '-' then Some(ExponentSign)
      else if IsDigit(c) then Some(ExponentDigits) else None
    case ExponentSign => if IsDigit(c) then Some(ExponentDigits) else None
    case ExponentDigits => if IsDigit(c) then Some(ExponentDigits) else None
  }

  function ProcessNumber(s: State, n: NumberState, c: char): State {
    var next := NumberStep(n, c);
    if next.Some? then s.(numberState := next)
    else if n.Terminal() then ProcessOutsideToken(FinishValue(s.(numberState := None)), c)
    else if n.Sign? then Fail(s.(numberState := None))
    else Fail(s)
  }

  function ProcessString(s: State, kind: StringKind, c: char): State {
    if s.unicodeDigits > 0 then
      if !IsHexDigit(c) then Fail(s)
      else s.(unicodeDigits := s.unicodeDigits - 1, escaped := s.escaped && s.unicodeDigits != 1)
    else if s.escaped then
      if c == 'u' then s.(unicodeDigits := 4)
      else if IsEscapable(c) then s.(escaped := false)
      else Fail(s)
    else if c == '\\' then s.(escaped := true)
    else if c == '"' then
      var closed := s.(stringKind := None);
      if kind.ValueString? then FinishValue(closed)
      else if s.stack != [] && !Top(s.stack).IsArr() then closed.(stack := SetTop(s.stack, ObjColon))
      else Fail(closed)
    else if c < ' ' then Fail(s)
    else s
  }

  function ProcessLiteral(s: State, c: char): State
    requires s.literalRemainder != ""
  {
    if c != s.literalRemainder[0] then Fail(s)
    else
      var s' := s.(literalRemainder := s.literalRemainder[1..]);
      if s'.literalRemainder == "" then FinishValue(s') else s'
  }

  function Append(s: State, c: char): State {
    if !s.possible then s
    else if s.stringKind.Some? then ProcessString(s, s.stringKind.value, c)
    else if s.literalRemainder != "" then ProcessLiteral(s, c)
    else if s.numberState.Some? then ProcessNumber(s, s.numberState.value, c)
    else ProcessOutsideToken(s, c)
  }

  predicate IsComplete(s: State) {
    s.possible && s.complete && s.stringKind.None? && s.literalRemainder == "" && s.numberState.None?
  }

  function Run(s: State, text: string): State
    decreases |text|
  {
    if text == "" then s else Run(Append(s, text[0]), text[1..])
  }

  lemma {:induction false} RunConcat(s: State, a: string, b: string)
    ensures Run(s, a + b) == Run(Run(s, a), b)
    decreases |a|
  {
    if a == "" {
      assert a + b == b;
    } else {
      assert (a + b)[1..] == a[1..] + b;
      RunConcat(Append(s, a[0]), a[1..], b);
    }
  }

  lemma RunOne(s: State, c: char)
    ensures Run(s, [c]) == Append(s, c)
  {
    assert [c][1..] == "";
    assert Run(Append(s, c), "") == Append(s, c);
  }

  lemma RunSnoc(s: State, a: string, c: char)
    ensures Run(s, a + [c]) == Append(Run(s, a), c)
  {
    RunConcat(s, a, [c]);
    RunOne(Run(s, a), c);
  }

  /** Once ruled out, a text stays ruled out. */
  lemma {:induction false} RunImpossible(s: State, text: string)
    requires !s.possible
    ensures !Run(s, text).possible
    decreases |text|
  {
    if text != "" {
      RunImpossible(Append(s, text[0]), text[1..]);
    }
  }
}
