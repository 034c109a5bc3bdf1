/** What the two flags of the validator mean: acceptance and viable prefixes. */
module JsonTheorems {
  import opened JsonGrammar
  import opened JsonAutomaton
  import JsonCompleteness
  import opened JsonSoundness
  import opened Options

  /** `complete` holds exactly after the rest of a JSON array. */
  lemma CompleteIffArray(text: string)
    ensures IsComplete(Run(Init, text)) <==> IsArrayTail(text)
  {
    if IsArrayTail(text) {
      JsonCompleteness.ArraysAreAccepted(text);
    }
    if IsComplete(Run(Init, text)) {
      var d := Explained(text);
    }
  }

  // ---- viable prefixes

  /** A character that brings the open containers closer to being closed. */
  function Closer(s: State): char
    requires s.stack != []
  {
    if s.stringKind.Some? then
      if s.unicodeDigits > 0 then '0' else if s.escaped then 'n' else '"'
    else if s.literalRemainder != "" then s.literalRemainder[0]
    else if s.numberState.Some? && !s.numberState.value.Terminal() then '0'
    else
      match Top(s.stack)
      case ArrFirst | ArrComma => ']'
      case ArrValue => if s.numberState.Some? then ']' else '0'
      case ObjFirst | ObjComma => '}'
      case ObjValue => if s.numberState.Some? then '}' else '0'
      case ObjKey => '"'
      case ObjColon => ':'
  }

  function TopDistance(s: State): nat
    requires s.stack != []
  {
    if s.stringKind.Some? then
      (if s.stringKind.value.KeyString? then 10 else 2) + s.unicodeDigits + (if s.escaped then 1 else 0)
    else if s.literalRemainder != "" then 1 + |s.literalRemainder|
    else if s.numberState.Some? then if s.numberState.value.Terminal() then 2 else 3
    else
      match Top(s.stack)
      case ArrFirst | ArrComma | ObjFirst | ObjComma => 1
      case ArrValue | ObjValue => 8
      case ObjColon => 9
      case ObjKey => 20
  }

  function Distance(s: State): nat { if s.stack == [] then 0 else |s.stack| + TopDistance(s) }

  /** The container around the innermost one waits for a value. */
  predicate OuterAwaits(stack: seq<Container>) { |stack| > 1 ==> stack[|stack| - 2].Awaiting() }

  lemma CloserAtClose(stack: seq<Container>, arr: bool)
    requires |stack| > 0 && OuterAwaits(stack) && Top(stack).IsArr() == arr
    ensures var s' := CloseContainer(Outside(stack), arr); s'.possible && Distance(s') <= |stack|
  {
    var below := stack[..|stack| - 1];
    if below != [] {
      assert Top(below) == stack[|stack| - 2];
    }
  }

  lemma CloserOutside(stack: seq<Container>)
    requires |stack| > 0 && OuterAwaits(stack)
    ensures var s := Outside(stack); var s' := Append(s, Closer(s)); s'.possible && Distance(s') < Distance(s)
  {
    CloserAtClose(stack, Top(stack).IsArr());
  }

  lemma CloserAfterNumber(stack: seq<Container>, n: NumberState)
    requires |stack| > 0 && OuterAwaits(stack) && Top(stack).Awaiting() && n.Terminal()
    ensures var s := Outside(stack).(numberState := Some(n));
            var s' := ProcessNumber(s, n, Closer(s)); s'.possible && Distance(s') < Distance(s)
  {
    var done := SetTop(stack, Top(stack).Finished());
    assert FinishValue(Outside(stack)) == Outside(done);
    CloserAtClose(done, Top(done).IsArr());
  }

  lemma CloserInString(s: State)
    requires s.stringKind.Some? && s == Outside(s.stack).(stringKind := s.stringKind, escaped := s.escaped, unicodeDigits := s.unicodeDigits)
    requires s.stack != [] && if s.stringKind.value.KeyString? then !Top(s.stack).IsArr() else Top(s.stack).Awaiting()
    ensures var s' := ProcessString(s, s.stringKind.value, Closer(s)); s'.possible && Distance(s') < Distance(s)
  {
  }

  lemma CloserInLiteral(s: State)
    requires s.literalRemainder != "" && s == Outside(s.stack).(literalRemainder := s.literalRemainder)
    requires s.stack != [] && Top(s.stack).Awaiting()
    ensures var s' := ProcessLiteral(s, Closer(s)); s'.possible && Distance(s') < Distance(s)
  {
  }

  lemma NextCloser(d: Derivation)
    requires Ok(d) && d.Partial?
    ensures var s := StateOf(d); var s' := Append(s, Closer(s)); s'.possible && Distance(s') < Distance(s)
  {
    var o, s := d.open, StateOf(d);
    assert OuterAwaits(Stack(o));
    Dispatch(o, d.token, Closer(s));
    match d.token {
      case NoToken => CloserOutside(Stack(o));
      case InString(_, _, _) => CloserInString(s);
      case InLiteral(_, _) => CloserInLiteral(s);
      case InNumber(_, _, _, _, n) =>
        if n.Terminal() {
          CloserAfterNumber(Stack(o), n);
        }
    }
  }

  lemma CloserIsNoLf(d: Derivation)
    requires Ok(d) && d.Partial?
    ensures Closer(StateOf(d)) != '\n'
  {
    if d.token.InLiteral? {
      var literal := d.token.read + d.token.rest;
      assert literal[|d.token.read|] == d.token.rest[0];
    }
  }

  /** Every partial derivation can be completed, and on the same line. */
  lemma {:induction false} Completable(d: Derivation) returns (rest: string)
    requires Ok(d)
    ensures Run(StateOf(d), rest) == Closed && '\n' !in rest
    decreases Distance(StateOf(d))
  {
    if d.Whole? {
      rest := "";
    } else {
      NextCloser(d);
      CloserIsNoLf(d);
      var c := Closer(StateOf(d));
      var d' := Step(d, c);
      var rest' := Completable(d');
      rest := [c] + rest';
      RunConcat(StateOf(d), [c], rest');
      RunOne(StateOf(d), c);
    }
  }

  /** A text that is not ruled out has a continuation without LF. */
  lemma ViableOnTheLine(text: string) returns (rest: string)
    requires Run(Init, text).possible
    ensures IsArrayTail(text + rest) && '\n' !in rest
  {
    var d := Explained(text);
    rest := Completable(d);
    RunConcat(Init, text, rest);
    CompleteIffArray(text + rest);
  }

  /** `possible` holds exactly after the viable prefixes. */
  lemma PossibleIffViable(text: string)
    ensures Run(Init, text).possible <==> exists rest :: IsArrayTail(text + rest)
  {
    if Run(Init, text).possible {
      var rest := ViableOnTheLine(text);
    }
    if exists rest :: IsArrayTail(text + rest) {
      var rest :| IsArrayTail(text + rest);
      JsonCompleteness.ArraysAreAccepted(text + rest);
      RunConcat(Init, text, rest);
      if !Run(Init, text).possible {
        RunImpossible(Run(Init, text), rest);
      }
    }
  }

  /** No JSON array is a proper prefix of another. */
  lemma ArraysArePrefixFree(text: string, rest: string)
    requires IsArrayTail(text) && IsArrayTail(text + rest)
    ensures rest == ""
  {
    JsonCompleteness.ArraysAreAccepted(text);
    JsonCompleteness.ArraysAreAccepted(text + rest);
    if rest != "" {
      RunConcat(Init, text, rest);
      RunConcat(Closed, [rest[0]], rest[1..]);
      assert rest == [rest[0]] + rest[1..];
      RunOne(Closed, rest[0]);
      RunImpossible(Append(Closed, rest[0]), rest[1..]);
    }
  }
}
