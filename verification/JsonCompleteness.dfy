/** Every text of the grammar drives the automaton where it should. */
module JsonCompleteness {
  import opened JsonGrammar
  import opened JsonAutomaton
  import opened Options

  predicate Open(stack: seq<Container>) { |stack| > 0 && Top(stack).Awaiting() }

  function Finish(stack: seq<Container>): seq<Container>
    requires Open(stack)
  {
    SetTop(stack, Top(stack).Finished())
  }

  function InString(stack: seq<Container>, kind: StringKind): State {
    Outside(stack).(stringKind := Some(kind))
  }

  function InNumber(stack: seq<Container>, n: NumberState): State {
    Outside(stack).(numberState := Some(n))
  }

  /** A value has been read, leaving `done` as the open containers: either that is
      already recorded, or the value is a number that only the next character ends. */
  predicate Settled(s: State, done: seq<Container>) {
    || s == Outside(done)
    || (s.numberState.Some? && s.numberState.value.Terminal() && s == InNumber(s.stack, s.numberState.value)
        && Open(s.stack) && Finish(s.stack) == done)
  }

  predicate IsDelimiter(c: char) { IsWsChar(c) || c == ',' || c == ']' || c == '}' }

  lemma SettledThenDelimiter(s: State, done: seq<Container>, c: char)
    requires Settled(s, done) && IsDelimiter(c)
    ensures Append(s, c) == Append(Outside(done), c)
  {
    if s != Outside(done) {
      assert NumberStep(s.numberState.value, c).None?;
      assert FinishValue(Outside(s.stack)) == Outside(done);
      assert Append(s, c) == ProcessOutsideToken(FinishValue(s.(numberState := None)), c);
    }
  }

  lemma {:induction false} WsRuns(stack: seq<Container>, s: string)
    requires |stack| > 0 && IsWs(s)
    ensures Run(Outside(stack), s) == Outside(stack)
    decreases |s|
  {
    if s != "" {
      assert Append(Outside(stack), s[0]) == Outside(stack);
      WsRuns(stack, s[1..]);
    }
  }

  lemma SettledThenWs(s: State, done: seq<Container>, ws: string)
    requires |done| > 0 && Settled(s, done) && IsWs(ws)
    ensures Settled(Run(s, ws), done)
  {
    if ws != "" {
      SettledThenDelimiter(s, done, ws[0]);
      assert Append(Outside(done), ws[0]) == Outside(done);
      WsRuns(done, ws[1..]);
    }
  }

  // ---- strings

  lemma UnitRuns(stack: seq<Container>, kind: StringKind, u: string)
    requires IsStringUnit(u)
    ensures Run(InString(stack, kind), u) == InString(stack, kind)
  {
    var s := InString(stack, kind);
    if |u| == 1 {
      RunOne(s, u[0]);
      assert u == [u[0]];
    } else if |u| == 2 {
      RunSnoc(s, [u[0]], u[1]);
      RunOne(s, u[0]);
      assert u == [u[0]] + [u[1]];
    } else {
      HexRuns(s.(escaped := true, unicodeDigits := 4), u[2..]);
      assert u[1..][1..] == u[2..];
    }
  }

  lemma {:induction false} HexRuns(s: State, u: string)
    requires s.possible && s.stringKind.Some? && s.escaped && |u| == s.unicodeDigits > 0
    requires forall i | 0 <= i < |u| :: IsHexDigit(u[i])
    ensures Run(s, u) == s.(escaped := false, unicodeDigits := 0)
    decreases |u|
  {
    var s' := Append(s, u[0]);
    if |u| == 1 {
      assert u == [u[0]];
      RunOne(s, u[0]);
    } else {
      HexRuns(s', u[1..]);
    }
  }

  lemma {:induction false} BodyRuns(stack: seq<Container>, kind: StringKind, s: string)
    requires IsStringBody(s)
    ensures Run(InString(stack, kind), s) == InString(stack, kind)
    decreases |s|
  {
    if s != "" {
      var k :| 0 <= k < |s| && IsStringBody(s[..k]) && IsStringUnit(s[k..]);
      BodyRuns(stack, kind, s[..k]);
      UnitRuns(stack, kind, s[k..]);
      RunConcat(InString(stack, kind), s[..k], s[k..]);
      assert s == s[..k] + s[k..];
    }
  }

  lemma StringRuns(s0: State, stack: seq<Container>, kind: StringKind, s: string)
    requires IsString(s) && Append(s0, '"') == InString(stack, kind)
    ensures Run(s0, s) == ProcessString(InString(stack, kind), kind, '"')
  {
    var body := s[1..|s| - 1];
    BodyRuns(stack, kind, body);
    RunSnoc(InString(stack, kind), body, '"');
    assert s[1..] == body + ['"'];
  }

  // ---- numbers

  lemma {:induction false} DigitsRun(stack: seq<Container>, n: NumberState, s: string)
    requires n.Integer? || n.Fraction? || n.ExponentDigits?
    requires AllDigits(s)
    ensures Run(InNumber(stack, n), s) == InNumber(stack, n)
    decreases |s|
  {
    if s != "" {
      assert Append(InNumber(stack, n), s[0]) == InNumber(stack, n);
      DigitsRun(stack, n, s[1..]);
    }
  }

  lemma IntRuns(s0: State, stack: seq<Container>, s: string) returns (n: NumberState)
    requires Open(stack) && IsInt(s)
    requires s0 == Outside(stack) || s0 == InNumber(stack, Sign)
    ensures (n.Zero? || n.Integer?) && Run(s0, s) == InNumber(stack, n)
  {
    n := if s == "0" then Zero else Integer;
    assert Append(s0, s[0]) == InNumber(stack, n);
    if s == "0" {
      RunOne(s0, '0');
    } else {
      DigitsRun(stack, Integer, s[1..]);
    }
  }

  lemma FracRuns(stack: seq<Container>, n: NumberState, s: string)
    requires (n.Zero? || n.Integer?) && IsFrac(s)
    ensures Run(InNumber(stack, n), s) == InNumber(stack, Fraction)
  {
    assert Append(InNumber(stack, n), s[0]) == InNumber(stack, Dot);
    assert Append(InNumber(stack, Dot), s[1]) == InNumber(stack, Fraction);
    assert s[1..][1..] == s[2..];
    DigitsRun(stack, Fraction, s[2..]);
  }

  lemma ExpRuns(stack: seq<Container>, n: NumberState, s: string)
    requires (n.Zero? || n.Integer? || n.Fraction?) && IsExp(s)
    ensures Run(InNumber(stack, n), s) == InNumber(stack, ExponentDigits)
  {
    assert Append(InNumber(stack, n), s[0]) == InNumber(stack, Exponent);
    assert s[1..][1..] == s[2..];
    if IsDigits(s[1..]) {
      assert IsDigit(s[1..][0]);
      assert Append(InNumber(stack, Exponent), s[1]) == InNumber(stack, ExponentDigits);
      forall i | 0 <= i < |s[2..]| ensures IsDigit(s[2..][i]) { assert s[2..][i] == s[1..][i + 1]; }
      DigitsRun(stack, ExponentDigits, s[2..]);
    } else {
      assert Append(InNumber(stack, Exponent), s[1]) == InNumber(stack, ExponentSign);
      assert IsDigit(s[2..][0]);
      assert Append(InNumber(stack, ExponentSign), s[2]) == InNumber(stack, ExponentDigits);
      assert s[2..][1..] == s[3..];
      assert Run(InNumber(stack, ExponentSign), s[2..]) == Run(InNumber(stack, ExponentDigits), s[3..]);
      DigitsRun(stack, ExponentDigits, s[3..]);
    }
  }

  lemma NumberRuns(stack: seq<Container>, s: string)
    requires Open(stack) && IsNumber(s)
    ensures Settled(Run(Outside(stack), s), Finish(stack))
  {
    var minus, whole, frac, exp :| NumberParts(s, minus, whole, frac, exp);
    var s0 := Run(Outside(stack), minus);
    assert s0 == Outside(stack) || s0 == InNumber(stack, Sign) by {
      RunOne(Outside(stack), '-');
    }
    var n := IntRuns(s0, stack, whole);
    if frac != "" {
      FracRuns(stack, n, frac);
      n := Fraction;
    }
    var n' := n;
    if exp != "" {
      ExpRuns(stack, n, exp);
      n' := ExponentDigits;
    }
    RunConcat(Outside(stack), minus, whole);
    RunConcat(Outside(stack), minus + whole, frac);
    RunConcat(Outside(stack), minus + whole + frac, exp);
    assert Run(Outside(stack), s) == InNumber(stack, n');
  }

  lemma LiteralRuns(stack: seq<Container>, s: string)
    requires Open(stack) && IsLiteral(s)
    ensures Run(Outside(stack), s) == Outside(Finish(stack))
  {
    var s1 := Append(Outside(stack), s[0]);
    assert s1 == Outside(stack).(literalRemainder := s[1..]);
    RemainderRuns(stack, s[1..]);
  }

  lemma {:induction false} RemainderRuns(stack: seq<Container>, rest: string)
    requires Open(stack) && rest != ""
    ensures Run(Outside(stack).(literalRemainder := rest), rest) == Outside(Finish(stack))
    decreases |rest|
  {
    var s := Outside(stack).(literalRemainder := rest);
    if |rest| == 1 {
      RunOne(s, rest[0]);
      assert rest == [rest[0]];
    } else {
      RemainderRuns(stack, rest[1..]);
    }
  }

  // ---- structure

  lemma RunThree(s0: State, s: string, a: nat, b: nat)
    requires a <= b <= |s|
    ensures Run(s0, s) == Run(Run(Run(s0, s[..a]), s[a..b]), s[b..])
  {
    RunConcat(s0, s[..a], s[a..]);
    RunConcat(Run(s0, s[..a]), s[a..b], s[b..]);
    assert s == s[..a] + s[a..] && s[a..] == s[a..b] + s[b..];
  }

  lemma {:induction false} ValueRuns(stack: seq<Container>, s: string)
    requires Open(stack) && IsValue(s)
    ensures Settled(Run(Outside(stack), s), Finish(stack))
    decreases |s|, 1
  {
    if IsLiteral(s) {
      LiteralRuns(stack, s);
    } else if IsNumber(s) {
      NumberRuns(stack, s);
    } else if IsString(s) {
      StringRuns(Outside(stack), stack, ValueString, s);
    } else if IsArray(s) {
      var inner := stack + [ArrFirst];
      assert inner[..|inner| - 1] == stack;
      assert Append(Outside(stack), '[') == Outside(inner);
      ArrayTailRuns(inner, s);
    } else {
      var inner := stack + [ObjFirst];
      assert inner[..|inner| - 1] == stack;
      assert Append(Outside(stack), '{') == Outside(inner);
      ObjectTailRuns(inner, s);
    }
  }

  lemma {:induction false} ElementRuns(stack: seq<Container>, s: string)
    requires Open(stack) && IsElement(s)
    ensures Settled(Run(Outside(stack), s), Finish(stack))
    decreases |s|, 2
  {
    var a, b :| 0 <= a <= b <= |s| && IsWs(s[..a]) && IsValue(s[a..b]) && IsWs(s[b..]);
    WsRuns(stack, s[..a]);
    ValueRuns(stack, s[a..b]);
    SettledThenWs(Run(Outside(stack), s[a..b]), Finish(stack), s[b..]);
    RunThree(Outside(stack), s, a, b);
  }

  lemma SplitAt(s0: State, s: string, k: nat)
    requires k < |s|
    ensures Run(s0, s) == Run(Append(Run(s0, s[..k]), s[k]), s[k + 1..])
  {
    assert s == s[..k] + s[k..];
    RunConcat(s0, s[..k], s[k..]);
    assert s[k..][1..] == s[k + 1..];
  }

  lemma {:induction false} ElementsRun(stack: seq<Container>, s: string)
    requires Open(stack) && Top(stack).IsArr() && IsElements(s)
    ensures Settled(Run(Outside(stack), s), Finish(stack))
    decreases |s|, 3
  {
    if IsElement(s) {
      ElementRuns(stack, s);
    } else {
      var k :| 0 <= k < |s| && s[k] == ',' && IsElement(s[..k]) && IsElements(s[k + 1..]);
      ElementRuns(stack, s[..k]);
      var next := SetTop(stack, ArrValue);
      CommaInArray(Run(Outside(stack), s[..k]), stack);
      ElementsRun(next, s[k + 1..]);
      SplitAt(Outside(stack), s, k);
    }
  }

  lemma CommaInArray(s: State, stack: seq<Container>)
    requires Open(stack) && Top(stack).IsArr() && Settled(s, Finish(stack))
    ensures var next := SetTop(stack, ArrValue);
            Append(s, ',') == Outside(next) && Finish(next) == Finish(stack)
  {
    SettledThenDelimiter(s, Finish(stack), ',');
    assert SetTop(Finish(stack), ArrValue) == SetTop(stack, ArrValue);
  }

  /** Where the closing bracket or brace of the innermost container leads. */
  function AfterClose(stack: seq<Container>): State
    requires |stack| > 0 && (|stack| > 1 ==> Open(stack[..|stack| - 1]))
  {
    if |stack| == 1 then Closed else Outside(Finish(stack[..|stack| - 1]))
  }

  lemma CloseAtEnd(s: State, done: seq<Container>, c: char)
    requires |done| > 0 && (|done| > 1 ==> Open(done[..|done| - 1])) && Settled(s, done)
    requires (c == ']' && (Top(done).ArrComma? || Top(done).ArrFirst?)) || (c == '}' && (Top(done).ObjComma? || Top(done).ObjFirst?))
    ensures Append(s, c) == AfterClose(done)
  {
    SettledThenDelimiter(s, done, c);
  }

  lemma {:induction false} ArrayTailRuns(stack: seq<Container>, s: string)
    requires |stack| > 0 && (|stack| > 1 ==> Open(stack[..|stack| - 1]))
    requires Top(stack) == ArrFirst && IsArray(s)
    ensures Run(Outside(stack), s[1..]) == AfterClose(stack)
    decreases |s|, 0
  {
    var inner := s[1..|s| - 1];
    var mid := Run(Outside(stack), inner);
    var done := stack;
    if IsWs(inner) {
      WsRuns(stack, inner);
    } else {
      ElementsRun(stack, inner);
      done := Finish(stack);
    }
    CloseAtEnd(mid, done, ']');
    assert done[..|done| - 1] == stack[..|stack| - 1];
    assert s[1..] == inner + [']'];
    RunSnoc(Outside(stack), inner, ']');
  }

  lemma {:induction false} ObjectTailRuns(stack: seq<Container>, s: string)
    requires |stack| > 1 && Open(stack[..|stack| - 1])
    requires Top(stack) == ObjFirst && IsObject(s)
    ensures Run(Outside(stack), s[1..]) == AfterClose(stack)
    decreases |s|, 0
  {
    var inner := s[1..|s| - 1];
    var mid := Run(Outside(stack), inner);
    var done := stack;
    if IsWs(inner) {
      WsRuns(stack, inner);
    } else {
      MembersRun(stack, inner);
      done := SetTop(stack, ObjComma);
    }
    CloseAtEnd(mid, done, '}');
    assert done[..|done| - 1] == stack[..|stack| - 1];
    assert s[1..] == inner + ['}'];
    RunSnoc(Outside(stack), inner, '}');
  }

  lemma KeyRuns(stack: seq<Container>, s: string)
    requires |stack| > 0 && (Top(stack).ObjFirst? || Top(stack).ObjKey?) && IsKey(s)
    ensures Run(Outside(stack), s) == Outside(SetTop(stack, ObjColon))
  {
    var a, b :| 0 <= a <= b <= |s| && IsWs(s[..a]) && IsString(s[a..b]) && IsWs(s[b..]);
    WsRuns(stack, s[..a]);
    StringRuns(Outside(stack), stack, KeyString, s[a..b]);
    WsRuns(SetTop(stack, ObjColon), s[b..]);
    RunThree(Outside(stack), s, a, b);
  }

  lemma {:induction false} MemberRuns(stack: seq<Container>, s: string)
    requires |stack| > 0 && (Top(stack).ObjFirst? || Top(stack).ObjKey?) && IsMember(s)
    ensures Settled(Run(Outside(stack), s), SetTop(stack, ObjComma))
    decreases |s|, 2
  {
    var k :| 0 <= k < |s| && s[k] == ':' && IsKey(s[..k]) && IsElement(s[k + 1..]);
    KeyRuns(stack, s[..k]);
    var inValue := SetTop(stack, ObjValue);
    assert SetTop(SetTop(stack, ObjColon), ObjValue) == inValue;
    assert Append(Outside(SetTop(stack, ObjColon)), ':') == Outside(inValue);
    ElementRuns(inValue, s[k + 1..]);
    assert Finish(inValue) == SetTop(stack, ObjComma);
    SplitAt(Outside(stack), s, k);
  }

  lemma {:induction false} MembersRun(stack: seq<Container>, s: string)
    requires |stack| > 0 && (Top(stack).ObjFirst? || Top(stack).ObjKey?) && IsMembers(s)
    ensures Settled(Run(Outside(stack), s), SetTop(stack, ObjComma))
    decreases |s|, 3
  {
    if IsMember(s) {
      MemberRuns(stack, s);
    } else {
      var k :| 0 <= k < |s| && s[k] == ',' && IsMember(s[..k]) && IsMembers(s[k + 1..]);
      MemberRuns(stack, s[..k]);
      CommaInObject(Run(Outside(stack), s[..k]), stack);
      MembersRun(SetTop(stack, ObjKey), s[k + 1..]);
      SplitAt(Outside(stack), s, k);
    }
  }

  lemma CommaInObject(s: State, stack: seq<Container>)
    requires |stack| > 0 && Settled(s, SetTop(stack, ObjComma))
    ensures var next := SetTop(stack, ObjKey);
            Append(s, ',') == Outside(next) && SetTop(next, ObjComma) == SetTop(stack, ObjComma)
  {
    SettledThenDelimiter(s, SetTop(stack, ObjComma), ',');
    assert SetTop(SetTop(stack, ObjComma), ObjKey) == SetTop(stack, ObjKey);
  }

  /** Every JSON array is accepted. */
  lemma ArraysAreAccepted(s: string)
    requires IsArrayTail(s)
    ensures Run(Init, s) == Closed
  {
    ArrayTailRuns([ArrFirst], "[" + s);
    assert ("[" + s)[1..] == s;
  }
}
