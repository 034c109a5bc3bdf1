/** The streaming validator as the object that callers drive character by character
    (benchmarks/src/agents/streaming-json-array.ts). */
module StreamingJsonArray {
  import opened JsonGrammar
  import opened JsonAutomaton
  import opened JsonTheorems
  import opened Options

  class Validator {
    var stack: seq<Container>
    var complete: bool
    var possible: bool
    var stringKind: Option<StringKind>
    var escaped: bool
    var unicodeDigits: nat
    var literalRemainder: string
    var numberState: Option<NumberState>
    ghost var seen: string

    ghost function View(): State
      reads this
    {
      State(stack, complete, possible, stringKind, escaped, unicodeDigits, literalRemainder, numberState)
    }

    ghost predicate Valid()
      reads this
    {
      View() == Run(Init, seen)
    }

    constructor ()
      ensures Valid() && seen == ""
    {
      stack := [ArrFirst];
      complete, possible := false, true;
      stringKind, numberState := None, None;
      escaped, unicodeDigits := false, 0;
      literalRemainder := "";
      seen := "";
    }

    /** The text read so far completes a JSON array. */
    predicate Complete()
      requires Valid()
      reads this
      ensures Complete() <==> IsArrayTail(seen)
    {
      CompleteIffArray(seen);
      possible && complete && stringKind.None? && literalRemainder == "" && numberState.None?
    }

    /** Some continuation of the text read so far completes a JSON array. */
    predicate Possible()
      requires Valid()
      reads this
      ensures Possible() <==> exists rest :: IsArrayTail(seen + rest)
    {
      PossibleIffViable(seen);
      possible
    }

    method FailNow()
      modifies this`possible
      ensures View() == Fail(old(View()))
    {
      possible := false;
    }

    method FinishValueNow()
      modifies this`stack, this`possible
      ensures View() == FinishValue(old(View()))
    {
      if |stack| == 0 {
        FailNow();
        return;
      }
      var container := stack[|stack| - 1];
      if container.ArrFirst? || container.ArrValue? {
        stack := stack[..|stack| - 1] + [ArrComma];
      } else if container.ObjValue? {
        stack := stack[..|stack| - 1] + [ObjComma];
      } else {
        FailNow();
      }
    }

    method CloseContainerNow(arr: bool)
      modifies this`stack, this`possible, this`complete
      ensures View() == CloseContainer(old(View()), arr)
    {
      if |stack| == 0 || stack[|stack| - 1].IsArr() != arr {
        FailNow();
        return;
      }
      stack := stack[..|stack| - 1];
      if |stack| == 0 {
        complete := true;
      } else {
        FinishValueNow();
      }
    }

    /** Returns false, changing nothing, when `c` starts no value. */
    method TryStartValue(c: char) returns (started: bool)
      modifies this`stack, this`stringKind, this`literalRemainder, this`numberState
      ensures !started ==> View() == old(View())
      ensures (if started then View() else Fail(View())) == StartValue(old(View()), c)
    {
      started := true;
      if c == '"' {
        stringKind := Some(ValueString);
      } else if c == '{' {
        stack := stack + [ObjFirst];
      } else if c == '[' {
        stack := stack + [ArrFirst];
      } else if c == 't' || c == 'f' || c == 'n' {
        literalRemainder := if c == 't' then "rue" else if c == 'f' then "alse" else "ull";
      } else if c == '-' {
        numberState := Some(Sign);
      } else if c == '0' {
        numberState := Some(Zero);
      } else if '1' <= c <= '9' {
        numberState := Some(Integer);
      } else {
        started := false;
      }
    }

    method StartValueOrFail(c: char)
      modifies this`stack, this`stringKind, this`literalRemainder, this`numberState, this`possible
      ensures View() == StartValue(old(View()), c)
    {
      var started := TryStartValue(c);
      if !started {
        FailNow();
      }
    }

    method ProcessOutsideTokenNow(c: char)
      modifies this`stack, this`stringKind, this`literalRemainder, this`numberState, this`possible, this`complete
      ensures View() == ProcessOutsideToken(old(View()), c)
    {
      if complete || !possible || |stack| == 0 {
        FailNow();
        return;
      }
      if IsWsChar(c) {
        return;
      }
      var container, below := stack[|stack| - 1], stack[..|stack| - 1];
      if container.IsArr() {
        if container.ArrComma? {
          if c == ',' {
            stack := below + [ArrValue];
          } else if c == ']' {
            CloseContainerNow(true);
          } else {
            FailNow();
          }
          return;
        }
        if container.ArrFirst? && c == ']' {
          CloseContainerNow(true);
          return;
        }
        StartValueOrFail(c);
        return;
      }
      if container.ObjComma? {
        if c == ',' {
          stack := below + [ObjKey];
        } else if c == '}' {
          CloseContainerNow(false);
        } else {
          FailNow();
        }
        return;
      }
      if container.ObjFirst? && c == '}' {
        CloseContainerNow(false);
        return;
      }
      if container.ObjFirst? || container.ObjKey? {
        if c == '"' {
          stringKind := Some(KeyString);
        } else {
          FailNow();
        }
        return;
      }
      if container.ObjColon? {
        if c == ':' {
          stack := below + [ObjValue];
        } else {
          FailNow();
        }
        return;
      }
      StartValueOrFail(c);
    }

    method ProcessNumberNow(c: char)
      requires possible && numberState.Some?
      modifies this`stack, this`stringKind, this`literalRemainder, this`numberState, this`possible, this`complete
      ensures View() == ProcessNumber(old(View()), old(numberState).value, c)
    {
      var n := numberState.value;
      if n.Sign? {
        numberState := if c == '0' then Some(Zero) else if '1' <= c <= '9' then Some(Integer) else None;
        if numberState.None? {
          FailNow();
        }
        return;
      }
      if n.Zero? || n.Integer? {
        if n.Integer? && IsDigit(c) {
          return;
        }
        if c == '.' {
          numberState := Some(Dot);
        } else if c == 'e' || c == 'E' {
          numberState := Some(Exponent);
        } else {
          EndNumber(c);
        }
        return;
      }
      if n.Dot? {
        if IsDigit(c) {
          numberState := Some(Fraction);
        } else {
          FailNow();
        }
        return;
      }
      if n.Fraction? {
        if IsDigit(c) {
          return;
        }
        if c == 'e' || c == 'E' {
          numberState := Some(Exponent);
        } else {
          EndNumber(c);
        }
        return;
      }
      if n.Exponent? {
        if c == '+' || c == '-' {
          numberState := Some(ExponentSign);
        } else if IsDigit(c) {
          numberState := Some(ExponentDigits);
        } else {
          FailNow();
        }
        return;
      }
      if n.ExponentSign? {
        if IsDigit(c) {
          numberState := Some(ExponentDigits);
        } else {
          FailNow();
        }
        return;
      }
      if !IsDigit(c) {
        EndNumber(c);
      }
    }

    method EndNumber(c: char)
      modifies this`stack, this`stringKind, this`literalRemainder, this`numberState, this`possible, this`complete
      ensures View() == ProcessOutsideToken(FinishValue(old(View()).(numberState := None)), c)
    {
      numberState := None;
      FinishValueNow();
      ProcessOutsideTokenNow(c);
    }

    method ProcessStringNow(c: char)
      requires possible && stringKind.Some?
      modifies this`stack, this`stringKind, this`escaped, this`unicodeDigits, this`possible
      ensures View() == ProcessString(old(View()), old(stringKind).value, c)
    {
      if unicodeDigits > 0 {
        if !IsHexDigit(c) {
          FailNow();
        } else {
          unicodeDigits := unicodeDigits - 1;
          if unicodeDigits == 0 {
            escaped := false;
          }
        }
      } else if escaped {
        if c == 'u' {
          unicodeDigits := 4;
        } else if IsEscapable(c) {
          escaped := false;
        } else {
          FailNow();
        }
      } else if c == '\\' {
        escaped := true;
      } else if c == '"' {
        var closedKind := stringKind.value;
        stringKind := None;
        if closedKind.KeyString? {
          if |stack| > 0 && !stack[|stack| - 1].IsArr() {
            stack := stack[..|stack| - 1] + [ObjColon];
          } else {
            FailNow();
          }
        } else {
          FinishValueNow();
        }
      } else if c < ' ' {
        FailNow();
      }
    }

    method AppendChar(c: char)
      requires Valid()
      modifies this
      ensures Valid() && seen == old(seen) + [c]
    {
      RunSnoc(Init, seen, c);
      seen := seen + [c];
      if !possible {
        return;
      }
      if stringKind.Some? {
        ProcessStringNow(c);
        return;
      }
      if literalRemainder != "" {
        if c != literalRemainder[0] {
          FailNow();
        } else {
          literalRemainder := literalRemainder[1..];
          if literalRemainder == "" {
            FinishValueNow();
          }
        }
        return;
      }
      if numberState.Some? {
        ProcessNumberNow(c);
      } else {
        ProcessOutsideTokenNow(c);
      }
    }
  }
}
