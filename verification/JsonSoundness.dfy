/** Whatever the automaton has not ruled out is explained by the grammar: a partial
    derivation whose text is exactly the text read so far. */
module JsonSoundness {
  import opened JsonGrammar
  import opened JsonAutomaton
  import opened Sequences
  import opened Options

  // ---- extending grammar phrases on the right

  ghost predicate IsItem(arr: bool, s: string) { if arr then IsElement(s) else IsMember(s) }

  ghost predicate IsItems(arr: bool, s: string) { if arr then IsElements(s) else IsMembers(s) }

  /** Complete items, each followed by its comma. */
  ghost predicate IsItemsThenComma(arr: bool, s: string)
    decreases |s|
  {
    s == "" || exists k | 0 <= k < |s| :: EndsWithItem(arr, s, k) && IsItemsThenComma(arr, s[..k])
  }

  ghost predicate EndsWithItem(arr: bool, s: string, k: nat)
    requires k < |s|
  {
    s[|s| - 1] == ',' && IsItem(arr, s[k..|s| - 1])
  }

  lemma OneMoreItem(arr: bool, done: string, item: string)
    requires IsItemsThenComma(arr, done) && IsItem(arr, item)
    ensures IsItemsThenComma(arr, done + item + ",")
  {
    var s := done + item + ",";
    assert s[|done|..|s| - 1] == item;
    assert EndsWithItem(arr, s, |done|);
    assert s[..|done|] == done;
  }

  lemma CommaJoins(arr: bool, item: string, rest: string)
    requires IsItem(arr, item) && IsItems(arr, rest)
    ensures IsItems(arr, item + "," + rest)
  {
    var s, k := item + "," + rest, |item|;
    assert s[k] == ',';
    assert s[..k] == item;
    assert s[k + 1..] == rest;
  }

  lemma Regroup(done: string, k: nat, rest: string)
    requires k < |done| && done[|done| - 1] == ','
    ensures done[..k] + (done[k..|done| - 1] + "," + rest) == done + rest
  {
  }

  lemma {:induction false} PrependItems(arr: bool, done: string, rest: string)
    requires IsItemsThenComma(arr, done) && IsItems(arr, rest)
    ensures IsItems(arr, done + rest)
    decreases |done|
  {
    if done == "" {
      assert done + rest == rest;
    } else {
      var k :| 0 <= k < |done| && EndsWithItem(arr, done, k) && IsItemsThenComma(arr, done[..k]);
      var item := done[k..|done| - 1];
      CommaJoins(arr, item, rest);
      PrependItems(arr, done[..k], item + "," + rest);
      Regroup(done, k, rest);
    }
  }

  lemma OneMoreUnit(body: string, u: string)
    requires IsStringBody(body) && IsStringUnit(u)
    ensures IsStringBody(body + u)
  {
    CutBetween(body, u);
  }

  lemma WsThenValue(ws: string, v: string)
    requires IsWs(ws) && IsValue(v)
    ensures IsElement(ws + v)
  {
    var s := ws + v;
    assert s[..|ws|] == ws && s[|ws|..|s|] == v && s[|s|..] == "";
  }

  lemma ElementThenWs(e: string, c: char)
    requires IsElement(e) && IsWsChar(c)
    ensures IsElement(e + [c])
  {
    var a, b :| 0 <= a <= b <= |e| && IsWs(e[..a]) && IsValue(e[a..b]) && IsWs(e[b..]);
    var s := e + [c];
    assert s[..a] == e[..a] && s[a..b] == e[a..b] && s[b..] == e[b..] + [c];
  }

  lemma KeyThenWs(key: string, c: char)
    requires IsKey(key) && IsWsChar(c)
    ensures IsKey(key + [c])
  {
    var a, b :| 0 <= a <= b <= |key| && IsWs(key[..a]) && IsString(key[a..b]) && IsWs(key[b..]);
    var s := key + [c];
    assert s[..a] == key[..a] && s[a..b] == key[a..b] && s[b..] == key[b..] + [c];
  }

  /** A key, its colon and the whitespace before the value. */
  ghost predicate IsKeyColon(s: string) {
    exists k | 0 <= k < |s| :: s[k] == ':' && IsKey(s[..k]) && IsWs(s[k + 1..])
  }

  lemma KeyColonThenValue(part: string, v: string)
    requires IsKeyColon(part) && IsValue(v)
    ensures IsMember(part + v)
  {
    var k :| 0 <= k < |part| && part[k] == ':' && IsKey(part[..k]) && IsWs(part[k + 1..]);
    WsThenValue(part[k + 1..], v);
    CutLeft(part, v, k);
    CutLeft(part, v, k + 1);
    assert (part + v)[k] == ':';
  }

  lemma MemberThenWs(m: string, c: char)
    requires IsMember(m) && IsWsChar(c)
    ensures IsMember(m + [c])
  {
    var k :| 0 <= k < |m| && m[k] == ':' && IsKey(m[..k]) && IsElement(m[k + 1..]);
    ElementThenWs(m[k + 1..], c);
    CutLeft(m, [c], k);
    CutLeft(m, [c], k + 1);
    assert (m + [c])[k] == ':';
  }

  // ---- partial derivations

  /** An open container: the complete items with their commas, and the piece after them. */
  datatype Frame = Frame(container: Container, done: string, part: string)

  ghost predicate FrameOk(f: Frame) {
    && IsItemsThenComma(f.container.IsArr(), f.done)
    && match f.container
       case ArrFirst => f.done == "" && IsWs(f.part)
       case ArrValue => IsWs(f.part)
       case ArrComma => IsElement(f.part)
       case ObjFirst => f.done == "" && IsWs(f.part)
       case ObjKey => IsWs(f.part)
       case ObjColon => IsKey(f.part)
       case ObjValue => IsKeyColon(f.part)
       case ObjComma => IsMember(f.part)
  }

  function FrameText(f: Frame): string {
    (if f.container.IsArr() then "[" else "{") + f.done + f.part
  }

  datatype Token =
    | NoToken
    | InString(kind: StringKind, body: string, esc: string)
    | InLiteral(read: string, rest: string)
    | InNumber(minus: string, whole: string, frac: string, exp: string, state: NumberState)

  /** An escape sequence that is not complete yet. */
  predicate EscapeOk(esc: string) {
    && (|esc| > 0 ==> esc[0] == '\\')
    && (|esc| > 1 ==> esc[1] == 'u')
    && |esc| < 6
    && forall i | 2 <= i < |esc| :: IsHexDigit(esc[i])
  }

  ghost predicate TokenOk(top: Container, t: Token) {
    match t
    case NoToken => true
    case InString(kind, body, esc) =>
      && (if kind.KeyString? then top.ObjFirst? || top.ObjKey? else top.Awaiting())
      && IsStringBody(body)
      && EscapeOk(esc)
    case InLiteral(read, rest) => top.Awaiting() && IsLiteral(read + rest) && rest != ""
    case InNumber(minus, whole, frac, exp, n) => top.Awaiting() && PartsOk(minus, whole, frac, exp, n)
  }

  predicate PartsOk(minus: string, whole: string, frac: string, exp: string, n: NumberState) {
    && (minus == "" || minus == "-")
    && (if n.Sign? then minus == "-" && whole == "" else IsInt(whole))
    && (n.Zero? ==> whole == "0")
    && (n.Integer? ==> IsNonZeroDigit(whole[0]))
    && (n.Sign? || n.Zero? || n.Integer? ==> frac == "")
    && (n.Dot? ==> frac == ".")
    && (n.Fraction? ==> IsFrac(frac))
    && (n.Exponent? || n.ExponentSign? || n.ExponentDigits? ==> frac == "" || IsFrac(frac))
    && (match n
        case Exponent => exp == "e" || exp == "E"
        case ExponentSign => |exp| == 2 && (exp[0] == 'e' || exp[0] == 'E') && (exp[1] == '+' || exp[1] == '-')
        case ExponentDigits => IsExp(exp)
        case _ => exp == "")
  }

  function TokenText(t: Token): string {
    match t
    case NoToken => ""
    case InString(_, body, esc) => "\"" + body + esc
    case InLiteral(read, _) => read
    case InNumber(minus, whole, frac, exp, _) => minus + whole + frac + exp
  }

  /** The open containers, innermost last; the outermost is the array under validation. */
  datatype Open = Base(frame: Frame) | Nested(outer: Open, frame: Frame)

  ghost predicate OpenOk(o: Open) {
    && FrameOk(o.frame)
    && match o
       case Base(f) => f.container.IsArr()
       case Nested(outer, _) => OpenOk(outer) && outer.frame.container.Awaiting()
  }

  function OpenText(o: Open): string {
    match o
    case Base(f) => FrameText(f)
    case Nested(outer, f) => OpenText(outer) + FrameText(f)
  }

  function Stack(o: Open): (stack: seq<Container>)
    ensures |stack| > 0 && Top(stack) == o.frame.container
  {
    match o
    case Base(f) => [f.container]
    case Nested(outer, f) => Stack(outer) + [f.container]
  }

  datatype Derivation = Partial(open: Open, token: Token) | Whole(text: string)

  ghost predicate Ok(d: Derivation) {
    match d
    case Partial(o, token) => OpenOk(o) && TokenOk(o.frame.container, token)
    case Whole(text) => IsArray(text)
  }

  function Text(d: Derivation): string {
    match d
    case Partial(o, token) => OpenText(o) + TokenText(token)
    case Whole(text) => text
  }

  /** The automaton state that a derivation stands for. */
  function StateOf(d: Derivation): State {
    match d
    case Whole(_) => Closed
    case Partial(o, token) =>
      var s := Outside(Stack(o));
      match token
      case NoToken => s
      case InString(kind, _, esc) =>
        s.(stringKind := Some(kind), escaped := esc != "", unicodeDigits := if 2 <= |esc| < 6 then 6 - |esc| else 0)
      case InLiteral(_, rest) => s.(literalRemainder := rest)
      case InNumber(_, _, _, _, n) => s.(numberState := Some(n))
  }

  // ---- replacing the innermost frame

  lemma ReplaceFrame(o: Open, f: Frame, added: string)
    requires OpenOk(o) && FrameOk(f) && f.container.IsArr() == o.frame.container.IsArr()
    requires FrameText(f) == FrameText(o.frame) + added
    ensures var o' := o.(frame := f);
            OpenOk(o') && OpenText(o') == OpenText(o) + added && Stack(o') == SetTop(Stack(o), f.container)
  {
  }

  lemma GrowPart(c: Container, f: Frame, v: string)
    requires c.IsArr() == f.container.IsArr()
    ensures FrameText(Frame(c, f.done, f.part + v)) == FrameText(f) + v
  {
  }

  lemma FinishedFrame(f: Frame, v: string)
    requires FrameOk(f) && f.container.Awaiting() && IsValue(v)
    ensures FrameOk(Frame(f.container.Finished(), f.done, f.part + v))
  {
    if f.container.IsArr() {
      WsThenValue(f.part, v);
    } else {
      KeyColonThenValue(f.part, v);
    }
  }

  /** Attach a finished value to the innermost container. */
  lemma AttachValue(o: Open, v: string) returns (o': Open)
    requires OpenOk(o) && o.frame.container.Awaiting() && IsValue(v)
    ensures OpenOk(o') && OpenText(o') == OpenText(o) + v
    ensures FinishValue(Outside(Stack(o))) == Outside(Stack(o'))
  {
    var f := Frame(o.frame.container.Finished(), o.frame.done, o.frame.part + v);
    FinishedFrame(o.frame, v);
    GrowPart(f.container, o.frame, v);
    ReplaceFrame(o, f, v);
    o' := o.(frame := f);
  }

  lemma FrameCloses(f: Frame)
    requires FrameOk(f) && (f.container.ArrFirst? || f.container.ArrComma? || f.container.ObjFirst? || f.container.ObjComma?)
    ensures f.container.IsArr() ==> IsArray(FrameText(f) + "]")
    ensures !f.container.IsArr() ==> IsObject(FrameText(f) + "}")
  {
    var inner := f.done + f.part;
    if f.container.ArrComma? || f.container.ObjComma? {
      PrependItems(f.container.IsArr(), f.done, f.part);
    }
    var s := FrameText(f) + if f.container.IsArr() then "]" else "}";
    assert s[1..|s| - 1] == inner;
    if f.container.ArrFirst? || f.container.ObjFirst? {
      assert inner == f.part;
    }
  }

  lemma CloseNested(o: Open, arr: bool)
    requires o.Nested? && o.frame.container.IsArr() == arr
    ensures CloseContainer(Outside(Stack(o)), arr) == FinishValue(Outside(Stack(o.outer)))
  {
    CutBetween(Stack(o.outer), [o.frame.container]);
  }

  lemma ClosedValue(f: Frame, c: char)
    requires FrameOk(f)
    requires (c == ']' && (f.container.ArrFirst? || f.container.ArrComma?)) || (c == '}' && (f.container.ObjFirst? || f.container.ObjComma?))
    ensures IsValue(FrameText(f) + [c])
  {
    FrameCloses(f);
  }

  lemma StepClose(o: Open, c: char) returns (d: Derivation)
    requires OpenOk(o)
    requires var top := o.frame.container;
             (c == ']' && (top.ArrFirst? || top.ArrComma?)) || (c == '}' && (top.ObjFirst? || top.ObjComma?))
    ensures Ok(d) && Text(d) == OpenText(o) + [c]
    ensures StateOf(d) == CloseContainer(Outside(Stack(o)), c == ']')
  {
    if o.Base? {
      d := StepCloseBase(o, c);
    } else {
      d := StepCloseNested(o, c);
    }
  }

  lemma StepCloseBase(o: Open, c: char) returns (d: Derivation)
    requires OpenOk(o) && o.Base? && c == ']' && (o.frame.container.ArrFirst? || o.frame.container.ArrComma?)
    ensures Ok(d) && Text(d) == OpenText(o) + [c]
    ensures StateOf(d) == CloseContainer(Outside(Stack(o)), true)
  {
    hide IsArray, IsObject, FrameOk;
    FrameCloses(o.frame);
    d := Whole(FrameText(o.frame) + [c]);
  }

  lemma StepCloseNested(o: Open, c: char) returns (d: Derivation)
    requires OpenOk(o) && o.Nested?
    requires var top := o.frame.container;
             (c == ']' && (top.ArrFirst? || top.ArrComma?)) || (c == '}' && (top.ObjFirst? || top.ObjComma?))
    ensures Ok(d) && Text(d) == OpenText(o) + [c]
    ensures StateOf(d) == CloseContainer(Outside(Stack(o)), c == ']')
  {
    hide IsArray, IsObject, IsValue, FrameOk, CloseContainer, FinishValue;
    ClosedValue(o.frame, c);
    CloseNested(o, c == ']');
    var o' := AttachValue(o.outer, FrameText(o.frame) + [c]);
    d := Partial(o', NoToken);
    Associate(OpenText(o.outer), FrameText(o.frame), [c]);
  }

  lemma KeyColonThenWs(part: string, c: char)
    requires IsKeyColon(part) && IsWsChar(c)
    ensures IsKeyColon(part + [c])
  {
    var k :| 0 <= k < |part| && part[k] == ':' && IsKey(part[..k]) && IsWs(part[k + 1..]);
    CutLeft(part, [c], k);
    CutLeft(part, [c], k + 1);
    assert (part + [c])[k] == ':';
  }

  lemma WsFrame(f: Frame, c: char)
    requires FrameOk(f) && IsWsChar(c)
    ensures FrameOk(f.(part := f.part + [c]))
  {
    match f.container {
      case ArrComma => ElementThenWs(f.part, c);
      case ObjColon => KeyThenWs(f.part, c);
      case ObjValue => KeyColonThenWs(f.part, c);
      case ObjComma => MemberThenWs(f.part, c);
      case _ =>
    }
  }

  lemma StepWs(o: Open, c: char) returns (o': Open)
    requires OpenOk(o) && IsWsChar(c)
    ensures OpenOk(o') && OpenText(o') == OpenText(o) + [c] && Stack(o') == Stack(o)
  {
    var f := o.frame.(part := o.frame.part + [c]);
    WsFrame(o.frame, c);
    GrowPart(f.container, o.frame, [c]);
    ReplaceFrame(o, f, [c]);
    o' := o.(frame := f);
    assert SetTop(Stack(o), o.frame.container) == Stack(o);
  }

  lemma KeyThenColon(key: string)
    requires IsKey(key)
    ensures IsKeyColon(key + ":")
  {
    var s := key + ":";
    CutBetween(key, ":");
    assert s[|key|] == ':' && s[|key| + 1..] == "";
  }

  lemma CommaFrame(top: Frame, f: Frame)
    requires FrameOk(top)
    requires top.container.ArrComma? || top.container.ObjComma?
    requires f == Frame(if top.container.IsArr() then ArrValue else ObjKey, top.done + top.part + ",", "")
    ensures FrameOk(f) && FrameText(f) == FrameText(top) + ","
  {
    OneMoreItem(top.container.IsArr(), top.done, top.part);
    TextAssociates(top.container, top.done, top.part);
  }

  lemma TextAssociates(c: Container, done: string, part: string)
    ensures (if c.IsArr() then "[" else "{") + (done + part + ",") + "" == FrameText(Frame(c, done, part)) + ","
  {
  }

  lemma ColonFrame(top: Frame, f: Frame)
    requires FrameOk(top) && top.container.ObjColon? && f == Frame(ObjValue, top.done, top.part + ":")
    ensures FrameOk(f) && FrameText(f) == FrameText(top) + ":"
  {
    KeyThenColon(top.part);
  }

  lemma StepSeparator(o: Open, c: char, next: Container) returns (o': Open)
    requires OpenOk(o)
    requires var top := o.frame.container;
             || (c == ',' && top.ArrComma? && next == ArrValue)
             || (c == ',' && top.ObjComma? && next == ObjKey)
             || (c == ':' && top.ObjColon? && next == ObjValue)
    ensures OpenOk(o') && OpenText(o') == OpenText(o) + [c]
    ensures Stack(o') == SetTop(Stack(o), next)
  {
    var top := o.frame;
    var f;
    if c == ',' {
      f := Frame(next, top.done + top.part + ",", "");
      CommaFrame(top, f);
    } else {
      f := Frame(next, top.done, top.part + ":");
      ColonFrame(top, f);
    }
    ReplaceFrame(o, f, [c]);
    o' := o.(frame := f);
  }

  lemma StepStart(o: Open, c: char) returns (d: Derivation)
    requires OpenOk(o) && o.frame.container.Awaiting()
    requires StartValue(Outside(Stack(o)), c).possible
    ensures Ok(d) && Text(d) == OpenText(o) + [c]
    ensures StateOf(d) == StartValue(Outside(Stack(o)), c)
  {
    if c == '{' || c == '[' {
      var f := Frame(if c == '[' then ArrFirst else ObjFirst, "", "");
      d := Partial(Nested(o, f), NoToken);
      assert FrameText(f) == [c];
    } else {
      var token :=
        if c == '"' then InString(ValueString, "", "")
        else if c == 't' then InLiteral("t", "rue")
        else if c == 'f' then InLiteral("f", "alse")
        else if c == 'n' then InLiteral("n", "ull")
        else if c == '-' then InNumber("-", "", "", "", Sign)
        else InNumber("", [c], "", "", if c == '0' then Zero else Integer);
      d := Partial(o, token);
      StartTokenOk(o.frame.container, token, c);
    }
  }

  lemma StartTokenOk(top: Container, token: Token, c: char)
    requires top.Awaiting()
    requires || (token == InString(ValueString, "", "") && c == '"')
             || (token.InLiteral? && token.read == [c] && token.rest in ["rue", "alse", "ull"] && IsLiteral([c] + token.rest))
             || (token == InNumber("-", "", "", "", Sign) && c == '-')
             || (token == InNumber("", [c], "", "", Zero) && c == '0')
             || (token == InNumber("", [c], "", "", Integer) && IsNonZeroDigit(c))
    ensures TokenOk(top, token) && TokenText(token) == [c]
  {
    assert token.InString? ==> TokenText(token) == "\"";
  }

  lemma StepInArray(o: Open, c: char) returns (d: Derivation)
    requires OpenOk(o) && o.frame.container.IsArr()
    requires !IsWsChar(c) && ProcessOutsideToken(Outside(Stack(o)), c).possible
    ensures Ok(d) && Text(d) == OpenText(o) + [c]
    ensures StateOf(d) == ProcessOutsideToken(Outside(Stack(o)), c)
  {
    var top := o.frame.container;
    if c == ',' {
      var o' := StepSeparator(o, c, ArrValue);
      d := Partial(o', NoToken);
    } else if c == ']' {
      d := StepClose(o, c);
    } else {
      d := StepStart(o, c);
    }
  }

  lemma StepInObject(o: Open, c: char) returns (d: Derivation)
    requires OpenOk(o) && !o.frame.container.IsArr()
    requires !IsWsChar(c) && ProcessOutsideToken(Outside(Stack(o)), c).possible
    ensures Ok(d) && Text(d) == OpenText(o) + [c]
    ensures StateOf(d) == ProcessOutsideToken(Outside(Stack(o)), c)
  {
    var top := o.frame.container;
    if c == ',' || c == ':' {
      var o' := StepSeparator(o, c, if c == ',' then ObjKey else ObjValue);
      d := Partial(o', NoToken);
    } else if c == '}' {
      d := StepClose(o, c);
    } else if top.ObjValue? {
      d := StepStart(o, c);
    } else {
      d := Partial(o, InString(KeyString, "", ""));
    }
  }

  lemma StepOutside(o: Open, c: char) returns (d: Derivation)
    requires OpenOk(o)
    requires ProcessOutsideToken(Outside(Stack(o)), c).possible
    ensures Ok(d) && Text(d) == OpenText(o) + [c]
    ensures StateOf(d) == ProcessOutsideToken(Outside(Stack(o)), c)
  {
    if IsWsChar(c) {
      var o' := StepWs(o, c);
      d := Partial(o', NoToken);
    } else if o.frame.container.IsArr() {
      d := StepInArray(o, c);
    } else {
      d := StepInObject(o, c);
    }
  }

  // ---- inside strings

  lemma StepString(o: Open, t: Token, c: char) returns (d: Derivation)
    requires OpenOk(o)
    requires t.InString? && TokenOk(o.frame.container, t)
    requires var s := StateOf(Partial(o, t)); ProcessString(s, t.kind, c).possible
    ensures Ok(d) && Text(d) == OpenText(o) + TokenText(t) + [c]
    ensures StateOf(d) == ProcessString(StateOf(Partial(o, t)), t.kind, c)
  {
    if t.esc == "" && c == '"' {
      d := StepCloseString(o, t);
    } else {
      d := StepInString(o, t, c);
    }
  }

  lemma StepCloseString(o: Open, t: Token) returns (d: Derivation)
    requires OpenOk(o) && t.InString? && TokenOk(o.frame.container, t) && t.esc == ""
    ensures Ok(d) && Text(d) == OpenText(o) + TokenText(t) + "\""
    ensures StateOf(d) == ProcessString(StateOf(Partial(o, t)), t.kind, '"')
  {
    hide IsString, IsStringBody;
    var text := TokenText(t) + "\"";
    Associate(OpenText(o), TokenText(t), "\"");
    ClosesString(t);
    if t.kind.ValueString? {
      var o' := AttachValue(o, text);
      d := Partial(o', NoToken);
    } else {
      var o' := AttachKey(o, text);
      d := Partial(o', NoToken);
    }
  }

  lemma StepInString(o: Open, t: Token, c: char) returns (d: Derivation)
    requires OpenOk(o) && t.InString? && TokenOk(o.frame.container, t) && !(t.esc == "" && c == '"')
    requires ProcessString(StateOf(Partial(o, t)), t.kind, c).possible
    ensures Ok(d) && Text(d) == OpenText(o) + TokenText(t) + [c]
    ensures StateOf(d) == ProcessString(StateOf(Partial(o, t)), t.kind, c)
  {
    hide IsStringBody;
    Associate(OpenText(o), TokenText(t), [c]);
    StringTokenText(t, c);
    StringTokenOk(o.frame.container, t, c);
    d := Partial(o, StringToken(t, c));
  }

  lemma ClosesString(t: Token)
    requires t.InString? && IsStringBody(t.body) && t.esc == ""
    ensures IsString(TokenText(t) + "\"")
  {
    var s := TokenText(t) + "\"";
    assert s[1..|s| - 1] == t.body;
  }

  lemma AttachKey(o: Open, key: string) returns (o': Open)
    requires OpenOk(o) && IsString(key)
    requires var top := o.frame.container; top.ObjFirst? || top.ObjKey?
    ensures OpenOk(o') && OpenText(o') == OpenText(o) + key
    ensures Stack(o') == SetTop(Stack(o), ObjColon)
  {
    var top := o.frame;
    var part := top.part + key;
    assert part[..|top.part|] == top.part && part[|top.part|..|part|] == key && part[|part|..] == "";
    var f := Frame(ObjColon, top.done, part);
    assert FrameText(f) == FrameText(top) + key;
    ReplaceFrame(o, f, key);
    o' := o.(frame := f);
  }

  predicate EndsUnit(esc: string, c: char) {
    |esc| == 5 || (|esc| == 1 && c != 'u') || (|esc| == 0 && c != '\\')
  }

  /** The characters that may come next inside a string, other than the closing quote. */
  predicate MayFollow(esc: string, c: char) {
    && (esc == "" ==> c == '\\' || IsUnescaped(c))
    && (|esc| == 1 ==> c == 'u' || IsEscapable(c))
    && (|esc| > 1 ==> IsHexDigit(c))
  }

  lemma EscapeGrows(esc: string, c: char)
    requires EscapeOk(esc) && MayFollow(esc, c)
    ensures if EndsUnit(esc, c) then IsStringUnit(esc + [c]) else EscapeOk(esc + [c])
  {
  }

  function StringToken(t: Token, c: char): Token
    requires t.InString?
  {
    if EndsUnit(t.esc, c) then InString(t.kind, t.body + (t.esc + [c]), "")
    else InString(t.kind, t.body, t.esc + [c])
  }

  lemma StringTokenText(t: Token, c: char)
    requires t.InString?
    ensures TokenText(StringToken(t, c)) == TokenText(t) + [c]
  {
    var text := "\"" + t.body;
    Associate(text, t.esc, [c]);
    Associate("\"", t.body, t.esc + [c]);
  }

  lemma StringTokenOk(top: Container, t: Token, c: char)
    requires t.InString? && TokenOk(top, t) && MayFollow(t.esc, c)
    ensures TokenOk(top, StringToken(t, c))
  {
    EscapeGrows(t.esc, c);
    if EndsUnit(t.esc, c) {
      OneMoreUnit(t.body, t.esc + [c]);
    }
  }

  // ---- inside literals and numbers

  lemma StepLiteral(o: Open, t: Token, c: char) returns (d: Derivation)
    requires OpenOk(o)
    requires t.InLiteral? && TokenOk(o.frame.container, t) && c == t.rest[0]
    ensures Ok(d) && Text(d) == OpenText(o) + TokenText(t) + [c]
    ensures StateOf(d) == ProcessLiteral(StateOf(Partial(o, t)), c)
  {
    Associate(OpenText(o), t.read, [c]);
    if |t.rest| == 1 {
      assert t.read + [c] == t.read + t.rest;
      var o' := AttachValue(o, t.read + [c]);
      d := Partial(o', NoToken);
    } else {
      assert t.read + t.rest == (t.read + [c]) + t.rest[1..];
      d := Partial(o, InLiteral(t.read + [c], t.rest[1..]));
    }
  }

  lemma NumberToken(t: Token, c: char) returns (t': Token)
    requires t.InNumber? && PartsOk(t.minus, t.whole, t.frac, t.exp, t.state)
    requires NumberStep(t.state, c).Some?
    ensures t'.InNumber? && PartsOk(t'.minus, t'.whole, t'.frac, t'.exp, t'.state)
    ensures t'.state == NumberStep(t.state, c).value
    ensures TokenText(t') == TokenText(t) + [c]
  {
    var n := NumberStep(t.state, c).value;
    if n.Zero? || n.Integer? {
      t' := WholeGrows(t, c);
    } else if n.Dot? || n.Fraction? {
      t' := FracGrows(t, c);
    } else {
      t' := ExponentGrows(t, c);
    }
  }

  lemma WholeGrows(t: Token, c: char) returns (t': Token)
    requires t.InNumber? && PartsOk(t.minus, t.whole, t.frac, t.exp, t.state) && NumberStep(t.state, c).Some?
    requires var n := NumberStep(t.state, c).value; n.Zero? || n.Integer?
    ensures t'.InNumber? && PartsOk(t'.minus, t'.whole, t'.frac, t'.exp, t'.state)
    ensures t'.state == NumberStep(t.state, c).value && TokenText(t') == TokenText(t) + [c]
  {
    hide TokenText, IsFrac, IsExp;
    t' := t.(whole := t.whole + [c], state := NumberStep(t.state, c).value);
    assert t.whole != "" ==> t'.whole[1..] == t.whole[1..] + [c];
    NumberText(t, t', c);
  }

  lemma FracGrows(t: Token, c: char) returns (t': Token)
    requires t.InNumber? && PartsOk(t.minus, t.whole, t.frac, t.exp, t.state) && NumberStep(t.state, c).Some?
    requires var n := NumberStep(t.state, c).value; n.Dot? || n.Fraction?
    ensures t'.InNumber? && PartsOk(t'.minus, t'.whole, t'.frac, t'.exp, t'.state)
    ensures t'.state == NumberStep(t.state, c).value && TokenText(t') == TokenText(t) + [c]
  {
    hide TokenText, IsInt, IsExp;
    t' := t.(frac := t.frac + [c], state := NumberStep(t.state, c).value);
    assert t.frac != "" ==> t'.frac[1..] == t.frac[1..] + [c];
    NumberText(t, t', c);
  }

  lemma ExponentGrows(t: Token, c: char) returns (t': Token)
    requires t.InNumber? && PartsOk(t.minus, t.whole, t.frac, t.exp, t.state) && NumberStep(t.state, c).Some?
    requires var n := NumberStep(t.state, c).value; n.Exponent? || n.ExponentSign? || n.ExponentDigits?
    ensures t'.InNumber? && PartsOk(t'.minus, t'.whole, t'.frac, t'.exp, t'.state)
    ensures t'.state == NumberStep(t.state, c).value && TokenText(t') == TokenText(t) + [c]
  {
    hide TokenText, IsInt, IsFrac, IsExp;
    var n := NumberStep(t.state, c).value;
    t' := t.(exp := t.exp + [c], state := n);
    if n.ExponentDigits? {
      ExpGrows(t.exp, t.state, c);
    }
    NumberText(t, t', c);
  }

  lemma NumberText(t: Token, t': Token, c: char)
    requires t.InNumber? && t'.InNumber? && t.minus == t'.minus
    requires || (t'.whole == t.whole + [c] && t'.frac == t.frac == "" && t'.exp == t.exp == "")
             || (t'.whole == t.whole && t'.frac == t.frac + [c] && t'.exp == t.exp == "")
             || (t'.whole == t.whole && t'.frac == t.frac && t'.exp == t.exp + [c])
    ensures TokenText(t') == TokenText(t) + [c]
  {
  }

  lemma ExpGrows(exp: string, n: NumberState, c: char)
    requires IsDigit(c)
    requires match n
             case Exponent => exp == "e" || exp == "E"
             case ExponentSign => |exp| == 2 && (exp[0] == 'e' || exp[0] == 'E') && (exp[1] == '+' || exp[1] == '-')
             case ExponentDigits => IsExp(exp)
             case _ => false
    ensures IsExp(exp + [c])
  {
    var e := exp + [c];
    assert e[1..] == exp[1..] + [c];
    if |exp| > 1 {
      assert e[2..] == exp[2..] + [c];
    }
  }

  lemma StepNumber(o: Open, t: Token, c: char) returns (d: Derivation)
    requires OpenOk(o)
    requires t.InNumber? && TokenOk(o.frame.container, t)
    requires ProcessNumber(StateOf(Partial(o, t)), t.state, c).possible
    ensures Ok(d) && Text(d) == OpenText(o) + TokenText(t) + [c]
    ensures StateOf(d) == ProcessNumber(StateOf(Partial(o, t)), t.state, c)
  {
    Associate(OpenText(o), TokenText(t), [c]);
    if NumberStep(t.state, c).Some? {
      var t' := NumberToken(t, c);
      d := Partial(o, t');
    } else {
      assert NumberParts(TokenText(t), t.minus, t.whole, t.frac, t.exp);
      var o' := AttachValue(o, TokenText(t));
      d := StepOutside(o', c);
    }
  }

  lemma Dispatch(o: Open, t: Token, c: char)
    requires t.InLiteral? ==> t.rest != ""
    ensures var s := StateOf(Partial(o, t));
            Append(s, c) ==
            match t
            case NoToken => ProcessOutsideToken(s, c)
            case InString(kind, _, _) => ProcessString(s, kind, c)
            case InLiteral(_, _) => ProcessLiteral(s, c)
            case InNumber(_, _, _, _, n) => ProcessNumber(s, n, c)
  {
  }

  /** A derivation of the text read so far extends to the next character. */
  lemma Step(d: Derivation, c: char) returns (d': Derivation)
    requires Ok(d) && Append(StateOf(d), c).possible
    ensures Ok(d') && Text(d') == Text(d) + [c]
    ensures StateOf(d') == Append(StateOf(d), c)
  {
    var o, t := d.open, d.token;
    Dispatch(o, t, c);
    match t {
      case NoToken => d' := StepOutside(o, c);
      case InString(_, _, _) => d' := StepString(o, t, c);
      case InLiteral(_, _) => d' := StepLiteral(o, t, c);
      case InNumber(_, _, _, _, _) => d' := StepNumber(o, t, c);
    }
  }

  lemma NothingRead() returns (d: Derivation)
    ensures Ok(d) && Text(d) == "[" + "" && StateOf(d) == Run(Init, "")
  {
    var f := Frame(ArrFirst, "", "");
    d := Partial(Base(f), NoToken);
  }

  /** Every text that is still possible has a partial derivation. */
  lemma {:induction false} Explained(text: string) returns (d: Derivation)
    requires Run(Init, text).possible
    ensures Ok(d) && Text(d) == "[" + text && StateOf(d) == Run(Init, text)
    decreases |text|
  {
    hide Ok, Text, StateOf, Append, Run, Init;
    if text == "" {
      d := NothingRead();
    } else {
      var a, c := text[..|text| - 1], text[|text| - 1];
      assert text == a + [c];
      RunSnoc(Init, a, c);
      if !Run(Init, a).possible {
        RunImpossible(Run(Init, a), [c]);
        RunOne(Run(Init, a), c);
      }
      var d0 := Explained(a);
      d := Step(d0, c);
    }
  }
}
