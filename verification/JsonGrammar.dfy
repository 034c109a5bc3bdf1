/** The grammar of RFC 8259 as predicates over character sequences: sections 2
    (structure, whitespace), 3 (literals), 4 (objects), 5 (arrays), 6 (numbers)
    and 7 (strings). Nothing here mentions how a text is read. */
module JsonGrammar {

  predicate IsWsChar(c: char) { c == ' ' || c == '\t' || c == '\r' || c == '\n' }

  predicate IsWs(s: string) { forall i | 0 <= i < |s| :: IsWsChar(s[i]) }

  predicate IsDigit(c: char) { '0' <= c <= '9' }

  predicate IsNonZeroDigit(c: char) { '1' <= c <= '9' }

  predicate AllDigits(s: string) { forall i | 0 <= i < |s| :: IsDigit(s[i]) }

  predicate IsDigits(s: string) { |s| > 0 && AllDigits(s) }

  predicate IsHexDigit(c: char) { IsDigit(c) || 'a' <= c <= 'f' || 'A' <= c <= 'F' }

  // Section 6: number = [ minus ] int [ frac ] [ exp ]

  predicate IsInt(s: string) {
    s == "0" || (|s| > 0 && IsNonZeroDigit(s[0]) && AllDigits(s[1..]))
  }

  predicate IsFrac(s: string) { |s| > 0 && s[0] == '.' && IsDigits(s[1..]) }

  predicate IsExp(s: string) {
    && |s| > 1
    && (s[0] == 'e' || s[0] == 'E')
    && (IsDigits(s[1..]) || ((s[1] == '+' || s[1] == '-') && IsDigits(s[2..])))
  }

  predicate NumberParts(s: string, minus: string, whole: string, frac: string, exp: string) {
    && s == minus + whole + frac + exp
    && (minus == "" || minus == "-")
    && IsInt(whole)
    && (frac == "" || IsFrac(frac))
    && (exp == "" || IsExp(exp))
  }

  ghost predicate IsNumber(s: string) {
    exists minus, whole, frac, exp :: NumberParts(s, minus, whole, frac, exp)
  }

  // Section 7: string = quotation-mark *char quotation-mark

  predicate IsUnescaped(c: char) { c >= ' ' && c != '"' && c != '\\' }

  predicate IsEscapable(c: char) {
    c == '"' || c == '\\' || c == '/' || c == 'b' || c == 'f' || c == 'n' || c == 'r' || c == 't'
  }

  /** One `char` of section 7: plain, two-character escape, or \uXXXX. */
  predicate IsStringUnit(s: string) {
    || (|s| == 1 && IsUnescaped(s[0]))
    || (|s| == 2 && s[0] == '\\' && IsEscapable(s[1]))
    || (|s| == 6 && s[0] == '\\' && s[1] == 'u' && forall i | 2 <= i < 6 :: IsHexDigit(s[i]))
  }

  ghost predicate IsStringBody(s: string) {
    s == "" || exists k | 0 <= k < |s| :: IsStringBody(s[..k]) && IsStringUnit(s[k..])
  }

  ghost predicate IsString(s: string) {
    |s| >= 2 && s[0] == '"' && s[|s| - 1] == '"' && IsStringBody(s[1..|s| - 1])
  }

  // Section 3

  predicate IsLiteral(s: string) { s == "true" || s == "false" || s == "null" }

  // Sections 2, 4 and 5

  ghost predicate IsValue(s: string)
    decreases |s|, 1
  {
    IsLiteral(s) || IsNumber(s) || IsString(s) || IsArray(s) || IsObject(s)
  }

  ghost predicate IsArray(s: string)
    decreases |s|, 0
  {
    && |s| >= 2 && s[0] == '[' && s[|s| - 1] == ']'
    && (IsWs(s[1..|s| - 1]) || IsElements(s[1..|s| - 1]))
  }

  /** One or more values, each with surrounding whitespace, separated by commas. */
  ghost predicate IsElements(s: string)
    decreases |s|, 3
  {
    || IsElement(s)
    || exists k | 0 <= k < |s| :: s[k] == ',' && IsElement(s[..k]) && IsElements(s[k + 1..])
  }

  ghost predicate IsElement(s: string)
    decreases |s|, 2
  {
    exists a, b | 0 <= a <= b <= |s| :: IsWs(s[..a]) && IsValue(s[a..b]) && IsWs(s[b..])
  }

  ghost predicate IsObject(s: string)
    decreases |s|, 0
  {
    && |s| >= 2 && s[0] == '{' && s[|s| - 1] == '}'
    && (IsWs(s[1..|s| - 1]) || IsMembers(s[1..|s| - 1]))
  }

  ghost predicate IsMembers(s: string)
    decreases |s|, 3
  {
    || IsMember(s)
    || exists k | 0 <= k < |s| :: s[k] == ',' && IsMember(s[..k]) && IsMembers(s[k + 1..])
  }

  ghost predicate IsMember(s: string)
    decreases |s|, 2
  {
    exists k | 0 <= k < |s| :: s[k] == ':' && IsKey(s[..k]) && IsElement(s[k + 1..])
  }

  ghost predicate IsKey(s: string) {
    exists a, b | 0 <= a <= b <= |s| :: IsWs(s[..a]) && IsString(s[a..b]) && IsWs(s[b..])
  }

  /** The texts that may follow an opening bracket. */
  ghost predicate IsArrayTail(s: string) { IsArray("[" + s) }

  /** The character classes, spelled out. */
  lemma ClassesSpelled(c: char)
    ensures IsWsChar(c) <==> c in {' ', '\t', '\r', '\n'}
    ensures IsDigit(c) <==> c in {'0', '1', '2', '3', '4', '5', '6', '7', '8', '9'}
    ensures IsNonZeroDigit(c) <==> c in {'1', '2', '3', '4', '5', '6', '7', '8', '9'}
    ensures IsHexDigit(c) <==> c in {'0', '1', '2', '3', '4', '5', '6', '7', '8', '9', 'a', 'b', 'c', 'd', 'e', 'f', 'A', 'B', 'C', 'D', 'E', 'F'}
    ensures IsEscapable(c) <==> c in {'"', '\\', '/', 'b', 'f', 'n', 'r', 't'}
    ensures !IsUnescaped(c) <==> (c as int) < 0x20 || c in {'"', '\\'}
  {
  }
}
