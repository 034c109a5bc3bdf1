/** The UTF-8 encoding of RFC 3629, section 3, and how it is read back. */
module Utf8 {
  import opened Options

  /** Lead byte and continuation bytes of one character. */
  function EncodeChar(c: char): (bytes: seq<int>)
    ensures forall i | 0 <= i < |bytes| :: 0 <= bytes[i] < 256
  {
    var code := c as int;
    if code < 0x80 then [code]
    else if code < 0x800 then [0xC0 + code / 0x40, Continuation(code)]
    else if code < 0x10000 then [0xE0 + code / 0x1000, Continuation(code / 0x40), Continuation(code)]
    else [0xF0 + code / 0x40000, Continuation(code / 0x1000), Continuation(code / 0x40), Continuation(code)]
  }

  function Continuation(bits: nat): nat { 0x80 + bits % 0x40 }

  function Encode(s: string): seq<int> {
    if s == "" then [] else EncodeChar(s[0]) + Encode(s[1..])
  }

  /** How many bytes a lead byte announces. */
  function Announced(lead: int): Option<nat> {
    if 0 <= lead < 0x80 then Some(1)
    else if 0xC0 <= lead < 0xE0 then Some(2)
    else if 0xE0 <= lead < 0xF0 then Some(3)
    else if 0xF0 <= lead < 0xF8 then Some(4)
    else None
  }

  predicate IsContinuation(byte: int) { 0x80 <= byte < 0xC0 }

  /** The code point that the first `n` bytes stand for. */
  function CodePoint(bytes: seq<int>, n: nat): int
    requires 1 <= n <= 4 && n <= |bytes|
  {
    if n == 1 then bytes[0]
    else if n == 2 then (bytes[0] - 0xC0) * 0x40 + (bytes[1] - 0x80)
    else if n == 3 then (bytes[0] - 0xE0) * 0x1000 + (bytes[1] - 0x80) * 0x40 + (bytes[2] - 0x80)
    else (bytes[0] - 0xF0) * 0x40000 + (bytes[1] - 0x80) * 0x1000 + (bytes[2] - 0x80) * 0x40 + (bytes[3] - 0x80)
  }

  /** The least code point that needs `n` bytes; anything below is an overlong form. */
  function Least(n: nat): nat { if n <= 1 then 0 else if n == 2 then 0x80 else if n == 3 then 0x800 else 0x10000 }

  predicate StartsWell(bytes: seq<int>) {
    && bytes != [] && Announced(bytes[0]).Some?
    && var n := Announced(bytes[0]).value;
       && 1 <= n <= 4 && n <= |bytes| && CodePoint(bytes, n) >= Least(n)
       && forall i | 1 <= i < n :: IsContinuation(bytes[i])
  }

  /** The code points of a byte sequence, read from the left; None if it is malformed. */
  function Decode(bytes: seq<int>): Option<seq<int>>
    decreases |bytes|
  {
    if bytes == [] then Some([])
    else if !StartsWell(bytes) then None
    else
      var n := Announced(bytes[0]).value;
      var rest := Decode(bytes[n..]);
      if rest.Some? then Some([CodePoint(bytes, n)] + rest.value) else None
  }

  function Codes(s: string): (codes: seq<int>)
    ensures |codes| == |s| && forall i | 0 <= i < |s| :: codes[i] == s[i] as int
  {
    seq(|s|, i requires 0 <= i < |s| => s[i] as int)
  }

  lemma OneChar(c: char, more: seq<int>)
    ensures var bytes := EncodeChar(c) + more;
            StartsWell(bytes) && Announced(bytes[0]) == Some(|EncodeChar(c)|) && CodePoint(bytes, |EncodeChar(c)|) == c as int
  {
    Bits(c as int);
    Sizes(c as int);
  }

  /** A code point is the sum of its groups of six bits. */
  lemma Bits(code: nat)
    ensures code == code / 0x40 * 0x40 + code % 0x40
    ensures code == code / 0x1000 * 0x1000 + code / 0x40 % 0x40 * 0x40 + code % 0x40
    ensures code == code / 0x40000 * 0x40000 + code / 0x1000 % 0x40 * 0x1000 + code / 0x40 % 0x40 * 0x40 + code % 0x40
  {
    assert code / 0x1000 == code / 0x40 / 0x40 && code / 0x40000 == code / 0x1000 / 0x40;
  }

  lemma Sizes(code: nat)
    ensures code < 0x800 ==> code / 0x40 < 0x20
    ensures code < 0x10000 ==> code / 0x1000 < 0x10
    ensures code < 0x110000 ==> code / 0x40000 < 8
  {
  }

  /** Reading back what was written gives the text. */
  lemma {:induction false} RoundTrip(s: string)
    ensures Decode(Encode(s)) == Some(Codes(s))
    decreases |s|
  {
    if s != "" {
      var first, more := EncodeChar(s[0]), Encode(s[1..]);
      OneChar(s[0], more);
      assert (first + more)[|first|..] == more;
      RoundTrip(s[1..]);
      assert Codes(s) == [s[0] as int] + Codes(s[1..]);
    } else {
      assert Codes(s) == [];
    }
  }

  lemma {:induction false} EncodeSnoc(s: string, c: char)
    ensures Encode(s + [c]) == Encode(s) + EncodeChar(c)
    decreases |s|
  {
    if s == "" {
      assert ("" + [c])[1..] == "" && Encode("") == [];
    } else {
      assert (s + [c])[1..] == s[1..] + [c];
      EncodeSnoc(s[1..], c);
    }
  }
}
