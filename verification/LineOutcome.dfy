/** What a stream of text must become, independent of how it is cut into chunks:
    the one-shot reference of the JSONL line capture. */
module LineOutcome {
  import opened JsonGrammar
  import opened JsonTheorems
  import JsonSoundness
  import opened Sequences
  import Utf8

  // ---- UTF-8 length

  function Width(c: char): nat {
    var code := c as int;
    if code < 0x80 then 1 else if code < 0x800 then 2 else if code < 0x10000 then 3 else 4
  }

  function Bytes(s: string): nat { if s == "" then 0 else Bytes(s[..|s| - 1]) + Width(s[|s| - 1]) }

  lemma {:induction false} BytesConcat(a: string, b: string)
    ensures Bytes(a + b) == Bytes(a) + Bytes(b)
    decreases |b|
  {
    if b == "" {
      assert a + b == a;
    } else {
      BytesConcat(a, b[..|b| - 1]);
      assert (a + b)[..|a + b| - 1] == a + b[..|b| - 1];
    }
  }

  /** The length counted is that of the UTF-8 encoding. */
  lemma {:induction false} BytesAreUtf8(s: string)
    ensures Bytes(s) == |Utf8.Encode(s)|
    decreases |s|
  {
    if s != "" {
      var most, last := s[..|s| - 1], s[|s| - 1];
      BytesAreUtf8(most);
      assert s == most + [last];
      Utf8.EncodeSnoc(most, last);
    }
  }

  // ---- the canonical oversized line

  function Quoted(s: string): string { "\"" + s + "\"" }

  function Pair(key: string, value: string): string { Quoted(key) + ":" + value }

  const TYPE := Pair("type", Quoted("agent_end"))

  const PREFIX := "{" + TYPE + "," + Pair("messages", "[")

  function Suffix(retry: bool): string { "," + Pair("willRetry", if retry then "true" else "false") + "}" }

  predicate IsSuffix(s: string) { s == Suffix(false) || s == Suffix(true) }

  /** The constants, spelled out. */
  lemma ConstantsSpelled()
    ensures PREFIX == "{\"type\":\"agent_end\",\"messages\":["
    ensures Suffix(false) == ",\"willRetry\":false}"
    ensures Suffix(true) == ",\"willRetry\":true}"
  {
    hide PREFIX;
    PrefixSpelled();
  }

  lemma PrefixSpelled()
    ensures PREFIX == "{\"type\":\"agent_end\",\"messages\":["
  {
    hide TYPE, Pair;
    MembersSpelled();
  }

  lemma MembersSpelled()
    ensures TYPE == "\"type\":\"agent_end\"" && Pair("messages", "[") == "\"messages\":["
  {
  }

  ghost predicate CanonicalParts(line: string, messages: string, suffix: string) {
    line == PREFIX + messages + suffix && IsArrayTail(messages) && IsSuffix(suffix)
  }

  ghost predicate IsCanonical(line: string) {
    exists messages, suffix :: CanonicalParts(line, messages, suffix)
  }

  lemma {:induction false} PlainBody(s: string)
    requires forall i | 0 <= i < |s| :: IsUnescaped(s[i])
    ensures IsStringBody(s)
    decreases |s|
  {
    if s != "" {
      PlainBody(s[..|s| - 1]);
      assert s[|s| - 1..] == [s[|s| - 1]];
    }
  }

  lemma PlainString(s: string)
    requires forall i | 0 <= i < |s| :: IsUnescaped(s[i])
    ensures IsString(Quoted(s))
  {
    PlainBody(s);
    var q := Quoted(s);
    assert q[1..|q| - 1] == s;
  }

  lemma PlainMember(key: string, value: string)
    requires forall i | 0 <= i < |key| :: IsUnescaped(key[i])
    requires IsValue(value)
    ensures JsonSoundness.IsItem(false, Pair(key, value))
  {
    PlainString(key);
    var k, m := Quoted(key), Pair(key, value);
    assert k[..0] == "" && k[0..|k|] == k && k[|k|..] == "";
    assert IsKey(k);
    JsonSoundness.WsThenValue("", value);
    assert "" + value == value;
    CutBetween(k, ":" + value);
    Associate(k, ":", value);
    assert m[|k|] == ':' && m[|k| + 1..] == value;
  }

  lemma TypeMember()
    ensures JsonSoundness.IsItem(false, TYPE)
  {
    hide IsString, IsNumber, IsArray, IsObject, IsMember;
    PlainString("agent_end");
    PlainMember("type", Quoted("agent_end"));
  }

  lemma RetryMember(retry: bool)
    ensures JsonSoundness.IsItem(false, Pair("willRetry", if retry then "true" else "false"))
  {
    hide IsString, IsNumber, IsArray, IsObject, IsMember, Pair;
    PlainMember("willRetry", if retry then "true" else "false");
  }

  lemma ArrayIsValue(s: string)
    requires IsArray(s)
    ensures IsValue(s)
  {
    hide IsArray, IsNumber, IsString, IsObject;
  }

  lemma ThreeMembers(a: string, b: string, c: string)
    requires JsonSoundness.IsItem(false, a) && JsonSoundness.IsItem(false, b) && JsonSoundness.IsItem(false, c)
    ensures IsObject("{" + (a + "," + (b + "," + c)) + "}")
  {
    JsonSoundness.CommaJoins(false, b, c);
    JsonSoundness.CommaJoins(false, a, b + "," + c);
    var inner := a + "," + (b + "," + c);
    var o := "{" + inner + "}";
    assert o[1..|o| - 1] == inner;
  }

  lemma CanonicalText(messages: string, retry: bool)
    ensures PREFIX + messages + Suffix(retry) ==
            "{" + (TYPE + "," + (Pair("messages", "[" + messages) + "," + Pair("willRetry", if retry then "true" else "false"))) + "}"
  {
    PairOpens("messages", messages);
    Envelope(TYPE, Pair("messages", "["), messages, Pair("willRetry", if retry then "true" else "false"));
  }

  /** A line that is skipped for its size is still a JSON document. */
  lemma CanonicalIsJson(line: string)
    requires IsCanonical(line)
    ensures IsObject(line)
  {
    hide IsObject, IsArray, IsValue, JsonSoundness.IsItem, Pair, TYPE, PREFIX, Suffix;
    var messages, suffix :| CanonicalParts(line, messages, suffix);
    var retry := suffix == Suffix(true);
    TypeMember();
    RetryMember(retry);
    ArrayIsValue("[" + messages);
    PlainMember("messages", "[" + messages);
    ThreeMembers(TYPE, Pair("messages", "[" + messages), Pair("willRetry", if retry then "true" else "false"));
    CanonicalText(messages, retry);
  }

  lemma PairOpens(key: string, rest: string)
    ensures Pair(key, "[") + rest == Pair(key, "[" + rest)
  {
  }

  lemma Envelope(first: string, opener: string, messages: string, last: string)
    ensures ("{" + first + "," + opener) + messages + ("," + last + "}") ==
            "{" + (first + "," + (opener + messages + "," + last)) + "}"
  {
  }

  // ---- no extension of these texts is canonical

  lemma CanonicalStart(s: string, more: string)
    requires |s| <= |PREFIX| && IsCanonical(s + more)
    ensures s == PREFIX[..|s|]
  {
    var messages, suffix :| CanonicalParts(s + more, messages, suffix);
    CutBetween(s, more);
    Associate(PREFIX, messages, suffix);
    CutLeft(PREFIX, messages + suffix, |s|);
  }

  lemma WrongPrefix(s: string)
    requires |s| <= |PREFIX| && s != PREFIX[..|s|]
    ensures forall more :: !IsCanonical(s + more)
  {
    forall more | IsCanonical(s + more) ensures false {
      CanonicalStart(s, more);
    }
  }

  ghost predicate NoneComplete(messages: string) {
    forall k | 0 <= k < |messages| :: !IsArrayTail(messages[..k])
  }

  lemma Compare(messages: string, rest: string, messages': string, suffix: string)
    requires PREFIX + messages + rest == PREFIX + messages' + suffix
    ensures messages + rest == messages' + suffix
    ensures |messages| <= |messages'| ==> messages' == messages + messages'[|messages|..]
    ensures |messages| >= |messages'| ==> messages == messages' + messages[|messages'|..]
  {
    var a, b := messages + rest, messages' + suffix;
    Associate(PREFIX, messages, rest);
    Associate(PREFIX, messages', suffix);
    assert a == (PREFIX + a)[|PREFIX|..] == (PREFIX + b)[|PREFIX|..] == b;
    if |messages| <= |messages'| {
      assert messages == a[..|messages|] == b[..|messages|] == messages'[..|messages|];
    } else {
      assert messages' == b[..|messages'|] == a[..|messages'|] == messages[..|messages'|];
    }
  }

  lemma CanonicalMessages(messages: string, more: string)
    requires NoneComplete(messages) && IsCanonical(PREFIX + messages + more)
    ensures exists rest, suffix :: IsArrayTail(messages + rest) && more == rest + suffix && IsSuffix(suffix)
  {
    var messages', suffix :| CanonicalParts(PREFIX + messages + more, messages', suffix);
    Compare(messages, more, messages', suffix);
    var rest := messages'[|messages|..];
    assert IsArrayTail(messages + rest);
    Associate(messages, rest, suffix);
    CutBetween(messages, more);
    CutBetween(messages, rest + suffix);
  }

  lemma WrongMessages(messages: string)
    requires NoneComplete(messages)
    requires !exists rest :: IsArrayTail(messages + rest)
    ensures forall more :: !IsCanonical(PREFIX + messages + more)
  {
    forall more | IsCanonical(PREFIX + messages + more) ensures false {
      CanonicalMessages(messages, more);
    }
  }

  /** After complete messages, only one of the two suffixes can follow. */
  lemma AfterMessages(messages: string, rest: string)
    requires IsArrayTail(messages)
    ensures IsCanonical(PREFIX + messages + rest) <==> IsSuffix(rest)
  {
    if IsSuffix(rest) {
      assert CanonicalParts(PREFIX + messages + rest, messages, rest);
    }
    if IsCanonical(PREFIX + messages + rest) {
      var messages', suffix :| CanonicalParts(PREFIX + messages + rest, messages', suffix);
      Compare(messages, rest, messages', suffix);
      if |messages| <= |messages'| {
        ArraysArePrefixFree(messages, messages'[|messages|..]);
      } else {
        ArraysArePrefixFree(messages', messages[|messages'|..]);
      }
      assert messages == messages';
      CutBetween(messages, rest);
      CutBetween(messages, suffix);
    }
  }

  lemma IncompleteMessages(messages: string)
    requires NoneComplete(messages) && !IsArrayTail(messages)
    ensures !IsCanonical(PREFIX + messages)
  {
    assert PREFIX + messages + "" == PREFIX + messages;
    if IsCanonical(PREFIX + messages + "") {
      CanonicalMessages(messages, "");
    }
  }

  // ---- lines

  datatype Event = Line(text: string) | OversizedLine

  datatype Outcome = Outcome(events: seq<Event>, overflow: bool)

  datatype Limits = Limits(maxLineBytes: nat, allowCanonical: bool)

  predicate EndsWithCr(s: string) { s != "" && s[|s| - 1] == '\r' }

  function StripCr(s: string): string { if EndsWithCr(s) then s[..|s| - 1] else s }

  function FirstLf(text: string): (k: nat)
    requires '\n' in text
    ensures k < |text| && text[k] == '\n' && '\n' !in text[..k]
  {
    if text[0] == '\n' then 0 else
      assert text == [text[0]] + text[1..];
      1 + FirstLf(text[1..])
  }

  ghost predicate FitsOrCanonical(l: Limits, line: string) {
    Bytes(line) <= l.maxLineBytes || (l.allowCanonical && IsCanonical(line))
  }

  function LineEvent(l: Limits, line: string): Event {
    if Bytes(line) <= l.maxLineBytes then Line(line) else OversizedLine
  }

  /** Lines end at LF and lose one CR before it; the last one needs no LF and keeps
      its CR. A terminated line over the limit passes only if it is canonical. */
  ghost function OneShot(l: Limits, text: string): Outcome
    decreases |text|
  {
    if '\n' !in text then
      if text == "" then Outcome([], false)
      else if Bytes(text) <= l.maxLineBytes then Outcome([Line(text)], false)
      else Outcome([], true)
    else
      var k := FirstLf(text);
      var line := StripCr(text[..k]);
      if FitsOrCanonical(l, line) then
        var rest := OneShot(l, text[k + 1..]);
        Outcome([LineEvent(l, line)] + rest.events, rest.overflow)
      else Outcome([], true)
  }

  lemma FirstLfIs(text: string, k: nat)
    requires k < |text| && text[k] == '\n' && '\n' !in text[..k]
    ensures '\n' in text && FirstLf(text) == k
  {
    var k' := FirstLf(text);
  }

  lemma OneShotLine(l: Limits, raw: string, rest: string)
    requires '\n' !in raw
    ensures OneShot(l, raw + "\n" + rest) ==
            var line := StripCr(raw);
            if FitsOrCanonical(l, line)
            then Outcome([LineEvent(l, line)] + OneShot(l, rest).events, OneShot(l, rest).overflow)
            else Outcome([], true)
  {
    var text := raw + "\n" + rest;
    assert text[..|raw|] == raw && text[|raw|] == '\n' && text[|raw| + 1..] == rest;
    FirstLfIs(text, |raw|);
  }

  // ---- how far a stream has been handled

  /** After `seen`, the events `events` are out and `tail` is the unfinished line. */
  ghost predicate Handled(l: Limits, seen: string, events: seq<Event>, tail: string) {
    forall more :: OneShot(l, seen + more) ==
                   Outcome(events + OneShot(l, tail + more).events, OneShot(l, tail + more).overflow)
  }

  lemma HandledExtend(l: Limits, seen: string, events: seq<Event>, tail: string, x: string)
    requires Handled(l, seen, events, tail)
    ensures Handled(l, seen + x, events, tail + x)
  {
    forall more
      ensures OneShot(l, seen + x + more) ==
              Outcome(events + OneShot(l, tail + x + more).events, OneShot(l, tail + x + more).overflow)
    {
      Associate(seen, x, more);
      Associate(tail, x, more);
      assert OneShot(l, seen + (x + more)).overflow == OneShot(l, tail + (x + more)).overflow;
    }
  }

  lemma HandledLine(l: Limits, seen: string, events: seq<Event>, raw: string)
    requires Handled(l, seen, events, raw + "\n") && '\n' !in raw
    requires FitsOrCanonical(l, StripCr(raw))
    ensures Handled(l, seen, events + [LineEvent(l, StripCr(raw))], "")
  {
    var e := LineEvent(l, StripCr(raw));
    forall more
      ensures OneShot(l, seen + more) ==
              Outcome(events + [e] + OneShot(l, "" + more).events, OneShot(l, "" + more).overflow)
    {
      assert "" + more == more;
      OneShotLine(l, raw, more);
      Associate(events, [e], OneShot(l, more).events);
      assert OneShot(l, seen + more).overflow == OneShot(l, raw + "\n" + more).overflow;
    }
  }

  /** Overflow is certain whatever follows. */
  ghost predicate Doomed(l: Limits, seen: string, events: seq<Event>) {
    forall more :: OneShot(l, seen + more) == Outcome(events, true)
  }

  lemma DoomedExtend(l: Limits, seen: string, events: seq<Event>, x: string)
    requires Doomed(l, seen, events)
    ensures Doomed(l, seen + x, events)
  {
    forall more ensures OneShot(l, seen + x + more) == Outcome(events, true) {
      Associate(seen, x, more);
    }
  }

  lemma DoomedByLine(l: Limits, seen: string, events: seq<Event>, raw: string)
    requires Handled(l, seen, events, raw + "\n") && '\n' !in raw
    requires !FitsOrCanonical(l, StripCr(raw))
    ensures Doomed(l, seen, events)
  {
    forall more ensures OneShot(l, seen + more) == Outcome(events, true) {
      OneShotLine(l, raw, more);
      assert OneShot(l, seen + more).overflow == OneShot(l, raw + "\n" + more).overflow;
    }
  }

  lemma LastLine(l: Limits, tail: string)
    requires '\n' !in tail
    ensures OneShot(l, tail) ==
            if Bytes(tail) > l.maxLineBytes then Outcome([], true)
            else Outcome(if tail == "" then [] else [Line(tail)], false)
  {
  }

  /** The part `cur` of a line already rules it out; `next` is the text that comes
      after it, which must not turn the last CR of `cur` into a line end. */
  lemma HopelessLine(l: Limits, cur: string, next: string)
    requires '\n' !in cur && Bytes(cur) > l.maxLineBytes
    requires l.allowCanonical ==> forall more :: !IsCanonical(cur + more)
    requires EndsWithCr(cur) ==> next == "" || next[0] != '\n'
    ensures OneShot(l, cur + next) == Outcome([], true)
  {
    hide OneShot, Bytes, IsCanonical, StripCr;
    if '\n' !in next {
      assert '\n' !in cur + next;
      BytesConcat(cur, next);
      LastLine(l, cur + next);
    } else {
      var k := FirstLf(next);
      var more := next[..k];
      assert cur + next == (cur + more) + "\n" + next[k + 1..];
      OneShotLine(l, cur + more, next[k + 1..]);
      StripKeeps(cur, more);
      BytesConcat(cur, StripCr(more));
    }
  }

  lemma StripKeeps(cur: string, more: string)
    requires more == "" ==> !EndsWithCr(cur)
    ensures StripCr(cur + more) == cur + StripCr(more)
  {
  }

  lemma DoomedByContent(l: Limits, seen: string, events: seq<Event>, cur: string, next: string)
    requires Handled(l, seen, events, cur)
    requires '\n' !in cur && Bytes(cur) > l.maxLineBytes
    requires l.allowCanonical ==> forall more :: !IsCanonical(cur + more)
    requires EndsWithCr(cur) ==> next != "" && next[0] != '\n'
    ensures Doomed(l, seen + next, events)
  {
    HandledExtend(l, seen, events, cur, next);
    forall more ensures OneShot(l, seen + next + more) == Outcome(events, true) {
      HopelessLine(l, cur, next + more);
      Associate(cur, next, more);
    }
  }
}
