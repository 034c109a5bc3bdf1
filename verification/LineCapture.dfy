/** The JSONL line capture and the tracker of its one canonical oversized line
    (benchmarks/src/agents/jsonl-line-capture.ts). Callbacks are recorded as events;
    a thrown overflow is the result `ok == false`. */
module LineCapture {
  import opened JsonGrammar
  import opened JsonTheorems
  import opened LineOutcome
  import opened Sequences
  import opened StreamingJsonArray

  predicate SuffixPossible(s: string) { s <= Suffix(false) || s <= Suffix(true) }

  lemma NoLfInConstants()
    ensures '\n' !in PREFIX && '\n' !in Suffix(false) && '\n' !in Suffix(true)
  {
    hide PREFIX, Suffix;
    ConstantsSpelled();
  }

  lemma PrefixViable(k: nat) returns (more: string)
    requires k <= |PREFIX|
    ensures IsCanonical(PREFIX[..k] + more) && '\n' !in more
  {
    hide Suffix;
    NoLfInConstants();
    more := PREFIX[k..] + "]" + Suffix(false);
    assert "[" + "]" == "[]" && "[]"[1..1] == "";
    assert IsArrayTail("]");
    Associate(PREFIX[k..], "]", Suffix(false));
    Associate(PREFIX[..k], PREFIX[k..], "]" + Suffix(false));
    assert PREFIX[..k] + PREFIX[k..] == PREFIX;
    Associate(PREFIX, "]", Suffix(false));
    assert CanonicalParts(PREFIX[..k] + more, "]", Suffix(false));
  }

  lemma MessagesViable(messages: string, rest: string)
    requires IsArrayTail(messages + rest)
    ensures IsCanonical(PREFIX + messages + (rest + Suffix(false)))
  {
    Associate(PREFIX, messages, rest + Suffix(false));
    Associate(messages, rest, Suffix(false));
    Associate(PREFIX, messages + rest, Suffix(false));
    assert CanonicalParts(PREFIX + messages + (rest + Suffix(false)), messages + rest, Suffix(false));
  }

  lemma SuffixViable(messages: string, suffix: string)
    requires IsArrayTail(messages)
    ensures SuffixPossible(suffix) <==> exists more :: IsCanonical(PREFIX + messages + suffix + more)
  {
    if SuffixPossible(suffix) {
      var full := Suffix(!(suffix <= Suffix(false)));
      var more := full[|suffix|..];
      AfterMessages(messages, suffix + more);
      Associate(PREFIX + messages, suffix, more);
      assert IsCanonical(PREFIX + messages + suffix + more);
    }
    if exists more :: IsCanonical(PREFIX + messages + suffix + more) {
      var more :| IsCanonical(PREFIX + messages + suffix + more);
      Associate(PREFIX + messages, suffix, more);
      AfterMessages(messages, suffix + more);
    }
  }

  lemma OneMoreOf(p: string, k: nat, c: char)
    requires k < |p|
    ensures p[..k] + [c] == p[..k + 1] <==> c == p[k]
  {
    assert (p[..k] + [c])[k] == c;
  }

  class AgentEndTracker {
    const enabled: bool
    const messages: Validator
    var prefixOffset: nat
    var suffix: string
    var possible: bool
    ghost var seen: string

    ghost predicate Reading()
      reads this, messages
    {
      && messages.Valid()
      && NoneComplete(messages.seen)
      && if prefixOffset < |PREFIX|
         then seen == PREFIX[..prefixOffset] && messages.seen == "" && suffix == ""
         else
           && seen == PREFIX + messages.seen + suffix
           && messages.Possible()
           && (suffix != "" ==> IsArrayTail(messages.seen) && SuffixPossible(suffix))
    }

    ghost predicate Valid()
      reads this, messages
    {
      && messages.Valid()
      && prefixOffset <= |PREFIX|
      && (possible ==> enabled && Reading())
      && (!possible && enabled ==> forall more :: !IsCanonical(seen + more))
    }

    constructor (enabled: bool)
      ensures Valid() && seen == "" && this.enabled == enabled && fresh(messages)
    {
      this.enabled := enabled;
      messages := new Validator();
      prefixOffset, suffix, possible := 0, "", enabled;
      seen := "";
    }

    /** What is being read can become the canonical line without another LF. */
    lemma ReadingCompletes() returns (more: string)
      requires Reading() && prefixOffset <= |PREFIX|
      ensures IsCanonical(seen + more) && '\n' !in more
    {
      hide Suffix, PREFIX, IsCanonical;
      NoLfInConstants();
      if prefixOffset < |PREFIX| {
        more := PrefixViable(prefixOffset);
      } else if suffix == "" {
        var rest := ViableOnTheLine(messages.seen);
        MessagesViable(messages.seen, rest);
        assert seen == PREFIX + messages.seen;
        more := rest + Suffix(false);
      } else {
        var full := Suffix(!(suffix <= Suffix(false)));
        more := full[|suffix|..];
        AfterMessages(messages.seen, suffix + more);
        Associate(PREFIX + messages.seen, suffix, more);
      }
    }

    lemma ReadingIsViable()
      requires Reading() && prefixOffset <= |PREFIX|
      ensures exists more :: IsCanonical(seen + more)
    {
      var more := ReadingCompletes();
    }

    /** Some continuation of the line is the canonical one. */
    predicate Possible()
      requires Valid()
      reads this, messages
      ensures Possible() <==> enabled && exists more :: IsCanonical(seen + more)
    {
      if possible then ReadingIsViable(); true else false
    }

    lemma ReadingComplete()
      requires Reading() && prefixOffset <= |PREFIX|
      ensures IsCanonical(seen) <==>
              prefixOffset == |PREFIX| && IsArrayTail(messages.seen) && IsSuffix(suffix)
    {
      if prefixOffset < |PREFIX| {
        TooShort(seen);
      } else if IsArrayTail(messages.seen) {
        AfterMessages(messages.seen, suffix);
      } else {
        IncompleteMessages(messages.seen);
        assert seen == PREFIX + messages.seen;
      }
    }

    /** The line is the canonical one. */
    predicate Complete()
      requires Valid()
      reads this, messages
      ensures Complete() <==> enabled && IsCanonical(seen)
    {
      if !possible then
        assert seen + "" == seen;
        false
      else
        ReadingComplete();
        prefixOffset == |PREFIX| && messages.Complete() && (suffix == Suffix(false) || suffix == Suffix(true))
    }

    method AppendToPrefix(c: char)
      requires Valid() && possible && prefixOffset < |PREFIX|
      modifies this
      ensures Valid() && seen == old(seen) + [c]
    {
      OneMoreOf(PREFIX, prefixOffset, c);
      seen := seen + [c];
      if c != PREFIX[prefixOffset] {
        possible := false;
        WrongPrefix(seen);
        return;
      }
      prefixOffset := prefixOffset + 1;
      if prefixOffset == |PREFIX| {
        StartOfMessages();
      }
    }

    method AppendToSuffix(c: char)
      requires Valid() && possible && prefixOffset == |PREFIX| && IsArrayTail(messages.seen)
      modifies this
      ensures Valid() && seen == old(seen) + [c]
    {
      Associate(PREFIX + messages.seen, suffix, [c]);
      seen := seen + [c];
      suffix := suffix + [c];
      SuffixViable(messages.seen, suffix);
      if !(suffix <= Suffix(false) || suffix <= Suffix(true)) {
        possible := false;
      }
    }

    method AppendToMessages(c: char)
      requires Valid() && possible && prefixOffset == |PREFIX| && !IsArrayTail(messages.seen)
      modifies this, messages
      ensures Valid() && seen == old(seen) + [c]
    {
      NoneCompleteGrows(messages.seen, c);
      assert seen == PREFIX + messages.seen;
      Associate(PREFIX, messages.seen, [c]);
      seen := seen + [c];
      messages.AppendChar(c);
      if !messages.Possible() {
        possible := false;
        WrongMessages(messages.seen);
      }
    }

    method AppendChar(c: char)
      requires Valid() && possible
      modifies this, messages
      ensures Valid() && seen == old(seen) + [c]
    {
      if prefixOffset < |PREFIX| {
        AppendToPrefix(c);
      } else if messages.Complete() {
        AppendToSuffix(c);
      } else {
        AppendToMessages(c);
      }
    }

    method AppendText(text: string)
      requires Valid()
      modifies this, messages
      ensures Valid() && seen == old(seen) + text
    {
      var i := 0;
      ghost var before := seen;
      assert before + text[..0] == before;
      while i < |text| && possible
        invariant 0 <= i <= |text| && Valid() && seen == before + text[..i]
      {
        AppendChar(text[i]);
        assert text[..i + 1] == text[..i] + [text[i]];
        i := i + 1;
      }
      RestStaysImpossible(before, text, i);
      seen := before + text;
    }

    lemma RestStaysImpossible(before: string, text: string, i: nat)
      requires Valid() && i <= |text| && seen == before + text[..i]
      ensures i == |text| ==> seen == before + text
      ensures !possible && enabled ==> forall more :: !IsCanonical(before + text + more)
    {
      assert text == text[..i] + text[i..];
      if !possible && enabled {
        forall more ensures !IsCanonical(before + text + more) {
          assert before + text + more == seen + (text[i..] + more);
        }
      }
    }
  }

  lemma TooShort(s: string)
    requires |s| < |PREFIX|
    ensures !IsCanonical(s)
  {
  }

  lemma StartOfMessages()
    ensures NoneComplete("") && exists rest :: IsArrayTail("" + rest)
  {
    assert "[" + "]" == "[]" && "[]"[1..1] == "";
    assert IsArrayTail("" + "]");
  }

  lemma NoneCompleteGrows(messages: string, c: char)
    requires NoneComplete(messages) && !IsArrayTail(messages)
    ensures NoneComplete(messages + [c])
  {
    forall k | 0 <= k < |messages| + 1 ensures !IsArrayTail((messages + [c])[..k]) {
      CutLeft(messages, [c], k);
      assert k == |messages| ==> messages[..k] == messages;
    }
  }

  function Join(parts: seq<string>): string {
    if parts == [] then "" else Join(parts[..|parts| - 1]) + parts[|parts| - 1]
  }

  lemma JoinSnoc(parts: seq<string>, part: string)
    ensures Join(parts + [part]) == Join(parts) + part
  {
    CutBetween(parts, [part]);
  }

  /** The first position of `c` at or after `from`, or the length of the text. */
  method IndexOf(text: string, c: char, from: nat) returns (k: nat)
    requires from <= |text|
    ensures from <= k <= |text| && c !in text[from..k]
    ensures k < |text| ==> text[k] == c
  {
    k := from;
    while k < |text| && text[k] != c
      invariant from <= k <= |text| && c !in text[from..k]
    {
      assert text[from..k + 1] == text[from..k] + [text[k]];
      k := k + 1;
    }
  }

  class Capture {
    const limits: Limits
    var parts: seq<string>
    var bytes: nat
    var discarding: bool
    var pendingCarriageReturn: bool
    var canonical: AgentEndTracker
    var events: seq<Event>
    ghost var seen: string      // everything since creation or the last finish
    ghost var earlier: nat      // events of texts that were finished before
    ghost var cur: string       // the content of the unfinished line so far
    ghost var Repr: set<object>

    /** The line buffer stands for `cur`. */
    ghost predicate Buffered()
      reads this, Repr
    {
      && Repr == {this, canonical, canonical.messages}
      && canonical.Valid() && canonical.seen == cur && canonical.enabled == limits.allowCanonical
      && bytes == Bytes(cur)
      && '\n' !in cur
      && discarding == (bytes > limits.maxLineBytes)
      && (if discarding then parts == [] && canonical.Possible() else Join(parts) == cur)
      && earlier <= |events|
    }

    ghost predicate Valid()
      reads this, Repr
    {
      && Buffered()
      && (!pendingCarriageReturn ==> !EndsWithCr(cur))
      && Handled(limits, seen, events[earlier..], cur + if pendingCarriageReturn then "\r" else "")
    }

    constructor (limits: Limits)
      ensures Valid() && fresh(Repr) && seen == "" && events == [] && earlier == 0 && this.limits == limits
    {
      this.limits := limits;
      parts, bytes, discarding, pendingCarriageReturn, events := [], 0, false, false, [];
      canonical := new AgentEndTracker(limits.allowCanonical);
      seen, earlier, cur := "", 0, "";
      new;
      Repr := {this, canonical, canonical.messages};
      HandledNothing(limits);
    }

    method Reset()
      requires Buffered()
      modifies this
      ensures Buffered() && fresh(Repr - old(Repr)) && cur == ""
      ensures unchanged(`events, `seen, `earlier, `pendingCarriageReturn)
    {
      hide AgentEndTracker.Valid, IsCanonical, Validator.Valid;
      parts, bytes, discarding := [], 0, false;
      canonical := new AgentEndTracker(limits.allowCanonical);
      cur := "";
      Repr := {this, canonical, canonical.messages};
    }

    method AppendContent(content: string) returns (ok: bool)
      requires Buffered() && '\n' !in content
      modifies Repr
      ensures unchanged(this`events, this`seen, this`earlier, this`pendingCarriageReturn, this`Repr)
      ensures cur == old(cur) + content
      ensures ok ==> Buffered()
      ensures !ok ==> Bytes(cur) > limits.maxLineBytes
      ensures !ok ==> limits.allowCanonical ==> forall more :: !IsCanonical(cur + more)
    {
      hide AgentEndTracker.Valid, IsCanonical, Bytes, Join, Validator.Valid;
      ok := true;
      cur := cur + content;
      if content == "" {
        assert cur == old(cur);
        return;
      }
      BytesConcat(old(cur), content);
      bytes := bytes + Bytes(content);
      canonical.AppendText(content);
      if discarding {
        ok := canonical.Possible();
        return;
      }
      JoinSnoc(parts, content);
      parts := parts + [content];
      if bytes <= limits.maxLineBytes {
        return;
      }
      if !canonical.Possible() {
        ok := false;
        return;
      }
      parts := [];
      discarding := true;
    }

    method CompleteLine() returns (ok: bool)
      requires Buffered()
      modifies Repr
      ensures unchanged(this`seen, this`earlier, this`pendingCarriageReturn)
      ensures ok == FitsOrCanonical(limits, old(cur))
      ensures ok ==> Buffered() && cur == "" && fresh(Repr - old(Repr))
      ensures events == old(events) + if ok then [LineEvent(limits, old(cur))] else []
    {
      hide AgentEndTracker.Valid, Validator.Valid, IsCanonical, Bytes, Join;
      if discarding {
        if !canonical.Complete() {
          return false;
        }
        events := events + [OversizedLine];
      } else {
        events := events + [Line(Join(parts))];
      }
      Reset();
      ok := true;
    }

    /** One line of `text`, without its LF, and the LF after it. */
    method AppendLine(line: string) returns (ok: bool)
      requires Buffered() && '\n' !in line
      requires Handled(limits, seen, events[earlier..], cur)
      requires EndsWithCr(cur) ==> line != ""
      modifies Repr
      ensures unchanged(this`earlier, this`pendingCarriageReturn)
      ensures seen == old(seen) + line + "\n"
      ensures old(events) <= events
      ensures ok ==> Buffered() && cur == "" && fresh(Repr - old(Repr)) && Handled(limits, seen, events[earlier..], "")
      ensures !ok ==> Doomed(limits, seen, events[earlier..])
    {
      hide AgentEndTracker.Valid, IsCanonical, Bytes, Join, Handled, Doomed, Validator.Valid;
      ghost var raw, before := cur + line, events[earlier..];
      ghost var next := line + "\n";
      Associate(seen, line, "\n");
      Associate(cur, line, "\n");
      HandledExtend(limits, seen, before, cur, next);
      seen := seen + next;
      var content := if EndsWithCr(line) then line[..|line| - 1] else line;
      StripKeeps(cur, line);
      ok := AppendContent(content);
      if !ok {
        LineTooLong(limits, raw);
        DoomedByLine(limits, seen, before, raw);
        return;
      }
      ok := CompleteLine();
      if ok {
        HandledLine(limits, seen, before, raw);
        assert events[earlier..] == before + [LineEvent(limits, StripCr(raw))];
      } else {
        assert events == old(events);
        DoomedByLine(limits, seen, before, raw);
      }
    }

    /** The LF that follows a CR which ended the previous chunk. */
    method FinishPendingLine() returns (ok: bool)
      requires Buffered() && !pendingCarriageReturn
      requires Handled(limits, seen, events[earlier..], cur + "\r")
      modifies Repr
      ensures unchanged(this`earlier, this`pendingCarriageReturn)
      ensures seen == old(seen) + "\n" && old(events) <= events
      ensures ok ==> Buffered() && cur == "" && fresh(Repr - old(Repr)) && Handled(limits, seen, events[earlier..], "")
      ensures !ok ==> Doomed(limits, seen, events[earlier..])
    {
      hide AgentEndTracker.Valid, IsCanonical, Bytes, Join, Handled, Doomed, Validator.Valid;
      ghost var raw, before := cur + "\r", events[earlier..];
      HandledExtend(limits, seen, before, raw, "\n");
      seen := seen + "\n";
      assert StripCr(raw) == cur;
      ok := CompleteLine();
      if ok {
        HandledLine(limits, seen, before, raw);
        assert events[earlier..] == before + [LineEvent(limits, StripCr(raw))];
      } else {
        assert events == old(events);
        DoomedByLine(limits, seen, before, raw);
      }
    }

    /** The end of `text`, with no LF in it. */
    method AppendTail(tail: string) returns (ok: bool)
      requires Buffered() && '\n' !in tail && tail != "" && !pendingCarriageReturn
      requires Handled(limits, seen, events[earlier..], cur)
      modifies Repr
      ensures unchanged(this`earlier, this`events, this`Repr)
      ensures seen == old(seen) + tail
      ensures ok ==> Valid()
      ensures !ok ==> Doomed(limits, seen, events[earlier..])
    {
      hide AgentEndTracker.Valid, IsCanonical, Bytes, Join, Handled, Doomed, Validator.Valid;
      ghost var before, evs := cur, events[earlier..];
      HandledExtend(limits, seen, evs, before, tail);
      if tail[|tail| - 1] == '\r' {
        ghost var body := tail[..|tail| - 1];
        assert tail == body + "\r";
        Associate(before, body, "\r");
        Associate(seen, body, "\r");
        HandledExtend(limits, seen, evs, before, body);
        ok := AppendContent(tail[..|tail| - 1]);
        if ok {
          pendingCarriageReturn := true;
        } else {
          DoomedByContent(limits, seen + body, evs, cur, "\r");
        }
        seen := seen + tail;
      } else {
        ok := AppendContent(tail);
        seen := seen + tail;
        assert cur + "" == cur;
        if !ok {
          assert seen + "" == seen;
          DoomedByContent(limits, seen, evs, cur, "");
        }
      }
    }

    /** What a CR held back at the end of the previous chunk turns out to be. */
    method ResolvePending(text: string) returns (ok: bool, offset: nat)
      requires Valid() && text != ""
      modifies Repr
      ensures unchanged(this`earlier) && old(events) <= events && offset <= |text|
      ensures ok ==> Buffered() && !pendingCarriageReturn && fresh(Repr - old(Repr))
      ensures ok ==> seen == old(seen) + text[..offset] && Handled(limits, seen, events[earlier..], cur)
      ensures ok && EndsWithCr(cur) ==> offset < |text| && text[offset] != '\n'
      ensures !ok ==> seen == old(seen) + text && Doomed(limits, seen, events[earlier..])
    {
      hide AgentEndTracker.Valid, IsCanonical, Bytes, Join, Handled, Doomed, Validator.Valid;
      ok, offset := true, 0;
      ghost var before := seen;
      assert before + text[..0] == before;
      if !pendingCarriageReturn {
        assert cur + "" == cur;
      } else if text[0] == '\n' {
        pendingCarriageReturn := false;
        ok := FinishPendingLine();
        assert text[..1] == "\n";
        offset := 1;
        if !ok {
          FailedAt(limits, before, text, 1, seen, events[earlier..]);
          seen := before + text;
        }
      } else {
        pendingCarriageReturn := false;
        ok := AppendContent("\r");
        if !ok {
          DoomedByContent(limits, seen, events[earlier..], cur, text);
          seen := before + text;
        }
      }
    }

    /** After a false result the whole stream, whatever follows, overflows with exactly
        the events reported so far. */
    method Append(text: string) returns (ok: bool)
      requires Valid()
      modifies Repr
      ensures unchanged(this`earlier) && old(events) <= events
      ensures seen == old(seen) + text
      ensures ok ==> Valid() && fresh(Repr - old(Repr)) && Bytes(Join(parts)) <= limits.maxLineBytes
      ensures !ok ==> earlier <= |events| && Doomed(limits, seen, events[earlier..])
    {
      hide AgentEndTracker.Valid, IsCanonical, Handled, Doomed, Validator.Valid;
      ghost var before := seen;
      if text == "" {
        assert before + text == before;
        return true;
      }
      var offset;
      ok, offset := ResolvePending(text);
      if !ok {
        return;
      }
      while offset < |text|
        invariant 0 <= offset <= |text|
        invariant Buffered() && !pendingCarriageReturn && fresh(Repr - old(Repr))
        invariant earlier == old(earlier) && old(events) <= events
        invariant seen == before + text[..offset]
        invariant Handled(limits, seen, events[earlier..], cur)
        invariant EndsWithCr(cur) ==> offset < |text| && text[offset] != '\n'
      {
        var lineFeed := IndexOf(text, '\n', offset);
        ThreePieces(before, text, offset, lineFeed);
        if lineFeed == |text| {
          ok := AppendTail(text[offset..]);
          return;
        }
        ok := AppendLine(text[offset..lineFeed]);
        if !ok {
          FailedAt(limits, before, text, lineFeed + 1, seen, events[earlier..]);
          seen := before + text;
          return;
        }
        offset := lineFeed + 1;
      }
      assert text[..offset] == text;
      assert cur + "" == cur;
      ok := true;
    }

    /** The capture throws as early as it can: as long as it has not, and no CR is held back
        beyond the limit, some continuation does not overflow. */
    lemma NotTooLate()
      requires Valid() && (!pendingCarriageReturn || !discarding)
      ensures !Doomed(limits, seen, events[earlier..])
    {
      hide AgentEndTracker.Valid, Validator.Valid, IsCanonical, Handled, Doomed, OneShot;
      ghost var tail := cur + if pendingCarriageReturn then "\r" else "";
      if discarding {
        assert tail == cur;
        var more := CanonicalEnd();
        CanonicalLast(cur + more);
        StillOpen(limits, seen, events[earlier..], tail, more);
      } else {
        assert tail + "" == tail && StripCr(tail) == cur;
        StillOpen(limits, seen, events[earlier..], tail, "");
      }
    }

    lemma CanonicalEnd() returns (more: string)
      requires Buffered() && discarding
      ensures limits.allowCanonical && IsCanonical(cur + more) && '\n' !in more
    {
      more := canonical.ReadingCompletes();
    }

    /** The last line, which needs no LF and keeps a CR at its end. */
    method FlushTail() returns (ok: bool)
      requires Valid()
      modifies Repr
      ensures unchanged(this`seen, this`earlier)
      ensures var tail := old(cur) + if old(pendingCarriageReturn) then "\r" else "";
              && ok == (Bytes(tail) <= limits.maxLineBytes)
              && events == old(events) + if ok && tail != "" then [Line(tail)] else []
      ensures ok ==> Buffered() && fresh(Repr - old(Repr)) && cur == "" && !pendingCarriageReturn
    {
      hide AgentEndTracker.Valid, IsCanonical, Handled, Validator.Valid, OneShot, Bytes, Join;
      ok := true;
      ghost var tail := cur + if pendingCarriageReturn then "\r" else "";
      NoBytes(tail);
      assert !pendingCarriageReturn ==> tail == cur;
      if pendingCarriageReturn {
        pendingCarriageReturn := false;
        ok := AppendContent("\r");
      }
      if !ok || discarding {
        return false;
      }
      if bytes > 0 {
        events := events + [Line(Join(parts))];
      }
      Reset();
    }

    /** Nothing is left of the text; the next one starts afresh. */
    method StartAfresh()
      requires Buffered() && cur == "" && !pendingCarriageReturn
      modifies this`seen, this`earlier
      ensures Valid() && seen == "" && earlier == |events|
    {
      hide AgentEndTracker.Valid, IsCanonical, Handled, Validator.Valid, Bytes, Join;
      seen, earlier := "", |events|;
      HandledNothing(limits);
      assert events[earlier..] == [] && cur + "" == "";
    }

    /** End of stream. On success the events since the last finish are exactly those of
        the one-shot reading of all the text, and the capture starts afresh. */
    method Finish(text: string) returns (ok: bool)
      requires Valid()
      modifies Repr
      ensures old(earlier) <= |events| && old(events) <= events
      ensures OneShot(limits, old(seen) + text) == Outcome(events[old(earlier)..], !ok)
      ensures ok ==> Valid() && fresh(Repr - old(Repr)) && seen == "" && earlier == |events|
    {
      hide AgentEndTracker.Valid, IsCanonical, Handled, Doomed, Validator.Valid, OneShot, Bytes, Join;
      ok := Append(text);
      if !ok {
        DoomedAtEnd(limits, seen, events[earlier..]);
        return;
      }
      ghost var evs := events[earlier..];
      ghost var tail := cur + if pendingCarriageReturn then "\r" else "";
      AtEnd(limits, seen, evs, tail);
      LastLine(limits, tail);
      ghost var mid := events;
      ok := FlushTail();
      CutLeft(mid, OneShot(limits, tail).events, earlier);
      if !ok {
        return;
      }
      StartAfresh();
    }
  }

  lemma CanonicalLast(line: string)
    requires IsCanonical(line)
    ensures StripCr(line) == line
  {
    hide PREFIX, IsArrayTail;
    var messages, suffix :| CanonicalParts(line, messages, suffix);
    SuffixLast(suffix);
    assert line[|line| - 1] == suffix[|suffix| - 1];
  }

  lemma SuffixLast(suffix: string)
    requires IsSuffix(suffix)
    ensures suffix != "" && suffix[|suffix| - 1] == '}'
  {
  }

  /** A line that can still be finished does not doom the stream. */
  lemma StillOpen(l: Limits, seen: string, events: seq<Event>, tail: string, more: string)
    requires Handled(l, seen, events, tail) && '\n' !in tail + more && FitsOrCanonical(l, StripCr(tail + more))
    ensures !Doomed(l, seen, events)
  {
    hide IsCanonical, StripCr, FitsOrCanonical, OneShot;
    var next := more + "\n";
    OneShotLine(l, tail + more, "");
    assert tail + next == tail + more + "\n" + "";
    NoText(l);
    assert !OneShot(l, tail + next).overflow;
    assert OneShot(l, seen + next).overflow == OneShot(l, tail + next).overflow;
  }

  lemma NoText(l: Limits)
    ensures OneShot(l, "") == Outcome([], false)
  {
  }

  lemma AtEnd(l: Limits, seen: string, events: seq<Event>, tail: string)
    requires Handled(l, seen, events, tail)
    ensures OneShot(l, seen) == Outcome(events + OneShot(l, tail).events, OneShot(l, tail).overflow)
  {
    assert seen + "" == seen && tail + "" == tail;
  }

  lemma DoomedAtEnd(l: Limits, seen: string, events: seq<Event>)
    requires Doomed(l, seen, events)
    ensures OneShot(l, seen) == Outcome(events, true)
  {
    assert seen + "" == seen;
  }

  lemma NoBytes(s: string)
    ensures Bytes(s) == 0 <==> s == ""
  {
  }

  lemma ThreePieces(before: string, text: string, offset: nat, k: nat)
    requires offset <= k <= |text|
    ensures k == |text| ==> text[offset..k] == text[offset..] && before + text[..offset] + text[offset..] == before + text
    ensures k < |text| && text[k] == '\n' ==>
              before + text[..offset] + text[offset..k] + "\n" == before + text[..k + 1]
  {
  }

  lemma FailedAt(l: Limits, before: string, text: string, k: nat, seen: string, events: seq<Event>)
    requires k <= |text| && seen == before + text[..k] && Doomed(l, seen, events)
    ensures Doomed(l, before + text, events)
  {
    DoomedExtend(l, seen, events, text[k..]);
    assert before + text[..k] + text[k..] == before + text;
  }

  lemma LineTooLong(l: Limits, raw: string)
    requires Bytes(StripCr(raw)) > l.maxLineBytes
    requires l.allowCanonical ==> forall more :: !IsCanonical(StripCr(raw) + more)
    ensures !FitsOrCanonical(l, StripCr(raw))
  {
    assert StripCr(raw) + "" == StripCr(raw);
  }

  lemma HandledNothing(l: Limits)
    ensures Handled(l, "", [], "")
  {
    forall more ensures OneShot(l, "" + more) == Outcome([] + OneShot(l, "" + more).events, OneShot(l, "" + more).overflow) {
      assert "" + more == more;
    }
  }

  /** However a text is cut into chunks, feeding the chunks and finishing gives the
      outcome of the one-shot reading. */
  method CaptureAll(limits: Limits, chunks: seq<string>) returns (outcome: Outcome)
    ensures outcome == OneShot(limits, Join(chunks))
  {
    hide AgentEndTracker.Valid, IsCanonical, Handled, Validator.Valid, OneShot, Bytes, Capture.Buffered;
    var capture := new Capture(limits);
    var i := 0;
    while i < |chunks|
      invariant 0 <= i <= |chunks|
      invariant capture.Valid() && fresh(capture.Repr) && capture.limits == limits
      invariant capture.seen == Join(chunks[..i]) && capture.earlier == 0
    {
      assert chunks[..i + 1][..i] == chunks[..i];
      var ok := capture.Append(chunks[i]);
      if !ok {
        JoinSplit(chunks, i + 1);
        DoomedExtend(limits, capture.seen, capture.events, Join(chunks[i + 1..]));
        DoomedAtEnd(limits, Join(chunks), capture.events);
        assert capture.events[0..] == capture.events;
        return Outcome(capture.events, true);
      }
      i := i + 1;
    }
    assert chunks[..i] == chunks;
    var ok := capture.Finish("");
    assert Join(chunks) + "" == Join(chunks);
    assert capture.events[0..] == capture.events;
    outcome := Outcome(capture.events, !ok);
  }

  lemma {:induction false} JoinSplit(chunks: seq<string>, k: nat)
    requires k <= |chunks|
    ensures Join(chunks) == Join(chunks[..k]) + Join(chunks[k..])
    decreases |chunks|
  {
    if k == |chunks| {
      assert chunks[..k] == chunks;
    } else {
      var most := chunks[..|chunks| - 1];
      JoinSplit(most, k);
      assert most[..k] == chunks[..k] && chunks[k..][..|chunks| - 1 - k] == most[k..];
      assert chunks[k..][|chunks| - 1 - k] == chunks[|chunks| - 1];
    }
  }
}
