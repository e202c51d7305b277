/**
 * `MetricsSender.ServiceCheck`: the service-check line, its size cap and the
 * truncation of the message.
 */
module ServiceCheckFormat {
  import opened Wrappers
  import opened Text
  import opened Encoding
  import opened Escaping

  /**
   * `EscapeName`: the name escaped like any content; a name that still holds
   * a `|` afterwards is refused.
   */
  function EscapeName(name: string): (r: Result<string, EncodeError>)
    ensures r.Success? <==> '|' !in EscapeEach(name)
    ensures r.Success? ==> r.value == EscapeEach(name)
    ensures r.Failure? ==> r.error == NameHasPipe
  {
    var escaped := EscapeContent(name);
    if '|' in escaped then Failure(NameHasPipe) else Success(escaped)
  }

  /** `|m:<message>` when the escaped message is not null, nothing otherwise. */
  function MessageField(escMessage: Option<string>): string
  {
    if escMessage.Some? then "|m:" + escMessage.value else ""
  }

  /**
   * Everything of a service-check line between the name and the message: the
   * status, the optional timestamp and host, the tags.
   */
  function Middle(status: int, timestamp: Option<int>, hostname: Option<string>,
                  constantTags: Option<seq<string>>, tags: Option<seq<string>>): string
  {
    IntToString(status) + AfterStatus(timestamp, hostname, constantTags, tags)
  }

  /** What follows the status: the optional timestamp and host, then the tags. */
  function AfterStatus(timestamp: Option<int>, hostname: Option<string>,
                       constantTags: Option<seq<string>>, tags: Option<seq<string>>): string
  {
    OptionalField('d', FormatInt(timestamp)) + OptionalField('h', hostname) + ConcatTags(constantTags, tags)
  }

  /** Each field after the status, the message included, opens with a `|`. */
  lemma AfterStatusOpensWithPipe(timestamp: Option<int>, hostname: Option<string>,
                                 constantTags: Option<seq<string>>, tags: Option<seq<string>>, escMessage: Option<string>)
    ensures var after := AfterStatus(timestamp, hostname, constantTags, tags) + MessageField(escMessage);
            after == [] || after[0] == '|'
  {
  }

  /**
   * The middle part opens with the status, followed by a `|` or nothing, and
   * closes with the tag suffix.
   */
  lemma MiddleLayout(status: int, timestamp: Option<int>, hostname: Option<string>,
                     constantTags: Option<seq<string>>, tags: Option<seq<string>>)
    ensures var m := Middle(status, timestamp, hostname, constantTags, tags);
            var st := IntToString(status);
            && |st| <= |m| && m[..|st|] == st
            && (|m| == |st| || m[|st|] == '|')
    ensures IsSuffix(ConcatTags(constantTags, tags), Middle(status, timestamp, hostname, constantTags, tags))
  {
    var st := IntToString(status);
    var m := Middle(status, timestamp, hostname, constantTags, tags);
    assert m[..|st|] == st;
  }

  /**
   * The line `ServiceCheck.GetCommand` builds before its size check:
   * `_sc|<name>|<status>`, the optional timestamp and host, the tags, and
   * the message last.
   */
  function ServiceCheckLine(escName: string, status: int, timestamp: Option<int>, hostname: Option<string>,
                            constantTags: Option<seq<string>>, tags: Option<seq<string>>, escMessage: Option<string>): (r: string)
    ensures IsPrefix("_sc|" + escName + "|", r)
    ensures |r| == 5 + |escName| + |Middle(status, timestamp, hostname, constantTags, tags)|
                  + (if escMessage.Some? then 3 + |escMessage.value| else 0)
  {
    var head := "_sc|" + escName + "|";
    var r := head + (Middle(status, timestamp, hostname, constantTags, tags) + MessageField(escMessage));
    assert r[..|head|] == head;
    r
  }

  /**
   * The retry after an overflow: the message shortened by the overage and the
   * constant tags dropped. It never overflows, and without constant tags it
   * fills the cap exactly.
   */
  lemma RetryFits(escName: string, status: int, timestamp: Option<int>, hostname: Option<string>,
                  constantTags: Option<seq<string>>, tags: Option<seq<string>>, em: string)
    requires |ServiceCheckLine(escName, status, timestamp, hostname, constantTags, tags, Some(em))| > MaxSize
    requires |ServiceCheckLine(escName, status, timestamp, hostname, constantTags, tags, Some(em))| - MaxSize <= |em|
    ensures var overage := |ServiceCheckLine(escName, status, timestamp, hostname, constantTags, tags, Some(em))| - MaxSize;
            var retry := ServiceCheckLine(escName, status, timestamp, hostname, None, tags, Some(em[..|em| - overage]));
            && |retry| <= MaxSize
            && (OrEmpty(constantTags) == [] ==> |retry| == MaxSize)
  {
    var line := ServiceCheckLine(escName, status, timestamp, hostname, constantTags, tags, Some(em));
    var overage := |line| - MaxSize;
    ConcatTagsWithoutConstants(constantTags, tags);
    if OrEmpty(constantTags) == [] {
      assert OrEmpty(constantTags) + OrEmpty(tags) == OrEmpty(None) + OrEmpty(tags);
    }
  }

  /** The size of the escaped message, which every truncating retry shrinks. */
  function MessageMeasure(message: Option<string>): nat
  {
    if message.Some? then |EscapeMessage(message).value| else 0
  }

  /**
   * `ServiceCheck.GetCommand` with constant tags. Over `MaxSize` it throws
   * unless truncation is allowed; it throws as well when there is no message
   * to shorten or the message is shorter than the overage; otherwise it
   * repeats the call through the overload without constant tags, with the
   * escaped message shortened by the overage, and that retry always fits.
   */
  function ServiceCheckCommand(name: string, status: int, timestamp: Option<int>, hostname: Option<string>,
                               constantTags: Option<seq<string>>, tags: Option<seq<string>>, message: Option<string>,
                               truncateIfTooLong: bool): (r: Result<string, EncodeError>)
    ensures r.Success? ==> |r.value| <= MaxSize
    ensures EscapeName(name).Failure? ==> r == Failure(NameHasPipe)
    ensures EscapeName(name).Success? ==>
              var line := ServiceCheckLine(EscapeName(name).value, status, timestamp, hostname, constantTags, tags, EscapeMessage(message));
              var em := EscapeMessage(message);
              && (|line| <= MaxSize ==> r == Success(line))
              && (|line| > MaxSize && !truncateIfTooLong ==> r == Failure(ServiceCheckTooBig(name)))
              && (|line| > MaxSize && truncateIfTooLong ==>
                    (r.Success? <==> em.Some? && |line| - MaxSize <= |em.value|)
                    && (r.Failure? ==> r.error == CannotTruncate(name)))
    decreases MessageMeasure(message)
  {
    match EscapeName(name)
    case Failure(e) => Failure(e)
    case Success(processedName) =>
      var processedMessage := EscapeMessage(message);
      var result := ServiceCheckLine(processedName, status, timestamp, hostname, constantTags, tags, processedMessage);
      if |result| > MaxSize then
        if !truncateIfTooLong then Failure(ServiceCheckTooBig(name))
        else
          var overage := |result| - MaxSize;
          if processedMessage.None? || overage > |processedMessage.value| then Failure(CannotTruncate(name))
          else
            var truncMessage := TruncateOverage(processedMessage.value, overage).value;
            EscapeMessageFixesPrefix(message, truncMessage);
            RetryFits(processedName, status, timestamp, hostname, constantTags, tags, processedMessage.value);
            ServiceCheckCommand(name, status, timestamp, hostname, None, tags, Some(truncMessage), true)
      else
        Success(result)
  }

  /**
   * A truncated service check is the line of the retry: the escaped message
   * cut to a prefix shorter by the overage, the constant tags dropped; with
   * no constant tags it is exactly `MaxSize` long.
   */
  lemma ServiceCheckTruncation(name: string, status: int, timestamp: Option<int>, hostname: Option<string>,
                               constantTags: Option<seq<string>>, tags: Option<seq<string>>, message: Option<string>)
    returns (shortened: string)
    requires EscapeName(name).Success? && EscapeMessage(message).Some?
    requires var line := ServiceCheckLine(EscapeName(name).value, status, timestamp, hostname, constantTags, tags, EscapeMessage(message));
             MaxSize < |line| <= MaxSize + |EscapeMessage(message).value|
    ensures var em := EscapeMessage(message).value;
            var line := ServiceCheckLine(EscapeName(name).value, status, timestamp, hostname, constantTags, tags, EscapeMessage(message));
            && IsPrefix(shortened, em) && |shortened| == |em| - (|line| - MaxSize)
            && ServiceCheckCommand(name, status, timestamp, hostname, constantTags, tags, message, true)
               == Success(ServiceCheckLine(EscapeName(name).value, status, timestamp, hostname, None, tags, Some(shortened)))
            && (OrEmpty(constantTags) == [] ==>
                  |ServiceCheckCommand(name, status, timestamp, hostname, constantTags, tags, message, true).value| == MaxSize)
  {
    var em := EscapeMessage(message).value;
    var line := ServiceCheckLine(EscapeName(name).value, status, timestamp, hostname, constantTags, tags, EscapeMessage(message));
    shortened := em[..|em| - (|line| - MaxSize)];
    EscapeMessageFixesPrefix(message, shortened);
    RetryFits(EscapeName(name).value, status, timestamp, hostname, constantTags, tags, em);
  }

  /** A successful service check is a line over the escaped name, with a prefix of the escaped message. */
  lemma ServiceCheckShape(name: string, status: int, timestamp: Option<int>, hostname: Option<string>,
                          constantTags: Option<seq<string>>, tags: Option<seq<string>>, message: Option<string>,
                          truncateIfTooLong: bool)
    returns (ct: Option<seq<string>>, m: Option<string>)
    requires ServiceCheckCommand(name, status, timestamp, hostname, constantTags, tags, message, truncateIfTooLong).Success?
    ensures EscapeName(name).Success?
    ensures ServiceCheckCommand(name, status, timestamp, hostname, constantTags, tags, message, truncateIfTooLong).value
         == ServiceCheckLine(EscapeName(name).value, status, timestamp, hostname, ct, tags, m)
    ensures m.None? <==> message.None?
    ensures m.Some? ==> IsPrefix(m.value, EscapeMessage(message).value)
  {
    var line := ServiceCheckLine(EscapeName(name).value, status, timestamp, hostname, constantTags, tags, EscapeMessage(message));
    if |line| <= MaxSize {
      ct, m := constantTags, EscapeMessage(message);
      if m.Some? {
        assert m.value[..|m.value|] == m.value;
      }
    } else {
      var shortened := ServiceCheckTruncation(name, status, timestamp, hostname, constantTags, tags, message);
      ct, m := None, Some(shortened);
    }
  }

  /** The escaped name follows `_sc|` and runs up to the first `|`, because it holds none. */
  lemma NameBeforePipe(escName: string, rest: string)
    requires '|' !in escName
    ensures var line := "_sc|" + escName + "|" + rest;
            && |line| > 4 + |escName| && line[..4] == "_sc|"
            && IndexOf(line[4..], '|') == |escName| && line[4..4 + |escName|] == escName
  {
    var tail := escName + ['|'] + rest;
    var line := "_sc|" + escName + "|" + rest;
    assert line == "_sc|" + tail;
    assert line[4..] == tail;
    IndexOfAfter(escName, '|', rest);
    assert tail[..|escName|] == escName;
  }

  lemma LineNameDecodes(escName: string, status: int, timestamp: Option<int>, hostname: Option<string>,
                        constantTags: Option<seq<string>>, tags: Option<seq<string>>, escMessage: Option<string>)
    requires '|' !in escName
    ensures var line := ServiceCheckLine(escName, status, timestamp, hostname, constantTags, tags, escMessage);
            && |line| > 4 + |escName| && line[..4] == "_sc|"
            && IndexOf(line[4..], '|') == |escName| && line[4..4 + |escName|] == escName
  {
    var rest := Middle(status, timestamp, hostname, constantTags, tags) + MessageField(escMessage);
    assert ServiceCheckLine(escName, status, timestamp, hostname, constantTags, tags, escMessage)
        == "_sc|" + escName + "|" + rest;
    NameBeforePipe(escName, rest);
  }

  /**
   * The name can be read back from a service-check line: it follows `_sc|`
   * and runs up to the first `|`.
   */
  lemma ServiceCheckNameDecodes(name: string, status: int, timestamp: Option<int>, hostname: Option<string>,
                                constantTags: Option<seq<string>>, tags: Option<seq<string>>, message: Option<string>,
                                truncateIfTooLong: bool)
    requires ServiceCheckCommand(name, status, timestamp, hostname, constantTags, tags, message, truncateIfTooLong).Success?
    ensures var line := ServiceCheckCommand(name, status, timestamp, hostname, constantTags, tags, message, truncateIfTooLong).value;
            && |line| >= 4 && line[..4] == "_sc|"
            && 4 + IndexOf(line[4..], '|') <= |line| && line[4..4 + IndexOf(line[4..], '|')] == EscapeEach(name)
  {
    var ct, m := ServiceCheckShape(name, status, timestamp, hostname, constantTags, tags, message, truncateIfTooLong);
    LineNameDecodes(EscapeName(name).value, status, timestamp, hostname, ct, tags, m);
  }

  /** `|m:` starts at `k` in `line`, and no `m:` starts after its own. */
  predicate LastMarkerAt(line: string, k: int)
  {
    0 <= k && k + 3 <= |line| && line[k..k + 3] == "|m:" && NoMarker(line[k + 2..])
  }

  /** The line ends with `|m:<m>`, and that marker is the last one. */
  predicate EndsWithMessage(line: string, m: string)
  {
    |m| + 3 <= |line| && LastMarkerAt(line, |line| - |m| - 3) && line[|line| - |m|..] == m
  }

  /**
   * The message comes last and holds no `m:`, so the `m:` of its marker is
   * the last one in the line and everything after it is the message.
   */
  lemma MessageMarkerIsLast(escName: string, status: int, timestamp: Option<int>, hostname: Option<string>,
                            constantTags: Option<seq<string>>, tags: Option<seq<string>>, m: string)
    requires NoMarker(m)
    ensures EndsWithMessage(ServiceCheckLine(escName, status, timestamp, hostname, constantTags, tags, Some(m)), m)
  {
    var line := ServiceCheckLine(escName, status, timestamp, hostname, constantTags, tags, Some(m));
    MessageFieldIsLast(escName, status, timestamp, hostname, constantTags, tags, m);
    MarkerLastIn(line, m);
  }

  /** A line with a message ends with `|m:<message>`. */
  lemma MessageFieldIsLast(escName: string, status: int, timestamp: Option<int>, hostname: Option<string>,
                           constantTags: Option<seq<string>>, tags: Option<seq<string>>, m: string)
    ensures IsSuffix("|m:" + m, ServiceCheckLine(escName, status, timestamp, hostname, constantTags, tags, Some(m)))
  {
    ServiceCheckTagsBeforeMessage(escName, status, timestamp, hostname, constantTags, tags, Some(m));
    assert MessageField(Some(m)) == "|m:" + m;
    SuffixOfSuffix(ConcatTags(constantTags, tags), "|m:" + m,
                   ServiceCheckLine(escName, status, timestamp, hostname, constantTags, tags, Some(m)));
  }

  /** In a line ending with `|m:<m>` for a marker-free `m`, the marker's `m:` is the last one. */
  lemma MarkerLastIn(line: string, m: string)
    requires NoMarker(m) && IsSuffix("|m:" + m, line)
    ensures EndsWithMessage(line, m)
  {
    var k := |line| - |m| - 3;
    var tail := line[k..];
    assert tail == "|m:" + m;
    assert line[k..k + 3] == tail[..3] == "|m:";
    assert line[k + 3..] == tail[3..] == m;
    var rest := line[k + 2..];
    forall i | 0 <= i < |rest| - 1 ensures !(rest[i] == 'm' && rest[i + 1] == ':') {
      if i > 0 {
        assert rest[i] == m[i - 1] && rest[i + 1] == m[i];
      }
    }
  }

  /**
   * In a successful service check with a message, the last `m:` marks the
   * message, and what follows it is a prefix of the escaped message.
   */
  lemma ServiceCheckMessageDecodes(name: string, status: int, timestamp: Option<int>, hostname: Option<string>,
                                   constantTags: Option<seq<string>>, tags: Option<seq<string>>, message: Option<string>,
                                   truncateIfTooLong: bool)
    returns (k: nat)
    requires message.Some?
    requires ServiceCheckCommand(name, status, timestamp, hostname, constantTags, tags, message, truncateIfTooLong).Success?
    ensures var line := ServiceCheckCommand(name, status, timestamp, hostname, constantTags, tags, message, truncateIfTooLong).value;
            && LastMarkerAt(line, k)
            && IsPrefix(line[k + 3..], EscapeMessage(message).value)
  {
    var ct, m := ServiceCheckShape(name, status, timestamp, hostname, constantTags, tags, message, truncateIfTooLong);
    var em := EscapeMessage(message).value;
    var line := ServiceCheckCommand(name, status, timestamp, hostname, constantTags, tags, message, truncateIfTooLong).value;
    MessageFieldIsLast(EscapeName(name).value, status, timestamp, hostname, ct, tags, m.value);
    PrefixNoMarker(m.value, em);
    k := MarkerOfLine(line, m.value, em);
  }

  /** A prefix of a marker-free string is marker-free. */
  lemma PrefixNoMarker(p: string, s: string)
    requires IsPrefix(p, s) && NoMarker(s)
    ensures NoMarker(p)
  {
    forall i | 0 <= i < |p| - 1 ensures !(p[i] == 'm' && p[i + 1] == ':') {
      assert p[i] == s[i] && p[i + 1] == s[i + 1];
    }
  }

  /** `MarkerLastIn` for a message that is a prefix of `em`, with the marker's position returned. */
  lemma MarkerOfLine(line: string, m: string, em: string) returns (k: nat)
    requires NoMarker(m) && IsPrefix(m, em) && IsSuffix("|m:" + m, line)
    ensures LastMarkerAt(line, k) && IsPrefix(line[k + 3..], em)
  {
    MarkerLastIn(line, m);
    k := |line| - |m| - 3;
  }

  /**
   * After `_sc|<name>|` comes the status, and it runs up to the next `|`, so
   * with `IntToStringParses` the status reads back from the line.
   */
  lemma ServiceCheckStatusDecodes(escName: string, status: int, timestamp: Option<int>, hostname: Option<string>,
                                  constantTags: Option<seq<string>>, tags: Option<seq<string>>, escMessage: Option<string>)
    ensures var line := ServiceCheckLine(escName, status, timestamp, hostname, constantTags, tags, escMessage);
            && 5 + |escName| <= |line|
            && IsPrefix(IntToString(status), line[5 + |escName|..])
            && IndexOf(line[5 + |escName|..], '|') == |IntToString(status)|
  {
    var head := "_sc|" + escName + "|";
    var st := IntToString(status);
    var rest := AfterStatus(timestamp, hostname, constantTags, tags);
    var field := MessageField(escMessage);
    assert Middle(status, timestamp, hostname, constantTags, tags) == st + rest;
    assert ServiceCheckLine(escName, status, timestamp, hostname, constantTags, tags, escMessage) == head + ((st + rest) + field);
    IntToStringParses(status);
    AfterStatusOpensWithPipe(timestamp, hostname, constantTags, tags, escMessage);
    StatusAfterHead(head, st, rest, field);
  }

  /** In `<head><st><rest><field>`, a pipe-free `st` followed by a `|` or nothing is read back by `IndexOf`. */
  lemma StatusAfterHead(head: string, st: string, rest: string, field: string)
    requires '|' !in st
    requires rest + field == [] || (rest + field)[0] == '|'
    ensures var line := head + ((st + rest) + field);
            && |head| <= |line| && IsPrefix(st, line[|head|..])
            && IndexOf(line[|head|..], '|') == |st|
  {
    var line := head + ((st + rest) + field);
    assert line[|head|..] == st + (rest + field);
    assert (st + (rest + field))[..|st|] == st;
    StatusEndsAtPipe(st, rest + field);
  }

  /**
   * The middle part sits between `_sc|<name>|` and the message field, so the
   * timestamp and host come before the tags, and the tag suffix comes
   * directly before the message field, which ends the line.
   */
  lemma ServiceCheckTagsBeforeMessage(escName: string, status: int, timestamp: Option<int>, hostname: Option<string>,
                                      constantTags: Option<seq<string>>, tags: Option<seq<string>>, escMessage: Option<string>)
    ensures Enclosed(ServiceCheckLine(escName, status, timestamp, hostname, constantTags, tags, escMessage),
                     5 + |escName|, Middle(status, timestamp, hostname, constantTags, tags), MessageField(escMessage))
    ensures IsSuffix(ConcatTags(constantTags, tags) + MessageField(escMessage),
                     ServiceCheckLine(escName, status, timestamp, hostname, constantTags, tags, escMessage))
  {
    var head := "_sc|" + escName + "|";
    LineParts(escName, status, timestamp, hostname, constantTags, tags, escMessage);
    MiddleLayout(status, timestamp, hostname, constantTags, tags);
    BetweenHeadAndLast(head, Middle(status, timestamp, hostname, constantTags, tags),
                       ConcatTags(constantTags, tags), MessageField(escMessage));
  }

  /** `line` is `mid` from `start` on, followed by `last` and nothing else. */
  predicate Enclosed(line: string, start: int, mid: string, last: string)
  {
    0 <= start && start + |mid| + |last| == |line| && line[start..|line| - |last|] == mid
      && line[|line| - |last|..] == last
  }

  /** In `<p><m><z>`, `m` lies between `p` and `z`, and a suffix `t` of `m` comes right before `z`. */
  lemma BetweenHeadAndLast(p: string, m: string, t: string, z: string)
    requires IsSuffix(t, m)
    ensures Enclosed(p + (m + z), |p|, m, z) && IsSuffix(t + z, p + (m + z))
  {
    var line := p + (m + z);
    assert line[|p|..|line| - |z|] == m;
    assert line[|line| - |z|..] == z;
    assert line[|line| - |z| - |t|..] == m[|m| - |t|..] + z;
  }

  /** The three parts of a line: head, middle and message field. */
  lemma LineParts(escName: string, status: int, timestamp: Option<int>, hostname: Option<string>,
                  constantTags: Option<seq<string>>, tags: Option<seq<string>>, escMessage: Option<string>)
    ensures ServiceCheckLine(escName, status, timestamp, hostname, constantTags, tags, escMessage)
            == ("_sc|" + escName + "|") + (Middle(status, timestamp, hostname, constantTags, tags) + MessageField(escMessage))
  {
  }


  /** Text without a `|` runs up to the `|` that follows it, or to the end. */
  lemma StatusEndsAtPipe(st: string, after: string)
    requires '|' !in st
    requires after == [] || after[0] == '|'
    ensures IndexOf(st + after, '|') == |st|
  {
    if after == [] {
      assert st + after == st;
    } else {
      assert st + after == st + ['|'] + after[1..];
      IndexOfAfter(st, '|', after[1..]);
    }
  }
}
