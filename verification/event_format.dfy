/**
 * `MetricsSender.Event`: the event line, its size cap and the truncating
 * retry.
 */
module EventFormat {
  import opened Wrappers
  import opened Text
  import opened Encoding
  import opened Escaping

  /** The optional arguments of `Event.GetCommand`; `None` is `null`. */
  datatype EventFields = EventFields(
    alertType: Option<string>,
    aggregationKey: Option<string>,
    sourceType: Option<string>,
    dateHappened: Option<int>,
    priority: Option<string>,
    hostname: Option<string>)

  /** `_e{<title length>,<text length>}:<title>|<text>`. */
  function EventHeader(title: string, text: string): string
  {
    "_e{" + NatToString(|title|) + "," + NatToString(|text|) + "}:" + title + "|" + text
  }

  /**
   * The partner of `EventHeader`: reads the two lengths, then exactly that
   * many characters of title and of text, and returns them with the rest of
   * the line.
   */
  function DecodeEventHeader(line: string): Option<(string, string, string)>
  {
    if |line| < 3 || line[..3] != "_e{" then None else DecodeTitleLength(line[3..])
  }

  function DecodeTitleLength(a: string): Option<(string, string, string)>
  {
    var k := LeadingDigits(a);
    if k == 0 || k == |a| || a[k] != ',' then None
    else
      assert AllDigits(a[..k]) by {
        forall i | 0 <= i < k ensures IsDigit(a[..k][i]) { assert a[..k][i] == a[i]; }
      }
      DecodeTextLength(ParseNat(a[..k]), a[k + 1..])
  }

  function DecodeTextLength(titleLength: nat, b: string): Option<(string, string, string)>
  {
    var j := LeadingDigits(b);
    if j == 0 || j + 2 > |b| || b[j..j + 2] != "}:" then None
    else
      assert AllDigits(b[..j]) by {
        forall i | 0 <= i < j ensures IsDigit(b[..j][i]) { assert b[..j][i] == b[i]; }
      }
      DecodeTitleAndText(titleLength, ParseNat(b[..j]), b[j + 2..])
  }

  function DecodeTitleAndText(titleLength: nat, textLength: nat, c: string): Option<(string, string, string)>
  {
    if |c| < titleLength + 1 + textLength || c[titleLength] != '|' then None
    else Some((c[..titleLength], c[titleLength + 1..titleLength + 1 + textLength], c[titleLength + 1 + textLength..]))
  }

  lemma DecodeTitleAndTextOf(title: string, text: string, rest: string)
    ensures DecodeTitleAndText(|title|, |text|, title + "|" + text + rest) == Some((title, text, rest))
  {
    var c := title + "|" + text + rest;
    assert c[|title|] == '|';
    assert c[..|title|] == title;
    assert c[|title| + 1..|title| + 1 + |text|] == text;
    assert c[|title| + 1 + |text|..] == rest;
  }

  lemma DecodeTextLengthOf(titleLength: nat, textLength: nat, c: string)
    ensures DecodeTextLength(titleLength, NatToString(textLength) + "}:" + c)
         == DecodeTitleAndText(titleLength, textLength, c)
  {
    var n := NatToString(textLength);
    var tail := "}:" + c;
    var b := n + tail;
    assert n + "}:" + c == b;
    LeadingDigitsOfNumber(n, tail);
    assert b[..|n|] == n;
    assert b[|n|..|n| + 2] == tail[..2] == "}:";
    assert b[|n| + 2..] == tail[2..] == c;
    ParseNatToString(textLength);
  }

  lemma DecodeTitleLengthOf(titleLength: nat, b: string)
    ensures DecodeTitleLength(NatToString(titleLength) + "," + b) == DecodeTextLength(titleLength, b)
  {
    var n := NatToString(titleLength);
    var tail := "," + b;
    var a := n + tail;
    assert n + "," + b == a;
    LeadingDigitsOfNumber(n, tail);
    assert a[..|n|] == n;
    assert a[|n|] == tail[0] == ',';
    assert a[|n| + 1..] == tail[1..] == b;
    ParseNatToString(titleLength);
  }

  /**
   * Because the two lengths count exactly the characters written, the
   * header decodes back to its title and text whatever they contain,
   * `|`, `,` and `}` included.
   */
  lemma EventHeaderDecodes(title: string, text: string, rest: string)
    ensures DecodeEventHeader(EventHeader(title, text) + rest) == Some((title, text, rest))
  {
    var c := title + "|" + text + rest;
    var b := NatToString(|text|) + "}:" + c;
    var a := NatToString(|title|) + "," + b;
    var line := EventHeader(title, text) + rest;
    assert line == "_e{" + a;
    assert line[..3] == "_e{";
    assert line[3..] == a;
    DecodeTitleLengthOf(|title|, b);
    DecodeTextLengthOf(|title|, |text|, c);
    DecodeTitleAndTextOf(title, text, rest);
  }

  /** The optional fields in their fixed order d, h, k, p, s, t. */
  function EventOptionalFields(f: EventFields): string
  {
    OptionalField('d', FormatInt(f.dateHappened))
    + OptionalField('h', f.hostname)
    + OptionalField('k', f.aggregationKey)
    + OptionalField('p', f.priority)
    + OptionalField('s', f.sourceType)
    + OptionalField('t', f.alertType)
  }

  /**
   * The line `Event.GetCommand` builds before its size check: the header
   * over the escaped title and text, the optional fields, the tags.
   */
  function EventLine(title: string, text: string, f: EventFields,
                     constantTags: Option<seq<string>>, tags: Option<seq<string>>): (r: string)
    ensures IsPrefix(EventHeader(EscapeContent(title), EscapeContent(text)), r)
    ensures IsSuffix(ConcatTags(constantTags, tags), r)
  {
    var header := EventHeader(EscapeContent(title), EscapeContent(text));
    var tagSuffix := ConcatTags(constantTags, tags);
    ConcatEnds(header, EventOptionalFields(f), tagSuffix);
    header + (EventOptionalFields(f) + tagSuffix)
  }

  /**
   * The header of an event line decodes back to the escaped title and text,
   * followed by the optional fields and the tags.
   */
  lemma EventLineDecodes(title: string, text: string, f: EventFields,
                         constantTags: Option<seq<string>>, tags: Option<seq<string>>)
    ensures DecodeEventHeader(EventLine(title, text, f, constantTags, tags))
         == Some((EscapeContent(title), EscapeContent(text), EventOptionalFields(f) + ConcatTags(constantTags, tags)))
  {
    var header := EventHeader(EscapeContent(title), EscapeContent(text));
    var suffix := EventOptionalFields(f) + ConcatTags(constantTags, tags);
    assert EventLine(title, text, f, constantTags, tags) == header + suffix;
    EventHeaderDecodes(EscapeContent(title), EscapeContent(text), suffix);
  }

  /**
   * `Event.GetCommand` with constant tags. Over `MaxSize` with truncation
   * allowed, the longer raw field (the text on a tie) is shortened by the
   * overage and the call is repeated through the overload without constant
   * tags; without truncation it throws.
   */
  function EventCommand(title: string, text: string, f: EventFields, constantTags: Option<seq<string>>,
                        tags: Option<seq<string>>, truncateIfTooLong: bool): (r: Result<string, EncodeError>)
    ensures r.Success? ==> |r.value| <= MaxSize
    ensures |EventLine(title, text, f, constantTags, tags)| <= MaxSize ==>
              r == Success(EventLine(title, text, f, constantTags, tags))
    ensures r.Failure? ==> r.error == if truncateIfTooLong then SubstringOutOfRange else EventTooBig(title)
    ensures |EventLine(title, text, f, constantTags, tags)| > MaxSize && !truncateIfTooLong ==>
              r == Failure(EventTooBig(title))
    ensures |EventLine(title, text, f, constantTags, tags)| > MaxSize && truncateIfTooLong
            && |EventLine(title, text, f, constantTags, tags)| - MaxSize > (if |title| > |text| then |title| else |text|) ==>
              r == Failure(SubstringOutOfRange)
    decreases |title| + |text|
  {
    var result := EventLine(title, text, f, constantTags, tags);
    if |result| > MaxSize then
      if truncateIfTooLong then
        var overage := |result| - MaxSize;
        if |title| > |text| then
          match TruncateOverage(title, overage)
          case Failure(e) => Failure(e)
          case Success(shorterTitle) => EventCommand(shorterTitle, text, f, None, tags, true)
        else
          match TruncateOverage(text, overage)
          case Failure(e) => Failure(e)
          case Success(shorterText) => EventCommand(title, shorterText, f, None, tags, true)
      else
        Failure(EventTooBig(title))
    else
      Success(result)
  }

  /**
   * One truncating retry: over `MaxSize`, a successful call is the call with
   * truncation on and the constant tags dropped, on the longer raw field (the
   * text on a tie) cut by exactly the overage and the other field kept.
   */
  lemma EventRetry(title: string, text: string, f: EventFields, constantTags: Option<seq<string>>,
                   tags: Option<seq<string>>, truncateIfTooLong: bool)
    returns (title': string, text': string)
    requires |EventLine(title, text, f, constantTags, tags)| > MaxSize
    requires EventCommand(title, text, f, constantTags, tags, truncateIfTooLong).Success?
    ensures IsPrefix(title', title) && IsPrefix(text', text) && |title'| + |text'| < |title| + |text|
    ensures var overage := |EventLine(title, text, f, constantTags, tags)| - MaxSize;
            && (|title| > |text| ==> text' == text && |title'| == |title| - overage)
            && (|title| <= |text| ==> title' == title && |text'| == |text| - overage)
    ensures EventCommand(title, text, f, constantTags, tags, truncateIfTooLong)
         == EventCommand(title', text', f, None, tags, true)
  {
    var overage := |EventLine(title, text, f, constantTags, tags)| - MaxSize;
    title', text' := title, text;
    if |title| > |text| {
      RetryOnLonger(title, text, f, constantTags, tags, truncateIfTooLong);
      title' := title[..|title| - overage];
    } else {
      RetryOnLonger(title, text, f, constantTags, tags, truncateIfTooLong);
      text' := text[..|text| - overage];
    }
  }

  /**
   * The step `EventRetry` rests on: with truncation on and an overage the
   * longer field can absorb, the call is the truncating call on the longer
   * field cut to the prefix the overage leaves.
   */
  lemma RetryOnLonger(title: string, text: string, f: EventFields, constantTags: Option<seq<string>>,
                      tags: Option<seq<string>>, truncateIfTooLong: bool)
    requires |EventLine(title, text, f, constantTags, tags)| > MaxSize && truncateIfTooLong
    requires |EventLine(title, text, f, constantTags, tags)| - MaxSize <= (if |title| > |text| then |title| else |text|)
    ensures var overage := |EventLine(title, text, f, constantTags, tags)| - MaxSize;
            var r := EventCommand(title, text, f, constantTags, tags, truncateIfTooLong);
            && (|title| > |text| ==> overage <= |title| && r == EventCommand(title[..|title| - overage], text, f, None, tags, true))
            && (|title| <= |text| ==> overage <= |text| && r == EventCommand(title, text[..|text| - overage], f, None, tags, true))
  {
  }

  /**
   * What a successful event command is: the line of the call itself, or,
   * after one or more truncating retries, the line of a strictly shorter
   * prefix of the title and of the text with every optional field kept and
   * the constant tags dropped.
   */
  lemma {:induction false} EventCommandShape(title: string, text: string, f: EventFields, constantTags: Option<seq<string>>,
                                             tags: Option<seq<string>>, truncateIfTooLong: bool)
    requires EventCommand(title, text, f, constantTags, tags, truncateIfTooLong).Success?
    ensures var r := EventCommand(title, text, f, constantTags, tags, truncateIfTooLong).value;
            || r == EventLine(title, text, f, constantTags, tags)
            || exists title', text' :: && IsPrefix(title', title) && IsPrefix(text', text)
                                      && |title'| + |text'| < |title| + |text|
                                      && r == EventLine(title', text', f, None, tags)
    decreases |title| + |text|
  {
    var r := EventCommand(title, text, f, constantTags, tags, truncateIfTooLong).value;
    if |EventLine(title, text, f, constantTags, tags)| > MaxSize {
      var title', text' := EventRetry(title, text, f, constantTags, tags, truncateIfTooLong);
      EventCommandShape(title', text', f, None, tags, true);
      if r != EventLine(title', text', f, None, tags) {
        var title'', text'' :| && IsPrefix(title'', title') && IsPrefix(text'', text')
                               && |title''| + |text''| < |title'| + |text'|
                               && r == EventLine(title'', text'', f, None, tags);
        PrefixTransitive(title'', title', title);
        PrefixTransitive(text'', text', text);
      }
    }
  }
}
