/**
 * `MetricsSender.EscapeContent` and `ServiceCheck.EscapeMessage`: the escaping
 * that keeps a protocol line on one line and keeps a service-check message
 * from looking like the `m:` field marker.
 */
module Escaping {
  import opened Wrappers
  import opened Text

  /** How `EscapeContent` treats one character. */
  function EscapeChar(c: char): string
  {
    if c == '\r' then "" else if c == '\n' then "\\n" else [c]
  }

  /**
   * Reference definition of `EscapeContent`, one character at a time: every
   * carriage return dropped, every line feed written as the two characters
   * `\` `n`, everything else kept in order.
   */
  function EscapeEach(s: string): (r: string)
    ensures '\r' !in r && '\n' !in r
    ensures '\r' !in s && '\n' !in s ==> r == s
  {
    if s == [] then []
    else
      assert s == [s[0]] + s[1..];
      EscapeChar(s[0]) + EscapeEach(s[1..])
  }

  lemma {:induction false} EscapeEachByReplaceChar(s: string)
    ensures ReplaceChar(ReplaceChar(s, '\r', ""), '\n', "\\n") == EscapeEach(s)
    decreases |s|
  {
    if s != [] {
      var head := if s[0] == '\r' then "" else [s[0]];
      var rest := ReplaceChar(s[1..], '\r', "");
      assert ReplaceChar(s, '\r', "") == head + rest;
      ReplaceCharAppend(head, rest, '\n', "\\n");
      assert ReplaceChar(head, '\n', "\\n") == EscapeChar(s[0]);
      EscapeEachByReplaceChar(s[1..]);
    }
  }

  /** `content.Replace("\r", "").Replace("\n", "\\n")`. */
  function EscapeContent(content: string): (r: string)
    ensures r == EscapeEach(content)
  {
    var noCarriageReturns := Replace(content, "\r", "");
    ReplaceSingleChar(content, '\r', "");
    ReplaceSingleChar(noCarriageReturns, '\n', "\\n");
    EscapeEachByReplaceChar(content);
    Replace(noCarriageReturns, "\n", "\\n")
  }

  /** `s` holds no `m:` marker. */
  predicate NoMarker(s: string)
  {
    forall i :: 0 <= i < |s| - 1 ==> !(s[i] == 'm' && s[i + 1] == ':')
  }

  lemma ReplaceMarkerKeepsHead(s: string)
    requires s != []
    ensures Replace(s, "m:", "m\\:") != [] && Replace(s, "m:", "m\\:")[0] == s[0]
  {
  }

  /** After `.Replace("m:", "m\\:")` no `m:` is left. */
  lemma {:induction false} ReplaceMarkerRemovesMarkers(s: string)
    ensures NoMarker(Replace(s, "m:", "m\\:"))
    decreases |s|
  {
    var r := Replace(s, "m:", "m\\:");
    if |s| < 2 {
      assert r == s;
    } else if s[..2] == "m:" {
      var t := Replace(s[2..], "m:", "m\\:");
      ReplaceMarkerRemovesMarkers(s[2..]);
      assert r == "m\\:" + t;
      forall i | 0 <= i < |r| - 1 ensures !(r[i] == 'm' && r[i + 1] == ':') {
        if i >= 3 {
          assert r[i] == t[i - 3] && r[i + 1] == t[i - 2];
        }
      }
    } else {
      var t := Replace(s[1..], "m:", "m\\:");
      ReplaceMarkerRemovesMarkers(s[1..]);
      ReplaceMarkerKeepsHead(s[1..]);
      assert r == [s[0]] + t;
      assert !(s[0] == 'm' && s[1] == ':') by {
        assert s[..2] == [s[0], s[1]];
      }
      forall i | 0 <= i < |r| - 1 ensures !(r[i] == 'm' && r[i + 1] == ':') {
        if i >= 1 {
          assert r[i] == t[i - 1] && r[i + 1] == t[i];
        }
      }
    }
  }

  /** `.Replace("m:", "m\\:")` leaves a string without markers as it is. */
  lemma {:induction false} ReplaceMarkerWithoutMarkers(s: string)
    requires NoMarker(s)
    ensures Replace(s, "m:", "m\\:") == s
    decreases |s|
  {
    if |s| >= 2 {
      assert s[..2] == [s[0], s[1]];
      assert NoMarker(s[1..]) by {
        forall i | 0 <= i < |s[1..]| - 1 ensures !(s[1..][i] == 'm' && s[1..][i + 1] == ':') {
          assert s[1..][i] == s[i + 1] && s[1..][i + 1] == s[i + 2];
        }
      }
      ReplaceMarkerWithoutMarkers(s[1..]);
      assert s == [s[0]] + s[1..];
    }
  }

  /** How the marker escaping treats one character, given the one before it. */
  function MarkerChar(previous: Option<char>, c: char): string
  {
    if c == ':' && previous == Some('m') then "\\:" else [c]
  }

  /**
   * Reference definition of the marker escaping, one character at a time: a
   * `\` goes in front of every `:` that directly follows an `m`, and every
   * other character is kept in order.
   */
  function EscapeMarkersAfter(previous: Option<char>, s: string): string
    decreases |s|
  {
    if s == [] then [] else MarkerChar(previous, s[0]) + EscapeMarkersAfter(Some(s[0]), s[1..])
  }

  function EscapeMarkers(s: string): string
  {
    EscapeMarkersAfter(None, s)
  }

  /** `.Replace("m:", "m\\:")` is the per-character marker escaping. */
  lemma {:induction false} ReplaceMarkerByChar(previous: Option<char>, s: string)
    requires previous != Some('m') || s == [] || s[0] != ':'
    ensures EscapeMarkersAfter(previous, s) == Replace(s, "m:", "m\\:")
    decreases |s|
  {
    if |s| >= 2 {
      assert s[..2] == [s[0], s[1]];
    }
    if |s| == 1 {
      assert EscapeMarkersAfter(Some(s[0]), s[1..]) == [];
    } else if |s| >= 2 {
      if s[..2] == "m:" {
        assert s[0] == 'm' && s[1] == ':';
        ReplaceMarkerByChar(Some(s[1]), s[2..]);
        assert s[1..][1..] == s[2..];
        assert EscapeMarkersAfter(Some(s[0]), s[1..]) == "\\:" + EscapeMarkersAfter(Some(s[1]), s[2..]);
      } else {
        ReplaceMarkerByChar(Some(s[0]), s[1..]);
      }
    }
  }

  /**
   * `EscapeMessage`: a null or empty message is returned as it is; any other
   * message is escaped with `EscapeContent` and then every `m:` becomes `m\:`.
   */
  function EscapeMessage(message: Option<string>): (r: Option<string>)
    ensures r.None? <==> message.None?
    ensures message == Some("") ==> r == message
    ensures r.Some? ==> r.value == EscapeMarkers(EscapeEach(message.value))
    ensures r.Some? ==> '\r' !in r.value && '\n' !in r.value && NoMarker(r.value)
  {
    if message.Some? && message.value != "" then
      var escaped := EscapeContent(message.value);
      ReplaceMarkerRemovesMarkers(escaped);
      ReplaceMarkerByChar(None, escaped);
      Some(Replace(escaped, "m:", "m\\:"))
    else message
  }

  /** Escaping a prefix of an escaped message changes nothing. */
  lemma EscapeMessageFixesPrefix(message: Option<string>, p: string)
    requires message.Some? && IsPrefix(p, EscapeMessage(message).value)
    ensures EscapeMessage(Some(p)) == Some(p)
  {
    var m := EscapeMessage(message).value;
    assert p == m[..|p|];
    assert '\r' !in p && '\n' !in p by {
      forall i | 0 <= i < |p| ensures p[i] != '\r' && p[i] != '\n' {
        assert p[i] == m[i];
      }
    }
    assert NoMarker(p) by {
      forall i | 0 <= i < |p| - 1 ensures !(p[i] == 'm' && p[i + 1] == ':') {
        assert p[i] == m[i] && p[i + 1] == m[i + 1];
      }
    }
    if p != "" {
      ReplaceMarkerWithoutMarkers(p);
    }
  }

  /** Escaping a message twice is the same as escaping it once. */
  lemma EscapeMessageIdempotent(message: Option<string>)
    ensures EscapeMessage(EscapeMessage(message)) == EscapeMessage(message)
  {
    if message.Some? {
      EscapeMessageFixesPrefix(message, EscapeMessage(message).value);
    }
  }
}
