/**
 * The state of `MetricsSender`: the constant tags fixed at construction, the
 * `Commands` batch list, and the hand-off of every encoded line to the
 * bufferize component and of every send to telemetry.
 *
 * The bufferize component and telemetry are not modelled; what reaches them
 * is recorded in the logs `forwarded` and `telemetry`.
 */
module Sending {
  import opened Wrappers
  import opened Text
  import opened Encoding
  import opened MetricFormat
  import opened EventFormat
  import opened ServiceCheckFormat

  /** The telemetry counters a send bumps. */
  datatype TelemetryCall = EventSent | ServiceCheckSent | MetricSent

  /** The line `Send()` hands on for a batch of commands: the only one, or all of them joined by line feeds. */
  function BatchLine(commands: seq<string>): (r: string)
    requires commands != []
    ensures r == Join("\n", commands)
  {
    if |commands| == 1 then commands[0] else Join("\n", commands)
  }

  /** When no command holds a line feed, a batch line splits back into the commands, in order. */
  lemma BatchLineSplits(commands: seq<string>)
    requires commands != []
    requires forall k :: 0 <= k < |commands| ==> '\n' !in commands[k]
    ensures Split(BatchLine(commands), '\n') == commands
  {
    SplitJoin(commands, '\n');
  }

  class MetricsSender {
    const prefix: string
    const constantTags: seq<string>
    /** Whether an optional telemetry object was given. */
    const hasTelemetry: bool
    var truncateIfTooLong: bool
    var commands: seq<string>
    /** Every line handed to the bufferize component, in order. */
    var forwarded: seq<string>
    /** Every telemetry counter bumped, in order. */
    var telemetry: seq<TelemetryCall>

    /**
     * The constructor: the constant tags are a copy of the given ones with the
     * entity-id tag appended when the entity id (read from the environment by
     * the source) is neither null nor empty.
     */
    constructor (prefix: string, constantTags: Option<seq<string>>, entityId: Option<string>, hasTelemetry: bool)
      ensures this.prefix == prefix && this.hasTelemetry == hasTelemetry
      ensures this.constantTags == ConstantTagsOf(constantTags, entityId)
      ensures !truncateIfTooLong && commands == [] && forwarded == [] && telemetry == []
    {
      this.prefix := prefix;
      this.hasTelemetry := hasTelemetry;
      this.constantTags := ConstantTagsOf(constantTags, entityId);
      truncateIfTooLong := false;
      commands := [];
      forwarded := [];
      telemetry := [];
    }

    /** The `TruncateIfTooLong` setter. */
    method SetTruncateIfTooLong(value: bool)
      modifies this
      ensures truncateIfTooLong == value
      ensures commands == old(commands) && forwarded == old(forwarded) && telemetry == old(telemetry)
    {
      truncateIfTooLong := value;
    }

    /** A caller adding a command through the `Commands` list the getter hands out. */
    method AddCommand(command: string)
      modifies this
      ensures commands == old(commands) + [command]
      ensures truncateIfTooLong == old(truncateIfTooLong) && forwarded == old(forwarded) && telemetry == old(telemetry)
    {
      commands := commands + [command];
    }

    /** A telemetry counter bumped when the optional telemetry object is present. */
    function Bump(call: TelemetryCall): seq<TelemetryCall>
      reads this
    {
      if hasTelemetry then [call] else []
    }

    /**
     * `Send(string)`: the batch list is emptied, then the line is handed on;
     * whatever the bufferize component throws is swallowed.
     */
    method SendCommand(command: string)
      modifies this
      ensures commands == [] && forwarded == old(forwarded) + [command]
      ensures truncateIfTooLong == old(truncateIfTooLong) && telemetry == old(telemetry)
    {
      if |commands| > 0 {
        commands := [];
      }
      forwarded := forwarded + [command];
    }

    /**
     * `Send()`: nothing for an empty batch, otherwise the batch goes out as a
     * single line (see `BatchLine`) and the list is emptied.
     */
    method SendBatch()
      modifies this
      ensures old(commands) == [] ==> commands == [] && forwarded == old(forwarded)
      ensures old(commands) != [] ==> commands == [] && forwarded == old(forwarded) + [Join("\n", old(commands))]
      ensures truncateIfTooLong == old(truncateIfTooLong) && telemetry == old(telemetry)
    {
      var count := |commands|;
      if count < 1 {
        return;
      }
      SendCommand(BatchLine(commands));
    }

    /**
     * `Send` of an event: truncation is on when asked for or when the sender
     * is set to truncate. An encoder exception propagates and nothing is sent;
     * otherwise the line is sent and the event counter bumped.
     */
    method SendEvent(title: string, text: string, f: EventFields, tags: Option<seq<string>>, truncateIfTooLong: bool)
      returns (outcome: Outcome<EncodeError>)
      modifies this
      ensures var r := EventCommand(title, text, f, Some(constantTags), tags, truncateIfTooLong || old(this.truncateIfTooLong));
              && (outcome.Pass? <==> r.Success?)
              && (r.Failure? ==> outcome == Fail(r.error) && commands == old(commands) && forwarded == old(forwarded))
              && (r.Success? ==> commands == [] && forwarded == old(forwarded) + [r.value])
      ensures telemetry == old(telemetry) + (if outcome.Pass? then Bump(EventSent) else [])
      ensures this.truncateIfTooLong == old(this.truncateIfTooLong)
    {
      var truncate := truncateIfTooLong || this.truncateIfTooLong;
      match EventCommand(title, text, f, Some(constantTags), tags, truncate)
      case Failure(e) =>
        outcome := Fail(e);
      case Success(line) =>
        SendCommand(line);
        telemetry := telemetry + Bump(EventSent);
        outcome := Pass;
    }

    /** `Send` of a service check, in the same pattern as `SendEvent`. */
    method SendServiceCheck(name: string, status: int, timestamp: Option<int>, hostname: Option<string>,
                            tags: Option<seq<string>>, message: Option<string>, truncateIfTooLong: bool)
      returns (outcome: Outcome<EncodeError>)
      modifies this
      ensures var r := ServiceCheckCommand(name, status, timestamp, hostname, Some(constantTags), tags, message,
                                           truncateIfTooLong || old(this.truncateIfTooLong));
              && (outcome.Pass? <==> r.Success?)
              && (r.Failure? ==> outcome == Fail(r.error) && commands == old(commands) && forwarded == old(forwarded))
              && (r.Success? ==> commands == [] && forwarded == old(forwarded) + [r.value])
      ensures telemetry == old(telemetry) + (if outcome.Pass? then Bump(ServiceCheckSent) else [])
      ensures this.truncateIfTooLong == old(this.truncateIfTooLong)
    {
      var truncate := truncateIfTooLong || this.truncateIfTooLong;
      match ServiceCheckCommand(name, status, timestamp, hostname, Some(constantTags), tags, message, truncate)
      case Failure(e) =>
        outcome := Fail(e);
      case Success(line) =>
        SendCommand(line);
        telemetry := telemetry + Bump(ServiceCheckSent);
        outcome := Pass;
    }

    /**
     * `Send<TCommandType, T>`: `shouldSend` is the sampling decision of the
     * random generator; when it says no, nothing happens.
     */
    method SendMetric(t: MetricType, name: string, value: string, sampleRate: SampleRate, tags: Option<seq<string>>,
                      shouldSend: bool)
      modifies this
      ensures shouldSend ==> commands == [] && telemetry == old(telemetry) + Bump(MetricSent)
                             && forwarded == old(forwarded) + [MetricCommand(t, prefix, name, value, sampleRate, Some(constantTags), tags)]
      ensures !shouldSend ==> commands == old(commands) && forwarded == old(forwarded) && telemetry == old(telemetry)
      ensures truncateIfTooLong == old(truncateIfTooLong)
    {
      if shouldSend {
        SendCommand(MetricCommand(t, prefix, name, value, sampleRate, Some(constantTags), tags));
        telemetry := telemetry + Bump(MetricSent);
      }
    }

    /**
     * The timed `Send`: after the action, whether it returned or threw, the
     * elapsed milliseconds go out as a timing metric.
     */
    method SendTimed(statName: string, elapsedMilliseconds: int, sampleRate: SampleRate, tags: Option<seq<string>>,
                     shouldSend: bool)
      modifies this
      ensures shouldSend ==> forwarded == old(forwarded)
                             + [MetricCommand(Timing, prefix, statName, IntToString(elapsedMilliseconds), sampleRate, Some(constantTags), tags)]
      ensures !shouldSend ==> forwarded == old(forwarded)
      ensures commands == if shouldSend then [] else old(commands)
      ensures telemetry == old(telemetry) + (if shouldSend then Bump(MetricSent) else [])
      ensures truncateIfTooLong == old(truncateIfTooLong)
    {
      SendMetric(Timing, statName, IntToString(elapsedMilliseconds), sampleRate, tags, shouldSend);
    }
  }
}
