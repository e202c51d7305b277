/**
 * `StatsdData`: the components of a running client, flushed and disposed in
 * a fixed order.
 *
 * Telemetry, the bufferize component and the transport are modelled by
 * whether the reference is set, and every flush and dispose reaching them
 * is recorded in `calls`.
 */
module Lifecycle {
  import opened Wrappers
  import opened Sending

  /** A call on one of the components. */
  datatype Call = TelemetryFlush | TelemetryDispose | BufferizeFlush | BufferizeDispose | TransportDispose

  /** `Flush` dereferences telemetry without a null check. */
  datatype LifecycleError = NullReference

  /** The calls one `Dispose` makes, given which references are still set. */
  function DisposeCalls(telemetry: bool, bufferize: bool, transport: bool): seq<Call>
  {
    (if telemetry then [TelemetryDispose] else [])
    + (if bufferize then [BufferizeDispose] else [])
    + (if transport then [TransportDispose] else [])
  }

  /**
   * `Dispose` disposes each component still set exactly once, telemetry
   * before the bufferize component before the transport, and a disposal
   * with nothing set makes no call.
   */
  lemma DisposeOrder(telemetry: bool, bufferize: bool, transport: bool)
    ensures var calls := DisposeCalls(telemetry, bufferize, transport);
            && (TelemetryDispose in calls <==> telemetry)
            && (BufferizeDispose in calls <==> bufferize)
            && (TransportDispose in calls <==> transport)
            && |calls| == (if telemetry then 1 else 0) + (if bufferize then 1 else 0) + (if transport then 1 else 0)
            && (forall i :: 0 <= i < |calls| ==> IsDispose(calls[i]))
            && (forall i, j :: 0 <= i < j < |calls| ==> Rank(calls[i]) < Rank(calls[j]))
    ensures DisposeCalls(false, false, false) == []
  {
  }

  predicate IsDispose(call: Call)
  {
    call.TelemetryDispose? || call.BufferizeDispose? || call.TransportDispose?
  }

  /** The position of each dispose call in the order `Dispose` makes them. */
  function Rank(call: Call): nat
    requires IsDispose(call)
  {
    match call
    case TelemetryDispose => 0
    case BufferizeDispose => 1
    case TransportDispose => 2
  }

  class StatsdData {
    var metricsSender: MetricsSender?
    var hasTelemetry: bool
    var hasBufferize: bool
    var hasTransport: bool
    var calls: seq<Call>

    constructor (metricsSender: MetricsSender?, hasBufferize: bool, hasTransport: bool, hasTelemetry: bool)
      ensures this.metricsSender == metricsSender && this.hasBufferize == hasBufferize
      ensures this.hasTransport == hasTransport && this.hasTelemetry == hasTelemetry
      ensures calls == []
    {
      this.metricsSender := metricsSender;
      this.hasTelemetry := hasTelemetry;
      this.hasBufferize := hasBufferize;
      this.hasTransport := hasTransport;
      calls := [];
    }

    /**
     * `Flush`: the bufferize component, if set, strictly before telemetry;
     * with telemetry already gone the call fails after the bufferize flush.
     */
    method Flush() returns (outcome: Outcome<LifecycleError>)
      modifies this
      ensures outcome == if old(hasTelemetry) then Pass else Fail(NullReference)
      ensures calls == old(calls) + (if hasBufferize then [BufferizeFlush] else [])
                                  + (if hasTelemetry then [TelemetryFlush] else [])
      ensures metricsSender == old(metricsSender) && hasTelemetry == old(hasTelemetry)
      ensures hasBufferize == old(hasBufferize) && hasTransport == old(hasTransport)
    {
      if hasBufferize {
        calls := calls + [BufferizeFlush];
      }
      if !hasTelemetry {
        return Fail(NullReference);
      }
      calls := calls + [TelemetryFlush];
      return Pass;
    }

    /** `Dispose`: each component still set is disposed in turn, and every reference is cleared. */
    method Dispose()
      modifies this
      ensures calls == old(calls) + DisposeCalls(old(hasTelemetry), old(hasBufferize), old(hasTransport))
      ensures metricsSender == null && !hasTelemetry && !hasBufferize && !hasTransport
    {
      if hasTelemetry {
        calls := calls + [TelemetryDispose];
      }
      hasTelemetry := false;
      if hasBufferize {
        calls := calls + [BufferizeDispose];
      }
      hasBufferize := false;
      if hasTransport {
        calls := calls + [TransportDispose];
      }
      hasTransport := false;
      metricsSender := null;
    }
  }

  /** A second `Dispose` makes no call and changes nothing. */
  method DisposeTwice(data: StatsdData)
    modifies data
    ensures data.calls == old(data.calls) + DisposeCalls(old(data.hasTelemetry), old(data.hasBufferize), old(data.hasTransport))
    ensures data.metricsSender == null && !data.hasTelemetry && !data.hasBufferize && !data.hasTransport
  {
    data.Dispose();
    var once := data.calls;
    data.Dispose();
    assert data.calls == once;
  }

  /** After `Dispose` a `Flush` fails, having made no call. */
  method FlushAfterDispose(data: StatsdData) returns (outcome: Outcome<LifecycleError>)
    modifies data
    ensures outcome == Fail(NullReference)
    ensures data.calls == old(data.calls) + DisposeCalls(old(data.hasTelemetry), old(data.hasBufferize), old(data.hasTransport))
  {
    data.Dispose();
    outcome := data.Flush();
  }
}
