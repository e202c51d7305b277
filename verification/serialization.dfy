/**
 * `SerializedMetric`: a metric line held in a string builder until the
 * transport copies it into its character buffer.
 */
module Serialization {

  class SerializedMetric {
    /** The contents of `Builder`. */
    var builder: string

    constructor ()
      ensures builder == []
    {
      builder := [];
    }

    /** A caller appending to the `Builder` the getter hands out. */
    method Append(s: string)
      modifies this
      ensures builder == old(builder) + s
    {
      builder := builder + s;
    }

    /**
     * `CopyToChars`: `-1` with the buffer untouched when the contents do not
     * fit; otherwise the contents are copied to the front of the buffer, the
     * rest of the buffer is kept, and their length is returned.
     */
    method CopyToChars(buffer: array<char>) returns (n: int)
      modifies buffer
      ensures |builder| > buffer.Length ==> n == -1 && buffer[..] == old(buffer[..])
      ensures |builder| <= buffer.Length ==>
                && n == |builder|
                && buffer[..n] == builder
                && buffer[n..] == old(buffer[n..])
    {
      var length := |builder|;
      if length > buffer.Length {
        return -1;
      }
      var i := 0;
      while i < length
        invariant 0 <= i <= length
        invariant buffer[..i] == builder[..i]
        invariant buffer[i..] == old(buffer[i..])
      {
        buffer[i] := builder[i];
        i := i + 1;
      }
      return length;
    }

    /** `ToString`: the contents, unchanged. */
    method ToString() returns (s: string)
      ensures s == builder
    {
      s := builder;
    }

    /** `Reset` empties the builder. */
    method Reset()
      modifies this
      ensures builder == []
    {
      builder := [];
    }
  }

  /** After `Reset`, `CopyToChars` copies nothing, returns 0 and leaves any buffer as it was. */
  method CopyAfterReset(metric: SerializedMetric, buffer: array<char>) returns (n: int)
    modifies metric, buffer
    ensures n == 0 && buffer[..] == old(buffer[..]) && metric.builder == []
  {
    metric.Reset();
    n := metric.CopyToChars(buffer);
    assert buffer[0..] == buffer[..];
  }
}
