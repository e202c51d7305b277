/** `DogStatsdEndPoint`: where the client sends, over UDP or a Unix socket or a named pipe. */
module EndPoints {
  import opened Wrappers

  /** The three settable properties; `None` is `null`. */
  datatype DogStatsdEndPoint = DogStatsdEndPoint(serverName: Option<string>, port: int, pipeName: Option<string>)

  /** `AreEquals`: false for `null`, otherwise true iff the three properties agree. */
  function AreEquals(self: DogStatsdEndPoint, endPoint: Option<DogStatsdEndPoint>): (r: bool)
    ensures r <==> endPoint == Some(self)
  {
    endPoint.Some?
    && self.serverName == endPoint.value.serverName
    && self.port == endPoint.value.port
    && self.pipeName == endPoint.value.pipeName
  }

  /** `AreEquals` is false for `null`, reflexive, symmetric and transitive. */
  lemma AreEqualsIsEquivalence(a: DogStatsdEndPoint, b: DogStatsdEndPoint, c: DogStatsdEndPoint)
    ensures !AreEquals(a, None)
    ensures AreEquals(a, Some(a))
    ensures AreEquals(a, Some(b)) <==> AreEquals(b, Some(a))
    ensures AreEquals(a, Some(b)) && AreEquals(b, Some(c)) ==> AreEquals(a, Some(c))
  {
  }
}
