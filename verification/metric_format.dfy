/** `MetricsSender.Metric`: the unit table and the metric line. */
module MetricFormat {
  import opened Wrappers
  import opened Text
  import opened Encoding

  /** The seven `Metric` subclasses a caller can name as `TCommandType`. */
  datatype MetricType = Counting | Timing | Gauge | Histogram | Distribution | Meter | Set

  /**
   * The sample rate as the encoder sees it: whether the `double` is exactly
   * `1.0`, and its culture-invariant text.
   */
  datatype SampleRate = SampleRate(isOne: bool, text: string)

  /** The `_commandToUnit` dictionary. */
  function UnitCode(t: MetricType): (u: string)
    ensures MetricTypeOfUnit(u) == Some(t)
  {
    match t
    case Counting => "c"
    case Timing => "ms"
    case Gauge => "g"
    case Histogram => "h"
    case Distribution => "d"
    case Meter => "m"
    case Set => "s"
  }

  /** The partner of the unit table: the metric type a unit code stands for. */
  function MetricTypeOfUnit(u: string): Option<MetricType>
  {
    match u
    case "c" => Some(Counting)
    case "ms" => Some(Timing)
    case "g" => Some(Gauge)
    case "h" => Some(Histogram)
    case "d" => Some(Distribution)
    case "m" => Some(Meter)
    case "s" => Some(Set)
    case _ => None
  }

  /** Because every unit code reads back as its metric type, no two types share a code. */
  lemma UnitCodeInjective(t: MetricType, t': MetricType)
    ensures UnitCode(t) == UnitCode(t') ==> t == t'
  {
  }

  /** The `|@<rate>` part, absent when the rate is exactly 1.0. */
  function SampleRateSuffix(sampleRate: SampleRate): (r: string)
    ensures r == "" <==> sampleRate.isOne
    ensures !sampleRate.isOne ==> |r| >= 2 && r[..2] == "|@" && r[2..] == sampleRate.text
  {
    if sampleRate.isOne then "" else "|@" + sampleRate.text
  }

  /**
   * `Metric.GetCommand<TCommandType, T>`:
   * `<prefix><name>:<value>|<unit>[|@<rate>][|#<tags>]`, where `value` is the
   * culture-invariant text of the value. The line starts with the full name,
   * `:`, the value, `|` and the unit; the rate suffix is there iff the rate is
   * not exactly 1.0, so a line without rate and tags ends in its unit code.
   */
  function MetricCommand(t: MetricType, prefix: string, name: string, value: string, sampleRate: SampleRate,
                         constantTags: Option<seq<string>>, tags: Option<seq<string>>): (r: string)
    ensures var head := prefix + name + ":" + value + "|" + UnitCode(t);
            && IsPrefix(head, r)
            && (sampleRate.isOne <==> |r| == |head| + |ConcatTags(constantTags, tags)|)
            && (sampleRate.isOne && OrEmpty(constantTags) == [] && OrEmpty(tags) == [] <==> r == head)
    ensures var head := prefix + name + ":" + value + "|" + UnitCode(t);
            var rate := SampleRateSuffix(sampleRate);
            var tagSuffix := ConcatTags(constantTags, tags);
            && |r| == |head| + |rate| + |tagSuffix|
            && r[|head|..|head| + |rate|] == rate
            && r[|head| + |rate|..] == tagSuffix
  {
    var head := prefix + name + ":" + value + "|" + UnitCode(t);
    var rate := SampleRateSuffix(sampleRate);
    var r := head + (rate + ConcatTags(constantTags, tags));
    assert r[..|head|] == head;
    assert r[|head|..|head| + |rate|] == rate;
    r
  }

  /** Two metric lines that differ only in the metric type are different lines. */
  lemma {:induction false} MetricTypeDeterminesLine(t: MetricType, t': MetricType, prefix: string, name: string, value: string,
                                                    sampleRate: SampleRate, constantTags: Option<seq<string>>, tags: Option<seq<string>>)
    requires MetricCommand(t, prefix, name, value, sampleRate, constantTags, tags)
          == MetricCommand(t', prefix, name, value, sampleRate, constantTags, tags)
    ensures t == t'
  {
    var head := prefix + name + ":" + value + "|";
    var tail := SampleRateSuffix(sampleRate) + ConcatTags(constantTags, tags);
    MetricCommandAround(t, prefix, name, value, sampleRate, constantTags, tags);
    MetricCommandAround(t', prefix, name, value, sampleRate, constantTags, tags);
    CancelAround(head, UnitCode(t), UnitCode(t'), tail);
    UnitCodeInjective(t, t');
  }

  lemma MetricCommandAround(t: MetricType, prefix: string, name: string, value: string, sampleRate: SampleRate,
                            constantTags: Option<seq<string>>, tags: Option<seq<string>>)
    ensures MetricCommand(t, prefix, name, value, sampleRate, constantTags, tags)
         == (prefix + name + ":" + value + "|") + UnitCode(t) + (SampleRateSuffix(sampleRate) + ConcatTags(constantTags, tags))
  {
  }

  lemma CancelAround(a: string, u: string, u': string, b: string)
    requires a + u + b == a + u' + b
    ensures u == u'
  {
    var r := a + u + b;
    assert |u| == |u'|;
    assert u == r[|a|..|a| + |u|];
    assert u' == (a + u' + b)[|a|..|a| + |u'|];
  }

  // The documented examples of the metric line.

  /** A counter at rate 1.0 without tags ends in its unit code. */
  lemma CounterExample(prefix: string, name: string, value: string)
    requires prefix == "app." && name == "hits" && value == "5"
    ensures MetricCommand(Counting, prefix, name, value, SampleRate(true, "1"), None, None) == prefix + name + ":" + value + "|c"
  {
  }

  /** At rate 0.5 the rate follows the unit code. */
  lemma SampledCounterExample(prefix: string, name: string, value: string)
    requires prefix == "app." && name == "hits" && value == "5"
    ensures MetricCommand(Counting, prefix, name, value, SampleRate(false, "0.5"), None, None)
         == prefix + name + ":" + value + "|c|@0.5"
  {
  }

  /** With rate 1.0, one constant tag and one call tag, the constant tag comes first. */
  lemma TaggedLine(t: MetricType, prefix: string, name: string, value: string, rate: SampleRate, env: string, host: string)
    requires rate.isOne
    ensures MetricCommand(t, prefix, name, value, rate, Some([env]), Some([host]))
         == (prefix + name + ":" + value + "|") + UnitCode(t) + ("|#" + env + "," + host)
  {
    assert [env] + [host] == [env, host];
    assert [env, host][1..] == [host];
    assert Join(",", [env, host]) == env + "," + host;
    assert ConcatTags(Some([env]), Some([host])) == "|#" + env + "," + host;
    MetricCommandAround(t, prefix, name, value, rate, Some([env]), Some([host]));
  }

  /** The constant tag comes before the call tag. */
  lemma TaggedCounterExample(prefix: string, name: string, value: string, env: string, host: string)
    requires prefix == "app." && name == "hits" && value == "5" && env == "env:prod" && host == "host:a"
    ensures MetricCommand(Counting, prefix, name, value, SampleRate(true, "1"), Some([env]), Some([host]))
         == (prefix + name + ":" + value + "|") + "c" + ("|#" + env + "," + host)
  {
    TaggedLine(Counting, prefix, name, value, SampleRate(true, "1"), env, host);
  }
}
