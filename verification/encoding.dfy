/**
 * Pieces of `MetricsSender` shared by the three line encoders: the size cap,
 * the exceptions the encoders throw, `TruncateOverage`, `ConcatTags`, and the
 * constant-tag list assembled by the constructor.
 */
module Encoding {
  import opened Wrappers
  import opened Text

  /** `MaxSize = 8 * 1024`, counted in UTF-16 code units (`string.Length`), one per modelled character. */
  const MaxSize: nat := 8 * 1024

  /** The exceptions the encoders throw. */
  datatype EncodeError =
    | EventTooBig(title: string)            // "Event {title} payload is too big (more than 8kB)"
    | ServiceCheckTooBig(name: string)      // "ServiceCheck {name} payload is too big (more than 8kB)"
    | CannotTruncate(name: string)          // ArgumentException: name is too long to truncate
    | NameHasPipe                           // ArgumentException: name must not contain any |
    | SubstringOutOfRange                   // ArgumentOutOfRangeException from String.Substring

  /** The tag key under which the entity id is sent. */
  const EntityIdTagKey: string := "dd.internal.entity_id"

  /** A nullable `string[]`: `null` reads as the empty array. */
  function OrEmpty(tags: Option<seq<string>>): seq<string>
  {
    if tags.Some? then tags.value else []
  }

  /**
   * `str.Substring(0, str.Length - overage)`: the prefix `overage` characters
   * shorter than `str`; `Substring` throws when that length is negative.
   */
  function TruncateOverage(str: string, overage: nat): (r: Result<string, EncodeError>)
    ensures r.Success? <==> overage <= |str|
    ensures r.Success? ==> IsPrefix(r.value, str) && |r.value| == |str| - overage
    ensures r.Failure? ==> r.error == SubstringOutOfRange
  {
    if overage > |str| then Failure(SubstringOutOfRange) else Success(str[..|str| - overage])
  }

  /**
   * The tag suffix of every line: empty when both lists are empty or null,
   * otherwise `|#` and the constant tags then the call tags, comma-joined.
   */
  function ConcatTags(constantTags: Option<seq<string>>, tags: Option<seq<string>>): (r: string)
    ensures r == "" <==> OrEmpty(constantTags) == [] && OrEmpty(tags) == []
    ensures r != "" ==> |r| >= 2 && r[..2] == "|#" && r[2..] == Join(",", OrEmpty(constantTags) + OrEmpty(tags))
  {
    var constantTags := OrEmpty(constantTags);
    var tags := OrEmpty(tags);
    if |constantTags| == 0 && |tags| == 0 then ""
    else "|#" + Join(",", constantTags + tags)
  }

  /** When no tag contains a comma, the tag suffix splits back into the tags, constant tags first. */
  lemma ConcatTagsSplits(constantTags: Option<seq<string>>, tags: Option<seq<string>>)
    requires ConcatTags(constantTags, tags) != ""
    requires forall k :: 0 <= k < |OrEmpty(constantTags) + OrEmpty(tags)| ==> ',' !in (OrEmpty(constantTags) + OrEmpty(tags))[k]
    ensures Split(ConcatTags(constantTags, tags)[2..], ',') == OrEmpty(constantTags) + OrEmpty(tags)
  {
    SplitJoin(OrEmpty(constantTags) + OrEmpty(tags), ',');
  }

  /** Leaving out the constant tags, as the truncating retries do, never lengthens the suffix. */
  lemma ConcatTagsWithoutConstants(constantTags: Option<seq<string>>, tags: Option<seq<string>>)
    ensures |ConcatTags(None, tags)| <= |ConcatTags(constantTags, tags)|
  {
    JoinSuffixShorter(",", OrEmpty(constantTags), OrEmpty(tags));
    assert OrEmpty(None) + OrEmpty(tags) == OrEmpty(tags);
  }

  /**
   * The constant tags the constructor stores: a copy of the given tags (null
   * reads as none), then `dd.internal.entity_id:<id>` when the entity id is
   * neither null nor empty.
   */
  function ConstantTagsOf(constantTags: Option<seq<string>>, entityId: Option<string>): (r: seq<string>)
    ensures |OrEmpty(constantTags)| <= |r| && r[..|OrEmpty(constantTags)|] == OrEmpty(constantTags)
    ensures entityId.None? || entityId.value == "" ==> r == OrEmpty(constantTags)
    ensures entityId.Some? && entityId.value != "" ==>
              |r| == |OrEmpty(constantTags)| + 1 && r[|r| - 1] == EntityIdTagKey + ":" + entityId.value
  {
    if entityId.None? || entityId.value == "" then OrEmpty(constantTags)
    else
      var entityIdTags := [EntityIdTagKey + ":" + entityId.value];
      if constantTags.None? then entityIdTags else constantTags.value + entityIdTags
  }

  /** `|<key>:<value>` when the value is not null, nothing otherwise. */
  function OptionalField(key: char, value: Option<string>): string
  {
    if value.Some? then "|" + [key] + ":" + value.value else ""
  }

  /** A nullable `int`, formatted culture-invariantly. */
  function FormatInt(value: Option<int>): Option<string>
  {
    if value.Some? then Some(IntToString(value.value)) else None
  }
}
