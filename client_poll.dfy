/** The client's view of a poll and its validation of server data (client/src/poll.ts). */
module ClientPoll {
  import opened Wrappers
  import opened Json
  import opened Record

  /**
   * A poll as the client holds it. `endTime` is the JSON number the server
   * sent (milliseconds since the epoch); `options` are not checked element by
   * element; `votes` are the entries of the votes record, voter to vote.
   */
  datatype Poll = Poll(name: string, endTime: real, options: seq<Value>, votes: map<string, string>)

  /** What parsePoll demands of a poll beyond the types of its fields. */
  predicate Acceptable(p: Poll)
  {
    0.0 <= p.endTime && |p.options| >= 2
  }

  /** The entries of a record of strings, entry name to string. */
  function VotesOf(v: Value): (r: map<string, string>)
    requires IsStringRecord(v)
    ensures r.Keys == Entries(v).Keys
    ensures forall k :: k in r ==> Entries(v)[k] == Str(r[k])
  {
    map k | k in Entries(v) :: Entries(v)[k].s
  }

  /**
   * parsePoll: None (undefined) unless `v` is a record whose `name` is a
   * string, whose `endTime` is a non-negative number, whose `options` is an
   * array of at least two elements and whose `votes` is a record of strings.
   * The poll keeps those four fields and nothing else.
   */
  function ParsePoll(v: Value): (r: Option<Poll>)
    ensures !IsRecord(v) ==> r == None
    ensures !Get(v, "name").Str? ==> r == None
    ensures !Get(v, "endTime").Number? || Get(v, "endTime").n < 0.0 ==> r == None
    ensures !Get(v, "options").Array? || |Get(v, "options").items| < 2 ==> r == None
    ensures !IsStringRecord(Get(v, "votes")) ==> r == None
    ensures r.Some? <==>
      && IsRecord(v)
      && Get(v, "name").Str?
      && Get(v, "endTime").Number? && 0.0 <= Get(v, "endTime").n
      && Get(v, "options").Array? && |Get(v, "options").items| >= 2
      && IsStringRecord(Get(v, "votes"))
    ensures r.Some? ==>
      && Acceptable(r.value)
      && Str(r.value.name) == Get(v, "name")
      && Number(r.value.endTime) == Get(v, "endTime")
      && Array(r.value.options) == Get(v, "options")
      && r.value.votes == VotesOf(Get(v, "votes"))
  {
    if !IsRecord(v) then None
    else if !Get(v, "name").Str? then None
    else if !Get(v, "endTime").Number? || Get(v, "endTime").n < 0.0 then None
    else if !Get(v, "options").Array? || |Get(v, "options").items| < 2 then None
    else if !IsStringRecord(Get(v, "votes")) then None
    else Some(Poll(Get(v, "name").s, Get(v, "endTime").n, Get(v, "options").items, VotesOf(Get(v, "votes"))))
  }

  /** The JSON object of a poll: its four fields, the votes as an object of strings. */
  function ToJson(p: Poll): Value
  {
    Object(map[
      "name" := Str(p.name),
      "endTime" := Number(p.endTime),
      "options" := Array(p.options),
      "votes" := Object(map k | k in p.votes :: Str(p.votes[k]))])
  }

  /** Parsing the JSON of a poll gives the poll back exactly when parsePoll's checks accept it. */
  lemma ParseToJson(p: Poll)
    ensures ParsePoll(ToJson(p)) == if Acceptable(p) then Some(p) else None
  {
    var v := ToJson(p);
    var votes := Get(v, "votes");
    assert Entries(votes) == votes.fields;
    assert IsStringRecord(votes);
    assert VotesOf(votes) == p.votes;
  }

  /** Parsing is idempotent: a parsed poll survives another round through JSON unchanged. */
  lemma ParseIdempotent(v: Value)
    requires ParsePoll(v).Some?
    ensures ParsePoll(ToJson(ParsePoll(v).value)) == ParsePoll(v)
  {
    ParseToJson(ParsePoll(v).value);
  }

  /** Fields other than the four are ignored. */
  lemma ExtraFieldsIgnored(fields: map<string, Value>, key: string, x: Value)
    requires key !in {"name", "endTime", "options", "votes"}
    ensures ParsePoll(Object(fields[key := x])) == ParsePoll(Object(fields))
  {
    var o, o' := Object(fields[key := x]), Object(fields);
    assert Get(o, "name") == Get(o', "name");
    assert Get(o, "endTime") == Get(o', "endTime");
    assert Get(o, "options") == Get(o', "options");
    assert Get(o, "votes") == Get(o', "votes");
  }
}
