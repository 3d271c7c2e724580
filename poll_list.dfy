/** The poll list page (client/src/PollList.tsx): loading the list and splitting it by lifecycle. */
module PollList {
  import opened Wrappers
  import opened Json
  import opened Record
  import opened ClientPoll

  /** The component's state: the time the list was loaded, and the polls once loaded. */
  datatype ListState = ListState(now: int, polls: Option<seq<Poll>>)

  /** renderPolls lists a poll as ongoing while some time remains: its end time is still ahead. */
  predicate ListedOngoing(p: Poll, now: int)
  {
    p.endTime > now as real
  }

  /** The polls of `ps` listed under "Ongoing Polls" (`ongoing`) or "Completed Polls" (`!ongoing`), in their order in `ps`. */
  function Listed(ps: seq<Poll>, now: int, ongoing: bool): (r: seq<Poll>)
    ensures forall k :: 0 <= k < |r| ==> ListedOngoing(r[k], now) == ongoing
  {
    if ps == [] then []
    else
      var last := ps[|ps| - 1];
      Listed(ps[..|ps| - 1], now, ongoing) + (if ListedOngoing(last, now) == ongoing then [last] else [])
  }

  /** Every poll lands in exactly one of the two lists. */
  lemma {:induction false} PartitionCovers(ps: seq<Poll>, now: int)
    ensures |Listed(ps, now, true)| + |Listed(ps, now, false)| == |ps|
    ensures multiset(Listed(ps, now, true)) + multiset(Listed(ps, now, false)) == multiset(ps)
  {
    if ps != [] {
      var init, last := ps[..|ps| - 1], ps[|ps| - 1];
      PartitionCovers(init, now);
      assert ps == init + [last];
      if ListedOngoing(last, now) {
        assert Listed(ps, now, true) == Listed(init, now, true) + [last];
        assert Listed(ps, now, false) == Listed(init, now, false);
      } else {
        assert Listed(ps, now, true) == Listed(init, now, true);
        assert Listed(ps, now, false) == Listed(init, now, false) + [last];
      }
    }
  }

  /** The lists keep the server's order: the polls from an earlier stretch of the input come first. */
  lemma {:induction false} ListedKeepsOrder(a: seq<Poll>, b: seq<Poll>, now: int, ongoing: bool)
    ensures Listed(a + b, now, ongoing) == Listed(a, now, ongoing) + Listed(b, now, ongoing)
  {
    if b == [] {
      assert a + b == a;
    } else {
      var b' := b[..|b| - 1];
      ListedKeepsOrder(a, b', now, ongoing);
      assert (a + b)[..|a + b| - 1] == a + b';
    }
  }

  /** renderPolls: walks the polls once, sending each to the ongoing or the completed list. */
  method RenderPolls(polls: seq<Poll>, now: int) returns (ongoing: seq<Poll>, completed: seq<Poll>)
    ensures ongoing == Listed(polls, now, true)
    ensures completed == Listed(polls, now, false)
  {
    ongoing, completed := [], [];
    for i := 0 to |polls|
      invariant ongoing == Listed(polls[..i], now, true)
      invariant completed == Listed(polls[..i], now, false)
    {
      assert polls[..i + 1][..i] == polls[..i];
      var min := (polls[i].endTime - now as real) / 60.0 / 1000.0;
      if min > 0.0 {
        ongoing := ongoing + [polls[i]];
      } else {
        completed := completed + [polls[i]];
      }
    }
    assert polls[..|polls|] == polls;
  }

  /** All-or-nothing parsing of the listed polls: the parsed polls in order, or None as soon as one fails. */
  function ParseAll(items: seq<Value>): (r: Option<seq<Poll>>)
    ensures r.None? <==> exists i :: 0 <= i < |items| && ParsePoll(items[i]).None?
    ensures r.Some? ==> |r.value| == |items| && forall i :: 0 <= i < |items| ==> ParsePoll(items[i]) == Some(r.value[i])
  {
    if items == [] then Some([])
    else
      match ParseAll(items[..|items| - 1])
      case None => None
      case Some(ps) =>
        match ParsePoll(items[|items| - 1])
        case None => None
        case Some(p) => Some(ps + [p])
  }

  /** doListJson: data that is not a record with a `polls` array, or a list with one poll that
      does not parse, leaves the state as it was; otherwise the state holds every parsed poll,
      in the server's order, and the time of loading. */
  method DoListJson(s: ListState, data: Value, now: int) returns (t: ListState)
    ensures !IsRecord(data) || !Get(data, "polls").Array? ==> t == s
    ensures IsRecord(data) && Get(data, "polls").Array? ==>
      t == match ParseAll(Get(data, "polls").items)
           case None => s
           case Some(ps) => ListState(now, Some(ps))
  {
    if !IsRecord(data) {
      return s;
    }
    var polls := Get(data, "polls");
    if !polls.Array? {
      return s;
    }
    var parsed: seq<Poll> := [];
    for i := 0 to |polls.items|
      invariant ParseAll(polls.items[..i]) == Some(parsed)
    {
      var poll := ParsePoll(polls.items[i]);
      if poll.None? {
        assert ParseAll(polls.items).None? by {
          assert ParsePoll(polls.items[i]).None?;
        }
        return s;
      }
      assert polls.items[..i + 1][..i] == polls.items[..i];
      parsed := parsed + [poll.value];
    }
    assert polls.items[..|polls.items|] == polls.items;
    return ListState(now, Some(parsed));
  }
}
