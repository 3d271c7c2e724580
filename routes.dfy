/**
 * The server's in-memory poll store (server/src/routes.ts): a map from poll
 * name to poll, the four request handlers that read and change it, the two
 * test seams, and the rank that orders the poll list.
 *
 * A handler receives the parsed JSON request body and the current time in
 * milliseconds; it answers with the poll it sends back or with the error whose
 * text it sends with status 400.
 */
module Routes {
  import opened Wrappers
  import opened Json

  /**
   * A stored poll. `options` is whatever array the creator posted (its
   * elements are not checked); `votes` maps each voter to their latest vote.
   */
  datatype Poll = Poll(name: string, endTime: int, options: seq<Value>, votes: map<string, string>)

  /** The reasons a handler answers with status 400. */
  datatype RouteError =
    | MissingName
    | MinutesNotNumber(minutes: Value)
    | MinutesNotPositiveInteger(count: real)
    | OptionsNotArray(options: Value)
    | AlreadyExists(poll: string)
    | InvalidVoter
    | InvalidName
    | NoSuchPoll(poll: string)
    | AlreadyEnded(poll: string)
    | VoteNotString(vote: Value)
  {
    /** The text sent with the 400 status. */
    function Message(): string
    {
      match this
      case MissingName => "missing 'name' parameter"
      case MinutesNotNumber(m) => "'minutes' is not a number: " + Show(m)
      case MinutesNotPositiveInteger(m) => "'minutes' is not a positive integer: " + NumberText(m)
      case OptionsNotArray(o) => "'options' is not an array: " + Show(o)
      case AlreadyExists(n) => "poll for '" + n + "' already exists"
      case InvalidVoter => "missing or invalid 'voter' parameter"
      case InvalidName => "missing or invalid 'name' parameter"
      case NoSuchPoll(n) => "no poll with name '" + n + "'"
      case AlreadyEnded(n) => "poll for \"" + n + "\" has already ended"
      case VoteNotString(v) => "'vote' is not a string: " + Show(v)
    }
  }

  /** The messages the route tests expect from addPoll for malformed requests. */
  lemma AddErrorMessages()
    ensures MissingName.Message() == "missing 'name' parameter"
    ensures MinutesNotNumber(Undefined).Message() == "'minutes' is not a number: undefined"
    ensures MinutesNotPositiveInteger(0.0).Message() == "'minutes' is not a positive integer: 0"
    ensures MinutesNotPositiveInteger(3.5).Message() == "'minutes' is not a positive integer: 3.5"
    ensures OptionsNotArray(Number(3.0)).Message() == "'options' is not an array: 3"
    ensures OptionsNotArray(Str("hello")).Message() == "'options' is not an array: hello"
  {
    assert NumberText(3.5) == "3.5" by {
      assert (3.5).Floor == 3;
      assert FractionDigits(0.5, 17) == "5" by {
        assert (0.5 * 10.0).Floor == 5;
        assert FractionDigits(0.0, 16) == "";
      }
    }
  }

  /** The messages the route tests expect from voteInPoll for a vote that is not a string. */
  lemma VoteValueMessages()
    ensures VoteNotString(Undefined).Message() == "'vote' is not a string: undefined"
    ensures VoteNotString(Number(-1.0)).Message() == "'vote' is not a string: -1"
  {
    assert NumberText(-1.0) == "-1" by {
      assert (-1.0).Floor == -1;
    }
  }

  /** Milliseconds per minute. */
  const MinuteMs: int := 60 * 1000

  /** The 1e15 that ranks completed polls after every ongoing one (while end times stay below half of it). */
  const Horizon: int := 1_000_000_000_000_000

  /** Half the horizon: end times below it keep the two groups of the ranking apart. */
  const HalfHorizon: int := 500_000_000_000_000

  /** A whole number of at least one. */
  predicate IsPositiveInteger(x: real)
  {
    1.0 <= x && x.Floor as real == x
  }

  /** The comparator counts a poll as ongoing up to and including its end time. */
  predicate RankedOngoing(p: Poll, now: int)
  {
    now <= p.endTime
  }

  /** voteInPoll takes votes only strictly before the end time. */
  predicate AcceptsVotes(p: Poll, now: int)
  {
    now < p.endTime
  }

  /** The sort key of comparePolls: the end time while ongoing, `1e15 - endTime` afterwards. */
  function Rank(p: Poll, now: int): int
  {
    if now <= p.endTime then p.endTime else Horizon - p.endTime
  }

  /** comparePolls: negative when `a` is listed before `b`. */
  function ComparePolls(a: Poll, b: Poll, now: int): int
  {
    Rank(a, now) - Rank(b, now)
  }

  /** No poll of `s` is listed before one that the comparator puts ahead of it. */
  predicate SortedByRank(s: seq<Poll>, now: int)
  {
    forall i, j :: 0 <= i < j < |s| ==> Rank(s[i], now) <= Rank(s[j], now)
  }

  /** With end times below half the horizon the comparator orders the polls by lifecycle:
      ongoing before completed, then by end time (ascending while ongoing, descending after). */
  lemma CompareByLifecycle(a: Poll, b: Poll, now: int)
    requires a.endTime < HalfHorizon && b.endTime < HalfHorizon
    ensures RankedOngoing(a, now) && !RankedOngoing(b, now) ==> ComparePolls(a, b, now) < 0
    ensures RankedOngoing(a, now) && RankedOngoing(b, now) ==> ComparePolls(a, b, now) == a.endTime - b.endTime
    ensures !RankedOngoing(a, now) && !RankedOngoing(b, now) ==> ComparePolls(a, b, now) == b.endTime - a.endTime
  {
  }

  /** A list sorted by the comparator shows the ongoing polls first, soonest to close first,
      then the completed ones, most recently closed first. */
  lemma ListOrder(s: seq<Poll>, now: int)
    requires SortedByRank(s, now)
    requires forall k :: 0 <= k < |s| ==> s[k].endTime < HalfHorizon
    ensures forall i, j :: 0 <= i < j < |s| && RankedOngoing(s[j], now) ==> RankedOngoing(s[i], now)
    ensures forall i, j :: 0 <= i < j < |s| && RankedOngoing(s[i], now) && RankedOngoing(s[j], now) ==> s[i].endTime <= s[j].endTime
    ensures forall i, j :: 0 <= i < j < |s| && !RankedOngoing(s[i], now) && !RankedOngoing(s[j], now) ==> s[i].endTime >= s[j].endTime
  {
    forall i, j | 0 <= i < j < |s| {
      CompareByLifecycle(s[i], s[j], now);
    }
  }

  /** Without the bound the grouping fails: an ongoing poll far in the future is listed after a completed one. */
  lemma HorizonBoundNeeded()
    ensures var ongoing := Poll("later", 600_000_000_000_000, [], map[]);
            var completed := Poll("past", 550_000_000_000_000, [], map[]);
            var now := 580_000_000_000_000;
            RankedOngoing(ongoing, now) && !RankedOngoing(completed, now) && ComparePolls(completed, ongoing, now) < 0
  {
  }

  /** `p` put into the sorted list `s` ahead of the first poll that does not rank before it. */
  function InsertByRank(p: Poll, s: seq<Poll>, now: int): (r: seq<Poll>)
    requires SortedByRank(s, now)
    ensures SortedByRank(r, now)
    ensures multiset(r) == multiset(s) + multiset{p}
    ensures forall k :: 0 <= k < |r| ==> r[k] == p || r[k] in s
  {
    if s == [] || Rank(p, now) <= Rank(s[0], now) then [p] + s
    else
      var tail := InsertByRank(p, s[1..], now);
      InsertAfterHead(s[0], p, s[1..], tail, now);
      assert s == [s[0]] + s[1..];
      [s[0]] + tail
  }

  /** A poll that ranks no later than the new poll and every poll of the list
      can head the list after the insertion. */
  lemma InsertAfterHead(head: Poll, p: Poll, s: seq<Poll>, r: seq<Poll>, now: int)
    requires Rank(head, now) <= Rank(p, now)
    requires forall k :: 0 <= k < |s| ==> Rank(head, now) <= Rank(s[k], now)
    requires SortedByRank(r, now)
    requires forall k :: 0 <= k < |r| ==> r[k] == p || r[k] in s
    ensures SortedByRank([head] + r, now)
  {
    forall k | 0 <= k < |r|
      ensures Rank(head, now) <= Rank(r[k], now)
    {
      if r[k] != p {
        var j :| 0 <= j < |s| && s[j] == r[k];
      }
    }
  }

  /** A sorted permutation of `s`: one order the JavaScript sort may produce with comparePolls. */
  function SortByRank(s: seq<Poll>, now: int): (r: seq<Poll>)
    ensures SortedByRank(r, now)
    ensures multiset(r) == multiset(s)
  {
    if s == [] then []
    else
      assert s == [s[0]] + s[1..];
      InsertByRank(s[0], SortByRank(s[1..], now), now)
  }

  /** Moving the clock back by `ms` (advanceTimeForTesting) has the effect of letting `ms`
      pass: a vote is accepted, and two polls compare, as they would `ms` later. */
  lemma AdvanceIsClockShift(a: Poll, b: Poll, ms: int, now: int)
    requires a.endTime < HalfHorizon && a.endTime - ms < HalfHorizon
    requires b.endTime < HalfHorizon && b.endTime - ms < HalfHorizon
    ensures var a', b' := a.(endTime := a.endTime - ms), b.(endTime := b.endTime - ms);
            && (now < a'.endTime <==> now + ms < a.endTime)
            && (RankedOngoing(a', now) <==> RankedOngoing(a, now + ms))
            && (ComparePolls(a', b', now) < 0 <==> ComparePolls(a, b, now + ms) < 0)
            && (ComparePolls(a', b', now) == 0 <==> ComparePolls(a, b, now + ms) == 0)
  {
    var a', b' := a.(endTime := a.endTime - ms), b.(endTime := b.endTime - ms);
    CompareByLifecycle(a', b', now);
    CompareByLifecycle(a, b, now + ms);
    CompareByLifecycle(b', a', now);
    CompareByLifecycle(b, a, now + ms);
  }

  /** The poll store: the module-level `polls` map of routes.ts. */
  class PollStore {
    var polls: map<string, Poll>

    /** Every poll is stored under its own name. */
    ghost predicate Valid()
      reads this
    {
      forall k :: k in polls ==> polls[k].name == k
    }

    /** The store as the server starts: empty. */
    constructor ()
      ensures Valid() && polls == map[]
    {
      polls := map[];
    }

    /** resetForTesting: remove every poll. */
    method ResetForTesting()
      modifies this
      ensures Valid() && polls == map[]
    {
      polls := map[];
    }

    /** advanceTimeForTesting: lower every poll's end time by `ms`, leaving the rest as it was. */
    method AdvanceTimeForTesting(ms: int)
      requires Valid()
      modifies this
      ensures Valid()
      ensures polls.Keys == old(polls).Keys
      ensures forall k :: k in polls ==> polls[k] == old(polls)[k].(endTime := old(polls)[k].endTime - ms)
    {
      var todo := polls.Keys;
      while todo != {}
        invariant todo <= polls.Keys && polls.Keys == old(polls).Keys
        invariant forall k :: k in polls ==>
          polls[k] == if k in todo then old(polls)[k] else old(polls)[k].(endTime := old(polls)[k].endTime - ms)
        decreases todo
      {
        var k :| k in todo;
        polls := polls[k := polls[k].(endTime := polls[k].endTime - ms)];
        todo := todo - {k};
      }
    }

    /** listPolls: every stored poll exactly once, sorted by comparePolls at `now`. */
    method ListPolls(now: int) returns (vals: seq<Poll>)
      requires Valid()
      ensures |vals| == |polls|
      ensures multiset(vals) == multiset(polls.Values)
      ensures SortedByRank(vals, now)
    {
      vals := [];
      var rest := polls.Values;
      while rest != {}
        invariant rest <= polls.Values
        invariant multiset(vals) + multiset(rest) == multiset(polls.Values)
        decreases rest
      {
        var p :| p in rest;
        vals := vals + [p];
        assert multiset(rest) == multiset(rest - {p}) + multiset{p};
        rest := rest - {p};
      }
      vals := SortByRank(vals, now);
      assert |vals| == |multiset(polls.Values)| == |polls.Values|;
      ValuesOfNamedPolls(polls);
    }

    /** addPoll: the checks run in order (name, minutes is a number, minutes is a
        positive integer, options is an array, name is new); the first that fails
        is reported and nothing changes. Otherwise the new poll, closing `minutes`
        minutes from `now` with no votes, is stored under its name and returned. */
    method AddPoll(body: map<string, Value>, now: int) returns (r: Result<Poll, RouteError>)
      requires Valid()
      modifies this
      ensures Valid()
      ensures r.Failure? ==> polls == old(polls)
      ensures var name, minutes, options := Member(body, "name"), Member(body, "minutes"), Member(body, "options");
        && (!name.Str? ==> r == Failure(MissingName))
        && (name.Str? && !minutes.Number? ==> r == Failure(MinutesNotNumber(minutes)))
        && (name.Str? && minutes.Number? && !IsPositiveInteger(minutes.n) ==>
              r == Failure(MinutesNotPositiveInteger(minutes.n)))
        && (name.Str? && minutes.Number? && IsPositiveInteger(minutes.n) && !options.Array? ==>
              r == Failure(OptionsNotArray(options)))
        && (WellFormedAdd(body) && name.s in old(polls) ==> r == Failure(AlreadyExists(name.s)))
        && (r.Success? <==> WellFormedAdd(body) && name.s !in old(polls))
        && (r.Success? ==>
              && r.value == Poll(name.s, now + minutes.n.Floor * MinuteMs, options.items, map[])
              && polls == old(polls)[name.s := r.value])
    {
      var name := Member(body, "name");
      if !name.Str? {
        return Failure(MissingName);
      }
      var minutes := Member(body, "minutes");
      if !minutes.Number? {
        return Failure(MinutesNotNumber(minutes));
      } else if minutes.n < 1.0 || minutes.n.Floor as real != minutes.n {
        return Failure(MinutesNotPositiveInteger(minutes.n));
      }
      var options := Member(body, "options");
      if !options.Array? {
        return Failure(OptionsNotArray(options));
      }
      if name.s in polls {
        return Failure(AlreadyExists(name.s));
      }
      var poll := Poll(name.s, now + minutes.n.Floor * MinuteMs, options.items, map[]);
      polls := polls[poll.name := poll];
      return Success(poll);
    }

    /** voteInPoll: the checks run in order (voter, name, the poll exists, it has
        not ended, the vote is a string), so an ended poll reports that it ended
        whatever the vote. A vote that passes them replaces the voter's earlier
        vote and changes nothing else; any string is accepted. */
    method VoteInPoll(body: map<string, Value>, now: int) returns (r: Result<Poll, RouteError>)
      requires Valid()
      modifies this
      ensures Valid()
      ensures r.Failure? ==> polls == old(polls)
      ensures var voter, name, vote := Member(body, "voter"), Member(body, "name"), Member(body, "vote");
        && (!voter.Str? ==> r == Failure(InvalidVoter))
        && (voter.Str? && !name.Str? ==> r == Failure(InvalidName))
        && (voter.Str? && name.Str? && name.s !in old(polls) ==> r == Failure(NoSuchPoll(name.s)))
        && (voter.Str? && name.Str? && name.s in old(polls) && !AcceptsVotes(old(polls)[name.s], now) ==>
              r == Failure(AlreadyEnded(name.s)))
        && (voter.Str? && name.Str? && name.s in old(polls) && AcceptsVotes(old(polls)[name.s], now) && !vote.Str? ==>
              r == Failure(VoteNotString(vote)))
        && (r.Success? <==>
              voter.Str? && name.Str? && vote.Str? && name.s in old(polls) && AcceptsVotes(old(polls)[name.s], now))
        && (r.Success? ==>
              var before := old(polls)[name.s];
              && r.value == before.(votes := before.votes[voter.s := vote.s])
              && polls == old(polls)[name.s := r.value])
    {
      var voter := Member(body, "voter");
      if !voter.Str? {
        return Failure(InvalidVoter);
      }
      var name := Member(body, "name");
      if !name.Str? {
        return Failure(InvalidName);
      }
      if name.s !in polls {
        return Failure(NoSuchPoll(name.s));
      }
      var poll := polls[name.s];
      if now >= poll.endTime {
        return Failure(AlreadyEnded(poll.name));
      }
      var vote := Member(body, "vote");
      if !vote.Str? {
        return Failure(VoteNotString(vote));
      }
      poll := poll.(votes := poll.votes[voter.s := vote.s]);
      polls := polls[name.s := poll];
      return Success(poll);
    }

    /** getPoll: the stored poll of that name, or why there is none. */
    method GetPoll(body: map<string, Value>) returns (r: Result<Poll, RouteError>)
      requires Valid()
      ensures var name := Member(body, "name");
        && (!name.Str? ==> r == Failure(InvalidName))
        && (name.Str? && name.s !in polls ==> r == Failure(NoSuchPoll(name.s)))
        && (r.Success? <==> name.Str? && name.s in polls)
        && (r.Success? ==> r.value == polls[name.s] && r.value.name == name.s)
    {
      var name := Member(body, "name");
      if !name.Str? {
        return Failure(InvalidName);
      }
      if name.s !in polls {
        return Failure(NoSuchPoll(name.s));
      }
      return Success(polls[name.s]);
    }
  }

  /** The body passes every check of addPoll that does not depend on the store. */
  predicate WellFormedAdd(body: map<string, Value>)
  {
    && Member(body, "name").Str?
    && Member(body, "minutes").Number? && IsPositiveInteger(Member(body, "minutes").n)
    && Member(body, "options").Array?
  }

  /** Creating a poll, then fetching it and listing the store, shows the same record in all three
      answers until someone votes. */
  method CreateGetList(store: PollStore, name: string, minutes: nat, options: seq<Value>, now: int)
    returns (created: Result<Poll, RouteError>, fetched: Result<Poll, RouteError>, listed: seq<Poll>)
    requires store.Valid() && 1 <= minutes
    modifies store
    ensures store.Valid()
    ensures name !in old(store.polls) <==> created.Success?
    ensures created.Success? ==>
      && created.value == Poll(name, now + minutes * MinuteMs, options, map[])
      && fetched == created
      && created.value in listed
      && |listed| == |old(store.polls)| + 1
  {
    var body := map["name" := Str(name), "minutes" := Number(minutes as real), "options" := Array(options)];
    assert WellFormedAdd(body);
    created := store.AddPoll(body, now);
    fetched := store.GetPoll(map["name" := Str(name)]);
    listed := store.ListPolls(now);
    if created.Success? {
      assert created.value in store.polls.Values;
      assert created.value in multiset(listed);
      assert store.polls.Keys == old(store.polls).Keys + {name};
      assert |store.polls| == |old(store.polls)| + 1;
      assert |store.polls.Values| == |store.polls| by {
        ValuesOfNamedPolls(store.polls);
      }
    }
  }

  /** When every poll is stored under its own name, there are as many stored polls as names. */
  lemma {:induction false} ValuesOfNamedPolls(m: map<string, Poll>)
    requires forall k :: k in m ==> m[k].name == k
    ensures |m.Values| == |m|
  {
    if m != map[] {
      var k :| k in m;
      var rest := m - {k};
      ValuesOfNamedPolls(rest);
      assert m.Values == rest.Values + {m[k]} by {
        forall v | v in m.Values ensures v in rest.Values + {m[k]} {
          var k' :| k' in m && m[k'] == v;
          if k' != k { assert k' in rest; }
        }
      }
      assert m[k] !in rest.Values;
      assert m.Keys == rest.Keys + {k};
    }
  }
}
