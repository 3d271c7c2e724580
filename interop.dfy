/**
 * How the server's answers look to the client: the JSON the routes send, what
 * the client's parsers make of it, and where the two sides count the end of a
 * poll differently.
 */
module Interop {
  import opened Wrappers
  import opened Json
  import Routes
  import ClientPoll
  import PollList
  import PollDetails
  import NewPoll

  /** The client's view of a stored poll: the same four fields, the end time as a JS number. */
  function AsClient(p: Routes.Poll): ClientPoll.Poll
  {
    ClientPoll.Poll(p.name, p.endTime as real, p.options, p.votes)
  }

  /** The JSON of a stored poll, as the routes send it inside `{poll: …}` and `{polls: […]}`. */
  function PollJson(p: Routes.Poll): Value
  {
    ClientPoll.ToJson(AsClient(p))
  }

  /** The body listPolls sends: `{polls: [...]}` in the listed order. */
  function ListResponse(ps: seq<Routes.Poll>): Value
  {
    Object(map["polls" := Array(seq(|ps|, k requires 0 <= k < |ps| => PollJson(ps[k])))])
  }

  /** The stored polls that parsePoll accepts: the server checks neither bound. */
  predicate Loadable(p: Routes.Poll)
  {
    0 <= p.endTime && |p.options| >= 2
  }

  /** A stored poll reaches the client unchanged exactly when its end time is not negative and it
      has two options or more; otherwise parsePoll rejects it. */
  lemma PollJsonParses(p: Routes.Poll)
    ensures ClientPoll.ParsePoll(PollJson(p)) == if Loadable(p) then Some(AsClient(p)) else None
  {
    ClientPoll.ParseToJson(AsClient(p));
  }

  /** The list of the store loads on the client exactly when every listed poll is loadable; one
      single-option poll, which addPoll accepts, keeps the whole list from loading. */
  lemma ListParses(ps: seq<Routes.Poll>)
    ensures var parsed := PollList.ParseAll(ListResponse(ps).fields["polls"].items);
      && (parsed.Some? <==> forall k :: 0 <= k < |ps| ==> Loadable(ps[k]))
      && (parsed.Some? ==> parsed.value == seq(|ps|, k requires 0 <= k < |ps| => AsClient(ps[k])))
  {
    var items := ListResponse(ps).fields["polls"].items;
    forall k | 0 <= k < |ps|
      ensures ClientPoll.ParsePoll(items[k]) == if Loadable(ps[k]) then Some(AsClient(ps[k])) else None
    {
      PollJsonParses(ps[k]);
    }
    var parsed := PollList.ParseAll(items);
    if parsed.Some? {
      assert parsed.value == seq(|ps|, k requires 0 <= k < |ps| => AsClient(ps[k]));
    }
  }

  /** doListJson fed with what listPolls sends: the client shows every listed poll, in the
      server's order, or keeps its old state when one of them does not parse. */
  method LoadServerList(s: PollList.ListState, ps: seq<Routes.Poll>, now: int) returns (t: PollList.ListState)
    ensures (forall k :: 0 <= k < |ps| ==> Loadable(ps[k])) ==>
      t == PollList.ListState(now, Some(seq(|ps|, k requires 0 <= k < |ps| => AsClient(ps[k]))))
    ensures (exists k :: 0 <= k < |ps| && !Loadable(ps[k])) ==> t == s
  {
    ListParses(ps);
    t := PollList.DoListJson(s, ListResponse(ps), now);
  }

  /** The client's two views of a loaded poll agree: the details page shows it as ongoing exactly
      when the list does, and both agree with the server's vote window. */
  lemma ClientViewsAgree(p: Routes.Poll, now: int, voter: string, vote: string, error: string)
    ensures var view := PollDetails.Render(PollDetails.DetailsState(now, Some(AsClient(p)), voter, vote, error));
      && view != PollDetails.Loading
      && (view == PollDetails.Ongoing <==> PollList.ListedOngoing(AsClient(p), now))
      && (view == PollDetails.Ongoing <==> Routes.AcceptsVotes(p, now))
  {
  }

  /** The comparator alone counts a poll as ongoing at its end instant: there the server refuses
      votes and the client shows the poll as completed, yet listPolls ranks it among the ongoing. */
  lemma EndInstant(p: Routes.Poll, now: int)
    ensures Routes.RankedOngoing(p, now) <==> Routes.AcceptsVotes(p, now) || now == p.endTime
    ensures now == p.endTime ==>
      && Routes.RankedOngoing(p, now)
      && !Routes.AcceptsVotes(p, now)
      && !PollList.ListedOngoing(AsClient(p), now)
      && PollDetails.Render(PollDetails.DetailsState(now, Some(AsClient(p)), "", "", "")) == PollDetails.Completed
  {
  }

  /** The body doStartClick sends to /api/add, after JSON. */
  function AddBody(a: NewPoll.AddArgs): map<string, Value>
  {
    map[
      "name" := Str(a.name),
      "minutes" := Number(a.minutes),
      "options" := Array(seq(|a.options|, i requires 0 <= i < |a.options| => Str(a.options[i])))]
  }

  /** The poll addPoll builds from a body it accepts. */
  function CreatedPoll(body: map<string, Value>, now: int): Routes.Poll
    requires Routes.WellFormedAdd(body)
  {
    var minutes := Member(body, "minutes").n;
    Routes.Poll(Member(body, "name").s, now + minutes.Floor * Routes.MinuteMs, Member(body, "options").items, map[])
  }

  /** What the form sends passes every check of addPoll that does not depend on the store, and the
      poll made from it at a non-negative time loads on the client with its lines as options. */
  lemma FormPollLoads(s: NewPoll.NewPollState, parsedMinutes: Option<real>, now: int)
    requires NewPoll.StartClick(s, parsedMinutes).Success?
    requires 0 <= now
    ensures var body := AddBody(NewPoll.StartClick(s, parsedMinutes).value);
      && Routes.WellFormedAdd(body)
      && Loadable(CreatedPoll(body, now))
      && ClientPoll.ParsePoll(PollJson(CreatedPoll(body, now))).Some?
  {
    SentArgs(s, parsedMinutes);
    AddBodyLoads(NewPoll.StartClick(s, parsedMinutes).value, now);
  }

  /** A body with whole minutes, at least one, and two options or more passes addPoll's
      store-independent checks, and the poll made from it at a non-negative time loads. */
  lemma AddBodyLoads(args: NewPoll.AddArgs, now: int)
    requires Routes.IsPositiveInteger(args.minutes) && |args.options| >= 2 && 0 <= now
    ensures var body := AddBody(args);
      && Routes.WellFormedAdd(body)
      && Loadable(CreatedPoll(body, now))
      && ClientPoll.ParsePoll(PollJson(CreatedPoll(body, now))).Some?
  {
    var body := AddBody(args);
    assert Member(body, "minutes") == Number(args.minutes);
    assert |Member(body, "options").items| == |args.options|;
    var p := CreatedPoll(body, now);
    assert 1 <= args.minutes.Floor;
    PollJsonParses(p);
  }

  /** What a successful doStartClick sends: whole minutes, at least one, and two lines or more. */
  lemma SentArgs(s: NewPoll.NewPollState, parsedMinutes: Option<real>)
    requires NewPoll.StartClick(s, parsedMinutes).Success?
    ensures var args := NewPoll.StartClick(s, parsedMinutes).value;
      Routes.IsPositiveInteger(args.minutes) && |args.options| >= 2
  {
  }

  /** The body doVoteClick sends to /api/vote, after JSON. */
  function VoteBody(a: PollDetails.VoteArgs): map<string, Value>
  {
    map["name" := Str(a.name), "voter" := Str(a.voter), "vote" := Str(a.vote)]
  }

  /** A vote the client lets through passes every type check of voteInPoll, and it is one of the
      options, which only the client checks. */
  lemma VoteBodyChecked(name: string, s: PollDetails.DetailsState)
    requires s.poll.Some?
    requires PollDetails.VoteClick(name, s).Success?
    ensures var body := VoteBody(PollDetails.VoteClick(name, s).value);
      && Member(body, "voter") == Str(s.voter)
      && Member(body, "name") == Str(name)
      && Member(body, "vote") in s.poll.value.options
  {
  }
}
